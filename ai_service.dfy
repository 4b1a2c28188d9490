/** Prompt construction for the chat model and the two generation calls.
    The chat endpoint, JSON serialization and JSON parsing are oracles. */
module AiService {
  import opened Wrappers
  import opened JsonValues
  import opened Text
  import opened Models

  /** A chat completion: the message content for a prompt, or an error. */
  type ChatOracle = string -> Result<string>

  // ---------------------------------------------------------------------------
  // Chapter prompt
  // ---------------------------------------------------------------------------

  const ChapterInstruction: string := "Write a detailed chapter based on the following outline:"
  /** The blank line and indentation the triple-quoted prompts carry between parts. */
  const Gap: string := "\n        \n        "
  const LineBreak: string := "\n        "
  const ChapterPromptTail: string :=
    "\n        \n        Write a comprehensive chapter that covers all key points while maintaining\n        an engaging narrative flow.\n        "

  /** The key the prompt's f-string reads first among those the chapter lacks. */
  function FirstMissingKey(ch: Chapter): string {
    if ch.title.None? then "title" else if ch.summary.None? then "summary" else "key_points"
  }

  function TitleLine(title: string): string { "Title: " + title }
  function SummaryLine(summary: string): string { "Summary: " + summary }
  function KeyPointsLine(points: seq<string>): string { "Key Points: " + Join(", ", points) }

  /** `_create_chapter_prompt(chapter)`: the title, the summary and the key points
      joined with ", ", each on its own labelled line between a fixed instruction
      and a fixed closing request. A missing key raises KeyError. */
  function ChapterPrompt(ch: Chapter): (r: Result<string>)
    ensures r.Success? <==> ch.title.Some? && ch.summary.Some? && ch.keyPoints.Some?
    ensures r.Failure? ==> r.error == KeyError(FirstMissingKey(ch))
    ensures r.Success? ==> StartsWith(r.value, ChapterInstruction)
    ensures r.Success? ==> Contains(r.value, TitleLine(ch.title.value))
    ensures r.Success? ==> Contains(r.value, SummaryLine(ch.summary.value))
    ensures r.Success? ==> Contains(r.value, KeyPointsLine(ch.keyPoints.value))
  {
    if ch.title.None? || ch.summary.None? || ch.keyPoints.None? then
      Failure(KeyError(FirstMissingKey(ch)))
    else
      var t := TitleLine(ch.title.value);
      var s := SummaryLine(ch.summary.value);
      var k := KeyPointsLine(ch.keyPoints.value);
      PromptLayout(ChapterInstruction, Gap, t, LineBreak, s, k, ChapterPromptTail);
      Success(ChapterInstruction + Gap + t + LineBreak + s + LineBreak + k + ChapterPromptTail)
  }

  /** Where the parts of a prompt built as `instr + gap + t + nl + s + nl + k + tail` start. */
  lemma PromptLayout(instr: string, gap: string, t: string, nl: string, s: string, k: string, tail: string)
    ensures var p := instr + gap + t + nl + s + nl + k + tail;
      && StartsWith(p, instr)
      && OccursAt(p, t, |instr| + |gap|)
      && OccursAt(p, s, |instr| + |gap| + |t| + |nl|)
      && OccursAt(p, k, |instr| + |gap| + |t| + |nl| + |s| + |nl|)
  {
    ConcatStartsWith(instr, gap + t + nl + s + nl + k + tail);
    ConcatOccurs(instr + gap, t, nl + s + nl + k + tail);
    ConcatOccurs(instr + gap + t + nl, s, nl + k + tail);
    ConcatOccurs(instr + gap + t + nl + s + nl, k, tail);
  }

  /** Two distinct key points appear in the prompt in their list order. */
  lemma ChapterPromptKeepsKeyPointOrder(ch: Chapter, i: nat, j: nat)
    requires ch.title.Some? && ch.summary.Some? && ch.keyPoints.Some?
    requires i < j < |ch.keyPoints.value|
    ensures exists pi, pj ::
      && pi < pj
      && OccursAt(ChapterPrompt(ch).value, ch.keyPoints.value[i], pi)
      && OccursAt(ChapterPrompt(ch).value, ch.keyPoints.value[j], pj)
  {
    KeyPointsInOrder(ChapterPrompt(ch).value, ch.keyPoints.value, i, j);
  }

  /** A text holding the key-points line holds its points in list order. */
  lemma KeyPointsInOrder(p: string, points: seq<string>, i: nat, j: nat)
    requires Contains(p, KeyPointsLine(points))
    requires i < j < |points|
    ensures exists pi, pj :: pi < pj && OccursAt(p, points[i], pi) && OccursAt(p, points[j], pj)
  {
    var line := KeyPointsLine(points);
    var q :| OccursAt(p, line, q);
    var joined := Join(", ", points);
    JoinItemAt(", ", points, i);
    JoinItemAt(", ", points, j);
    JoinOffsetIncreasing(", ", points, i, j);
    var oi := JoinOffset(", ", points, i);
    var oj := JoinOffset(", ", points, j);
    OccursAtShift("Key Points: ", joined, points[i], oi);
    OccursAtShift("Key Points: ", joined, points[j], oj);
    OccursWithin(p, line, q, points[i], 12 + oi);
    OccursWithin(p, line, q, points[j], 12 + oj);
  }

  /** An occurrence inside an occurrence is an occurrence in the whole text. */
  lemma OccursWithin(hay: string, mid: string, q: int, needle: string, k: int)
    requires OccursAt(hay, mid, q) && OccursAt(mid, needle, k)
    ensures OccursAt(hay, needle, q + k)
  {
    forall m | 0 <= m < |needle|
      ensures hay[q + k + m] == needle[m]
    {
      assert hay[q..q + |mid|][k + m] == mid[k + m];
      assert mid[k..k + |needle|][m] == needle[m];
    }
    assert hay[q + k..q + k + |needle|] == needle;
  }

  /** `generate_chapter_content(chapter)`: a chapter lacking a key fails before the
      chat model is called; otherwise the model's reply is returned unchanged. */
  function GenerateChapterContent(ch: Chapter, chat: ChatOracle): (r: Result<string>)
    ensures ChapterPrompt(ch).Failure? ==> r == Failure(KeyError(FirstMissingKey(ch)))
    ensures ChapterPrompt(ch).Success? ==> r == chat(ChapterPrompt(ch).value)
  {
    var prompt :- ChapterPrompt(ch);
    chat(prompt)
  }

  // ---------------------------------------------------------------------------
  // Outline prompt
  // ---------------------------------------------------------------------------

  const OutlineInstruction: string := "Based on the following questionnaire responses, create a detailed book outline:"
  /** The lines of the outline prompt after the serialized responses, with the
      f-string's doubled braces rendered as single ones. */
  const OutlinePromptLines: seq<string> := [
    "        ",
    "        Create a JSON response with the following structure:",
    "        {",
    "            \"title\": \"Book Title\",",
    "            \"chapters\": [",
    "                {",
    "                    \"number\": 1,",
    "                    \"title\": \"Chapter Title\",",
    "                    \"summary\": \"Brief chapter summary\",",
    "                    \"key_points\": [\"point 1\", \"point 2\"]",
    "                }",
    "            ]",
    "        }",
    "        "
  ]

  /** The rest of the prompt's line holding the responses, then the lines above. */
  function OutlinePromptTail(): string {
    "\n" + Join("\n", OutlinePromptLines)
  }

  /** `_create_outline_prompt(responses)`, given the indented JSON text of the responses:
      a fixed instruction, the responses verbatim, then the requested JSON shape. */
  function OutlinePrompt(serialized: string): (p: string)
    ensures StartsWith(p, OutlineInstruction)
    ensures OccursAt(p, serialized, |OutlineInstruction| + |Gap|)
    ensures EndsWith(p, OutlinePromptTail())
  {
    FramedLayout(OutlineInstruction, Gap, serialized, OutlinePromptTail());
    OutlineInstruction + Gap + serialized + OutlinePromptTail()
  }

  /** Where the parts of a text built as `instr + gap + body + tail` lie. */
  lemma FramedLayout(instr: string, gap: string, body: string, tail: string)
    ensures var p := instr + gap + body + tail;
      && StartsWith(p, instr)
      && OccursAt(p, body, |instr| + |gap|)
      && EndsWith(p, tail)
  {
    var p := instr + gap + body + tail;
    assert p == instr + (gap + body + tail);
    ConcatStartsWith(instr, gap + body + tail);
    ConcatOccurs(instr + gap, body, tail);
    ConcatEndsWith(instr + gap + body, tail);
  }

  /** `generate_outline(responses)`: the chat model's reply to the outline prompt is
      parsed and whatever the parse yields is returned, with no check of its shape;
      an error of the chat call or of the parse is re-raised. */
  function GenerateOutline(
    responses: Json,
    dumps: Json -> string,
    chat: ChatOracle,
    parse: string -> Result<OutlineDoc>): (r: Result<OutlineDoc>)
    ensures chat(OutlinePrompt(dumps(responses))).Failure? ==> r == Failure(chat(OutlinePrompt(dumps(responses))).error)
    ensures chat(OutlinePrompt(dumps(responses))).Success? ==> r == parse(chat(OutlinePrompt(dumps(responses))).value)
  {
    var reply :- chat(OutlinePrompt(dumps(responses)));
    parse(reply)
  }
}
