/** Audiobook generation from an outline: a 'generating' row is committed first,
    then every chapter is written by the chat model and spoken into its own file,
    and only after the last chapter are the file map and the 'completed' status
    stored. */
module Audiobooks {
  import opened Wrappers
  import opened Text
  import opened Models
  import opened AiService
  import opened AudioService

  /** One pass of the chapter loop: the chapter text, then its number, then its
      audio file. The result is the map entry `str(number) -> file name`. */
  function ProcessChapter(ch: Chapter, chat: ChatOracle, speech: SpeechOracle): (r: Result<(string, string)>)
    ensures GenerateChapterContent(ch, chat).Failure? ==> r == Failure(GenerateChapterContent(ch, chat).error)
    ensures GenerateChapterContent(ch, chat).Success? && ch.number.None? ==> r == Failure(KeyError("number"))
    ensures GenerateChapterContent(ch, chat).Success? && ch.number.Some? ==>
      r.Success? == GenerateChapterAudio(GenerateChapterContent(ch, chat).value, ch.number.value, speech).Success?
    ensures
      && GenerateChapterContent(ch, chat).Success?
      && ch.number.Some?
      && GenerateChapterAudio(GenerateChapterContent(ch, chat).value, ch.number.value, speech).Failure?
      ==> r == Failure(GenerateChapterAudio(GenerateChapterContent(ch, chat).value, ch.number.value, speech).error)
    ensures r.Success? ==>
      && ch.number.Some?
      && r.value == (IntToString(ch.number.value), "chapter_" + IntToString(ch.number.value) + ".mp3")
  {
    var content :- GenerateChapterContent(ch, chat);
    if ch.number.None? then
      Failure(KeyError("number"))
    else
      var file :- GenerateChapterAudio(content, ch.number.value, speech);
      Success((IntToString(ch.number.value), file))
  }

  /** What the loop body yields for each chapter, in outline order. */
  function Outcomes(chapters: seq<Chapter>, chat: ChatOracle, speech: SpeechOracle): (o: seq<Result<(string, string)>>)
    ensures |o| == |chapters|
    ensures forall i :: 0 <= i < |chapters| ==> o[i] == ProcessChapter(chapters[i], chat, speech)
  {
    seq(|chapters|, i requires 0 <= i < |chapters| => ProcessChapter(chapters[i], chat, speech))
  }

  /** The index of the first failing outcome, or `|outcomes|` when none fails. */
  function FirstFailure<E>(outcomes: seq<Result<E>>): (n: nat)
    ensures n <= |outcomes|
    ensures forall i :: 0 <= i < n ==> outcomes[i].Success?
    ensures n < |outcomes| ==> outcomes[n].Failure?
  {
    if |outcomes| == 0 then 0
    else
      var n := FirstFailure(outcomes[..|outcomes| - 1]);
      if n < |outcomes| - 1 then n
      else if outcomes[|outcomes| - 1].Failure? then |outcomes| - 1
      else |outcomes|
  }

  /** The dictionary the loop fills, `files[key] = name` for each outcome in turn,
      or the error of the first outcome that fails. A later entry with the same
      key replaces an earlier one. */
  function FileMap(outcomes: seq<Result<(string, string)>>): (r: Result<map<string, string>>)
    ensures r.Success? <==> FirstFailure(outcomes) == |outcomes|
    ensures r.Failure? ==> r.error == outcomes[FirstFailure(outcomes)].error
  {
    if |outcomes| == 0 then
      Success(map[])
    else
      var last := |outcomes| - 1;
      var files :- FileMap(outcomes[..last]);
      var entry :- outcomes[last];
      Success(files[entry.0 := entry.1])
  }

  /** The map after the last outcome: the prefix's map with the last entry written in. */
  lemma FileMapLast(outcomes: seq<Result<(string, string)>>)
    requires |outcomes| > 0 && FileMap(outcomes).Success?
    ensures FileMap(outcomes[..|outcomes| - 1]).Success?
    ensures forall k :: 0 <= k < |outcomes| - 1 ==> outcomes[..|outcomes| - 1][k] == outcomes[k]
    ensures FileMap(outcomes).value ==
      FileMap(outcomes[..|outcomes| - 1]).value[outcomes[|outcomes| - 1].value.0 := outcomes[|outcomes| - 1].value.1]
  {
  }

  /** Every outcome's key is in the finished map. */
  lemma {:induction false} FileMapHasEveryKey(outcomes: seq<Result<(string, string)>>)
    requires FileMap(outcomes).Success?
    ensures forall i :: 0 <= i < |outcomes| ==> outcomes[i].value.0 in FileMap(outcomes).value
  {
    if |outcomes| > 0 {
      FileMapLast(outcomes);
      FileMapHasEveryKey(outcomes[..|outcomes| - 1]);
    }
  }

  /** Every entry of the finished map was written by some outcome, and there are
      no more entries than outcomes. */
  lemma {:induction false} FileMapEntriesFromOutcomes(outcomes: seq<Result<(string, string)>>)
    requires FileMap(outcomes).Success?
    ensures forall key :: key in FileMap(outcomes).value ==>
      exists i :: 0 <= i < |outcomes| && outcomes[i].value == (key, FileMap(outcomes).value[key])
    ensures |FileMap(outcomes).value| <= |outcomes|
  {
    if |outcomes| > 0 {
      var last := |outcomes| - 1;
      var prefix := outcomes[..last];
      FileMapLast(outcomes);
      FileMapEntriesFromOutcomes(prefix);
      var files := FileMap(prefix).value;
      var entry := outcomes[last].value;
      forall key | key in FileMap(outcomes).value
        ensures exists i :: 0 <= i < |outcomes| && outcomes[i].value == (key, FileMap(outcomes).value[key])
      {
        if key != entry.0 {
          var i :| 0 <= i < |prefix| && prefix[i].value == (key, files[key]);
          assert outcomes[i] == prefix[i];
        } else {
          assert outcomes[last].value == (key, FileMap(outcomes).value[key]);
        }
      }
    }
  }

  /** With pairwise different keys every outcome keeps its own entry. */
  lemma {:induction false} DistinctKeysFillMap(outcomes: seq<Result<(string, string)>>)
    requires FileMap(outcomes).Success?
    requires forall i, j :: 0 <= i < j < |outcomes| ==> outcomes[i].value.0 != outcomes[j].value.0
    ensures |FileMap(outcomes).value| == |outcomes|
  {
    if |outcomes| > 0 {
      var last := |outcomes| - 1;
      var prefix := outcomes[..last];
      FileMapLast(outcomes);
      DistinctKeysFillMap(prefix);
      KeyNotInPrefixMap(outcomes);
    }
  }

  /** A key no earlier outcome has is not yet in the prefix's map. */
  lemma KeyNotInPrefixMap(outcomes: seq<Result<(string, string)>>)
    requires |outcomes| > 0 && FileMap(outcomes).Success?
    requires forall i :: 0 <= i < |outcomes| - 1 ==> outcomes[i].value.0 != outcomes[|outcomes| - 1].value.0
    ensures outcomes[|outcomes| - 1].value.0 !in FileMap(outcomes[..|outcomes| - 1]).value
  {
    var prefix := outcomes[..|outcomes| - 1];
    FileMapLast(outcomes);
    FileMapEntriesFromOutcomes(prefix);
  }

  /** A repeated key leaves fewer entries than outcomes. */
  lemma {:induction false} RepeatedKeyShrinksMap(outcomes: seq<Result<(string, string)>>, i: nat, j: nat)
    requires FileMap(outcomes).Success?
    requires i < j < |outcomes| && outcomes[i].value.0 == outcomes[j].value.0
    ensures |FileMap(outcomes).value| < |outcomes|
  {
    var last := |outcomes| - 1;
    var prefix := outcomes[..last];
    FileMapLast(outcomes);
    if j == last {
      FileMapHasEveryKey(prefix);
      FileMapEntriesFromOutcomes(prefix);
      assert prefix[i] == outcomes[i];
    } else {
      RepeatedKeyShrinksMap(prefix, i, j);
    }
  }

  /** The chapter files of an outline: `FileMap` over the chapters' outcomes. When
      it is not built, the error is the first failing chapter's. */
  function ChapterFiles(chapters: seq<Chapter>, chat: ChatOracle, speech: SpeechOracle): (r: Result<map<string, string>>)
    ensures r.Failure? ==>
      var k := FirstFailure(Outcomes(chapters, chat, speech));
      && k < |chapters|
      && (forall i :: 0 <= i < k ==> ProcessChapter(chapters[i], chat, speech).Success?)
      && r.error == ProcessChapter(chapters[k], chat, speech).error
  {
    FileMap(Outcomes(chapters, chat, speech))
  }

  /** The generation succeeds exactly when every chapter gets through. */
  lemma ChapterFilesSucceed(chapters: seq<Chapter>, chat: ChatOracle, speech: SpeechOracle)
    ensures ChapterFiles(chapters, chat, speech).Success? <==>
      forall i :: 0 <= i < |chapters| ==> ProcessChapter(chapters[i], chat, speech).Success?
  {
    var outcomes := Outcomes(chapters, chat, speech);
    if FileMap(outcomes).Failure? {
      assert !ProcessChapter(chapters[FirstFailure(outcomes)], chat, speech).Success?;
    }
  }

  /** In the stored map every chapter's number appears as text, every key is such a
      number, and every key names the file `chapter_<key>.mp3`. */
  lemma ChapterFilesByNumber(chapters: seq<Chapter>, chat: ChatOracle, speech: SpeechOracle)
    requires ChapterFiles(chapters, chat, speech).Success?
    ensures var files := ChapterFiles(chapters, chat, speech).value;
      && (forall i :: 0 <= i < |chapters| ==> chapters[i].number.Some? && IntToString(chapters[i].number.value) in files)
      && (forall key :: key in files ==> files[key] == "chapter_" + key + ".mp3")
      && (forall key :: key in files ==>
            exists i :: 0 <= i < |chapters| && chapters[i].number.Some? && key == IntToString(chapters[i].number.value))
  {
    var outcomes := Outcomes(chapters, chat, speech);
    FileMapHasEveryKey(outcomes);
    forall key | key in FileMap(outcomes).value
      ensures FileMap(outcomes).value[key] == "chapter_" + key + ".mp3"
      ensures exists i :: 0 <= i < |chapters| && chapters[i].number.Some? && key == IntToString(chapters[i].number.value)
    {
      ChapterEntry(chapters, chat, speech, key);
    }
  }

  /** One entry of the stored map comes from a chapter with that number. */
  lemma ChapterEntry(chapters: seq<Chapter>, chat: ChatOracle, speech: SpeechOracle, key: string)
    requires ChapterFiles(chapters, chat, speech).Success?
    requires key in ChapterFiles(chapters, chat, speech).value
    ensures ChapterFiles(chapters, chat, speech).value[key] == "chapter_" + key + ".mp3"
    ensures exists i :: 0 <= i < |chapters| && chapters[i].number.Some? && key == IntToString(chapters[i].number.value)
  {
    var outcomes := Outcomes(chapters, chat, speech);
    var files := FileMap(outcomes).value;
    FileMapEntriesFromOutcomes(outcomes);
    var i :| 0 <= i < |outcomes| && outcomes[i].value == (key, files[key]);
    ProcessedEntry(chapters[i], chat, speech);
  }

  /** A chapter that gets through yields the entry `str(number) -> chapter_<number>.mp3`. */
  lemma ProcessedEntry(ch: Chapter, chat: ChatOracle, speech: SpeechOracle)
    requires ProcessChapter(ch, chat, speech).Success?
    ensures var entry := ProcessChapter(ch, chat, speech).value;
      && ch.number.Some?
      && entry.0 == IntToString(ch.number.value)
      && entry.1 == "chapter_" + entry.0 + ".mp3"
  {
  }

  /** An outline whose chapter numbers are pairwise different yields one file per chapter. */
  lemma DistinctNumbersOneFileEach(chapters: seq<Chapter>, chat: ChatOracle, speech: SpeechOracle)
    requires ChapterFiles(chapters, chat, speech).Success?
    requires forall i, j :: 0 <= i < j < |chapters| ==> chapters[i].number != chapters[j].number
    ensures |ChapterFiles(chapters, chat, speech).value| == |chapters|
  {
    var outcomes := Outcomes(chapters, chat, speech);
    forall i, j | 0 <= i < j < |outcomes|
      ensures outcomes[i].value.0 != outcomes[j].value.0
    {
      IntToStringInjective(chapters[i].number.value, chapters[j].number.value);
    }
    DistinctKeysFillMap(outcomes);
  }

  /** Two chapters with the same number share one file: the map is smaller than the outline. */
  lemma RepeatedNumberSharesFile(chapters: seq<Chapter>, chat: ChatOracle, speech: SpeechOracle, i: nat, j: nat)
    requires ChapterFiles(chapters, chat, speech).Success?
    requires i < j < |chapters| && chapters[i].number == chapters[j].number
    ensures |ChapterFiles(chapters, chat, speech).value| < |chapters|
  {
    var outcomes := Outcomes(chapters, chat, speech);
    assert outcomes[i].Success? && outcomes[j].Success?;
    RepeatedKeyShrinksMap(outcomes, i, j);
  }

  /** The steps `generate_audiobook` takes against the database and the services. */
  datatype Step =
    | Commit(files: map<string, string>, status: AudiobookStatus)
    | Process(index: nat)
    | Rollback

  /** The steps of the chapter loop for the first `n` chapters. */
  function ProcessSteps(n: nat): (steps: seq<Step>)
    ensures |steps| == n
    ensures forall i :: 0 <= i < n ==> steps[i] == Process(i)
  {
    seq(n, i requires 0 <= i => Process(i))
  }

  /** `generate_audiobook(outline_id)`. The new row is committed with an empty file
      map and status 'generating' before any chapter is processed. Only when every
      chapter gets through is the file map stored with status 'completed'; after a
      failure the session is rolled back, which leaves the committed 'generating'
      row with its empty map. The total duration is never assigned. */
  method GenerateAudiobook(id: string, outline: BookOutline, chat: ChatOracle, speech: SpeechOracle)
    returns (book: Audiobook, ok: bool, ghost trace: seq<Step>)
    ensures fresh(book)
    ensures book.id == id && book.outlineId == outline.id
    ensures book.totalDuration == None
    ensures ok <==> outline.chapters.chapters.Some? && ChapterFiles(outline.chapters.chapters.value, chat, speech).Success?
    ensures ok ==> book.chapterFiles == ChapterFiles(outline.chapters.chapters.value, chat, speech).value && book.status == Completed
    ensures !ok ==> book.chapterFiles == map[] && book.status == Generating
    ensures |trace| >= 2 && trace[0] == Commit(map[], Generating)
    ensures ok ==>
      trace == [Commit(map[], Generating)] + ProcessSteps(|outline.chapters.chapters.value|) + [Commit(book.chapterFiles, Completed)]
    ensures !ok && outline.chapters.chapters.None? ==> trace == [Commit(map[], Generating), Rollback]
    ensures !ok && outline.chapters.chapters.Some? ==>
      var failed := FirstFailure(Outcomes(outline.chapters.chapters.value, chat, speech));
      trace == [Commit(map[], Generating)] + ProcessSteps(failed + 1) + [Rollback]
  {
    book := new Audiobook(id, outline.id, map[]);
    trace := [Commit(map[], Generating)];
    if outline.chapters.chapters.None? {
      ok := false;
      trace := trace + [Rollback];
      return;
    }
    var files;
    ghost var attempted;
    files, ok, attempted := RunChapters(outline.chapters.chapters.value, chat, speech);
    trace := trace + ProcessSteps(attempted);
    if !ok {
      trace := trace + [Rollback];
      return;
    }
    book.chapterFiles := files;
    book.status := Completed;
    trace := trace + [Commit(files, Completed)];
  }

  /** The chapter loop of `generate_audiobook`: the dictionary is filled chapter by
      chapter in list order, and the first failing chapter ends the loop. `attempted`
      counts the chapters the loop started on. */
  method RunChapters(chapters: seq<Chapter>, chat: ChatOracle, speech: SpeechOracle)
    returns (files: map<string, string>, ok: bool, ghost attempted: nat)
    ensures ok <==> ChapterFiles(chapters, chat, speech).Success?
    ensures ok ==> files == ChapterFiles(chapters, chat, speech).value && attempted == |chapters|
    ensures !ok ==> attempted == FirstFailure(Outcomes(chapters, chat, speech)) + 1
  {
    ghost var outcomes := Outcomes(chapters, chat, speech);
    files := map[];
    var i := 0;
    while i < |chapters|
      invariant 0 <= i <= |chapters|
      invariant FileMap(outcomes[..i]) == Success(files)
    {
      var entry := ProcessChapter(chapters[i], chat, speech);
      if entry.Failure? {
        FirstFailureAt(outcomes, i);
        return files, false, i + 1;
      }
      FileMapStep(outcomes, i, files);
      files := files[entry.value.0 := entry.value.1];
      i := i + 1;
    }
    assert outcomes[..i] == outcomes;
    return files, true, i;
  }

  /** One more successful outcome adds its entry to the dictionary. */
  lemma FileMapStep(outcomes: seq<Result<(string, string)>>, i: nat, files: map<string, string>)
    requires i < |outcomes| && outcomes[i].Success?
    requires FileMap(outcomes[..i]) == Success(files)
    ensures FileMap(outcomes[..i + 1]) == Success(files[outcomes[i].value.0 := outcomes[i].value.1])
  {
    assert outcomes[..i + 1][..i] == outcomes[..i];
  }

  /** When the outcomes before `i` succeed and the one at `i` fails, `i` is the first failure. */
  lemma FirstFailureAt<E>(outcomes: seq<Result<E>>, i: nat)
    requires i < |outcomes| && outcomes[i].Failure?
    requires FirstFailure(outcomes[..i]) == i
    ensures FirstFailure(outcomes) == i
  {
    assert forall k :: 0 <= k < i ==> outcomes[k] == outcomes[..i][k];
  }
}
