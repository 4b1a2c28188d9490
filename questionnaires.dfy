/** Checking submitted questionnaire answers against a template, and the
    submission gate that stores a response only when the check passes. */
module Questionnaires {
  import opened Wrappers
  import opened JsonValues
  import opened Text
  import opened Models

  // ---------------------------------------------------------------------------
  // Shapes of the submitted JSON
  // ---------------------------------------------------------------------------

  /** `str(i)`: answers are keyed by the decimal text of section and question indices. */
  function Key(i: nat): string {
    NatToString(i)
  }

  lemma KeyInjective(i: nat, k: nat)
    ensures Key(i) == Key(k) ==> i == k
  {
    NatToStringInjective(i, k);
  }

  /** How many items `enumerate` yields over a JSON value: the elements of a list,
      the keys of an object, the characters of a string; None where iterating raises TypeError. */
  function ItemCount(v: Json): (r: Option<nat>)
    ensures r.Some? <==> (v.Arr? || v.Obj? || v.Str?)
  {
    match v
    case Arr(items) => Some(|items|)
    case Obj(fields) => Some(|fields|)
    case Str(s) => Some(|s|)
    case _ => None
  }

  /** The number of questions `enumerate(section['questions'])` runs over, or None when
      the lookup or the iteration raises (the section is not an object, has no
      'questions' key, or its questions are not iterable). */
  function QuestionCount(section: Json): (r: Option<nat>)
    ensures r.Some? ==> section.Obj? && "questions" in section.fields
    ensures section.Obj? && "questions" in section.fields && section.fields["questions"].Arr? ==>
      r == Some(|section.fields["questions"].items|)
  {
    if section.Obj? && "questions" in section.fields then ItemCount(section.fields["questions"]) else None
  }

  /** The answer is a string with a non-whitespace character. Any other JSON value
      has no `strip` and raises AttributeError. */
  predicate Filled(answer: Json) {
    answer.Str? && !IsBlank(answer.s)
  }

  /** `Filled` is exactly the source's test: `answer.strip()` is a non-empty string. */
  lemma FilledIffStripNonEmpty(answer: Json)
    ensures Filled(answer) <==> answer.Str? && Strip(answer.s) != []
  {
    if answer.Str? {
      StripEmptyIffBlank(answer.s);
    }
  }

  // ---------------------------------------------------------------------------
  // What an acceptable submission is
  // ---------------------------------------------------------------------------

  /** The `n` questions of a section are answered in `answers`. With no questions,
      any value is acceptable; otherwise `answers` must be an object with a filled
      answer under each question index. */
  predicate QuestionsAnswered(answers: Json, n: nat) {
    n == 0 || (answers.Obj? && forall j: nat :: j < n ==> AnswerFilled(answers.fields, j))
  }

  /** Question index `j` has a filled answer among `fields`. */
  predicate AnswerFilled(fields: map<string, Json>, j: nat) {
    Key(j) in fields && Filled(fields[Key(j)])
  }

  /** Section `i` of the template (`section`) is answered in `responses`. */
  predicate SectionAnswered(responses: Json, section: Json, i: nat) {
    && responses.Obj?
    && Key(i) in responses.fields
    && QuestionCount(section).Some?
    && QuestionsAnswered(responses.fields[Key(i)], QuestionCount(section).value)
  }

  /** Every section of the template is answered. */
  predicate Accepts(responses: Json, sections: seq<Json>) {
    forall i: nat :: i < |sections| ==> SectionAnswered(responses, sections[i], i)
  }

  // ---------------------------------------------------------------------------
  // The check itself: nested loops that stop at the first failure
  // ---------------------------------------------------------------------------

  /** The inner loop from question index `j` on: each question index must be a key
      of `answers`, holding an answer that is non-empty after stripping (`AnswerFilled`).
      Looking a key up in anything but an object ends the check with False, as the
      TypeError does. */
  function CheckQuestions(answers: Json, n: nat, j: nat): (ok: bool)
    requires j <= n
    ensures ok <==> j == n || (answers.Obj? && forall k: nat :: j <= k < n ==> AnswerFilled(answers.fields, k))
    decreases n - j
  {
    if j == n then true
    else if !answers.Obj? || !AnswerFilled(answers.fields, j) then false
    else CheckQuestions(answers, n, j + 1)
  }

  /** The outer loop from section index `i` on. */
  function CheckSections(responses: Json, sections: seq<Json>, i: nat): (ok: bool)
    requires i <= |sections|
    ensures ok <==> forall k: nat :: i <= k < |sections| ==> SectionAnswered(responses, sections[k], k)
    decreases |sections| - i
  {
    if i == |sections| then true
    else if !responses.Obj? || Key(i) !in responses.fields then
      assert !SectionAnswered(responses, sections[i], i);
      false
    else match QuestionCount(sections[i])
      case None =>
        assert !SectionAnswered(responses, sections[i], i);
        false
      case Some(n) => CheckQuestions(responses.fields[Key(i)], n, 0) && CheckSections(responses, sections, i + 1)
  }

  /** Whether `responses` answers the template `sections` (every exception counts as False). */
  function ValidateResponses(responses: Json, sections: seq<Json>): (ok: bool)
    ensures ok <==> Accepts(responses, sections)
    ensures |sections| == 0 ==> ok
  {
    CheckSections(responses, sections, 0)
  }

  // ---------------------------------------------------------------------------
  // Consequences
  // ---------------------------------------------------------------------------

  /** A section index without a key in the submission (or a submission that is not an object) is rejected. */
  lemma MissingSectionRejected(responses: Json, sections: seq<Json>, i: nat)
    requires i < |sections|
    requires !responses.Obj? || Key(i) !in responses.fields
    ensures !ValidateResponses(responses, sections)
  {
    assert !SectionAnswered(responses, sections[i], i);
  }

  /** The answers of section `i`, as an object `a`, lack question index `j`: rejected. */
  lemma MissingAnswerRejected(f: map<string, Json>, sections: seq<Json>, i: nat, a: map<string, Json>, j: nat)
    requires i < |sections| && Key(i) in f && f[Key(i)] == Obj(a)
    requires QuestionCount(sections[i]).Some? && j < QuestionCount(sections[i]).value
    requires Key(j) !in a
    ensures !ValidateResponses(Obj(f), sections)
  {
    assert !AnswerFilled(a, j);
    assert !SectionAnswered(Obj(f), sections[i], i);
  }

  /** An answer made only of whitespace is rejected. */
  lemma BlankAnswerRejected(f: map<string, Json>, sections: seq<Json>, i: nat, a: map<string, Json>, j: nat)
    requires i < |sections| && Key(i) in f && f[Key(i)] == Obj(a)
    requires QuestionCount(sections[i]).Some? && j < QuestionCount(sections[i]).value
    requires Key(j) in a && a[Key(j)].Str? && IsBlank(a[Key(j)].s)
    ensures !ValidateResponses(Obj(f), sections)
  {
    assert !AnswerFilled(a, j);
    assert !SectionAnswered(Obj(f), sections[i], i);
  }

  /** An answer that is not a string (it has no `strip`) is rejected. */
  lemma NonStringAnswerRejected(f: map<string, Json>, sections: seq<Json>, i: nat, a: map<string, Json>, j: nat)
    requires i < |sections| && Key(i) in f && f[Key(i)] == Obj(a)
    requires QuestionCount(sections[i]).Some? && j < QuestionCount(sections[i]).value
    requires Key(j) in a && !a[Key(j)].Str?
    ensures !ValidateResponses(Obj(f), sections)
  {
    assert !AnswerFilled(a, j);
    assert !SectionAnswered(Obj(f), sections[i], i);
  }

  /** A section that has questions but whose answers are not an object is rejected. */
  lemma NonObjectAnswersRejected(f: map<string, Json>, sections: seq<Json>, i: nat)
    requires i < |sections| && Key(i) in f && !f[Key(i)].Obj?
    requires QuestionCount(sections[i]).Some? && QuestionCount(sections[i]).value > 0
    ensures !ValidateResponses(Obj(f), sections)
  {
    assert !SectionAnswered(Obj(f), sections[i], i);
  }

  /** A template section without a 'questions' key rejects every submission. */
  lemma SectionWithoutQuestionsRejected(responses: Json, sections: seq<Json>, i: nat)
    requires i < |sections|
    requires !sections[i].Obj? || "questions" !in sections[i].fields
    ensures !ValidateResponses(responses, sections)
  {
    assert !SectionAnswered(responses, sections[i], i);
  }

  /** Keys that are not section indices of the template do not affect the result. */
  lemma ExtraSectionKeysIgnored(f: map<string, Json>, extra: map<string, Json>, sections: seq<Json>)
    requires forall i: nat :: i < |sections| ==> Key(i) !in extra
    ensures ValidateResponses(Obj(f + extra), sections) == ValidateResponses(Obj(f), sections)
  {
    forall i: nat | i < |sections|
      ensures SectionAnswered(Obj(f + extra), sections[i], i) == SectionAnswered(Obj(f), sections[i], i)
    {
      assert Key(i) in f + extra <==> Key(i) in f;
      if Key(i) in f {
        assert (f + extra)[Key(i)] == f[Key(i)];
      }
    }
  }

  lemma QuestionsAnsweredExtraKeys(a: map<string, Json>, extra: map<string, Json>, n: nat)
    requires forall j: nat :: j < n ==> Key(j) !in extra
    ensures QuestionsAnswered(Obj(a + extra), n) == QuestionsAnswered(Obj(a), n)
  {
    forall j: nat | j < n
      ensures AnswerFilled(a + extra, j) == AnswerFilled(a, j)
    {
      assert Key(j) !in extra;
    }
  }

  /** Inside the answers of one section, keys that are not question indices do not affect the result. */
  lemma ExtraAnswerKeysIgnored(f: map<string, Json>, sections: seq<Json>, i: nat, a: map<string, Json>, extra: map<string, Json>)
    requires i < |sections| && Key(i) in f && f[Key(i)] == Obj(a)
    requires QuestionCount(sections[i]).Some?
    requires forall j: nat :: j < QuestionCount(sections[i]).value ==> Key(j) !in extra
    ensures ValidateResponses(Obj(f[Key(i) := Obj(a + extra)]), sections) == ValidateResponses(Obj(f), sections)
  {
    var g := f[Key(i) := Obj(a + extra)];
    QuestionsAnsweredExtraKeys(a, extra, QuestionCount(sections[i]).value);
    forall k: nat | k < |sections|
      ensures SectionAnswered(Obj(g), sections[k], k) == SectionAnswered(Obj(f), sections[k], k)
    {
      KeyInjective(i, k);
    }
  }

  /** A section with no questions accepts whatever value stands under its key, even a non-object. */
  lemma EmptySectionAcceptsAnyValue(f: map<string, Json>, sections: seq<Json>, i: nat, v: Json, w: Json)
    requires i < |sections| && QuestionCount(sections[i]) == Some(0)
    ensures ValidateResponses(Obj(f[Key(i) := v]), sections) == ValidateResponses(Obj(f[Key(i) := w]), sections)
  {
    forall k: nat | k < |sections|
      ensures SectionAnswered(Obj(f[Key(i) := v]), sections[k], k) == SectionAnswered(Obj(f[Key(i) := w]), sections[k], k)
    {
      KeyInjective(i, k);
    }
  }

  /** The submission `{"0": {"0": "Jane"}}` is rejected by every two-section template:
      section "1" is missing. */
  lemma JaneRejectedByTwoSections(sections: seq<Json>)
    requires |sections| == 2
    ensures !ValidateResponses(Obj(map["0" := Obj(map["0" := Str("Jane")])]), sections)
  {
    assert Key(1) == "1";
    MissingSectionRejected(Obj(map["0" := Obj(map["0" := Str("Jane")])]), sections, 1);
  }

  // ---------------------------------------------------------------------------
  // Submitting a response
  // ---------------------------------------------------------------------------

  datatype SubmitOutcome =
    | NotJson                                 // the request body is not JSON
    | Rejected                                // the answers do not fit the template
    | Stored(response: QuestionnaireResponse) // a row was added with status 'submitted'

  /** The questionnaire_responses table. */
  class ResponseTable {
    var rows: seq<QuestionnaireResponse>

    constructor ()
      ensures rows == []
    {
      rows := [];
    }

    /** Handles a POSTed answer set for `template`. A row is added, with status
        'submitted' and the submitted answers, only when the body is JSON and the
        answers pass the validation; otherwise nothing is stored. */
    method Respond(template: Template, isJson: bool, data: Json, newId: string) returns (outcome: SubmitOutcome)
      modifies this
      ensures outcome.Stored? <==> isJson && Accepts(data, template.sections)
      ensures !isJson ==> outcome == NotJson
      ensures outcome.Stored? ==>
        && outcome.response == QuestionnaireResponse(newId, template.id, data, Submitted)
        && rows == old(rows) + [outcome.response]
      ensures !outcome.Stored? ==> rows == old(rows)
    {
      if !isJson {
        return NotJson;
      }
      if !ValidateResponses(data, template.sections) {
        return Rejected;
      }
      var response := NewQuestionnaireResponse(newId, template.id, data);
      rows := rows + [response];
      outcome := Stored(response);
    }
  }

  // ---------------------------------------------------------------------------
  // The seeded onboarding template, as a test vector
  // ---------------------------------------------------------------------------

  function Question(text: string, kind: string): Json {
    Obj(map["text" := Str(text), "type" := Str(kind)])
  }

  function Section(title: string, questions: seq<Json>): Json {
    Obj(map["title" := Str(title), "questions" := Arr(questions)])
  }

  // The six sections of the "Personalised Self-Help Onboarding" template, with each
  // question's text shortened to a label (validation never reads the texts).

  const AboutYou: Json := Section("About You", [
      Question("What is your name?", "text"),
      Question("How old are you?", "number"),
      Question("What is your sex?", "text"),
      Question("What is your occupation?", "text"),
      Question("Current living situation?", "text")])

  lemma AboutYouCount()
    ensures QuestionCount(AboutYou) == Some(5)
  {
  }

  const YourStrengths: Json := Section("Your Strengths", [
      Question("Top 3 strengths?", "textarea")])

  lemma YourStrengthsCount()
    ensures QuestionCount(YourStrengths) == Some(1)
  {
  }

  const PersonalGrowthJourney: Json := Section("Personal Growth Journey", [
      Question("Topic 1", "textarea"),
      Question("Topic 2", "textarea"),
      Question("Topic 3", "textarea"),
      Question("Topic 4", "textarea"),
      Question("Topic 5 (optional)", "textarea"),
      Question("Topic 6 (optional)", "textarea"),
      Question("Weighting of topics?", "textarea"),
      Question("Order of topics?", "textarea")])

  lemma PersonalGrowthJourneyCount()
    ensures QuestionCount(PersonalGrowthJourney) == Some(8)
  {
  }

  const DailyLifeAndRoutines: Json := Section("Daily Life and Routines", [
      Question("Current daily routine?", "textarea"),
      Question("Ideal daily routine?", "textarea"),
      Question("Habits to build or break?", "textarea")])

  lemma DailyLifeAndRoutinesCount()
    ensures QuestionCount(DailyLifeAndRoutines) == Some(3)
  {
  }

  const LearningStyle: Json := Section("Learning Style and Preferences", [
      Question("Influential techniques or authors?", "textarea"),
      Question("Preferred voice and tone?", "textarea")])

  lemma LearningStyleCount()
    ensures QuestionCount(LearningStyle) == Some(2)
  {
  }

  const FinalThoughts: Json := Section("Final Thoughts", [
      Question("Anything else to share?", "textarea")])

  lemma FinalThoughtsCount()
    ensures QuestionCount(FinalThoughts) == Some(1)
  {
  }

  const OnboardingSections: seq<Json> :=
    [AboutYou, YourStrengths, PersonalGrowthJourney, DailyLifeAndRoutines, LearningStyle, FinalThoughts]

  lemma OnboardingQuestionCounts()
    ensures |OnboardingSections| == 6
    ensures forall i :: 0 <= i < 6 ==> QuestionCount(OnboardingSections[i]) == Some(OnboardingCounts[i])
  {
    AboutYouCount();
    YourStrengthsCount();
    PersonalGrowthJourneyCount();
    DailyLifeAndRoutinesCount();
    LearningStyleCount();
    FinalThoughtsCount();
  }

  /** Answers "yes" under the question keys "0" .. "n-1". */
  function YesAnswers(n: nat): (r: Json)
    ensures r.Obj?
  {
    if n == 0 then Obj(map[]) else Obj(YesAnswers(n - 1).fields[Key(n - 1) := Str("yes")])
  }

  lemma {:induction false} YesAnswersCover(n: nat, j: nat)
    requires j < n
    ensures Key(j) in YesAnswers(n).fields && YesAnswers(n).fields[Key(j)] == Str("yes")
  {
    if j < n - 1 {
      YesAnswersCover(n - 1, j);
    }
  }

  lemma YesIsFilled()
    ensures Filled(Str("yes"))
  {
    var yes := "yes";
    assert yes[0] == 'y' && !IsSpace('y');
    assert !IsBlank(yes);
  }

  lemma YesAnswersAnswer(n: nat)
    ensures QuestionsAnswered(YesAnswers(n), n)
  {
    YesIsFilled();
    forall j: nat | j < n
      ensures AnswerFilled(YesAnswers(n).fields, j)
    {
      YesAnswersCover(n, j);
    }
  }

  /** Answers "yes" to every question of a template whose sections have
      `counts[i]` questions each. */
  function CompleteAnswers(counts: seq<nat>): (r: Json)
    ensures r.Obj?
  {
    if counts == [] then Obj(map[])
    else Obj(CompleteAnswers(counts[..|counts| - 1]).fields[Key(|counts| - 1) := YesAnswers(counts[|counts| - 1])])
  }

  lemma {:induction false} CompleteAnswersCover(counts: seq<nat>, i: nat)
    requires i < |counts|
    ensures Key(i) in CompleteAnswers(counts).fields && CompleteAnswers(counts).fields[Key(i)] == YesAnswers(counts[i])
  {
    KeyInjective(i, |counts| - 1);
    if i < |counts| - 1 {
      CompleteAnswersCover(counts[..|counts| - 1], i);
    }
  }

  /** Answering every question with a non-blank string is accepted, whatever the template. */
  lemma CompleteAnswersAccepted(sections: seq<Json>, counts: seq<nat>)
    requires |counts| == |sections|
    requires forall i: nat :: i < |sections| ==> QuestionCount(sections[i]) == Some(counts[i])
    ensures ValidateResponses(CompleteAnswers(counts), sections)
  {
    forall i: nat | i < |sections|
      ensures SectionAnswered(CompleteAnswers(counts), sections[i], i)
    {
      CompleteAnswersCover(counts, i);
      YesAnswersAnswer(counts[i]);
    }
  }

  const OnboardingCounts: seq<nat> := [5, 1, 8, 3, 2, 1]

  /** Answering every question of the onboarding template is accepted. */
  lemma OnboardingCompleteAccepted()
    ensures ValidateResponses(CompleteAnswers(OnboardingCounts), OnboardingSections)
  {
    OnboardingQuestionCounts();
    CompleteAnswersAccepted(OnboardingSections, OnboardingCounts);
  }

  /** The complete answers with topic 6 (question 5 of section 2) left out. */
  const OnboardingWithoutTopic6: Json :=
    Obj(CompleteAnswers(OnboardingCounts).fields[Key(2) := Obj(YesAnswers(8).fields - {Key(5)})])

  /** Questions marked "(optional)" are still required: leaving out topic 6 of
      the growth section is rejected. */
  lemma OnboardingOptionalTopicRequired()
    ensures !ValidateResponses(OnboardingWithoutTopic6, OnboardingSections)
  {
    OnboardingQuestionCounts();
    MissingAnswerRejected(OnboardingWithoutTopic6.fields, OnboardingSections, 2, YesAnswers(8).fields - {Key(5)}, 5);
  }
}
