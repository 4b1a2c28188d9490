# AudioMaster in Dafny

AudioMaster is a Flask application that turns a filled-in questionnaire into a
book outline, with help from a chat model, and then turns that outline into a
narrated audiobook, with help from a speech model. This project models the
application's core and proves properties of it. The core is:

- **Questionnaire check.** Submitted answers are checked against a template
  (`validate_responses`). A response row is stored only when that check passes.
- **Prompt templates.** Templates can be listed, created, edited and restored to
  an earlier version. They are soft-deleted. A history of versions is kept, and
  the database's unique index on (template, version number) guards it.
- **Audiobook generation.** A 'generating' row is committed first. Then each
  chapter is written by the chat model and spoken into `chapter_<n>.mp3`. The
  file map and the 'completed' status are stored at the end.
- **The two services.** They build the chat prompts and name the audio files.
  The external calls pass through them.
- **Entity defaults.** The database entities' column defaults and the
  login-manager properties of a user.

| file | models |
|---|---|
| `wrappers.dfy` | `Option`, `Result` (with `:-`), the errors the code raises, and `Outcome` |
| `json_values.dfy` | JSON values as the request bodies and JSON columns hold them |
| `text.dfy` | Python's `str(int)` with its inverse, `str.strip()`, `sep.join(items)`, and substring occurrence |
| `models.dfy` | `models.py`: entity defaults, the `Audiobook` row as a class, and the `User` properties |
| `questionnaires.dfy` | `routes/questionnaires.py`: `validate_responses`, the submit gate, and the seeded onboarding template as a test vector |
| `prompts.dfy` | `routes/prompts.py`: the `PromptTemplate` row as a class, its history and unique index, and the template table |
| `ai_service.dfy` | `services/ai_service.py`: the outline and chapter prompts, and the two generate calls |
| `audio_service.dfy` | `services/audio_service.py`: audio paths and file names, and the two generate calls |
| `audiobooks.dfy` | `routes/audiobooks.py`: the chapter loop and `generate_audiobook` |

The external services are function-valued parameters: the chat completion, the
speech synthesis together with its file write, `json.dumps` and `json.loads`.
Each maps its input to a value or to an error. UUIDs are parameters too, and so
is the version number that `create_version` assigns.

### Where the code differs from its design description

The model follows the code in each of these cases.

- **A failure leaves a row.** The design says a chapter failure leaves no
  partial audiobook record. In the code, the new row is committed with status
  'generating' and an empty map before the first chapter. The rollback after a
  failure therefore leaves that row in place (`Audiobooks.GenerateAudiobook`).
- **N chapters need not give N files.** The design says an outline with N
  chapters yields exactly N artifacts. The map is keyed by `str(number)`, so two
  chapters with the same number share one entry and one file
  (`Audiobooks.RepeatedNumberSharesFile`).
- **List order, not number order.** Chapters are processed in the order the
  outline lists them, not in ascending number order.
- **No retries.** Nothing retries, validates or backs off in
  `generate_outline` or `generate_chapter_content`. Whatever the chat model
  returns is passed on or parsed as it is, and any error is re-raised
  (`AiService.GenerateOutline`, `AiService.GenerateChapterContent`).
- **Answer shape is not checked.** The questionnaire check checks keys and
  non-blank strings only. Extra keys are ignored. Questions marked "(optional)"
  in the seeded template are still required
  (`Questionnaires.OnboardingOptionalTopicRequired`).

Chapter audio files are named by chapter number alone, under one shared
directory (`services/audio_service.py:27`, `:39`). A second audiobook with a
chapter of the same number therefore overwrites the first audiobook's file.
`AudioService.ChapterFileNamesDistinct` separates different numbers only.

## Model

| member | source | states |
|---|---|---|
| Questionnaires.ValidateResponses | routes/questionnaires.py:53-69 | true exactly when every section index of the template is a key of the submission and each of that section's question indices holds a string with a non-whitespace character; every exception counts as false; a template without sections accepts anything |
| Questionnaires.CheckSections | routes/questionnaires.py:56-61 | the outer loop from section `i` on returns true exactly when every later section is answered |
| Questionnaires.CheckQuestions | routes/questionnaires.py:61-65 | the inner loop from question `j` on returns true exactly when every later question index holds a filled answer (vacuous when no questions remain) |
| Questionnaires.QuestionCount | routes/questionnaires.py:61 | `enumerate(section['questions'])` runs over a list's elements; a section that is not an object or lacks 'questions' (the caught KeyError/TypeError) gives no count |
| Questionnaires.FilledIffStripNonEmpty | routes/questionnaires.py:64 | the answer test is exactly "a string whose `strip()` is non-empty" |
| Questionnaires.MissingSectionRejected | routes/questionnaires.py:57-58 | a section index without a key, or a submission that is not an object, is rejected |
| Questionnaires.MissingAnswerRejected | routes/questionnaires.py:62-63 | a missing question index inside a section's answers is rejected |
| Questionnaires.BlankAnswerRejected | routes/questionnaires.py:64-65 | an answer made only of whitespace is rejected |
| Questionnaires.NonStringAnswerRejected | routes/questionnaires.py:64-69 | an answer with no `strip` (not a string) is rejected, as the caught AttributeError does |
| Questionnaires.NonObjectAnswersRejected | routes/questionnaires.py:60-69 | a section with questions whose answers are not an object is rejected |
| Questionnaires.SectionWithoutQuestionsRejected | routes/questionnaires.py:61-69 | a template section without a 'questions' key rejects every submission (the caught KeyError) |
| Questionnaires.ExtraSectionKeysIgnored | routes/questionnaires.py:56-60 | keys that are not section indices never change the verdict |
| Questionnaires.ExtraAnswerKeysIgnored | routes/questionnaires.py:61-65 | keys that are not question indices never change the verdict |
| Questionnaires.EmptySectionAcceptsAnyValue | routes/questionnaires.py:60-61 | a section with no questions accepts any value under its key, even a non-object |
| Questionnaires.JaneRejectedByTwoSections | routes/questionnaires.py:56-58 | `{"0": {"0": "Jane"}}` is rejected by every two-section template |
| Questionnaires.CompleteAnswersAccepted | routes/questionnaires.py:53-67 | the answer set holding `"yes"` under every question index is accepted by every template whose sections all have question lists (any filled answers are covered by `Questionnaires.ValidateResponses`) |
| Questionnaires.OnboardingCompleteAccepted | add_template.py:11-122 | a complete answer set for the seeded onboarding template is accepted |
| Questionnaires.OnboardingOptionalTopicRequired | add_template.py:69-72 | leaving out the "(optional)" sixth growth topic is still rejected |
| Questionnaires.OnboardingQuestionCounts | add_template.py:11-122 | the seeded template has six sections with 5, 1, 8, 3, 2 and 1 questions |
| Questionnaires.ResponseTable.Respond | routes/questionnaires.py:10-35 | a row is added, with status 'submitted' and the submitted answers, exactly when the body is JSON and the check passes; otherwise the table is unchanged |
| Text.IntToString | routes/audiobooks.py:34 | `str(n)`: an optional minus sign and decimal digits; `Text.ParseIntToString` is its inverse |
| Text.ParseIntToString | routes/audiobooks.py:34 | `int(str(i)) == i` for every integer |
| Text.IntToStringInjective | routes/audiobooks.py:34 | different chapter numbers give different map keys |
| Text.Strip | routes/questionnaires.py:64 | `str.strip()` never lengthens the text; `Text.StripEnds`, `Text.StripBetweenBlanks` and `Text.StripEmptyIffBlank` characterise it |
| Text.StripEmptyIffBlank | routes/questionnaires.py:64 | `s.strip()` is empty exactly when `s` is all whitespace |
| Text.StripEnds | routes/questionnaires.py:64 | neither end of `s.strip()` is whitespace |
| Text.StripBetweenBlanks | routes/questionnaires.py:64 | `s.strip()` is the part of `s` between a whitespace prefix and a whitespace suffix |
| Text.Join | services/ai_service.py:69 | `sep.join(items)`: empty for no items, otherwise opens with the first item and closes with the last; `Text.JoinItemAt`, `Text.JoinSeparatorAfter` and `Text.JoinLength` give the rest |
| Text.JoinItemAt | services/ai_service.py:69 | in `sep.join(items)` each item occurs at its offset |
| Text.JoinSeparatorAfter | services/ai_service.py:69 | the separator follows each item but the last |
| Text.JoinOffsetStep | services/ai_service.py:69 | each item starts right after the previous item and one separator |
| Text.JoinOffsetIncreasing | services/ai_service.py:69 | later items start further right |
| Text.JoinLength | services/ai_service.py:69 | the joined text is the items plus one separator between each pair, and nothing more |
| AiService.ChapterPrompt | services/ai_service.py:64-73 | succeeds exactly when title, summary and key_points are present, otherwise KeyError for the first missing key in reading order; the prompt starts with the instruction and holds the three labelled lines |
| AiService.PromptLayout | services/ai_service.py:65-69 | the exact offset of each labelled line in the chapter prompt |
| AiService.ChapterPromptKeepsKeyPointOrder | services/ai_service.py:69 | two key points appear in the prompt in their list order |
| AiService.KeyPointsInOrder | services/ai_service.py:69 | any text holding the key-points line holds its points in list order |
| AiService.GenerateChapterContent | services/ai_service.py:28-43 | a chapter missing a key fails before the model is called; otherwise the model's reply or error is returned unchanged |
| AiService.OutlinePrompt | services/ai_service.py:45-62 | the prompt starts with the instruction, holds the serialized responses verbatim right after the gap, and ends with the requested JSON shape |
| AiService.GenerateOutline | services/ai_service.py:11-26 | the chat error is re-raised; otherwise whatever `json.loads` yields, value or error, is returned unchecked |
| AudioService.AudioPath | services/audio_service.py:27 | `os.path.join('static/audio', name)`: an absolute name replaces the directory, any other name is placed under it |
| AudioService.AudioFileName | services/audio_service.py:14-15 | the given name, or exactly `<uuid> + ".mp3"` |
| AudioService.GenerateAudio | services/audio_service.py:12-35 | succeeds exactly when synthesis to the path succeeds and then returns the bare file name, not the path; otherwise the error is re-raised |
| AudioService.ChapterFileName | services/audio_service.py:39 | exactly `"chapter_" + str(n) + ".mp3"`, from which the number reads back |
| AudioService.ChapterFileNamesDistinct | services/audio_service.py:39 | different chapter numbers never share a file name |
| AudioService.GenerateChapterAudio | services/audio_service.py:37-43 | the audio goes to `static/audio/chapter_<n>.mp3` and the bare name is returned, or the error is re-raised |
| Audiobooks.ProcessChapter | routes/audiobooks.py:25-34 | content first, then the number, then the audio; success yields `(str(number), chapter_<number>.mp3)`; each error is that of the first step to fail |
| Audiobooks.ChapterFiles | routes/audiobooks.py:23-34 | the finished `chapter_files` dict; when it is not built, the error is that of the first chapter that fails, every earlier chapter having got through |
| Audiobooks.FileMap | routes/audiobooks.py:23-34 | the dictionary loop succeeds exactly when no outcome fails, and otherwise carries the first failure's error |
| Audiobooks.FileMapHasEveryKey | routes/audiobooks.py:34 | every outcome's key is in the finished map |
| Audiobooks.FileMapEntriesFromOutcomes | routes/audiobooks.py:34 | every entry was written by some outcome, and there are no more entries than outcomes |
| Audiobooks.DistinctKeysFillMap | routes/audiobooks.py:34 | with pairwise different keys there are exactly as many entries as outcomes |
| Audiobooks.RepeatedKeyShrinksMap | routes/audiobooks.py:34 | a repeated key leaves fewer entries than outcomes |
| Audiobooks.ChapterFilesSucceed | routes/audiobooks.py:24-34 | the file map is built exactly when every chapter gets through |
| Audiobooks.ChapterFilesByNumber | routes/audiobooks.py:29-34 | every chapter's number is a key, every key is some chapter's number, and each key maps to `chapter_<key>.mp3` |
| Audiobooks.DistinctNumbersOneFileEach | routes/audiobooks.py:34 | pairwise different chapter numbers give one file per chapter |
| Audiobooks.RepeatedNumberSharesFile | routes/audiobooks.py:34 | two chapters with one number share a file, so there are fewer files than chapters |
| Audiobooks.RunChapters | routes/audiobooks.py:23-34 | the loop's dictionary is the file map when every chapter gets through; on failure it stops after the first failing chapter |
| Audiobooks.GenerateAudiobook | routes/audiobooks.py:9-45 | the 'generating' row with `{}` is committed before any chapter; 'completed' with the file map exactly when every chapter gets through; otherwise the committed row stays 'generating' with `{}`; the duration is never set; the ordered steps taken |
| Prompts.PayloadFields | routes/prompts.py:67-71 | name, description, type and template_content are read in that order, and the first absent one raises KeyError; variables default to `{}` |
| Prompts.AppendKeepsUnique | migrations/versions/add_prompt_template_version.py:48-53 | a history row keeps the unique index satisfied exactly when its number is new |
| Prompts.FindVersion | routes/prompts.py:113 | finds a row with the requested number exactly when the history has one |
| Prompts.FindVersionStable | routes/prompts.py:113 | appending to the history never changes what an earlier lookup found |
| Prompts.FindAppended | routes/prompts.py:113 | a row appended under a new number is what a lookup of that number finds |
| Prompts.PromptTemplate.RollBack | routes/prompts.py:82 | `db.session.rollback()`: every column and the history return to the saved state |
| Prompts.PromptTemplate.CreateVersion | routes/prompts.py:64 | a snapshot of the current fields is appended under the given number, and nothing else changes |
| Prompts.PromptTemplate.Commit | routes/prompts.py:74-82 | passes exactly when the unique index holds; otherwise IntegrityError and the row returns to its last committed state |
| Prompts.PromptTemplate.Edit | routes/prompts.py:55-95 | passes exactly when the payload has every required key and the version number is new; then the history grows by the old fields, the five fields come from the payload and is_active becomes `data.get('is_active', True)`; on any failure the row is unchanged; the unique index is kept |
| Prompts.PromptTemplate.Restore | routes/prompts.py:109-137 | a missing version raises NotFound and changes nothing (the route's `except` catches it and answers with a 500 failure); otherwise the current fields are snapshotted and the old row's five fields are copied back, with is_active untouched; the unique index is kept |
| Prompts.PromptTemplate.Overwrite | routes/prompts.py:116-125 | snapshot, copy of the five fields, commit; a rejected commit leaves the row unchanged |
| Prompts.PromptTemplate.Delete | routes/prompts.py:169-174 | only is_active changes, to false |
| Prompts.EditThenRestore | routes/prompts.py:109-125 | restoring the snapshot that a successful edit took brings the fields back, with two new history rows |
| Prompts.DefaultPromptFields | routes/prompts.py:13-43 | the seeded template is an 'outline' prompt whose only variable, `responses`, matches the `{responses}` placeholder in its text |
| Prompts.PromptLibrary.ListPrompts | routes/prompts.py:7-48 | an empty table gets exactly one row, the default template, and that row is the listing; a table with any rows is listed unchanged |
| Prompts.PromptLibrary.CreatePrompt | routes/prompts.py:139-167 | a payload with every required key adds one new row owned by the default user; otherwise nothing is added and the KeyError is returned |
| Models.NewTemplate | models.py:5-15 | a new template has version 1 and is active |
| Models.NewQuestionnaireResponse | models.py:17-27 | a new response has status 'submitted' |
| Models.NewBookOutline | models.py:29-39 | a new outline has status 'draft' |
| Models.Audiobook.constructor | models.py:41-52 | a new audiobook has status 'generating' and no duration |
| Models.User.GetId | models.py:64-65 | the session identifier is the row id |
| Models.User.IsActive | models.py:67-69 | every stored account is active |
| Models.User.IsAuthenticated | models.py:71-73 | every stored account is authenticated |
| Models.User.IsAnonymous | models.py:75-77 | no stored account is anonymous |

## Left out

- Typed request and column values: a request body that is not an object, and `name`, `type`, `template_content` or `is_active` of another JSON type, are not modelled (`Prompts.PromptPayload`). `Template.sections` is a list, although the templates route stores `request.json['sections']` unchecked and a value that is not iterable makes `validate_responses` return False. `Respond` takes the parsed body, so a JSON body that fails to parse is not modelled.
- HTTP plumbing is not modelled: rendering, redirects, flash messages, JSON replies and status codes. `routes/questionnaires.py` uses `jsonify` and `current_app` without importing them, so every POST reply of `respond` would raise NameError (the GET reply uses the imported `render_template`); only its storage gate is modelled.
- The chat and speech APIs, `json.dumps` and `json.loads` are not modelled. They are parameters that are deterministic in their input, and model names, temperatures and voices are not represented.
- Writing the audio file in chunks and `os.makedirs` are not modelled. They are folded into the speech parameter.
- Floating-point JSON numbers are not modelled. The model's JSON has integers only.
- Outline chapters have typed fields. A chapter whose `number`, `title`, `summary` or `key_points` holds a value of another JSON type is not modelled, and neither is a `chapters` value that is not a list.
- `create_version` is defined outside the files modelled here. The model appends a snapshot under a caller-supplied number, and the unique index decides at commit.
- The column default of `PromptTemplate.is_active` is defined outside the files modelled here, so it is a parameter.
- UUID generation and timestamps (`created_at`, `updated_at`) are not modelled. Identifiers are parameters and timestamps are omitted.
- Transactions are only partly modelled. A failed request leaves the prompt row as it was, and a 'generating' audiobook row once committed stays. The different rollback calls of the separate handlers are not told apart.
- The outline, template, document and status-check routes are not modelled, and neither are the view routes or the scripts (`update_prompt.py`, `init_db.py` and the like).
- The answer texts of `respond` are not shape-checked beyond what `validate_responses` does, because the code does no more.
- Questionnaires.OnboardingQuestionCounts: the seeded template's question texts are shortened to labels, because validation reads only their number.
- Questionnaires.ResponseTable.Respond: the 404 for an unknown template is not modelled; the template is given.
- Prompts.PromptTemplate.Restore: an unknown prompt id is not modelled; the row is given. Its lookup raises NotFound inside the `try`, so the route answers with a 500 failure, as it does for a missing version. The same holds for `Prompts.PromptTemplate.Delete`.
- AiService.ChapterPrompt: states the instruction prefix and that each labelled line occurs, not the closing request text; `AiService.PromptLayout` gives the offsets.
- AiService.OutlinePrompt: takes the already serialized responses, because `json.dumps(..., indent=2)` is a parameter.
