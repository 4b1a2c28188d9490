/** The application's database entities and their column defaults.
    Identifiers (UUID strings) and timestamps are supplied by the caller. */
module Models {
  import opened Wrappers
  import opened JsonValues

  // ---------------------------------------------------------------------------
  // Template: a questionnaire definition
  // ---------------------------------------------------------------------------

  /** `sections` is the JSON list of sections; it is a required column, so it is never absent. */
  datatype Template = Template(
    id: string,
    title: string,
    description: Option<string>,
    sections: seq<Json>,
    version: int,
    isActive: bool)

  /** A new template row: the version column defaults to 1 and the row starts active. */
  function NewTemplate(id: string, title: string, description: Option<string>, sections: seq<Json>): (t: Template)
    ensures t.version == 1 && t.isActive
    ensures t.id == id && t.title == title && t.description == description && t.sections == sections
  {
    Template(id, title, description, sections, 1, true)
  }

  // ---------------------------------------------------------------------------
  // QuestionnaireResponse: answers submitted against a template
  // ---------------------------------------------------------------------------

  /** The status values the application writes into the response status column. */
  datatype ResponseStatus = Submitted

  datatype QuestionnaireResponse = QuestionnaireResponse(
    id: string,
    templateId: string,
    responses: Json,
    status: ResponseStatus)

  /** A new response row: its status defaults to 'submitted'. */
  function NewQuestionnaireResponse(id: string, templateId: string, responses: Json): (r: QuestionnaireResponse)
    ensures r.status == Submitted
    ensures r.id == id && r.templateId == templateId && r.responses == responses
  {
    QuestionnaireResponse(id, templateId, responses, Submitted)
  }

  // ---------------------------------------------------------------------------
  // BookOutline: the parsed outline document produced by the chat model
  // ---------------------------------------------------------------------------

  /** One chapter entry of an outline; a field is None when the key is absent. */
  datatype Chapter = Chapter(
    number: Option<int>,
    title: Option<string>,
    summary: Option<string>,
    keyPoints: Option<seq<string>>)

  /** The parsed outline document; `chapters` is None when looking up the
      'chapters' key of the document would raise. */
  datatype OutlineDoc = OutlineDoc(title: Option<string>, chapters: Option<seq<Chapter>>)

  datatype OutlineStatus = Draft

  datatype BookOutline = BookOutline(
    id: string,
    questionnaireId: string,
    chapters: OutlineDoc,
    status: OutlineStatus)

  /** A new outline row: its status defaults to 'draft'. */
  function NewBookOutline(id: string, questionnaireId: string, chapters: OutlineDoc): (o: BookOutline)
    ensures o.status == Draft
    ensures o.id == id && o.questionnaireId == questionnaireId && o.chapters == chapters
  {
    BookOutline(id, questionnaireId, chapters, Draft)
  }

  // ---------------------------------------------------------------------------
  // Audiobook: its chapter files and status are overwritten after generation
  // ---------------------------------------------------------------------------

  datatype AudiobookStatus = Generating | Completed

  class Audiobook {
    const id: string
    const outlineId: string
    /** Chapter number (as text) to audio file name; a required column. */
    var chapterFiles: map<string, string>
    /** Nullable and without a default: None until something assigns it. */
    var totalDuration: Option<int>
    var status: AudiobookStatus

    /** A new audiobook row: status defaults to 'generating', no duration. */
    constructor (id: string, outlineId: string, chapterFiles: map<string, string>)
      ensures this.id == id && this.outlineId == outlineId && this.chapterFiles == chapterFiles
      ensures totalDuration == None && status == Generating
    {
      this.id := id;
      this.outlineId := outlineId;
      this.chapterFiles := chapterFiles;
      totalDuration := None;
      status := Generating;
    }
  }

  // ---------------------------------------------------------------------------
  // User: the login-manager view of an account
  // ---------------------------------------------------------------------------

  datatype User = User(id: string, username: string, email: string, passwordHash: Option<string>) {

    /** The identifier the login manager stores in the session. */
    function GetId(): (r: string)
      ensures r == id
    {
      id
    }

    /** Every stored account counts as active. */
    function IsActive(): (r: bool)
      ensures r
    {
      true
    }

    /** Every stored account counts as authenticated. */
    function IsAuthenticated(): (r: bool)
      ensures r
    {
      true
    }

    /** No stored account is anonymous. */
    function IsAnonymous(): (r: bool)
      ensures !r
    {
      false
    }
  }
}
