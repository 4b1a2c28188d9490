/** Prompt templates and their edit history: editing, restoring an earlier
    version, soft deletion, creation, and the default template seeded when the
    table is empty. How a history entry is numbered is not visible in the code;
    the caller supplies the number, and the unique index on
    (prompt template, version) decides at commit time whether it is accepted. */
module Prompts {
  import opened Wrappers
  import opened JsonValues
  import opened Text

  // ---------------------------------------------------------------------------
  // Values: the editable fields, history entries and request payloads
  // ---------------------------------------------------------------------------

  /** The five columns an edit or a restore overwrites. `kind` is the `type` column. */
  datatype PromptFields = PromptFields(
    name: string,
    description: Option<string>,
    kind: string,
    templateContent: string,
    variables: Json)

  /** One row of the version history: a snapshot of the fields under a number. */
  datatype PromptVersion = PromptVersion(number: int, fields: PromptFields, editedBy: Option<string>)

  /** The JSON object of an edit or create request; None marks an absent key.
      `description` is Some(None) when the key is present with a null value. */
  datatype PromptPayload = PromptPayload(
    name: Option<string>,
    description: Option<Option<string>>,
    kind: Option<string>,
    templateContent: Option<string>,
    variables: Option<Json>,
    isActive: Option<bool>)

  /** The fields a payload sets: `data['name']`, `data['description']`, `data['type']`
      and `data['template_content']` are read in that order and the first absent one
      raises KeyError; `data.get('variables', {})` falls back to the empty object. */
  function PayloadFields(p: PromptPayload): (r: Result<PromptFields>)
    ensures r.Success? <==> p.name.Some? && p.description.Some? && p.kind.Some? && p.templateContent.Some?
    ensures r.Failure? ==> r.error == KeyError(FirstMissingField(p))
    ensures r.Success? ==>
      && r.value.name == p.name.value
      && r.value.description == p.description.value
      && r.value.kind == p.kind.value
      && r.value.templateContent == p.templateContent.value
      && (p.variables.Some? ==> r.value.variables == p.variables.value)
      && (p.variables.None? ==> r.value.variables == EmptyObject)
  {
    if p.name.None? || p.description.None? || p.kind.None? || p.templateContent.None? then
      Failure(KeyError(FirstMissingField(p)))
    else
      Success(PromptFields(p.name.value, p.description.value, p.kind.value, p.templateContent.value,
                           p.variables.GetOr(EmptyObject)))
  }

  /** The first required key, in reading order, that the payload lacks. */
  function FirstMissingField(p: PromptPayload): string {
    if p.name.None? then "name"
    else if p.description.None? then "description"
    else if p.kind.None? then "type"
    else "template_content"
  }

  // ---------------------------------------------------------------------------
  // The version history and its unique index
  // ---------------------------------------------------------------------------

  /** The version numbers present in a history. */
  function VersionNumbers(versions: seq<PromptVersion>): (ns: set<int>)
    ensures forall i :: 0 <= i < |versions| ==> versions[i].number in ns
    ensures forall n :: n in ns ==> exists i :: 0 <= i < |versions| && versions[i].number == n
  {
    if versions == [] then {}
    else
      var rest := versions[..|versions| - 1];
      assert forall i :: 0 <= i < |rest| ==> rest[i] == versions[i];
      VersionNumbers(rest) + {versions[|versions| - 1].number}
  }

  /** The unique index on (prompt_template_id, version): no number occurs twice. */
  predicate UniqueNumbers(versions: seq<PromptVersion>) {
    forall i, j :: 0 <= i < j < |versions| ==> versions[i].number != versions[j].number
  }

  /** Appending a row keeps the index satisfied exactly when its number is new. */
  lemma AppendKeepsUnique(versions: seq<PromptVersion>, v: PromptVersion)
    requires UniqueNumbers(versions)
    ensures UniqueNumbers(versions + [v]) <==> v.number !in VersionNumbers(versions)
  {
    var all := versions + [v];
    if v.number in VersionNumbers(versions) {
      var i :| 0 <= i < |versions| && versions[i].number == v.number;
      assert all[i].number == all[|versions|].number;
    } else {
      forall i, j | 0 <= i < j < |all|
        ensures all[i].number != all[j].number
      {
        if j == |versions| {
          assert all[i] == versions[i];
        } else {
          assert all[i] == versions[i] && all[j] == versions[j];
        }
      }
    }
  }

  /** `prompt.versions.filter_by(version=n).first()`: the earliest row with that number. */
  function FindVersion(versions: seq<PromptVersion>, n: int): (r: Option<PromptVersion>)
    ensures r.None? <==> n !in VersionNumbers(versions)
    ensures r.Some? ==> r.value.number == n && r.value in versions
  {
    if versions == [] then None
    else if versions[0].number == n then Some(versions[0])
    else
      var r := FindVersion(versions[1..], n);
      assert VersionNumbers(versions) == VersionNumbers(versions[1..]) + {versions[0].number} by {
        SplitNumbers(versions);
      }
      r
  }

  lemma SplitNumbers(versions: seq<PromptVersion>)
    requires versions != []
    ensures VersionNumbers(versions) == VersionNumbers(versions[1..]) + {versions[0].number}
  {
    var rest := versions[1..];
    forall n | n in VersionNumbers(versions)
      ensures n in VersionNumbers(rest) + {versions[0].number}
    {
      var i :| 0 <= i < |versions| && versions[i].number == n;
      if i > 0 {
        assert rest[i - 1] == versions[i];
      }
    }
    forall n | n in VersionNumbers(rest)
      ensures n in VersionNumbers(versions)
    {
      var i :| 0 <= i < |rest| && rest[i].number == n;
      assert versions[i + 1] == rest[i];
    }
  }

  /** History only grows, so a lookup that succeeded keeps finding the same row. */
  lemma {:induction false} FindVersionStable(versions: seq<PromptVersion>, v: PromptVersion, n: int)
    requires FindVersion(versions, n).Some?
    ensures FindVersion(versions + [v], n) == FindVersion(versions, n)
  {
    if versions[0].number != n {
      assert (versions + [v])[1..] == versions[1..] + [v];
      FindVersionStable(versions[1..], v, n);
    }
  }

  /** A row appended under a fresh number is what a lookup of that number finds. */
  lemma {:induction false} FindAppended(versions: seq<PromptVersion>, v: PromptVersion)
    requires v.number !in VersionNumbers(versions)
    ensures FindVersion(versions + [v], v.number) == Some(v)
  {
    if versions != [] {
      SplitNumbers(versions);
      assert (versions + [v])[1..] == versions[1..] + [v];
      FindAppended(versions[1..], v);
    }
  }

  /** Everything a prompt template row holds that the routes read or write. */
  datatype PromptState = PromptState(
    fields: PromptFields,
    isActive: bool,
    userId: Option<string>,
    versions: seq<PromptVersion>)

  // ---------------------------------------------------------------------------
  // A prompt template row and the routes that overwrite it
  // ---------------------------------------------------------------------------

  class PromptTemplate {
    const id: string
    var name: string
    var description: Option<string>
    var kind: string
    var templateContent: string
    var variables: Json
    var isActive: bool
    var userId: Option<string>
    /** `prompt.versions`: this template's rows of the version history table. */
    var versions: seq<PromptVersion>

    function Fields(): PromptFields
      reads this
    {
      PromptFields(name, description, kind, templateContent, variables)
    }

    function State(): PromptState
      reads this
    {
      PromptState(Fields(), isActive, userId, versions)
    }

    /** The history satisfies the unique index. */
    predicate Valid()
      reads this
    {
      UniqueNumbers(versions)
    }

    /** A new row with the given fields and no history. The column default of
        `is_active` is not visible in the code, so it is a parameter. */
    constructor (id: string, fields: PromptFields, userId: Option<string>, activeByDefault: bool)
      ensures this.id == id && Fields() == fields && this.userId == userId
      ensures isActive == activeByDefault && versions == []
      ensures Valid()
    {
      this.id := id;
      name := fields.name;
      description := fields.description;
      kind := fields.kind;
      templateContent := fields.templateContent;
      variables := fields.variables;
      this.userId := userId;
      isActive := activeByDefault;
      versions := [];
    }

    /** `create_version(user_id)`: adds a snapshot of the current fields to the
        session's history under the given number. */
    method CreateVersion(editor: Option<string>, number: int)
      modifies this
      ensures versions == old(versions) + [PromptVersion(number, old(Fields()), editor)]
      ensures Fields() == old(Fields()) && isActive == old(isActive) && userId == old(userId)
    {
      versions := versions + [PromptVersion(number, Fields(), editor)];
    }

    /** Puts every column back to `saved`: the session's uncommitted changes are discarded. */
    method RollBack(saved: PromptState)
      modifies this
      ensures State() == saved
    {
      name := saved.fields.name;
      description := saved.fields.description;
      kind := saved.fields.kind;
      templateContent := saved.fields.templateContent;
      variables := saved.fields.variables;
      isActive := saved.isActive;
      userId := saved.userId;
      versions := saved.versions;
    }

    /** `db.session.commit()`: succeeds when the unique index holds; otherwise the
        database raises and the session returns to the last committed state `saved`. */
    method Commit(saved: PromptState) returns (r: Outcome)
      modifies this
      ensures r == Pass <==> old(Valid())
      ensures r == Pass ==> State() == old(State())
      ensures r != Pass ==> r == Fail(IntegrityError) && State() == saved
    {
      if Valid() {
        r := Pass;
      } else {
        RollBack(saved);
        r := Fail(IntegrityError);
      }
    }

    /** `edit_prompt` on a POST: snapshot the current fields first, then overwrite
        name, description, type and template_content from the payload, variables
        with the payload's or `{}`, and is_active with the payload's or True. A
        missing key or a rejected commit leaves the stored row as it was. */
    method Edit(payload: PromptPayload, editor: Option<string>, number: int) returns (r: Outcome)
      requires Valid()
      modifies this
      ensures Valid()
      ensures r == Pass <==> PayloadFields(payload).Success? && number !in VersionNumbers(old(versions))
      ensures r == Pass ==>
        && versions == old(versions) + [PromptVersion(number, old(Fields()), editor)]
        && Fields() == PayloadFields(payload).value
        && isActive == payload.isActive.GetOr(true)
        && userId == old(userId)
      ensures PayloadFields(payload).Failure? ==> r == Fail(PayloadFields(payload).error)
      ensures r != Pass ==> State() == old(State())
    {
      var saved := State();
      CreateVersion(editor, number);
      AppendKeepsUnique(saved.versions, PromptVersion(number, saved.fields, editor));
      if payload.name.None? {
        RollBack(saved);
        return Fail(KeyError("name"));
      }
      name := payload.name.value;
      if payload.description.None? {
        RollBack(saved);
        return Fail(KeyError("description"));
      }
      description := payload.description.value;
      if payload.kind.None? {
        RollBack(saved);
        return Fail(KeyError("type"));
      }
      kind := payload.kind.value;
      if payload.templateContent.None? {
        RollBack(saved);
        return Fail(KeyError("template_content"));
      }
      templateContent := payload.templateContent.value;
      variables := payload.variables.GetOr(EmptyObject);
      isActive := payload.isActive.GetOr(true);
      r := Commit(saved);
    }

    /** `restore_version`: the requested row is looked up first, and when it is
        missing nothing happens and the route reports failure. Otherwise the current
        fields are snapshotted and the five fields of the old row are copied back;
        is_active is left alone. */
    method Restore(target: int, editor: Option<string>, number: int) returns (r: Outcome)
      requires Valid()
      modifies this
      ensures Valid()
      ensures FindVersion(old(versions), target).None? ==> r == Fail(NotFound)
      ensures r == Pass <==> target in VersionNumbers(old(versions)) && number !in VersionNumbers(old(versions))
      ensures r == Pass ==>
        && versions == old(versions) + [PromptVersion(number, old(Fields()), editor)]
        && Fields() == FindVersion(old(versions), target).value.fields
        && isActive == old(isActive)
        && userId == old(userId)
      ensures r != Pass ==> State() == old(State())
    {
      var found := FindVersion(versions, target);
      if found.None? {
        return Fail(NotFound);
      }
      r := Overwrite(found.value.fields, editor, number);
    }

    /** Snapshots the current fields under `number`, copies `fields` over the five
        editable columns and commits; a rejected commit leaves the row as it was. */
    method Overwrite(fields: PromptFields, editor: Option<string>, number: int) returns (r: Outcome)
      requires Valid()
      modifies this
      ensures Valid()
      ensures r == Pass <==> number !in VersionNumbers(old(versions))
      ensures r == Pass ==>
        && versions == old(versions) + [PromptVersion(number, old(Fields()), editor)]
        && Fields() == fields
        && isActive == old(isActive)
        && userId == old(userId)
      ensures r != Pass ==> r == Fail(IntegrityError) && State() == old(State())
    {
      var saved := State();
      CreateVersion(editor, number);
      AppendKeepsUnique(saved.versions, PromptVersion(number, saved.fields, editor));
      name := fields.name;
      description := fields.description;
      kind := fields.kind;
      templateContent := fields.templateContent;
      variables := fields.variables;
      assert Fields() == fields;
      r := Commit(saved);
    }

    /** `delete_prompt`: a soft delete that clears is_active and nothing else. */
    method Delete()
      modifies this
      ensures !isActive
      ensures Fields() == old(Fields()) && userId == old(userId) && versions == old(versions)
    {
      isActive := false;
    }
  }

  /** An edit followed by a restore of the snapshot that edit took brings the
      fields back to what they were before the edit, with two new history rows. */
  method EditThenRestore(p: PromptTemplate, payload: PromptPayload, editor: Option<string>, first: int, second: int)
    returns (edited: Outcome, restored: Outcome)
    requires p.Valid()
    requires first != second
    modifies p
    ensures p.Valid()
    ensures edited == Pass && restored == Pass ==>
      && p.Fields() == old(p.Fields())
      && |p.versions| == |old(p.versions)| + 2
    ensures edited == Pass ==> (restored == Pass <==> second !in VersionNumbers(old(p.versions)))
  {
    ghost var before := p.versions;
    edited := p.Edit(payload, editor, first);
    if edited != Pass {
      restored := Fail(NotFound);
      return;
    }
    FindAppended(before, PromptVersion(first, old(p.Fields()), editor));
    assert VersionNumbers(p.versions) == VersionNumbers(before) + {first} by {
      AppendNumbers(before, PromptVersion(first, old(p.Fields()), editor));
    }
    restored := p.Restore(first, editor, second);
  }

  lemma AppendNumbers(versions: seq<PromptVersion>, v: PromptVersion)
    ensures VersionNumbers(versions + [v]) == VersionNumbers(versions) + {v.number}
  {
    assert (versions + [v])[..|versions|] == versions;
  }

  // ---------------------------------------------------------------------------
  // The table of prompt templates
  // ---------------------------------------------------------------------------

  const DefaultName: string := "Default Book Outline Generator"
  const DefaultDescription: string := "Default template for generating book outlines from questionnaire responses"
  /** The first line of the default template text, which ends in a blank line. */
  const DefaultContentHead: string :=
    "Based on the following questionnaire responses, create a detailed book outline optimized for audio format and engaging listening experience:\n\n"

  /** The lines of the default template text after the `{responses}` placeholder line. */
  const DefaultContentLines: seq<string> := [
    "Please create a well-structured outline that:",
    "1. Maintains a clear narrative flow between chapters",
    "2. Ensures each chapter builds upon previous content",
    "3. Includes transition points between major topics",
    "4. Considers the audio listening experience",
    "",
    "Create a JSON response with the following structure:",
    "{",
    "    \"title\": \"Book Title\",",
    "    \"chapters\": [",
    "        {",
    "            \"number\": 1,",
    "            \"title\": \"Chapter Title\",",
    "            \"summary\": \"Detailed chapter summary including main themes and flow\",",
    "            \"key_points\": [\"Specific key point 1\", \"Specific key point 2\"],",
    "            \"estimated_duration\": \"15-20 minutes\"",
    "        }",
    "    ]",
    "}",
    "",
    "Ensure each chapter is substantial enough for audio content but not too long for comfortable listening."
  ]

  /** The text after the placeholder: a blank line, then the lines above. */
  function DefaultContentTail(): string {
    "\n\n" + Join("\n", DefaultContentLines)
  }

  /** The template seeded into an empty table: an outline prompt whose single
      variable `responses` fills the `{responses}` placeholder of its text. */
  function DefaultPromptFields(): (f: PromptFields)
    ensures f.kind == "outline"
    ensures f.variables.Obj? && f.variables.fields.Keys == {"responses"}
    ensures f.variables.fields["responses"] == Str("JSON object containing questionnaire responses")
    ensures OccursAt(f.templateContent, "{responses}", |DefaultContentHead|)
    ensures f.name == DefaultName && f.description == Some(DefaultDescription)
  {
    ConcatOccurs(DefaultContentHead, "{responses}", DefaultContentTail());
    PromptFields(
      DefaultName,
      Some(DefaultDescription),
      "outline",
      DefaultContentHead + "{responses}" + DefaultContentTail(),
      Obj(map["responses" := Str("JSON object containing questionnaire responses")]))
  }

  class PromptLibrary {
    /** `PromptTemplate.query.all()`, in the order the query returns the rows. */
    var prompts: seq<PromptTemplate>

    constructor ()
      ensures prompts == []
    {
      prompts := [];
    }

    /** `list_prompts`: an empty table gets exactly one row, the default template,
        which is then the whole listing; a table with any rows, active or not, is
        listed as it is. */
    method ListPrompts(freshId: string, activeByDefault: bool) returns (listed: seq<PromptTemplate>)
      modifies this
      ensures listed == prompts
      ensures old(prompts) != [] ==> prompts == old(prompts)
      ensures old(prompts) == [] ==>
        && |prompts| == 1
        && fresh(prompts[0])
        && prompts[0].id == freshId
        && prompts[0].Fields() == DefaultPromptFields()
        && prompts[0].userId == None
        && prompts[0].isActive == activeByDefault
        && prompts[0].versions == []
    {
      if prompts == [] {
        var seeded := new PromptTemplate(freshId, DefaultPromptFields(), None, activeByDefault);
        prompts := [seeded];
      }
      listed := prompts;
    }

    /** `create_prompt` on a POST: a row built from the payload is added, owned by
        the configured default user; a missing required key adds nothing and fails. */
    method CreatePrompt(payload: PromptPayload, owner: Option<string>, freshId: string, activeByDefault: bool)
      returns (r: Result<PromptTemplate>)
      modifies this
      ensures r.Success? <==> PayloadFields(payload).Success?
      ensures r.Failure? ==> r.error == PayloadFields(payload).error && prompts == old(prompts)
      ensures r.Success? ==>
        && fresh(r.value)
        && prompts == old(prompts) + [r.value]
        && r.value.id == freshId
        && r.value.Fields() == PayloadFields(payload).value
        && r.value.userId == owner
        && r.value.isActive == activeByDefault
        && r.value.versions == []
    {
      var fields := PayloadFields(payload);
      if fields.Failure? {
        return Failure(fields.error);
      }
      var prompt := new PromptTemplate(freshId, fields.value, owner, activeByDefault);
      prompts := prompts + [prompt];
      r := Success(prompt);
    }
  }
}
