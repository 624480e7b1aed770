/**
 * The note entity of src/entities/note.rs: a validated constructor and
 * three in-place mutations. The clock (`Utc::now()`) and the id generator
 * (`Uuid::now_v7()`) are outside the model; their values come in as
 * parameters.
 */
module NoteEntity {
  import opened Wrappers
  import opened Text

  /** A UUID: 128 bits. */
  type Uuid = bv128

  /** A `DateTime<Utc>` instant, as a count of ticks. */
  type Timestamp = int

  /** `NoteError`: the two ways validation can fail. */
  datatype NoteError = EmptyTitle | EmptyContent

  /** The field values of a `Note` struct at one moment. */
  datatype NoteFields = NoteFields(
    id: Uuid,
    title: string,
    summary: Option<string>,
    content: string,
    ownerId: Uuid,
    createdAt: Timestamp,
    updatedAt: Timestamp)

  /** The entity's invariant: neither title nor content is whitespace only. */
  predicate WellFormed(n: NoteFields) {
    !Blank(n.title) && !Blank(n.content)
  }

  /**
   * The two guards of `Note::new`, in their order: the title is checked
   * first, so a blank title wins over a blank content.
   */
  function Validate(title: string, content: string): (r: Option<NoteError>)
    ensures r == Some(EmptyTitle) <==> Blank(title)
    ensures r == Some(EmptyContent) <==> !Blank(title) && Blank(content)
    ensures r == None <==> !Blank(title) && !Blank(content)
  {
    if |Trim(title)| == 0 then Some(EmptyTitle)
    else if |Trim(content)| == 0 then Some(EmptyContent)
    else None
  }

  /**
   * `Note::new`: the fields of the new note, or the validation error.
   * `id` and `now` are the values the constructor reads from the id
   * generator and the clock.
   */
  function NewNote(title: string, summary: Option<string>, content: string, ownerId: Uuid,
                   id: Uuid, now: Timestamp): (r: Result<NoteFields, NoteError>)
    ensures r == Err(EmptyTitle) <==> Blank(title)
    ensures r == Err(EmptyContent) <==> !Blank(title) && Blank(content)
    ensures r.Ok? <==> !Blank(title) && !Blank(content)
    ensures r.Ok? ==> WellFormed(r.value)
    ensures r.Ok? ==> r.value.title == title && r.value.summary == summary
                      && r.value.content == content && r.value.ownerId == ownerId
                      && r.value.id == id
    ensures r.Ok? ==> r.value.createdAt == now && r.value.updatedAt == now
  {
    match Validate(title, content)
    case Some(e) => Err(e)
    case None => Ok(NoteFields(id, title, summary, content, ownerId, now, now))
  }

  /** The `Note` struct, whose `&mut self` methods change its fields in place. */
  class Note {
    var id: Uuid
    var title: string
    var summary: Option<string>
    var content: string
    var ownerId: Uuid
    var createdAt: Timestamp
    var updatedAt: Timestamp

    /** The current field values. */
    function Fields(): NoteFields
      reads this
    {
      NoteFields(id, title, summary, content, ownerId, createdAt, updatedAt)
    }

    /**
     * The class invariant: title and content are not blank, that is, exactly
     * the texts `Note::new` would accept.
     */
    ghost predicate Valid()
      reads this
      ensures Valid() <==> NewNote(title, summary, content, ownerId, id, createdAt).Ok?
    {
      WellFormed(Fields())
    }

    /** Builds an object holding the given field values. */
    constructor (f: NoteFields)
      ensures Fields() == f
    {
      id, title, summary, content := f.id, f.title, f.summary, f.content;
      ownerId, createdAt, updatedAt := f.ownerId, f.createdAt, f.updatedAt;
    }

    /** `Note::new`: a fresh, valid note, or the validation error of `NewNote`. */
    static method New(title: string, summary: Option<string>, content: string, ownerId: Uuid,
                      id: Uuid, now: Timestamp) returns (r: Result<Note, NoteError>)
      ensures NewNote(title, summary, content, ownerId, id, now).Err? ==>
                r == Err(NewNote(title, summary, content, ownerId, id, now).error)
      ensures NewNote(title, summary, content, ownerId, id, now).Ok? ==>
                r.Ok? && fresh(r.value) && r.value.Valid()
                && r.value.Fields() == NewNote(title, summary, content, ownerId, id, now).value
    {
      match NewNote(title, summary, content, ownerId, id, now)
      case Err(e) =>
        r := Err(e);
      case Ok(f) =>
        var n := new Note(f);
        r := Ok(n);
    }

    /**
     * `edit`: a blank content is refused with `EmptyContent` and nothing
     * changes; otherwise the content is replaced and `updatedAt` set to `now`.
     */
    method Edit(newContent: string, now: Timestamp) returns (r: Outcome<NoteError>)
      modifies this
      ensures r == Fail(EmptyContent) <==> Blank(newContent)
      ensures r.Pass? <==> !Blank(newContent)
      ensures r.Fail? ==> Fields() == old(Fields())
      ensures r.Pass? ==> Fields() == old(Fields()).(content := newContent, updatedAt := now)
      ensures old(Valid()) ==> Valid()
    {
      if |Trim(newContent)| == 0 {
        return Fail(EmptyContent);
      }
      content := newContent;
      updatedAt := now;
      return Pass;
    }

    /**
     * `update_summary`: never fails; the summary becomes `Some(newSummary)`
     * and `updatedAt` is set to `now`.
     */
    method UpdateSummary(newSummary: string, now: Timestamp)
      modifies this
      ensures Fields() == old(Fields()).(summary := Some(newSummary), updatedAt := now)
      ensures old(Valid()) ==> Valid()
    {
      summary := Some(newSummary);
      updatedAt := now;
    }

    /**
     * `rename`: a blank title is refused with `EmptyTitle` and nothing
     * changes; otherwise the title is replaced and `updatedAt` set to `now`.
     */
    method Rename(newTitle: string, now: Timestamp) returns (r: Outcome<NoteError>)
      modifies this
      ensures r == Fail(EmptyTitle) <==> Blank(newTitle)
      ensures r.Pass? <==> !Blank(newTitle)
      ensures r.Fail? ==> Fields() == old(Fields())
      ensures r.Pass? ==> Fields() == old(Fields()).(title := newTitle, updatedAt := now)
      ensures old(Valid()) ==> Valid()
    {
      if |Trim(newTitle)| == 0 {
        return Fail(EmptyTitle);
      }
      title := newTitle;
      updatedAt := now;
      return Pass;
    }
  }

  /** The success case of test_note_creation_success: the inputs come back verbatim. */
  lemma CreationSuccessExample(ownerId: Uuid, id: Uuid, now: Timestamp)
    ensures NewNote("Testing title", Some("A short description of the note"),
                    "The content of the note to be created.", ownerId, id, now)
            == Ok(NoteFields(id, "Testing title", Some("A short description of the note"),
                             "The content of the note to be created.", ownerId, now, now))
  {
    assert !IsWs("Testing title"[0]);
    assert !IsWs("The content of the note to be created."[0]);
  }

  /** test_note_creation_empty_title_should_fail. */
  lemma CreationEmptyTitleExample(ownerId: Uuid, id: Uuid, now: Timestamp)
    ensures NewNote("", Some("summary"), "content", ownerId, id, now) == Err(EmptyTitle)
  {
  }

  /** test_note_creation_empty_content_should_fail, plus a whitespace-only content. */
  lemma CreationEmptyContentExample(ownerId: Uuid, id: Uuid, now: Timestamp)
    ensures NewNote("title", Some("summary"), "", ownerId, id, now) == Err(EmptyContent)
    ensures NewNote("title", Some("summary"), "  \t", ownerId, id, now) == Err(EmptyContent)
  {
    assert !IsWs("title"[0]);
  }

  /** A whitespace-only title is refused even when the content is blank too. */
  lemma BlankTitleWinsExample(ownerId: Uuid, id: Uuid, now: Timestamp)
    ensures NewNote("   ", None, " \n", ownerId, id, now) == Err(EmptyTitle)
  {
  }
}
