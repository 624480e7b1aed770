/**
 * The create-note interactor of src/use_cases/notes/create_note.rs:
 * validate the input through the entity constructor, hand the note to the
 * repository's `create`, and translate the errors of both layers.
 */
module CreateNoteUseCase {
  import opened Wrappers
  import opened Text
  import E = NoteEntity
  import R = NoteRepository

  /** `CreateNoteInput`. */
  datatype CreateNoteInput = CreateNoteInput(
    userId: E.Uuid, title: string, summary: Option<string>, content: string)

  /** `CreateNoteOutput`. */
  datatype CreateNoteOutput = CreateNoteOutput(
    id: E.Uuid, title: string, summary: Option<string>, content: string)

  /** `CreateNoteError`. */
  datatype CreateNoteError = EmptyTitle | EmptyContent | NoteAlreadyExist | UnknownError

  /**
   * A run of `execute`: what it returns, and the note it handed to the
   * repository's `create` (`None` when `create` was never called).
   */
  datatype Execution = Execution(
    result: Result<CreateNoteOutput, CreateNoteError>,
    created: Option<E.NoteFields>)

  /** The repository's `create`, as the outcome it reports for each note. */
  type RepoCreate = E.NoteFields -> Outcome<R.NoteRepositoryError>

  /**
   * The first `match` of `execute`: each entity error becomes the use-case
   * error of the same name, so validation never yields `UnknownError` or
   * `NoteAlreadyExist`.
   */
  function FromNoteError(e: E.NoteError): (r: CreateNoteError)
    ensures r == EmptyTitle <==> e == E.EmptyTitle
    ensures r == EmptyContent <==> e == E.EmptyContent
    ensures r in {EmptyTitle, EmptyContent}
  {
    match e
    case EmptyTitle => EmptyTitle
    case EmptyContent => EmptyContent
  }

  /**
   * The second `match` of `execute`: a duplicate becomes `NoteAlreadyExist`,
   * every other repository error `UnknownError`.
   */
  function FromRepositoryError(e: R.NoteRepositoryError): (r: CreateNoteError)
    ensures r == NoteAlreadyExist <==> e == R.NoteAlreadyExist
    ensures r == UnknownError <==> e != R.NoteAlreadyExist
  {
    match e
    case NoteAlreadyExist => NoteAlreadyExist
    case _ => UnknownError
  }

  /** The success DTO built from the note that was persisted. */
  function ToOutput(n: E.NoteFields): (r: CreateNoteOutput)
    ensures r.id == n.id && r.title == n.title && r.summary == n.summary && r.content == n.content
  {
    CreateNoteOutput(n.id, n.title, n.summary, n.content)
  }

  /**
   * `CreateNoteInteractor::execute`. `id` and `now` are what `Note::new`
   * reads from the id generator and the clock; `create` is the repository.
   */
  function Execute(input: CreateNoteInput, id: E.Uuid, now: E.Timestamp, create: RepoCreate): (x: Execution)
    // `create` is reached exactly when validation passes, with the input's note
    ensures x.created.Some? <==> !Blank(input.title) && !Blank(input.content)
    ensures x.created.Some? ==>
              x.created.value == E.NoteFields(id, input.title, input.summary, input.content,
                                              input.userId, now, now)
    // validation failures, title first
    ensures Blank(input.title) ==> x.result == Err(EmptyTitle)
    ensures !Blank(input.title) && Blank(input.content) ==> x.result == Err(EmptyContent)
    // repository failures
    ensures x.created.Some? && create(x.created.value).Fail? ==>
              x.result == Err(FromRepositoryError(create(x.created.value).error))
    // without a repository call the error is a validation error
    ensures x.created.None? ==> x.result.Err? && x.result.error in {EmptyTitle, EmptyContent}
    // success exactly when validation and `create` both pass; the DTO mirrors the input
    ensures x.result.Ok? <==> x.created.Some? && create(x.created.value).Pass?
    ensures x.result.Ok? ==>
              x.result.value == CreateNoteOutput(id, input.title, input.summary, input.content)
  {
    match E.NewNote(input.title, input.summary, input.content, input.userId, id, now)
    case Err(e) => Execution(Err(FromNoteError(e)), None)
    case Ok(note) =>
      match create(note)
      case Fail(e) => Execution(Err(FromRepositoryError(e)), Some(note))
      case Pass => Execution(Ok(ToOutput(note)), Some(note))
  }

  /** End to end with a well-formed input and a repository that reports a duplicate. */
  lemma DuplicateSurfacesAsNoteAlreadyExist(input: CreateNoteInput, id: E.Uuid, now: E.Timestamp,
                                            create: RepoCreate)
    requires !Blank(input.title) && !Blank(input.content)
    requires forall n :: create(n) == Fail(R.NoteAlreadyExist)
    ensures Execute(input, id, now, create).result == Err(NoteAlreadyExist)
  {
  }

  /** End to end: the input of the entity's success test is persisted and echoed. */
  lemma CreateExample(userId: E.Uuid, id: E.Uuid, now: E.Timestamp, create: RepoCreate)
    requires forall n :: create(n) == Pass
    ensures var x := Execute(CreateNoteInput(userId, "Testing title",
                                             Some("A short description of the note"),
                                             "The content of the note to be created."),
                             id, now, create);
            x.result == Ok(CreateNoteOutput(id, "Testing title",
                                            Some("A short description of the note"),
                                            "The content of the note to be created."))
            && x.created.Some? && x.created.value.ownerId == userId
  {
    assert !IsWs("Testing title"[0]);
    assert !IsWs("The content of the note to be created."[0]);
  }
}
