/**
 * The create-note controller of src/controllers/notes/create_note.rs:
 * forward the input DTO to the use case and translate its errors into
 * controller errors. The use case is a type parameter in the source; here
 * it is a function parameter, and `Interactor` plugs in the model of
 * `CreateNoteInteractor`.
 */
module CreateNoteController {
  import opened Wrappers
  import opened Text
  import E = NoteEntity
  import R = NoteRepository
  import U = CreateNoteUseCase

  /** `CreateNoteControllerInputDTO`. */
  datatype InputDto = InputDto(
    userId: E.Uuid, title: string, summary: Option<string>, content: string)

  /** `CreateNoteControllerOutputDTO`. */
  datatype OutputDto = OutputDto(
    id: E.Uuid, title: string, summary: Option<string>, content: string)

  /** `CreateNoteControllerError`. */
  datatype ControllerError = InvalidNote(detail: string) | NoteAlreadyExist | UnknownError

  /** Anything implementing `CreateNoteInterface::execute`. */
  type UseCase = U.CreateNoteInput -> Result<U.CreateNoteOutput, U.CreateNoteError>

  /** The `CreateNoteInput` built from the DTO: every field forwarded unchanged. */
  function ToUseCaseInput(dto: InputDto): (r: U.CreateNoteInput)
    ensures r.userId == dto.userId && r.title == dto.title
            && r.summary == dto.summary && r.content == dto.content
  {
    U.CreateNoteInput(dto.userId, dto.title, dto.summary, dto.content)
  }

  /** The `map_err` closure: validation errors become `InvalidNote` with a detail. */
  function MapError(e: U.CreateNoteError): (r: ControllerError)
    ensures e == U.EmptyTitle <==> r == InvalidNote("Empty title")
    ensures e == U.EmptyContent <==> r == InvalidNote("Empty content")
    ensures e == U.NoteAlreadyExist <==> r == NoteAlreadyExist
    ensures e == U.UnknownError <==> r == UnknownError
  {
    match e
    case EmptyTitle => InvalidNote("Empty title")
    case EmptyContent => InvalidNote("Empty content")
    case NoteAlreadyExist => NoteAlreadyExist
    case UnknownError => UnknownError
  }

  /** Recovers the use-case error from a controller error that `MapError` produced. */
  function UnmapError(r: ControllerError): (e: Option<U.CreateNoteError>)
    ensures e.Some? ==> MapError(e.value) == r
  {
    match r
    case InvalidNote(d) =>
      if d == "Empty title" then Some(U.EmptyTitle)
      else if d == "Empty content" then Some(U.EmptyContent)
      else None
    case NoteAlreadyExist => Some(U.NoteAlreadyExist)
    case UnknownError => Some(U.UnknownError)
  }

  /** `UnmapError` undoes `MapError`, so distinct use-case errors stay distinct. */
  lemma MapErrorInjective(a: U.CreateNoteError, b: U.CreateNoteError)
    ensures UnmapError(MapError(a)) == Some(a)
    ensures MapError(a) == MapError(b) ==> a == b
  {
  }

  /** The success DTO: every field of the use-case output forwarded unchanged. */
  function ToOutputDto(o: U.CreateNoteOutput): (r: OutputDto)
    ensures r.id == o.id && r.title == o.title && r.summary == o.summary && r.content == o.content
  {
    OutputDto(o.id, o.title, o.summary, o.content)
  }

  /** `CreateNoteController::execute` over a given use case. */
  function Execute(dto: InputDto, useCase: UseCase): (r: Result<OutputDto, ControllerError>)
    ensures useCase(ToUseCaseInput(dto)).Err? <==> r.Err?
    ensures r.Err? ==> r.error == MapError(useCase(ToUseCaseInput(dto)).error)
    ensures r.Ok? ==> r.value == OutputDto(useCase(ToUseCaseInput(dto)).value.id,
                                           useCase(ToUseCaseInput(dto)).value.title,
                                           useCase(ToUseCaseInput(dto)).value.summary,
                                           useCase(ToUseCaseInput(dto)).value.content)
  {
    match useCase(ToUseCaseInput(dto))
    case Err(e) => Err(MapError(e))
    case Ok(o) => Ok(ToOutputDto(o))
  }

  /**
   * The interactor as the controller's use case: it succeeds on an input
   * exactly when the title and content are not blank and `create` accepts
   * the note built from that input.
   */
  function Interactor(id: E.Uuid, now: E.Timestamp, create: U.RepoCreate): (u: UseCase)
    ensures forall input :: u(input) == U.Execute(input, id, now, create).result
    ensures forall input :: u(input).Ok? <==>
              !Blank(input.title) && !Blank(input.content)
              && create(E.NoteFields(id, input.title, input.summary, input.content,
                                     input.userId, now, now)).Pass?
  {
    input => U.Execute(input, id, now, create).result
  }

  /** End to end: a blank title gives `InvalidNote("Empty title")` and no repository call. */
  lemma BlankTitleEndToEnd(dto: InputDto, id: E.Uuid, now: E.Timestamp, create: U.RepoCreate)
    requires Blank(dto.title)
    ensures Execute(dto, Interactor(id, now, create)) == Err(InvalidNote("Empty title"))
    ensures U.Execute(ToUseCaseInput(dto), id, now, create).created == None
  {
  }

  /** End to end: a valid title with a blank content gives `InvalidNote("Empty content")`, no call. */
  lemma BlankContentEndToEnd(dto: InputDto, id: E.Uuid, now: E.Timestamp, create: U.RepoCreate)
    requires !Blank(dto.title) && Blank(dto.content)
    ensures Execute(dto, Interactor(id, now, create)) == Err(InvalidNote("Empty content"))
    ensures U.Execute(ToUseCaseInput(dto), id, now, create).created == None
  {
  }

  /**
   * End to end: with valid text the controller's verdict is the repository's,
   * and on success the output DTO carries the input's text and the new id.
   */
  lemma ValidInputEndToEnd(dto: InputDto, id: E.Uuid, now: E.Timestamp, create: U.RepoCreate)
    requires !Blank(dto.title) && !Blank(dto.content)
    ensures var note := E.NoteFields(id, dto.title, dto.summary, dto.content, dto.userId, now, now);
            Execute(dto, Interactor(id, now, create))
            == match create(note)
               case Pass => Ok(OutputDto(id, dto.title, dto.summary, dto.content))
               case Fail(e) =>
                 if e == R.NoteAlreadyExist then Err(NoteAlreadyExist) else Err(UnknownError)
  {
  }
}
