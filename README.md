# rust-notes: the note entity and the create-note flow, in Dafny

This project models the domain core of a small note-taking service written in
Rust:

- the `Note` entity (`src/entities/note.rs`): a constructor that refuses a
  blank title or a blank content, and three in-place mutations (`edit`,
  `rename`, `update_summary`);
- the create-note interactor (`src/use_cases/notes/create_note.rs`): validate
  through `Note::new`, hand the note to the repository's `create`, translate
  the errors of both layers into `CreateNoteError`;
- the create-note controller (`src/controllers/notes/create_note.rs`): forward
  the input DTO, translate `CreateNoteError` into `CreateNoteControllerError`,
  forward the output DTO.

Files, one module each:

| file | module | models |
|---|---|---|
| `wrappers.dfy` | `Wrappers` | Rust's `Option`, `Result`, `Result<(), E>` |
| `text.dfy` | `Text` | `char::is_whitespace` and `str::trim` |
| `note.dfy` | `NoteEntity` | `Note`, `NoteError`, `Note::new`, `edit`, `update_summary`, `rename` |
| `note_repository.dfy` | `NoteRepository` | `NoteRepositoryError` |
| `create_note_use_case.dfy` | `CreateNoteUseCase` | the interactor's DTOs, `CreateNoteError`, `execute` |
| `create_note_controller.dfy` | `CreateNoteController` | the controller's DTOs, `CreateNoteControllerError`, `execute` |

Modelling decisions:

- A string is "blank" (`Text.Blank`) when every character is whitespace. The
  source's guard `s.trim().len() == 0` is modelled literally as
  `|Trim(s)| == 0`, with `Trim` stripping both ends. The contract of
  `Text.Trim` states that the two agree. `Text.IsWs` lists the code points with the Unicode
  `White_Space` property, which is what `char::is_whitespace` tests. No proof
  depends on which code points are in that list, except the concrete examples.
- `Note::new` is pure, so `NoteEntity.NewNote` models it as a function on a
  value record, `NoteFields`. The struct's in-place mutations live in the
  class `NoteEntity.Note`. Its fields are the struct's fields. Its `Valid()`
  is the entity invariant: title and content are not blank, which is exactly
  when `NewNote` would accept them. `Note.New`
  allocates a `Note` from `NewNote`'s result.
- `Utc::now()` and `Uuid::now_v7()` become the parameters `now` and `id`.
  `Uuid` is `bv128`. `Timestamp` is an `int`.
- The repository trait has no implementation. Its `create` becomes a
  function parameter of type `NoteFields -> Outcome<NoteRepositoryError>`.
  `CreateNoteUseCase.Execute` returns the use case's result together with the
  note it passed to `create`, or `None` when `create` was never reached.
- The controller is generic over any `CreateNoteInterface`, so
  `CreateNoteController.Execute` takes the use case as a function parameter.
  `CreateNoteController.Interactor` plugs in the interactor's model, which
  gives the end-to-end lemmas.
- The interactor's first `match` has an arm `_ => CreateNoteError::UnknownError`
  (src/use_cases/notes/create_note.rs:55). That arm is unreachable because
  `NoteError` has only the two variants already matched. `FromNoteError` leaves
  it out, and its contract says that no entity error maps to `UnknownError`.
- The code stores whatever the clock returns as `updated_at`, so nothing is
  claimed about `updated_at` growing over time or staying `>= created_at`.

## Model

| member | source | states |
|---|---|---|
| Text.WhitespaceRange | src/entities/note.rs:34 | what `IsWs`, the model of `char::is_whitespace` that `trim` applies, accepts: among ASCII characters exactly tab, line feed, vertical tab, form feed, carriage return and space are whitespace, and no whitespace code point lies above U+3000 |
| Text.TrimStart | src/entities/note.rs:34 | the leading-whitespace strip of `trim`: the result is a suffix of the input, everything dropped is whitespace, and the result is empty or starts with a non-whitespace character |
| Text.TrimEnd | src/entities/note.rs:34 | the trailing-whitespace strip of `trim`: the result is a prefix, everything dropped is whitespace, and the result is empty or ends with a non-whitespace character |
| Text.Trim | src/entities/note.rs:34-39 | `s.trim()` as used by the guards of `new`, `edit` and `rename`: the trimmed string is empty exactly when every character of `s` is whitespace, and otherwise it has no whitespace at either end |
| Text.TrimIsInnerSlice | src/entities/note.rs:34 | `trim` keeps a contiguous slice of its input with only whitespace on either side |
| NoteEntity.Validate | src/entities/note.rs:34-39 | the guards of `new`: `EmptyTitle` exactly when the title is blank, even when the content is blank too; `EmptyContent` exactly when the title is not blank and the content is; no error exactly when both are not blank |
| NoteEntity.NewNote | src/entities/note.rs:26-49 | `new` fails with `EmptyTitle` iff the title is blank and with `EmptyContent` iff only the content is blank; on success the title, summary, content and owner are the inputs verbatim (untrimmed), the id is the generated one, `created_at == updated_at == now`, and the invariant holds |
| NoteEntity.Note.Valid | src/entities/note.rs:34-39 | the entity invariant: title and content are not blank, which holds exactly when `new` would accept the note's texts |
| NoteEntity.Note.constructor | src/entities/note.rs:40-48 | the struct literal: the object holds exactly the given field values |
| NoteEntity.Note.New | src/entities/note.rs:26-49 | returns `new`'s error unchanged, or a fresh note that satisfies the invariant and holds exactly the fields `NewNote` computes |
| NoteEntity.Note.Edit | src/entities/note.rs:51-58 | succeeds iff the new content is not blank and fails with `EmptyContent` otherwise, and then every field is unchanged, `updated_at` included; on success only `content` and `updated_at` change; the invariant is preserved |
| NoteEntity.Note.UpdateSummary | src/entities/note.rs:60-63 | never fails; `summary` becomes `Some(s)`, `updated_at` becomes `now`, nothing else changes; the invariant is preserved |
| NoteEntity.Note.Rename | src/entities/note.rs:65-72 | succeeds iff the new title is not blank and fails with `EmptyTitle` otherwise, and then every field is unchanged; on success only `title` and `updated_at` change; the invariant is preserved |
| NoteEntity.CreationSuccessExample | src/entities/note.rs:79-93 | the success test's inputs produce a note holding exactly those inputs, with both timestamps equal to `now` |
| NoteEntity.CreationEmptyTitleExample | src/entities/note.rs:95-104 | an empty title fails with `EmptyTitle` |
| NoteEntity.CreationEmptyContentExample | src/entities/note.rs:106-115 | an empty content, or one of only spaces and a tab, fails with `EmptyContent` when the title is valid |
| NoteEntity.BlankTitleWinsExample | src/entities/note.rs:34-39 | a whitespace-only title gives `EmptyTitle` even when the content is blank too |
| CreateNoteUseCase.FromNoteError | src/use_cases/notes/create_note.rs:52-56 | entity `EmptyTitle`/`EmptyContent` become the use-case errors of the same name, both ways; the result is always `EmptyTitle` or `EmptyContent`, so validation never yields `UnknownError` or `NoteAlreadyExist` |
| CreateNoteUseCase.FromRepositoryError | src/use_cases/notes/create_note.rs:60-63 | `NoteAlreadyExist` becomes `NoteAlreadyExist`, and every other repository error becomes `UnknownError` |
| CreateNoteUseCase.ToOutput | src/use_cases/notes/create_note.rs:65-70 | the output's id, title, summary and content are those of the persisted note |
| CreateNoteUseCase.Execute | src/use_cases/notes/create_note.rs:48-71 | `create` is called iff title and content are not blank, with `owner_id == user_id`, the input's text, the generated id and `now`; a blank title gives `EmptyTitle` and otherwise a blank content gives `EmptyContent`; without a call the error is always a validation error; a repository failure is translated; success iff validation passes and `create` returns `Ok`, and the output mirrors the input |
| CreateNoteUseCase.DuplicateSurfacesAsNoteAlreadyExist | src/use_cases/notes/create_note.rs:59-63 | a valid input with a repository that reports a duplicate gives `NoteAlreadyExist` |
| CreateNoteUseCase.CreateExample | src/use_cases/notes/create_note.rs:48-71 | the entity success test's title, summary and content, with an accepting repository, come back with the new id, and the persisted note's owner is the input's user |
| CreateNoteController.ToUseCaseInput | src/controllers/notes/create_note.rs:43-48 | the user id, title, summary and content of the input DTO are forwarded unchanged |
| CreateNoteController.MapError | src/controllers/notes/create_note.rs:50-59 | total; `EmptyTitle` iff `InvalidNote{"Empty title"}`, `EmptyContent` iff `InvalidNote{"Empty content"}`, `NoteAlreadyExist` and `UnknownError` iff their same-named controller variants |
| CreateNoteController.UnmapError | src/controllers/notes/create_note.rs:50-59 | the partial inverse of the `map_err` mapping: whatever it recovers maps back to the given controller error |
| CreateNoteController.MapErrorInjective | src/controllers/notes/create_note.rs:50-59 | `UnmapError` undoes `MapError`, so distinct use-case errors give distinct controller errors |
| CreateNoteController.ToOutputDto | src/controllers/notes/create_note.rs:61-66 | the output DTO's id, title, summary and content are the use-case output's |
| CreateNoteController.Execute | src/controllers/notes/create_note.rs:37-67 | fails iff the use case fails, with the mapped error; on success the output DTO carries the use case's output fields |
| CreateNoteController.Interactor | src/use_cases/notes/create_note.rs:46-48 | `CreateNoteInteractor` as an implementation of `CreateNoteInterface`: it returns the interactor's result, and succeeds on an input exactly when title and content are not blank and `create` accepts the note built from that input |
| CreateNoteController.BlankTitleEndToEnd | src/controllers/notes/create_note.rs:41-59 | composed with the interactor, a blank title gives `InvalidNote{"Empty title"}` and the repository is never called |
| CreateNoteController.BlankContentEndToEnd | src/controllers/notes/create_note.rs:41-59 | composed with the interactor, a valid title and a blank content give `InvalidNote{"Empty content"}` and the repository is never called |
| CreateNoteController.ValidInputEndToEnd | src/controllers/notes/create_note.rs:41-66 | composed with the interactor, valid text gives the input's text with the new id when `create` succeeds, `NoteAlreadyExist` on a duplicate and `UnknownError` otherwise |

## Left out

- The clock and the id generator (`Utc::now()`, `Uuid::now_v7()`): their values are parameters. Nothing is claimed about `updated_at` growing over time, and the code does not promise it either.
- The exact byte length that `.len()` returns: only whether it is zero matters, and that depends only on whether the trimmed string is empty.
- The repository's storage: `NoteRepository`'s `create` has no implementation in the repository, so its outcome is an input. `get_by_id`, `get_by_owner`, `update` and `delete` are never called by the modelled core.
- Async/await, `Send + Sync` and `async_trait`: concurrency plumbing with no behaviour of its own.
- The `#[error(...)]` display strings of `NoteError`, `CreateNoteError`, `NoteRepositoryError` and `CreateNoteControllerError`: formatting only. The controller's `detail` strings are modelled.
- The older duplicate layer under `src/domain` and `src/application`: it is not self-consistent. Its `Note::new` has no validation and returns `Self`, yet its caller applies `?` to that result, and it imports a `NoteError` that its entity file does not define. Its mutations there are plain setters.
- The `_ => UnknownError` arm of the interactor's first `match`: it is unreachable, so it is not written in the Dafny match.
- Rust's ownership moves (the input strings are moved into the note and then into the output): values are immutable in the model, so the moves have no visible effect.
