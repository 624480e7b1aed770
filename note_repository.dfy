/**
 * The error type of the `NoteRepository` trait in
 * src/use_cases/repositories/note_repository.rs. The trait has no
 * implementation in the repository, so its `create` operation enters the
 * model of the use case as a function parameter.
 */
module NoteRepository {

  /** `NoteRepositoryError`. */
  datatype NoteRepositoryError = NoteNotFound | NoteAlreadyExist
}
