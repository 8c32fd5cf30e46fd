/** Results and the exceptions the film catalogue raises, as values. */
module Wrappers {

  datatype Option<+T> = None | Some(value: T)

  /** The kind of record a NotFoundException talks about. */
  datatype Entity = UserEntity | FilmEntity | ReviewEntity | DirectorEntity | GenreEntity | MpaEntity

  /** The exceptions thrown by the modelled code. */
  datatype Error =
    | NotFound(entity: Entity, id: Option<int>)   // NotFoundException naming one id (None: the id was null)
    | GenresNotFound(missing: set<int>)           // NotFoundException listing several genre ids
    | Validation                                  // ValidationException
    | IllegalArgument                             // IllegalArgumentException
    | EmptyResult                                 // EmptyResultDataAccessException from queryForObject
    | NoSuchElement                               // NoSuchElementException from List.getFirst
    | NullReference                               // dereferencing a null reference

  datatype Result<+T> = Ok(value: T) | Err(error: Error)

  /** A check that either passes or throws. */
  datatype Outcome = Pass | Fail(error: Error)
}
