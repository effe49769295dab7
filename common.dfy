/**
 * Small value types shared by every module of the model: the JavaScript
 * `null`/`undefined` of a field (Option) and the outcome of a database write
 * (Result with the storage engine's failure kinds).
 */
module Common {

  /** A value that may be absent (JavaScript `null`/`undefined`, SQL NULL). */
  datatype Option<+T> = None | Some(value: T) {
    function GetOr(default: T): T {
      match this
      case Some(v) => v
      case None => default
    }
  }

  /** Why the storage engine refused a statement. */
  datatype DbError =
    | NotNullViolation(column: string)   // a NOT NULL column received NULL
    | UniqueViolation(column: string)    // a UNIQUE column received a duplicate

  /** The outcome of one executed statement. */
  datatype Result<+T> = Ok(value: T) | Err(error: DbError)
}
