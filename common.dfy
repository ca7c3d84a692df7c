/** Small shared datatypes: optional values, the backend's role enum and
    the "present route parameter" check used by every page. */
module Common {

  datatype Option<+T> = None | Some(value: T) {
    /** `x || default` for a nullable value. */
    function GetOr(default: T): T {
      match this
      case Some(v) => v
      case None => default
    }
  }

  /** The backend's `app_role` enum. */
  datatype AppRole = Student | Teacher | Admin | Parent

  /** A route parameter or id is usable only when it is set and non-empty
      (JavaScript truthiness of a string). */
  predicate Present(p: Option<string>) {
    p.Some? && p.value != ""
  }

  /** The result of one backend read: the rows (null allowed) or an error. */
  datatype QueryResult<+T> = QueryOk(data: T) | QueryError(message: string)

  /** The result of one backend write: accepted, rejected with an error
      object, or the call itself threw. */
  datatype WriteResult = WriteOk | WriteRejected(code: string, message: string) | WriteThrew
}
