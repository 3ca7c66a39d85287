/** Values shared by every part of the model: optional values, the HTTP
    statuses the views answer with, and the loosely typed values that
    request bodies and model attributes carry. */
module Http {

  datatype Option<+T> = None | Some(value: T)

  /** The statuses the views produce. `ServerError500` stands for an
      exception that no handler catches (Django answers 500). */
  datatype Status =
    | Ok200
    | Created201
    | NoContent204
    | BadRequest400
    | NotFound404
    | NotAcceptable406
    | ServerError500

  /** A JSON-like value as it appears in a request body or as the value of
      a model attribute set through `setattr`. */
  datatype Value = Null | Bool(b: bool) | Int(i: int) | Str(s: string)

  /** Python truthiness of a value: `None`, `False`, `0` and `""` are false. */
  predicate Truthy(v: Value)
  {
    match v
    case Null => false
    case Bool(b) => b
    case Int(i) => i != 0
    case Str(s) => s != ""
  }

  /** The id a request value names when the ORM compares it with an integer
      column: a number, `True` as 1 and `False` as 0, or a text the
      conversion `parseId` accepts (`"3"` names 3). `None` when the lookup
      raises `ValueError` or `TypeError` instead. */
  function KeyOf(v: Value, parseId: string -> Option<int>): Option<int>
  {
    match v
    case Int(i) => Some(i)
    case Bool(b) => Some(if b then 1 else 0)
    case Str(s) => parseId(s)
    case Null => None
  }
}
