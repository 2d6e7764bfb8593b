/** Identifiers, the error-carrying result types, the HTTP response shape
    and the store's availability, shared by every module of the model. */
module Common {

  /** Every identifier of the schema is a string (a generated uuid). */
  type UserId = string
  type GroupId = string
  type ConversationId = string
  type MessageId = string

  /** A `createdAt` / `joinedAt` timestamp, as given by the store's clock. */
  type Time = int

  datatype Option<+T> = None | Some(value: T)

  /** A service call either returns a value or throws an Error with a message. */
  datatype Result<+T> = Ok(value: T) | Err(error: string)

  /** The database behind the services: answering, or failing every call
      with the given error message (connection loss, constraint violation). */
  datatype Store = Up | Down(error: string)

  /** JavaScript truthiness of a request field that may be absent:
      `undefined` and the empty string are falsy. */
  predicate Truthy(field: Option<string>)
  {
    field.Some? && field.value != ""
  }

  /** The JSON body an Express handler sends. */
  datatype Body<+T> =
    | ErrorBody(error: string)          // { error: ... }
    | Json(data: T)                     // the value itself
    | Info(message: string)             // { message: ... }
    | InfoData(message: string, data: T) // { message: ..., data | user: ... }

  /** `res.status(status).json(body)`. */
  datatype Response<+T> = Response(status: int, body: Body<T>)
}
