/**
 * The part of `net/http` that the core talks to: status constants, the objects the
 * handlers ask the JSON encoder to write, and a `ResponseWriter` that records, in order,
 * every header set, status write and body write it receives.
 */
module Http {
  import opened Model

  const StatusOK: int := 200
  const StatusCreated: int := 201
  const StatusNoContent: int := 204
  const StatusBadRequest: int := 400
  const StatusNotFound: int := 404
  const StatusUnprocessableEntity: int := 422
  const StatusInternalServerError: int := 500

  /** A response object handed to `json.Encoder.Encode` (the bytes themselves are not modelled). */
  datatype Payload =
    | ErrorBody(message: string)                       // response.NewError(message)
    | ValidationFailed(field: string, message: string) // UserValidationFailedResponse
    | UserBody(user: User)                             // UserResponse, UserUpdateResponse
    | UsersBody(users: seq<User>)                      // AllUsersResponse
    | DefaultError                                     // the body of response.WriteDefaultError

  /** One call on a response writer. */
  datatype Event =
    | SetHeader(name: string, value: string) // w.Header().Set(name, value)
    | WriteHeader(code: int)                 // w.WriteHeader(code)
    | Write(payload: Payload)                // w.Write(encoded payload)

  /** The connection's response writer: it keeps the calls it received, in order. */
  class ResponseWriter {
    var events: seq<Event>

    constructor ()
      ensures events == []
    {
      events := [];
    }

    method SetHeader(name: string, value: string)
      modifies this
      ensures events == old(events) + [Event.SetHeader(name, value)]
    {
      events := events + [Event.SetHeader(name, value)];
    }

    method WriteHeader(code: int)
      modifies this
      ensures events == old(events) + [Event.WriteHeader(code)]
    {
      events := events + [Event.WriteHeader(code)];
    }

    method Write(payload: Payload)
      modifies this
      ensures events == old(events) + [Event.Write(payload)]
    {
      events := events + [Event.Write(payload)];
    }
  }
}
