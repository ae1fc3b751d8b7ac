/**
 * The user HTTP handlers: which responses each of Create, Get, GetAll, Update and Delete
 * writes for each validation and service outcome, through the status-capturing writer.
 */
module Handler {
  import opened Wrappers
  import opened Model
  import opened Http
  import opened Storage
  import opened Service
  import opened Middleware
  import Response

  /** The request body after `json.NewDecoder(r.Body).Decode`: an error, or the two fields. */
  datatype RequestBody = Undecodable(reason: string) | Decoded(name: string, email: string)

  /** What a handler reads from a request: the `{id}` path variable ("" when absent) and the body. */
  datatype Request = Request(pathId: string, body: RequestBody)

  const InvalidUserIdMessage: string := "invalid user ID"
  const UserCreatedEvent: string := "user_created"

  class UserHandler {
    const service: UserService
    const notifier: Notifier
    /** Whether `uuid.Parse` accepts a string. */
    const isUuid: string -> bool
    /** `mail.ParseAddress`: `Fail(message)` when it returns an error. */
    const parseAddress: string -> Outcome<string>

    /** The service is valid; `uuid.Parse("")` and `mail.ParseAddress("")` both fail. */
    ghost predicate Valid()
      reads service
    {
      service.Valid() && !isUuid("") && parseAddress("").Fail?
    }

    constructor (service: UserService, notifier: Notifier, isUuid: string -> bool, parseAddress: string -> Outcome<string>)
      requires service.Valid() && !isUuid("") && parseAddress("").Fail?
      ensures Valid()
      ensures this.service == service && this.notifier == notifier
      ensures this.isUuid == isUuid && this.parseAddress == parseAddress
    {
      this.service := service;
      this.notifier := notifier;
      this.isUuid := isUuid;
      this.parseAddress := parseAddress;
    }

    /** The writes of validateIncomingUserOrWriteError for `user`. */
    function ValidationEvents(user: User): seq<Event>
    {
      if user.name == "" then
        Response.WriteEvents(Some(ValidationFailed("name", "name is required")), StatusBadRequest)
      else
        (if user.email == "" then
           Response.WriteEvents(Some(ValidationFailed("email", "email is required")), StatusBadRequest)
         else [])
        + (match parseAddress(user.email)
           case Pass => []
           case Fail(message) =>
             Response.WriteEvents(Some(ValidationFailed("email", "email not valid: " + message)), StatusBadRequest))
    }

    /**
     * The validator writes nothing exactly for a named user with a parseable address;
     * every status it writes is 400; an empty address responds twice.
     */
    lemma ValidationResponses(user: User)
      requires Valid()
      ensures ValidationEvents(user) == [] <==> user.name != "" && parseAddress(user.email).Pass?
      ensures forall i :: 0 <= i < |ValidationEvents(user)| && ValidationEvents(user)[i].WriteHeader? ==>
        ValidationEvents(user)[i].code == StatusBadRequest
      ensures user.name != "" && user.email == "" ==>
        |ValidationEvents(user)| == 6 && ValidationEvents(user)[1] == ValidationEvents(user)[4] == WriteHeader(StatusBadRequest)
    {
    }

    /** getUserIDParamOrWriteError: the path id when it parses as a UUID, else a 400. */
    method GetUserIdParamOrWriteError(w: InterceptStatusWriter, r: Request) returns (userId: string, ok: bool)
      requires w.Valid()
      modifies w, w.inner
      ensures w.Valid()
      ensures ok == isUuid(r.pathId)
      ensures ok ==> userId == r.pathId && w.history == old(w.history) && w.statusCode == old(w.statusCode)
      ensures !ok ==>
        && userId == ""
        && w.history == old(w.history) + Response.WriteEvents(Some(ErrorBody(InvalidUserIdMessage)), StatusBadRequest)
        && w.statusCode == StatusBadRequest
    {
      var id := r.pathId;
      if !isUuid(id) {
        Response.Write(w, Some(ErrorBody(InvalidUserIdMessage)), StatusBadRequest);
        return "", false;
      }
      return id, true;
    }

    /**
     * validateIncomingUserOrWriteError: false only for an empty name (after one 400);
     * a missing or unparseable address is answered with 400s and still gives true.
     */
    method ValidateIncomingUserOrWriteError(w: InterceptStatusWriter, user: User) returns (ok: bool)
      requires w.Valid()
      modifies w, w.inner
      ensures w.Valid()
      ensures ok == (user.name != "")
      ensures w.history == old(w.history) + ValidationEvents(user)
      ensures !ok ==> w.statusCode == StatusBadRequest
    {
      ok := false;
      if user.name == "" {
        Response.Write(w, Some(ValidationFailed("name", "name is required")), StatusBadRequest);
        return;
      }
      if user.email == "" {
        Response.Write(w, Some(ValidationFailed("email", "email is required")), StatusBadRequest);
      }
      match parseAddress(user.email) {
        case Fail(message) =>
          Response.Write(w, Some(ValidationFailed("email", "email not valid: " + message)), StatusBadRequest);
        case Pass =>
      }
      ok := true;
    }

    /**
     * Create: 422 for an undecodable body; after a failed name check nothing else happens;
     * otherwise the service is called, and a success is notified and answered 201 with the
     * created user, a failure answered with the default error and not notified.
     */
    method Create(w: InterceptStatusWriter, r: Request)
      requires Valid() && w.Valid()
      modifies w, w.inner, service`generated, service`issued, service.storage`entries, notifier
      ensures Valid() && w.Valid()
      ensures r.body.Undecodable? ==>
        && w.history == old(w.history)
             + Response.WriteEvents(Some(ErrorBody(r.body.reason)), StatusUnprocessableEntity)
        && w.statusCode == StatusUnprocessableEntity
        && service.generated == old(service.generated)
        && service.storage.entries == old(service.storage.entries) && notifier.sent == old(notifier.sent)
      ensures r.body.Decoded? && r.body.name == "" ==>
        && w.history == old(w.history) + ValidationEvents(User("", r.body.name, r.body.email))
        && w.statusCode == StatusBadRequest
        && service.generated == old(service.generated)
        && service.storage.entries == old(service.storage.entries) && notifier.sent == old(notifier.sent)
      ensures r.body.Decoded? && r.body.name != "" ==>
        var user := User("", r.body.name, r.body.email);
        var created := user.(id := service.newUuid(old(service.generated)));
        && service.generated == old(service.generated) + 1
        && (service.storage.failure.None? ==>
              && service.storage.entries == old(service.storage.entries)[StorageKey(created.id) := created]
              && notifier.sent == old(notifier.sent) + [Notification(map["user_id" := created.id, MessageKey := UserCreatedEvent])]
              && w.history == old(w.history) + ValidationEvents(user)
                   + Response.WriteEvents(Some(UserBody(created)), StatusCreated)
              && w.statusCode == StatusCreated)
        && (service.storage.failure.Some? ==>
              && service.storage.entries == old(service.storage.entries) && notifier.sent == old(notifier.sent)
              && w.history == old(w.history) + ValidationEvents(user)
                   + Response.WriteEvents(Some(DefaultError), StatusInternalServerError)
              && w.statusCode == StatusInternalServerError)
    {
      match r.body {
        case Undecodable(reason) =>
          Response.Write(w, Some(ErrorBody(reason)), StatusUnprocessableEntity);
        case Decoded(name, email) =>
          var user := User("", name, email);
          var ok := ValidateIncomingUserOrWriteError(w, user);
          if !ok {
            return;
          }
          var created, err := service.Create(user);
          if err.Some? {
            Response.WriteDefaultError(w);
            return;
          }
          notifier.Send(UserCreatedEvent, map["user_id" := created.id]);
          Response.Write(w, Some(UserBody(created)), StatusCreated);
      }
    }

    /** GetAll: 200 with every stored user, or the default error when the store fails. */
    method GetAll(w: InterceptStatusWriter)
      requires w.Valid()
      modifies w, w.inner
      ensures w.Valid()
      ensures service.storage.failure.Some? ==>
        && w.history == old(w.history) + Response.WriteEvents(Some(DefaultError), StatusInternalServerError)
        && w.statusCode == StatusInternalServerError
      ensures service.storage.failure.None? ==>
        && w.statusCode == StatusOK
        && exists keys, users :: Enumerates(service.storage.entries, keys, users)
             && w.history == old(w.history) + Response.WriteEvents(Some(UsersBody(users)), StatusOK)
    {
      var users, keys := service.GetAll();
      if users.Err? {
        Response.WriteDefaultError(w);
        return;
      }
      Response.Write(w, Some(UsersBody(users.value)), StatusOK);
    }

    /** Get: 200 with the user, 404 when it does not exist, the default error otherwise. */
    method Get(w: InterceptStatusWriter, r: Request)
      requires w.Valid()
      modifies w, w.inner
      ensures w.Valid()
      ensures !isUuid(r.pathId) ==>
        && w.history == old(w.history) + Response.WriteEvents(Some(ErrorBody(InvalidUserIdMessage)), StatusBadRequest)
        && w.statusCode == StatusBadRequest
      ensures isUuid(r.pathId) && service.storage.failure.None? && StorageKey(r.pathId) in service.storage.entries ==>
        && w.history == old(w.history)
             + Response.WriteEvents(Some(UserBody(service.storage.entries[StorageKey(r.pathId)])), StatusOK)
        && w.statusCode == StatusOK
      ensures (&& isUuid(r.pathId)
               && (|| service.storage.failure == Some(KeyNotFound)
                   || (service.storage.failure.None? && StorageKey(r.pathId) !in service.storage.entries))) ==>
        && w.history == old(w.history)
             + Response.WriteEvents(Some(ErrorBody(UserDoesNotExistMessage)), StatusNotFound)
        && w.statusCode == StatusNotFound
      ensures isUuid(r.pathId) && service.storage.failure.Some? && service.storage.failure != Some(KeyNotFound) ==>
        && w.history == old(w.history) + Response.WriteEvents(Some(DefaultError), StatusInternalServerError)
        && w.statusCode == StatusInternalServerError
    {
      var userId, ok := GetUserIdParamOrWriteError(w, r);
      if !ok {
        return;
      }
      var got := service.Get(userId);
      if got.Err? {
        if got.error == UserDoesNotExist {
          Response.Write(w, Some(ErrorBody(UserDoesNotExistMessage)), StatusNotFound);
          return;
        }
        Response.WriteDefaultError(w);
        return;
      }
      Response.Write(w, Some(UserBody(got.value)), StatusOK);
    }

    /**
     * Update: the id comes from the path, never from the body; the user is overwritten
     * without an existence check, so the Go handler's 404 branch is never taken.
     */
    method Update(w: InterceptStatusWriter, r: Request)
      requires Valid() && w.Valid()
      modifies w, w.inner, service.storage`entries
      ensures Valid() && w.Valid()
      ensures w.statusCode != StatusNotFound
      ensures !isUuid(r.pathId) ==>
        && w.history == old(w.history) + Response.WriteEvents(Some(ErrorBody(InvalidUserIdMessage)), StatusBadRequest)
        && w.statusCode == StatusBadRequest
        && service.storage.entries == old(service.storage.entries)
      ensures isUuid(r.pathId) && r.body.Undecodable? ==>
        && w.history == old(w.history)
             + Response.WriteEvents(Some(ErrorBody(r.body.reason)), StatusUnprocessableEntity)
        && w.statusCode == StatusUnprocessableEntity
        && service.storage.entries == old(service.storage.entries)
      ensures isUuid(r.pathId) && r.body.Decoded? && r.body.name == "" ==>
        && w.history == old(w.history) + ValidationEvents(User(r.pathId, r.body.name, r.body.email))
        && w.statusCode == StatusBadRequest
        && service.storage.entries == old(service.storage.entries)
      ensures isUuid(r.pathId) && r.body.Decoded? && r.body.name != "" ==>
        var user := User(r.pathId, r.body.name, r.body.email);
        && (service.storage.failure.None? ==>
              && service.storage.entries == old(service.storage.entries)[StorageKey(r.pathId) := user]
              && w.history == old(w.history) + ValidationEvents(user)
                   + Response.WriteEvents(Some(UserBody(user)), StatusOK)
              && w.statusCode == StatusOK)
        && (service.storage.failure.Some? ==>
              && service.storage.entries == old(service.storage.entries)
              && w.history == old(w.history) + ValidationEvents(user)
                   + Response.WriteEvents(Some(DefaultError), StatusInternalServerError)
              && w.statusCode == StatusInternalServerError)
    {
      var userId, ok := GetUserIdParamOrWriteError(w, r);
      if !ok {
        return;
      }
      match r.body {
        case Undecodable(reason) =>
          Response.Write(w, Some(ErrorBody(reason)), StatusUnprocessableEntity);
        case Decoded(name, email) =>
          var user := User(userId, name, email);
          ok := ValidateIncomingUserOrWriteError(w, user);
          if !ok {
            return;
          }
          var err := service.Update(user);
          if err == Some(UserDoesNotExist) {
            // the Go handler's 404 branch: Update never reports a missing user
            assert false;
          } else if err.Some? {
            Response.WriteDefaultError(w);
            return;
          }
          Response.Write(w, Some(UserBody(user)), StatusOK);
      }
    }

    /** Delete: 204 without a body whether or not the user existed; the default error on failure. */
    method Delete(w: InterceptStatusWriter, r: Request)
      requires w.Valid()
      modifies w, w.inner, service.storage`entries
      ensures w.Valid()
      ensures !isUuid(r.pathId) ==>
        && w.history == old(w.history) + Response.WriteEvents(Some(ErrorBody(InvalidUserIdMessage)), StatusBadRequest)
        && w.statusCode == StatusBadRequest
        && service.storage.entries == old(service.storage.entries)
      ensures isUuid(r.pathId) && service.storage.failure.None? ==>
        && service.storage.entries == old(service.storage.entries) - {StorageKey(r.pathId)}
        && w.history == old(w.history) + Response.WriteEvents(None, StatusNoContent)
        && w.statusCode == StatusNoContent
      ensures isUuid(r.pathId) && service.storage.failure.Some? ==>
        && service.storage.entries == old(service.storage.entries)
        && w.history == old(w.history) + Response.WriteEvents(Some(DefaultError), StatusInternalServerError)
        && w.statusCode == StatusInternalServerError
    {
      var userId, ok := GetUserIdParamOrWriteError(w, r);
      if !ok {
        return;
      }
      var err := service.Delete(userId);
      if err.Some? {
        Response.WriteDefaultError(w);
        return;
      }
      Response.Write(w, None, StatusNoContent);
    }
  }
}
