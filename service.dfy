/**
 * `UserService`: Create, Get, GetAll, Update and Delete of users over a `Storage[User]`,
 * with identity assignment, storage keys `"user:" + id`, and error translation.
 * Also the `Notifier` the handlers call after a successful create.
 */
module Service {
  import opened Wrappers
  import opened Model
  import opened Storage

  /** The errors the service returns. `Wrapped` is `fmt.Errorf("<context>: %w", cause)`. */
  datatype ServiceError =
    | UserDoesNotExist                            // ErrUserDoesNotExist
    | MissingUserID                               // ErrMissingUserID
    | Wrapped(context: string, cause: StoreError)

  const UserDoesNotExistMessage: string := "user does not exist"
  const CreateFailed: string := "failed to create user"
  const GetFailed: string := "failed to get user"
  const GetAllFailed: string := "failed to get users"
  const UpdateFailed: string := "failed to update user"
  const DeleteFailed: string := "failed to delete user"

  const KeyPrefix: string := "user:"

  /** buildStorageKey: the prefix `user:` followed by the id, so the id can be read back. */
  function StorageKey(id: string): (key: string)
    ensures |key| == |KeyPrefix| + |id|
    ensures key[..|KeyPrefix|] == KeyPrefix && key[|KeyPrefix|..] == id
  {
    KeyPrefix + id
  }

  /** Distinct users never share a storage key. */
  lemma StorageKeyInjective(a: string, b: string)
    requires StorageKey(a) == StorageKey(b)
    ensures a == b
  {
    assert a == StorageKey(a)[|KeyPrefix|..];
  }

  class UserService {
    const storage: MapStorage<User>
    /** The k-th string `uuid.New().String()` returns in the life of the process. */
    const newUuid: nat -> string
    /** How many ids `generateID` has handed out. */
    var generated: nat
    /** The ids handed out so far. */
    ghost var issued: set<string>

    /** Generated ids are non-empty and never repeat (the uniqueness of random UUIDs). */
    ghost predicate Valid()
      reads this
    {
      && (forall i: nat, j: nat :: newUuid(i) == newUuid(j) ==> i == j)
      && (forall i: nat :: newUuid(i) != "")
      && issued == set k: nat | k < generated :: newUuid(k)
    }

    constructor (storage: MapStorage<User>, newUuid: nat -> string)
      requires forall i: nat, j: nat :: newUuid(i) == newUuid(j) ==> i == j
      requires forall i: nat :: newUuid(i) != ""
      ensures Valid() && this.storage == storage && this.newUuid == newUuid
      ensures generated == 0 && issued == {}
    {
      this.storage := storage;
      this.newUuid := newUuid;
      generated := 0;
      issued := {};
    }

    /** generateID: a non-empty id that was never handed out before. */
    method GenerateID() returns (id: string)
      requires Valid()
      modifies this`generated, this`issued
      ensures Valid()
      ensures id == newUuid(old(generated)) && generated == old(generated) + 1
      ensures id != "" && id !in old(issued) && issued == old(issued) + {id}
    {
      id := newUuid(generated);
      assert id !in issued;
      generated := generated + 1;
      issued := issued + {id};
      assert issued == set k: nat | k < generated :: newUuid(k);
    }

    /**
     * Create: the caller's id is discarded and a fresh one assigned; the user is stored
     * under its key. If the store fails, the input user comes back with a wrapped error.
     */
    method Create(user: User) returns (result: User, err: Option<ServiceError>)
      requires Valid()
      modifies this`generated, this`issued, storage`entries
      ensures Valid() && generated == old(generated) + 1
      ensures var id := newUuid(old(generated));
        && id != "" && id !in old(issued) && issued == old(issued) + {id}
        && (storage.failure.None? ==>
              && err == None && result == user.(id := id)
              && storage.entries == old(storage.entries)[StorageKey(id) := result])
        && (storage.failure.Some? ==>
              && err == Some(Wrapped(CreateFailed, storage.failure.value)) && result == user
              && storage.entries == old(storage.entries))
    {
      var createdUser := user;
      var id := GenerateID();
      createdUser := createdUser.(id := id);
      var e := storage.Set(StorageKey(createdUser.id), createdUser);
      if e.Some? {
        return user, Some(Wrapped(CreateFailed, e.value));
      }
      return createdUser, None;
    }

    /**
     * Get: `KeyNotFound` from the store, and only that, becomes `UserDoesNotExist`;
     * every other store error is wrapped.
     */
    method Get(id: string) returns (r: Result<User, ServiceError>)
      ensures r.Ok? <==> storage.failure.None? && StorageKey(id) in storage.entries
      ensures r.Ok? ==> r.value == storage.entries[StorageKey(id)]
      ensures r == Err(UserDoesNotExist) <==>
        storage.failure == Some(KeyNotFound) || (storage.failure.None? && StorageKey(id) !in storage.entries)
      ensures storage.failure.Some? && storage.failure.value != KeyNotFound ==>
        r == Err(Wrapped(GetFailed, storage.failure.value))
    {
      var got := storage.Get(StorageKey(id));
      match got
      case Ok(user) =>
        r := Ok(user);
      case Err(e) =>
        if e == KeyNotFound {
          r := Err(UserDoesNotExist);
        } else {
          r := Err(Wrapped(GetFailed, e));
        }
    }

    /** GetAll: every stored user once; an empty store gives an empty list, not an error. */
    method GetAll() returns (r: Result<seq<User>, ServiceError>, ghost keys: seq<string>)
      ensures storage.failure.Some? ==> r == Err(Wrapped(GetAllFailed, storage.failure.value))
      ensures storage.failure.None? ==> r.Ok? && Enumerates(storage.entries, keys, r.value)
      ensures storage.failure.None? ==> |r.value| == |storage.entries|
      ensures storage.failure.None? && storage.entries == map[] ==> r == Ok([])
    {
      var got;
      got, keys := storage.GetAll();
      if got.Err? {
        return Err(Wrapped(GetAllFailed, got.error)), keys;
      }
      EnumerationSize(storage.entries, keys, got.value);
      r := Ok(got.value);
    }

    /**
     * Update: an empty id is refused before the store is touched; otherwise the user is
     * written under its key with no existence check, so `UserDoesNotExist` never comes back.
     */
    method Update(user: User) returns (err: Option<ServiceError>)
      modifies storage`entries
      ensures err != Some(UserDoesNotExist)
      ensures user.id == "" ==> err == Some(MissingUserID) && storage.entries == old(storage.entries)
      ensures user.id != "" && storage.failure.None? ==>
        err == None && storage.entries == old(storage.entries)[StorageKey(user.id) := user]
      ensures user.id != "" && storage.failure.Some? ==>
        err == Some(Wrapped(UpdateFailed, storage.failure.value)) && storage.entries == old(storage.entries)
    {
      if user.id == "" {
        return Some(MissingUserID);
      }
      var e := storage.Set(StorageKey(user.id), user);
      if e.Some? {
        return Some(Wrapped(UpdateFailed, e.value));
      }
      return None;
    }

    /** Delete: removes the one key of `id`, whether or not it was there. */
    method Delete(id: string) returns (err: Option<ServiceError>)
      modifies storage`entries
      ensures storage.failure.None? ==> err == None && storage.entries == old(storage.entries) - {StorageKey(id)}
      ensures storage.failure.Some? ==>
        err == Some(Wrapped(DeleteFailed, storage.failure.value)) && storage.entries == old(storage.entries)
    {
      var e := storage.Delete(StorageKey(id));
      if e.Some? {
        return Some(Wrapped(DeleteFailed, e.value));
      }
      return None;
    }
  }

  /** Round trip: reading back the id `Create` assigned gives the user `Create` returned. */
  method CreateThenGet(s: UserService, user: User) returns (created: User, fetched: Result<User, ServiceError>)
    requires s.Valid() && s.storage.failure.None?
    modifies s`generated, s`issued, s.storage`entries
    ensures s.Valid()
    ensures created == user.(id := created.id) && created.id != "" && created.id !in old(s.issued)
    ensures fetched == Ok(created)
  {
    var err;
    created, err := s.Create(user);
    fetched := s.Get(created.id);
  }

  /** Two creates of the same input give two different ids, and both users stay stored. */
  method CreateTwice(s: UserService, user: User) returns (first: User, second: User)
    requires s.Valid() && s.storage.failure.None?
    modifies s`generated, s`issued, s.storage`entries
    ensures s.Valid()
    ensures first.id != second.id
    ensures StorageKey(first.id) in s.storage.entries && s.storage.entries[StorageKey(first.id)] == first
    ensures StorageKey(second.id) in s.storage.entries && s.storage.entries[StorageKey(second.id)] == second
  {
    var err;
    first, err := s.Create(user);
    second, err := s.Create(user);
  }

  /** After a successful delete, the user does not exist, and deleting again is not an error. */
  method DeleteThenGet(s: UserService, id: string)
    returns (deleted: Option<ServiceError>, fetched: Result<User, ServiceError>, again: Option<ServiceError>)
    requires s.storage.failure.None?
    modifies s.storage`entries
    ensures deleted == None && fetched == Err(UserDoesNotExist) && again == None
    ensures s.storage.entries == old(s.storage.entries) - {StorageKey(id)}
  {
    deleted := s.Delete(id);
    fetched := s.Get(id);
    again := s.Delete(id);
  }

  /** The key `Notifier.Send` stores the message under, overriding any such attribute. */
  const MessageKey: string := "message"

  /** A notification's payload: the caller's attributes with the message added. */
  datatype Notification = Notification(payload: map<string, string>)

  /**
   * The best-effort notifier. The model keeps the payloads that were dispatched, in order;
   * the timestamp, the JSON marshalling, the delay and the logging are not modelled.
   */
  class Notifier {
    var sent: seq<Notification>

    constructor ()
      ensures sent == []
    {
      sent := [];
    }

    /** Send: the payload is `extra` with `message` set to `msg`; a nil `extra` is an empty map. */
    method Send(msg: string, extra: map<string, string>)
      modifies this
      ensures sent == old(sent) + [Notification(extra[MessageKey := msg])]
    {
      var payload := extra[MessageKey := msg];
      sent := sent + [Notification(payload)];
    }
  }
}
