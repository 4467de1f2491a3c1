/** The session store: a bearer token and the cached profile of the
    signed-in staff member, the rule that decides whether the token is
    still good, and the copy of both kept in the browser's local storage
    under the key "auth-storage". */
module AuthStore {
  import opened Wrappers
  import opened Types

  /** `string | null`. */
  type Token = Option<string>

  /** `jwtDecode` followed by reading the `exp` claim (seconds since the
      epoch, possibly fractional): `None` when decoding throws or the
      claim is not a number. */
  type Decoder = string -> Option<real>

  /** The key the persisted copy lives under. */
  const StorageKey: string := "auth-storage"

  /** The store's data fields. `partialize` keeps exactly these two, so
      the same record is what local storage holds. */
  datatype Session = Session(token: Token, user: Option<User>)

  /** Local storage, reduced to the entries this store writes. */
  type Storage = map<string, Session>

  const SignedOut: Session := Session(None, None)

  /** JavaScript truthiness of a token: neither null nor the empty string. */
  predicate Truthy(t: Token)
  {
    t.Some? && t.value != ""
  }

  /** A token is valid when it is truthy, decodes, and its expiry lies
      strictly after the current time, which `Date.now()` gives in
      milliseconds and the check divides down to seconds (the `exp` rule
      of section 4.1.4 of RFC 7519). Never fails: a token that does not
      decode is simply invalid. */
  function IsTokenValid(token: Token, decode: Decoder, nowMs: int): (valid: bool)
    ensures !Truthy(token) ==> !valid
    ensures Truthy(token) && decode(token.value).None? ==> !valid
    ensures valid <==> Truthy(token) && decode(token.value).Some? && decode(token.value).value * 1000.0 > nowMs as real
  {
    if !Truthy(token) then false
    else
      match decode(token.value)
      case None => false
      case Some(exp) => exp > nowMs as real / 1000.0
  }

  /** A token that expires in the current second is already invalid: the
      comparison is strict and the milliseconds of the current second
      count against it. */
  lemma ExpiringThisSecondIsInvalid(t: string, decode: Decoder, nowMs: int)
    requires decode(t) == Some((nowMs / 1000) as real)
    ensures !IsTokenValid(Some(t), decode, nowMs)
  {
  }

  /** Validity only grows as the clock goes back: a token valid now was
      valid at every earlier instant. */
  lemma ValidEarlier(token: Token, decode: Decoder, earlierMs: int, nowMs: int)
    requires earlierMs <= nowMs
    requires IsTokenValid(token, decode, nowMs)
    ensures IsTokenValid(token, decode, earlierMs)
  {
  }

  /** What rehydration restores: the persisted record when there is one
      (its two fields override the current ones), the current state
      otherwise. */
  function Restored(current: Session, storage: Storage): (s: Session)
    ensures StorageKey in storage ==> s == storage[StorageKey]
    ensures StorageKey !in storage ==> s == current
  {
    if StorageKey in storage then storage[StorageKey] else current
  }

  /** The test the rehydration hook applies to the state it is handed:
      a truthy token that is not valid. */
  predicate HookLogsOut(seen: Session, decode: Decoder, nowMs: int)
  {
    Truthy(seen.token) && !IsTokenValid(seen.token, decode, nowMs)
  }

  class Store {
    var token: Token
    var user: Option<User>
    /** The browser's local storage as this store sees it. */
    var storage: Storage

    /** The store as `create` builds it, before rehydration: no token, no
        user, and whatever local storage already holds. */
    constructor (storage: Storage)
      ensures token == None && user == None && this.storage == storage
    {
      token := None;
      user := None;
      this.storage := storage;
    }

    /** `getUser()`: the cached profile, unchanged. */
    function GetUser(): (u: Option<User>)
      reads this
      ensures u.Some? ==> user == Some(u.value)
      ensures u.None? ==> user.None?
    {
      user
    }

    /** `isLogged()`: a token is present and valid at `nowMs`. */
    function IsLogged(decode: Decoder, nowMs: int): (logged: bool)
      reads this
      ensures logged <==> IsTokenValid(token, decode, nowMs)
      ensures logged ==> Truthy(token)
    {
      token.Some? && IsTokenValid(token, decode, nowMs)
    }

    /** `partialize`: the part of the state that is written to storage;
        reading the written entry back into a fresh store reproduces both
        fields. */
    function Partialize(): (p: Session)
      reads this
      ensures var r := Restored(SignedOut, map[StorageKey := p]);
        r.token == token && r.user == user
    {
      Session(token, user)
    }

    /** `set` as wrapped by the persist middleware: the new fields are
        installed and their partialized copy is written under the key. */
    method SetState(s: Session)
      modifies this
      ensures token == s.token && user == s.user
      ensures storage == old(storage)[StorageKey := s]
    {
      token, user := s.token, s.user;
      storage := storage[StorageKey := Partialize()];
    }

    /** `login(token, user)`: installs both only when the token is
        valid; an invalid token is ignored without an error. */
    method Login(t: Token, u: Option<User>, decode: Decoder, nowMs: int)
      modifies this
      ensures IsTokenValid(t, decode, nowMs) ==>
        token == t && user == u && storage == old(storage)[StorageKey := Session(t, u)]
      ensures !IsTokenValid(t, decode, nowMs) ==>
        token == old(token) && user == old(user) && storage == old(storage)
      ensures IsLogged(decode, nowMs) <==> IsTokenValid(t, decode, nowMs) || old(IsLogged(decode, nowMs))
    {
      if Truthy(t) && IsTokenValid(t, decode, nowMs) {
        SetState(Session(t, u));
      }
    }

    /** `logout()`: clears both fields and then deletes the persisted
        entry. The new state does not depend on the old one, so a second
        call changes nothing. */
    method Logout()
      modifies this
      ensures token == None && user == None
      ensures storage == old(storage) - {StorageKey}
      ensures StorageKey !in storage
    {
      SetState(SignedOut);
      storage := storage - {StorageKey};
    }

    /** `onRehydrateStorage(state)`: logs out when the state it is handed
        holds a truthy token that is not valid, and does nothing otherwise. */
    method OnRehydrateStorage(seen: Session, decode: Decoder, nowMs: int)
      modifies this
      ensures HookLogsOut(seen, decode, nowMs) ==>
        token == None && user == None && storage == old(storage) - {StorageKey}
      ensures !HookLogsOut(seen, decode, nowMs) ==>
        token == old(token) && user == old(user) && storage == old(storage)
    {
      if HookLogsOut(seen, decode, nowMs) {
        Logout();
      }
    }

    /** Rehydration as the persist middleware orders it: the hook is called
        with the state as it is BEFORE the stored copy is read (at startup,
        the initial state with no token), then the stored copy, if any, is
        merged in. */
    method RehydrateAsWritten(decode: Decoder, nowMs: int)
      modifies this
      ensures HookLogsOut(old(Partialize()), decode, nowMs) ==>
        token == None && user == None && storage == old(storage) - {StorageKey}
      ensures !HookLogsOut(old(Partialize()), decode, nowMs) ==>
        Partialize() == Restored(old(Partialize()), old(storage)) && storage == old(storage)
    {
      OnRehydrateStorage(Partialize(), decode, nowMs);
      var restored := Restored(Partialize(), storage);
      token, user := restored.token, restored.user;
    }

    /** Rehydration with the check applied to the restored state, so that
        an expired token read back from storage is logged out at once. */
    method Rehydrate(decode: Decoder, nowMs: int)
      modifies this
      ensures var r := Restored(old(Partialize()), old(storage));
        if HookLogsOut(r, decode, nowMs)
        then token == None && user == None && storage == old(storage) - {StorageKey}
        else Partialize() == r && storage == old(storage)
      ensures Truthy(token) ==> IsLogged(decode, nowMs)
    {
      var restored := Restored(Partialize(), storage);
      token, user := restored.token, restored.user;
      OnRehydrateStorage(Partialize(), decode, nowMs);
    }
  }

  /** Startup with the hook called before hydration: a stored session
      whose token has expired is restored and stays, profile included. */
  method StartupAsWritten(stored: Session, decode: Decoder, nowMs: int) returns (store: Store)
    requires HookLogsOut(stored, decode, nowMs)
    ensures store.token == stored.token && store.user == stored.user
    ensures StorageKey in store.storage
    ensures !store.IsLogged(decode, nowMs)
  {
    store := new Store(map[StorageKey := stored]);
    store.RehydrateAsWritten(decode, nowMs);
  }

  /** Startup with the check applied after hydration: the same stored
      session is logged out and its entry removed. */
  method Startup(stored: Session, decode: Decoder, nowMs: int) returns (store: Store)
    requires HookLogsOut(stored, decode, nowMs)
    ensures store.token == None && store.user == None
    ensures StorageKey !in store.storage
  {
    store := new Store(map[StorageKey := stored]);
    store.Rehydrate(decode, nowMs);
  }
}
