/** The session (core/Session.php): a key/value store over `$_SESSION`,
    plus the two static flags that make `session_start` and
    `session_regenerate_id` run at most once per process. */
module Sessions {
  import opened PhpValues

  type SessionData = map<string, Value>

  /** The key under which the login state is kept. */
  const AuthKey: string := "_authenticated"

  /** `isset($_SESSION[$key])`: present and not null. */
  predicate IsSetIn(data: SessionData, key: string)
  {
    key in data && data[key] != Null
  }

  /** `$_SESSION[$key] ?? $default`. */
  function Lookup(data: SessionData, key: string, default: Value := Null): (v: Value)
    ensures IsSetIn(data, key) ==> v == data[key]
    ensures !IsSetIn(data, key) ==> v == default
  {
    if IsSetIn(data, key) then data[key] else default
  }

  /** `unset`: the entry goes only when it is set; a null entry stays. */
  function UnsetKey(data: SessionData, key: string): (r: SessionData)
    ensures !IsSetIn(r, key)
    ensures forall k :: k in data && k != key ==> k in r && r[k] == data[k]
    ensures forall k :: k in r ==> k in data
  {
    if IsSetIn(data, key) then data - {key} else data
  }

  /** `isAuthenticated`: the stored login state, `false` when there is none. */
  function Authenticated(data: SessionData): Value
  {
    Lookup(data, AuthKey, Bool(false))
  }

  /** After `set(k, v)`, `get(k, d)` gives `v`, or `d` when `v` is null. */
  lemma GetAfterSet(data: SessionData, key: string, value: Value, default: Value)
    ensures Lookup(data[key := value], key, default) == if value == Null then default else value
  {
  }

  /** `set(k, v)` leaves every other key as it was. */
  lemma GetOtherAfterSet(data: SessionData, key: string, value: Value, other: string, default: Value)
    requires other != key
    ensures Lookup(data[key := value], other, default) == Lookup(data, other, default)
  {
  }

  /** After `unset(k)`, `isset(k)` is false, `get(k, d)` gives `d`,
      and every other key reads as before. */
  lemma GetAfterUnset(data: SessionData, key: string, other: string, default: Value)
    ensures !IsSetIn(UnsetKey(data, key), key)
    ensures Lookup(UnsetKey(data, key), key, default) == default
    ensures other != key ==> Lookup(UnsetKey(data, key), other, default) == Lookup(data, other, default)
  {
  }

  /** Without a stored login state the user is not logged in; after
      `setAuthenticated(b)` the stored state is `b`. */
  lemma AuthenticatedCases(data: SessionData, b: bool)
    ensures AuthKey !in data ==> Authenticated(data) == Bool(false)
    ensures Authenticated(data[AuthKey := Bool(b)]) == Bool(b)
    ensures Truthy(Authenticated(data[AuthKey := Bool(b)])) == b
  {
  }

  /** The process-wide state the session objects share: `$_SESSION`, the
      flags `Session::$sessionStarted` and `Session::$sessionIdRegenerated`,
      and how often `session_start` and `session_regenerate_id` ran. */
  class SessionState {
    var data: SessionData
    var sessionStarted: bool
    var sessionIdRegenerated: bool
    var startCount: nat
    var regenerateCount: nat

    /** The static flags and the call counts, everything but the data. */
    function Flags(): (bool, bool, nat, nat)
      reads this
    {
      (sessionStarted, sessionIdRegenerated, startCount, regenerateCount)
    }

    /** Each PHP call has run exactly once if its flag is up, never otherwise. */
    ghost predicate Valid()
      reads this
    {
      && startCount == (if sessionStarted then 1 else 0)
      && regenerateCount == (if sessionIdRegenerated then 1 else 0)
    }

    /** A new process: no session started, nothing stored. */
    constructor ()
      ensures Valid()
      ensures data == map[] && !sessionStarted && !sessionIdRegenerated
    {
      data := map[];
      sessionStarted := false;
      sessionIdRegenerated := false;
      startCount := 0;
      regenerateCount := 0;
    }
  }

  class Session {
    const state: SessionState

    /** `new Session()` starts the PHP session unless one was started before. */
    constructor (state: SessionState)
      requires state.Valid()
      modifies state
      ensures this.state == state && state.Valid()
      ensures state.sessionStarted && state.startCount == 1
      ensures state.data == old(state.data)
      ensures state.sessionIdRegenerated == old(state.sessionIdRegenerated)
      ensures state.regenerateCount == old(state.regenerateCount)
    {
      this.state := state;
      new;
      if !state.sessionStarted {
        state.startCount := state.startCount + 1;
        state.sessionStarted := true;
      }
    }

    /** `set($key, $value)`. */
    method Set(key: string, value: Value)
      requires state.Valid()
      modifies state
      ensures state.Valid()
      ensures state.data == old(state.data)[key := value]
      ensures state.Flags() == old(state.Flags())
    {
      state.data := state.data[key := value];
    }

    /** `isset($key)`. */
    function IsSet(key: string): (b: bool)
      reads this, state
      ensures b <==> key in state.data && state.data[key] != Null
    {
      IsSetIn(state.data, key)
    }

    /** `get($key, $default)`. */
    function Get(key: string, default: Value := Null): (v: Value)
      reads this, state
      ensures key in state.data && state.data[key] != Null ==> v == state.data[key]
      ensures key !in state.data || state.data[key] == Null ==> v == default
    {
      Lookup(state.data, key, default)
    }

    /** `clear()`: the data map is emptied. */
    method Clear(destroy: bool := false)
      requires state.Valid()
      modifies state
      ensures state.Valid()
      ensures state.data == map[]
      ensures state.Flags() == old(state.Flags())
    {
      state.data := map[];
    }

    /** `unset($key)`. */
    method Unset(key: string)
      requires state.Valid()
      modifies state
      ensures state.Valid()
      ensures state.data == UnsetKey(old(state.data), key)
      ensures state.Flags() == old(state.Flags())
    {
      if IsSetIn(state.data, key) {
        state.data := state.data - {key};
      }
    }

    /** `regenerate()`: the session id is regenerated once per process. */
    method Regenerate(destroy: bool := true)
      requires state.Valid()
      modifies state
      ensures state.Valid()
      ensures state.sessionIdRegenerated && state.regenerateCount == 1
      ensures state.data == old(state.data)
      ensures state.sessionStarted == old(state.sessionStarted) && state.startCount == old(state.startCount)
    {
      if !state.sessionIdRegenerated {
        state.regenerateCount := state.regenerateCount + 1;
        state.sessionIdRegenerated := true;
      }
    }

    /** `setAuthenticated($bool)`: store the login state, then regenerate the id. */
    method SetAuthenticated(b: bool)
      requires state.Valid()
      modifies state
      ensures state.Valid()
      ensures state.data == old(state.data)[AuthKey := Bool(b)]
      ensures state.sessionIdRegenerated && state.regenerateCount == 1
      ensures state.sessionStarted == old(state.sessionStarted) && state.startCount == old(state.startCount)
    {
      Set(AuthKey, Bool(b));
      Regenerate();
    }

    /** `isAuthenticated()`. */
    function IsAuthenticated(): (v: Value)
      reads this, state
      ensures AuthKey !in state.data || state.data[AuthKey] == Null ==> v == Bool(false)
      ensures AuthKey in state.data && state.data[AuthKey] != Null ==> v == state.data[AuthKey]
    {
      Authenticated(state.data)
    }
  }
}
