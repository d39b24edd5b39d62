/**
 * The session manager: the registry of named providers, the Manager that
 * binds one provider to a cookie name and a lifetime, and the cookie
 * lifecycle of SessionStart, SessionDestroy and GC.
 *
 * A provider is modelled as an abstract map from session id to store
 * together with the log of the calls the manager makes into it; what the
 * Provider interface leaves to the backend is a parameter of each call. HTTP is reduced to the value of the request's
 * session cookie (None when the request has none) and the list of cookies
 * the response sets. Random bytes and the clock are parameters.
 */
module Sessions {
  import opened GoTypes
  import opened Base64Url
  import opened QueryEscaping

  /** The values one session holds (Go keys and values are interface{}; strings here). */
  type Store = map<GoString, GoString>

  /** A Session handle: a reference to the provider's store for one id. */
  datatype Session = Session(sid: GoString)

  /** The calls the manager makes into its provider. */
  datatype Call =
    | InitCall(sid: GoString)
    | ReadCall(sid: GoString)
    | DestroyCall(sid: GoString)
    | GCCall(maxLifeTime: Int64)

  /** Session.Set: the store behind the handle maps key to value; a handle to a removed store writes nowhere visible. */
  function StoreSet(sessions: map<GoString, Store>, s: Session, key: GoString, value: GoString): (r: map<GoString, Store>)
    ensures r.Keys == sessions.Keys
    ensures forall id :: id in sessions && id != s.sid ==> r[id] == sessions[id]
    ensures s.sid in sessions ==> r[s.sid] == sessions[s.sid][key := value]
  {
    if s.sid in sessions then sessions[s.sid := sessions[s.sid][key := value]] else sessions
  }

  /** Session.Get: the value under key in the store behind the handle, if any. */
  function StoreGet(sessions: map<GoString, Store>, s: Session, key: GoString): Option<GoString> {
    if s.sid in sessions && key in sessions[s.sid] then Some(sessions[s.sid][key]) else None
  }

  /** Session.Delete: the store behind the handle no longer holds key. */
  function StoreDelete(sessions: map<GoString, Store>, s: Session, key: GoString): (r: map<GoString, Store>)
    ensures r.Keys == sessions.Keys
    ensures forall id :: id in sessions && id != s.sid ==> r[id] == sessions[id]
    ensures s.sid in sessions ==> r[s.sid] == sessions[s.sid] - {key}
  {
    if s.sid in sessions then sessions[s.sid := sessions[s.sid] - {key}] else sessions
  }

  /** A value set through a handle is read back through it; other keys are untouched. */
  lemma SetThenGet(sessions: map<GoString, Store>, s: Session, key: GoString, value: GoString, other: GoString)
    requires s.sid in sessions
    ensures StoreGet(StoreSet(sessions, s, key, value), s, key) == Some(value)
    ensures other != key ==> StoreGet(StoreSet(sessions, s, key, value), s, other) == StoreGet(sessions, s, other)
  {
  }

  lemma DeleteThenGet(sessions: map<GoString, Store>, s: Session, key: GoString)
    ensures StoreGet(StoreDelete(sessions, s, key), s, key) == None
  {
  }

  /**
   * What the Provider interface leaves to the backend on one request: whether
   * SessionInit fails, returning a nil Session with its error, and whether
   * SessionRead of an id that has no store creates one or returns nil.
   */
  datatype Backend = Backend(initFails: bool, readCreates: bool)

  /**
   * A storage backend seen through the Provider interface, which fixes only
   * the signatures. The model assumes: a successful Init stores a fresh empty
   * store under the id (replacing any earlier one); Read of an id that has a
   * store hands out its handle; Destroy removes the store; GC removes the
   * stores the backend finds expired, a decision taken on the backend's own
   * clock and passed in here as `expired`. The rest is a Backend parameter.
   */
  class Provider {
    var sessions: map<GoString, Store>
    var log: seq<Call>

    constructor ()
      ensures sessions == map[] && log == []
    {
      sessions := map[];
      log := [];
    }

    /** None is a nil Session; the error that comes with it is dropped by every caller. */
    method SessionInit(sid: GoString, initFails: bool) returns (s: Option<Session>)
      modifies this
      ensures initFails ==> sessions == old(sessions) && s == None
      ensures !initFails ==> sessions == old(sessions)[sid := map[]] && s == Some(Session(sid))
      ensures log == old(log) + [InitCall(sid)]
    {
      log := log + [InitCall(sid)];
      if initFails {
        return None;
      }
      sessions := sessions[sid := map[]];
      s := Some(Session(sid));
    }

    method SessionRead(sid: GoString, readCreates: bool) returns (s: Option<Session>)
      modifies this
      ensures sid in old(sessions) ==> sessions == old(sessions) && s == Some(Session(sid))
      ensures sid !in old(sessions) && readCreates ==>
        sessions == old(sessions)[sid := map[]] && s == Some(Session(sid))
      ensures sid !in old(sessions) && !readCreates ==> sessions == old(sessions) && s == None
      ensures log == old(log) + [ReadCall(sid)]
    {
      log := log + [ReadCall(sid)];
      if sid in sessions {
        s := Some(Session(sid));
      } else if readCreates {
        sessions := sessions[sid := map[]];
        s := Some(Session(sid));
      } else {
        s := None;
      }
    }

    method SessionDestroy(sid: GoString)
      modifies this
      ensures sessions == old(sessions) - {sid}
      ensures log == old(log) + [DestroyCall(sid)]
    {
      sessions := sessions - {sid};
      log := log + [DestroyCall(sid)];
    }

    method SessionGC(maxLifeTime: Int64, expired: set<GoString>)
      modifies this
      ensures sessions == old(sessions) - expired
      ensures log == old(log) + [GCCall(maxLifeTime)]
    {
      sessions := sessions - expired;
      log := log + [GCCall(maxLifeTime)];
    }

    method Set(s: Session, key: GoString, value: GoString)
      modifies this
      ensures sessions == StoreSet(old(sessions), s, key, value)
      ensures log == old(log)
    {
      sessions := StoreSet(sessions, s, key, value);
    }

    function Get(s: Session, key: GoString): (r: Option<GoString>)
      reads this
      ensures r.Some? <==> s.sid in sessions && key in sessions[s.sid]
      ensures r.Some? ==> r.value == sessions[s.sid][key]
    {
      StoreGet(sessions, s, key)
    }

    method Delete(s: Session, key: GoString)
      modifies this
      ensures sessions == StoreDelete(old(sessions), s, key)
      ensures log == old(log)
    {
      sessions := StoreDelete(sessions, s, key);
    }
  }

  // ---------------------------------------------------------------------
  // Provider registry

  /** Register either adds the provider or panics; a panic leaves the registry as it was. */
  datatype RegisterOutcome = Registered | Panic(message: string)

  const NilProviderMessage := "session: Register provider is nil"

  function DuplicateMessage(name: GoString): string {
    "session: Register called twice for provider " + name
  }

  /** The process-wide map from provider name to provider. */
  class Registry {
    var providers: map<GoString, Provider>

    constructor ()
      ensures providers == map[]
    {
      providers := map[];
    }

    method Register(name: GoString, provider: Provider?) returns (r: RegisterOutcome)
      modifies this
      ensures provider == null ==> r == Panic(NilProviderMessage) && providers == old(providers)
      ensures provider != null && name in old(providers) ==>
        r == Panic(DuplicateMessage(name)) && providers == old(providers)
      ensures provider != null && name !in old(providers) ==>
        r == Registered && providers == old(providers)[name := provider]
    {
      if provider == null {
        return Panic(NilProviderMessage);
      }
      if name in providers {
        return Panic(DuplicateMessage(name));
      }
      providers := providers[name := provider];
      r := Registered;
    }
  }

  // ---------------------------------------------------------------------
  // Manager

  /** The error NewManager returns: "session: unknown provide %q (forgotten import?)". */
  datatype ManagerError = UnknownProvide(name: GoString)

  /** Random bytes as crypto/rand hands them out into a 32-byte buffer. */
  type Bytes32 = b: seq<Octet> | |b| == 32 witness seq(32, i => 0)

  /** An http.Cookie as the manager fills it in; `expires` is None for Go's zero time. */
  datatype Cookie = Cookie(name: GoString, value: GoString, path: GoString,
                           httpOnly: bool, maxAge: int, expires: Option<int>)

  /**
   * The cookie SessionStart issues for a new session. The conversion
   * int(maxLifeTime) is taken as lossless, as it is where Go's int is 64 bits.
   */
  function IssuedCookie(name: GoString, sid: GoString, maxLifeTime: Int64): (c: Cookie)
    ensures c.name == name && c.path == "/" && c.httpOnly && c.maxAge == maxLifeTime && c.expires == None
    ensures QueryUnescape(c.value) == Some(sid)
    ensures c.value == sid <==> AllUnreserved(sid)
  {
    UnescapeEscape(sid);
    EscapeIsIdentity(sid);
    Cookie(name, QueryEscape(sid), "/", true, maxLifeTime as int, None)
  }

  /** The cookie SessionDestroy issues: empty, expiring at `now`, MaxAge -1. */
  function ExpiredCookie(name: GoString, now: int): Cookie {
    Cookie(name, "", "/", true, -1, Some(now))
  }

  /** r.Cookie found no cookie, or found one with an empty value. */
  predicate NoCookie(cookie: Option<GoString>) {
    cookie.None? || cookie.value == []
  }

  /**
   * Manager.sessionID: "" when reading random bytes fails, otherwise the
   * padded base64url encoding of the 32 bytes read.
   */
  function SessionID(random: Option<Bytes32>): (sid: GoString)
    ensures sid == [] <==> random.None?
    ensures random.Some? ==>
      && sid == Encode(random.value)
      && |sid| == 44 && sid[43] == Pad
      && (forall i :: 0 <= i < 43 ==> IsSymbol(sid[i]))
      && Decode(sid) == Some(random.value)
  {
    match random
    case None => []
    case Some(b) =>
      var sid := Encode(b);
      forall i | 0 <= i < 44
        ensures if i < 43 then IsSymbol(sid[i]) else sid[i] == Pad
      {
        EncodeShape(b, i);
      }
      DecodeEncode(b);
      sid
  }

  /** Ids made from different random bytes are different. */
  lemma {:induction false} SessionIDsDistinct(a: Bytes32, b: Bytes32)
    requires a != b
    ensures SessionID(Some(a)) != SessionID(Some(b))
  {
    if SessionID(Some(a)) == SessionID(Some(b)) {
      EncodeInjective(a, b);
    }
  }

  /** The id SessionStart reads under: the unescaped cookie value, or "" when unescaping fails. */
  function UnescapedSid(value: GoString): GoString {
    match QueryUnescape(value)
    case Some(sid) => sid
    case None => []
  }

  datatype Manager = Manager(cookieName: GoString, provider: Provider, maxLifeTime: Int64) {

    /** The whole effect of one SessionStart; defined by Start below. */
    method SessionStart(cookie: Option<GoString>, random: Option<Bytes32>, backend: Backend)
      returns (session: Option<Session>, response: seq<Cookie>)
      modifies provider
      ensures var r := Start(this, old(provider.sessions), cookie, random, backend);
        && provider.log == old(provider.log) + [r.call]
        && provider.sessions == r.sessions
        && session == r.session
        && response == r.response
    {
      if NoCookie(cookie) {
        var sid := SessionID(random);
        session := provider.SessionInit(sid, backend.initFails);
        response := [IssuedCookie(cookieName, sid, maxLifeTime)];
      } else {
        var sid := UnescapedSid(cookie.value);
        session := provider.SessionRead(sid, backend.readCreates);
        response := [];
      }
    }

    /** SessionDestroy as written: the provider is asked to destroy the raw cookie value. */
    method SessionDestroy(cookie: Option<GoString>, now: int) returns (response: seq<Cookie>)
      modifies provider
      ensures var r := Destroy(this, old(provider.sessions), cookie, now);
        && provider.log == old(provider.log) + r.calls
        && provider.sessions == r.sessions
        && response == r.response
    {
      if NoCookie(cookie) {
        return [];
      }
      provider.SessionDestroy(cookie.value);
      response := [ExpiredCookie(cookieName, now)];
    }

    /** SessionDestroy with the cookie value unescaped first, as SessionStart does. */
    method SessionDestroyFixed(cookie: Option<GoString>, now: int) returns (response: seq<Cookie>)
      modifies provider
      ensures var r := DestroyFixed(this, old(provider.sessions), cookie, now);
        && provider.log == old(provider.log) + r.calls
        && provider.sessions == r.sessions
        && response == r.response
    {
      if NoCookie(cookie) {
        return [];
      }
      provider.SessionDestroy(UnescapedSid(cookie.value));
      response := [ExpiredCookie(cookieName, now)];
    }

    /**
     * One GC round: the provider collects with the manager's lifetime. The
     * timer that schedules the next round is not modelled; it takes
     * maxLifeTime as nanoseconds, while the issued cookie reads it as seconds.
     */
    method GC(expired: set<GoString>)
      modifies provider
      ensures provider.log == old(provider.log) + [GCCall(maxLifeTime)]
      ensures provider.sessions == old(provider.sessions) - expired
    {
      provider.SessionGC(maxLifeTime, expired);
    }
  }

  /**
   * NewManager: the manager bound to the provider registered under
   * provideName, or an error when no provider has that name.
   */
  function NewManager(providers: map<GoString, Provider>, provideName: GoString,
                      cookieName: GoString, maxLifeTime: Int64): (r: Result<Manager, ManagerError>)
    ensures r.Ok? <==> provideName in providers
    ensures r.Ok? ==> r.value == Manager(cookieName, providers[provideName], maxLifeTime)
    ensures r.Err? ==> r.error == UnknownProvide(provideName)
  {
    if provideName in providers
    then Ok(Manager(cookieName, providers[provideName], maxLifeTime))
    else Err(UnknownProvide(provideName))
  }

  // ---------------------------------------------------------------------
  // The manager's operations as values

  /** The provider call, the provider's new map, the returned handle and the response cookies. */
  datatype StartStep = StartStep(call: Call, sessions: map<GoString, Store>,
                                 session: Option<Session>, response: seq<Cookie>)

  /**
   * One SessionStart. Without a usable cookie: one Init call for a new id and
   * the cookie for it, issued whether or not Init succeeded. With one: one
   * Read call for the unescaped value and no cookie.
   */
  function Start(m: Manager, sessions: map<GoString, Store>, cookie: Option<GoString>,
                 random: Option<Bytes32>, backend: Backend): (r: StartStep)
    ensures NoCookie(cookie) ==>
      && r.call == InitCall(SessionID(random))
      && (backend.initFails ==> r.sessions == sessions && r.session == None)
      && (!backend.initFails ==>
            r.sessions == sessions[SessionID(random) := map[]] && r.session == Some(Session(SessionID(random))))
      && |r.response| == 1
      && r.response[0].name == m.cookieName && r.response[0].path == "/"
      && r.response[0].httpOnly && r.response[0].maxAge == m.maxLifeTime
      && QueryUnescape(r.response[0].value) == Some(SessionID(random))
    ensures !NoCookie(cookie) ==>
      var sid := UnescapedSid(cookie.value);
      && r.call == ReadCall(sid)
      && (sid in sessions ==> r.sessions == sessions && r.session == Some(Session(sid)))
      && (sid !in sessions && backend.readCreates ==>
            r.sessions == sessions[sid := map[]] && r.session == Some(Session(sid)))
      && (sid !in sessions && !backend.readCreates ==> r.sessions == sessions && r.session == None)
      && r.response == []
  {
    if NoCookie(cookie) then
      var sid := SessionID(random);
      var issued := [IssuedCookie(m.cookieName, sid, m.maxLifeTime)];
      if backend.initFails then StartStep(InitCall(sid), sessions, None, issued)
      else StartStep(InitCall(sid), sessions[sid := map[]], Some(Session(sid)), issued)
    else
      var sid := UnescapedSid(cookie.value);
      if sid in sessions then StartStep(ReadCall(sid), sessions, Some(Session(sid)), [])
      else if backend.readCreates then StartStep(ReadCall(sid), sessions[sid := map[]], Some(Session(sid)), [])
      else StartStep(ReadCall(sid), sessions, None, [])
  }

  datatype DestroyStep = DestroyStep(calls: seq<Call>, sessions: map<GoString, Store>,
                                     response: seq<Cookie>)

  /** SessionDestroy as written: the raw cookie value is the id destroyed. */
  function Destroy(m: Manager, sessions: map<GoString, Store>, cookie: Option<GoString>,
                   now: int): (r: DestroyStep)
    ensures NoCookie(cookie) ==> r == DestroyStep([], sessions, [])
    ensures !NoCookie(cookie) ==>
      && r.calls == [DestroyCall(cookie.value)]
      && r.sessions == sessions - {cookie.value}
      && r.response == [ExpiredCookie(m.cookieName, now)]
  {
    if NoCookie(cookie) then DestroyStep([], sessions, [])
    else DestroyStep([DestroyCall(cookie.value)], sessions - {cookie.value},
                     [ExpiredCookie(m.cookieName, now)])
  }

  /** SessionDestroy corrected: the id destroyed is the one SessionStart would read. */
  function DestroyFixed(m: Manager, sessions: map<GoString, Store>, cookie: Option<GoString>,
                        now: int): (r: DestroyStep)
    ensures NoCookie(cookie) ==> r == DestroyStep([], sessions, [])
    ensures !NoCookie(cookie) ==>
      && r.calls == [DestroyCall(UnescapedSid(cookie.value))]
      && r.sessions == sessions - {UnescapedSid(cookie.value)}
      && r.response == [ExpiredCookie(m.cookieName, now)]
  {
    if NoCookie(cookie) then DestroyStep([], sessions, [])
    else
      var sid := UnescapedSid(cookie.value);
      DestroyStep([DestroyCall(sid)], sessions - {sid}, [ExpiredCookie(m.cookieName, now)])
  }

  // ---------------------------------------------------------------------
  // Properties across requests

  /**
   * A request that brings back the cookie a first request was issued reads
   * the session the first request created, and gets the same handle back.
   */
  lemma {:induction false} StartThenResume(m: Manager, sessions: map<GoString, Store>, b: Bytes32,
                                           first: Backend, later: Option<Bytes32>, next: Backend)
    requires !first.initFails
    ensures var one := Start(m, sessions, None, Some(b), first);
            var two := Start(m, one.sessions, Some(one.response[0].value), later, next);
            && two.call == ReadCall(SessionID(Some(b)))
            && two.session == one.session
            && two.sessions == one.sessions
            && two.response == []
  {
    var one := Start(m, sessions, None, Some(b), first);
    var sid := SessionID(Some(b));
    var value := one.response[0].value;
    assert value != [] by {
      assert QueryUnescape(value) == Some(sid) && sid != [];
    }
    assert UnescapedSid(value) == sid;
  }

  /**
   * When Init fails the client still gets the cookie, and the request that
   * brings it back reads an id with no store: unless the backend creates the
   * store on Read, that request gets a nil session too.
   */
  lemma {:induction false} StartAfterFailedInit(m: Manager, sessions: map<GoString, Store>, b: Bytes32,
                                                first: Backend, later: Option<Bytes32>, next: Backend)
    requires first.initFails && SessionID(Some(b)) !in sessions
    ensures var one := Start(m, sessions, None, Some(b), first);
            var two := Start(m, one.sessions, Some(one.response[0].value), later, next);
            && one.session == None && |one.response| == 1
            && two.call == ReadCall(SessionID(Some(b)))
            && (two.session.Some? <==> next.readCreates)
  {
    var one := Start(m, sessions, None, Some(b), first);
    var sid := SessionID(Some(b));
    var value := one.response[0].value;
    assert value != [] by {
      assert QueryUnescape(value) == Some(sid) && sid != [];
    }
    assert UnescapedSid(value) == sid;
  }

  /**
   * When reading random bytes fails the cookie carries "", which the next
   * request counts as no cookie: it starts another session instead of resuming.
   */
  lemma StartWithoutRandomDoesNotResume(m: Manager, sessions: map<GoString, Store>, first: Backend,
                                        later: Option<Bytes32>, next: Backend)
    ensures var one := Start(m, sessions, None, None, first);
            var two := Start(m, one.sessions, Some(one.response[0].value), later, next);
            && one.call == InitCall([])
            && one.response[0].value == []
            && two.call == InitCall(SessionID(later))
  {
    var one := Start(m, sessions, None, None, first);
    assert QueryEscape([]) == [];
    assert one.response[0].value == [];
  }

  /** Every id made from random bytes ends in '=', so its cookie value is not the id. */
  lemma {:induction false} SessionCookieValueDiffers(name: GoString, b: Bytes32, maxLifeTime: Int64)
    ensures IssuedCookie(name, SessionID(Some(b)), maxLifeTime).value != SessionID(Some(b))
  {
    var sid := SessionID(Some(b));
    assert !IsUnreserved(sid[43]);
    assert !AllUnreserved(sid);
  }

  /**
   * As written, destroying with the cookie a new session was issued asks the
   * provider to destroy a different id: the session survives.
   */
  lemma {:induction false} DestroyMissesStartedSession(m: Manager, sessions: map<GoString, Store>,
                                                       b: Bytes32, backend: Backend, now: int)
    ensures var first := Start(m, sessions, None, Some(b), backend);
            var sid := SessionID(Some(b));
            var gone := Destroy(m, first.sessions, Some(first.response[0].value), now);
            && |gone.calls| == 1 && gone.calls[0].sid != sid
            && (!backend.initFails ==> sid in gone.sessions && gone.sessions[sid] == map[])
  {
    var first := Start(m, sessions, None, Some(b), backend);
    var sid := SessionID(Some(b));
    var value := first.response[0].value;
    assert value == IssuedCookie(m.cookieName, sid, m.maxLifeTime).value;
    SessionCookieValueDiffers(m.cookieName, b, m.maxLifeTime);
    assert value != [] by {
      assert QueryUnescape(value) == Some(sid) && sid != [];
    }
    var gone := Destroy(m, first.sessions, Some(value), now);
    assert gone.calls == [DestroyCall(value)] && gone.sessions == first.sessions - {value};
    if !backend.initFails {
      assert first.sessions == sessions[sid := map[]];
    }
  }

  /**
   * With the value unescaped first, destroying with the issued cookie
   * removes the session and leaves every other store as it was.
   */
  lemma {:induction false} DestroyFixedEndsStartedSession(m: Manager, sessions: map<GoString, Store>,
                                                          b: Bytes32, backend: Backend, now: int)
    ensures var first := Start(m, sessions, None, Some(b), backend);
            var sid := SessionID(Some(b));
            var gone := DestroyFixed(m, first.sessions, Some(first.response[0].value), now);
            && gone.calls == [DestroyCall(sid)]
            && sid !in gone.sessions
            && (forall id :: id in sessions && id != sid ==> id in gone.sessions && gone.sessions[id] == sessions[id])
            && gone.response == [ExpiredCookie(m.cookieName, now)]
  {
    var first := Start(m, sessions, None, Some(b), backend);
    var sid := SessionID(Some(b));
    var value := first.response[0].value;
    assert value != [] && UnescapedSid(value) == sid by {
      assert QueryUnescape(value) == Some(sid) && sid != [];
    }
    var gone := DestroyFixed(m, first.sessions, Some(value), now);
    assert gone.sessions == first.sessions - {sid};
    assert forall id :: id in sessions && id != sid ==> id in first.sessions && first.sessions[id] == sessions[id];
  }

  /**
   * The same on the manager's methods: a client that gets a new session and
   * then logs out with its cookie leaves that session with the provider.
   */
  method StartThenDestroy(m: Manager, b: Bytes32, backend: Backend, now: int)
    returns (sid: GoString, destroyed: GoString)
    modifies m.provider
    ensures sid == SessionID(Some(b)) && destroyed != sid
    ensures m.provider.log == old(m.provider.log) + [InitCall(sid), DestroyCall(destroyed)]
    ensures !backend.initFails ==> sid in m.provider.sessions && m.provider.sessions[sid] == map[]
  {
    ghost var first := Start(m, m.provider.sessions, None, Some(b), backend);
    ghost var gone := Destroy(m, first.sessions, Some(first.response[0].value), now);
    DestroyMissesStartedSession(m, m.provider.sessions, b, backend, now);
    assert first.call == InitCall(SessionID(Some(b)));
    assert gone.calls == [DestroyCall(first.response[0].value)];
    var session, issued := m.SessionStart(None, Some(b), backend);
    sid := SessionID(Some(b));
    destroyed := issued[0].value;
    var expired := m.SessionDestroy(Some(destroyed), now);
  }
}
