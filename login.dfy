/**
 * The login form rule the two example programs share: on a POST, after the
 * session has been started, the username is rejected when empty, rejected
 * when it does not match ^[a-z]{3}$, and otherwise stored in the session.
 */
module LoginForm {
  import opened GoTypes
  import opened Sessions

  /**
   * An anchored match of the character class [lo-hi] repeated n times, as a
   * regular-expression engine consumes it: one character per repetition.
   */
  function MatchRepeat(lo: char, hi: char, n: nat, s: GoString): bool
    decreases n
  {
    if n == 0 then s == []
    else s != [] && lo <= s[0] <= hi && MatchRepeat(lo, hi, n - 1, s[1..])
  }

  lemma {:induction false} MatchRepeatIff(lo: char, hi: char, n: nat, s: GoString)
    ensures MatchRepeat(lo, hi, n, s) <==> |s| == n && forall i :: 0 <= i < |s| ==> lo <= s[i] <= hi
    decreases n
  {
    if n > 0 && s != [] {
      MatchRepeatIff(lo, hi, n - 1, s[1..]);
      assert forall i :: 0 < i < |s| ==> s[i] == s[1..][i - 1];
    }
  }

  /** regexp.MatchString("^[a-z]{3}$", u). */
  predicate MatchesUsernamePattern(u: GoString) {
    MatchRepeat('a', 'z', 3, u)
  }

  /** The three answers a POST can get. */
  datatype LoginOutcome = UsernameEmpty | UsernameInvalid | LoggedIn

  /** Three lower-case ASCII letters. */
  predicate IsValidUsername(u: GoString) {
    |u| == 3 && forall i :: 0 <= i < |u| ==> 'a' <= u[i] <= 'z'
  }

  /** The emptiness check comes first, then the pattern; exactly one outcome holds. */
  function CheckUsername(u: GoString): (o: LoginOutcome)
    ensures o == UsernameEmpty <==> u == []
    ensures o == UsernameInvalid <==> u != [] && !IsValidUsername(u)
    ensures o == LoggedIn <==> IsValidUsername(u)
  {
    MatchRepeatIff('a', 'z', 3, u);
    if |u| == 0 then UsernameEmpty
    else if !MatchesUsernamePattern(u) then UsernameInvalid
    else LoggedIn
  }

  const EmptyText := "the username can not be null"
  const InvalidText := "the username is invalid"
  /** "%s: %s" with "log in successfully", up to the password. */
  const LoggedInPrefix := "log in successfully: "

  /**
   * The response body; the HTML escaping of the password is given, not
   * modelled. Each text tells the client which outcome it got.
   */
  function ReplyText(o: LoginOutcome, escapedPassword: string): (r: string)
    ensures o == UsernameEmpty <==> r == EmptyText
    ensures o == UsernameInvalid <==> r == InvalidText
    ensures o == LoggedIn <==> |r| >= |LoggedInPrefix| && r[..|LoggedInPrefix|] == LoggedInPrefix
    ensures o == LoggedIn ==> r[|LoggedInPrefix|..] == escapedPassword
  {
    match o
    case UsernameEmpty =>
      assert EmptyText[..|LoggedInPrefix|][0] != LoggedInPrefix[0];
      EmptyText
    case UsernameInvalid =>
      assert InvalidText[..|LoggedInPrefix|][0] != LoggedInPrefix[0];
      InvalidText
    case LoggedIn =>
      var r := LoggedInPrefix + escapedPassword;
      assert r[0] != EmptyText[0] && r[0] != InvalidText[0];
      assert r[..|LoggedInPrefix|] == LoggedInPrefix;
      r
  }

  /** A POST is answered with an outcome, or panics calling Set on a nil session. */
  datatype LoginReply = Replied(outcome: LoginOutcome) | NilSessionPanic

  const UsernameKey: GoString := "username"

  /**
   * The login handler on a POST: SessionStart runs first, whatever the form
   * holds; the session is written only when the username is valid, and the
   * body written is the outcome's text. A nil session panics before any body.
   */
  method HandleLoginPost(m: Manager, cookie: Option<GoString>, random: Option<Bytes32>, backend: Backend,
                         username: GoString, escapedPassword: string)
    returns (reply: LoginReply, body: string, response: seq<Cookie>)
    modifies m.provider
    ensures reply.Replied? ==> body == ReplyText(reply.outcome, escapedPassword)
    ensures reply.NilSessionPanic? ==> body == []
    ensures var r := Start(m, old(m.provider.sessions), cookie, random, backend);
      && response == r.response
      && m.provider.log == old(m.provider.log) + [r.call]
      && (!IsValidUsername(username) ==>
            reply == Replied(CheckUsername(username)) && m.provider.sessions == r.sessions)
      && (IsValidUsername(username) && r.session.None? ==>
            reply == NilSessionPanic && m.provider.sessions == r.sessions)
      && (IsValidUsername(username) && r.session.Some? ==>
            reply == Replied(LoggedIn)
            && m.provider.sessions == StoreSet(r.sessions, r.session.value, UsernameKey, username))
  {
    var session;
    session, response := m.SessionStart(cookie, random, backend);
    var outcome := CheckUsername(username);
    if outcome == LoggedIn {
      if session.None? {
        return NilSessionPanic, [], response;
      }
      m.provider.Set(session.value, UsernameKey, username);
    }
    reply := Replied(outcome);
    body := ReplyText(outcome, escapedPassword);
  }

  /**
   * A user who logs in on a first visit and comes back with the cookie that
   * visit was issued finds the username in the session.
   */
  lemma {:induction false} LoginIsRemembered(m: Manager, sessions: map<GoString, Store>, b: Bytes32,
                                             firstBackend: Backend, later: Option<Bytes32>,
                                             nextBackend: Backend, u: GoString)
    requires IsValidUsername(u) && !firstBackend.initFails
    ensures var first := Start(m, sessions, None, Some(b), firstBackend);
            var stored := StoreSet(first.sessions, first.session.value, UsernameKey, u);
            var second := Start(m, stored, Some(first.response[0].value), later, nextBackend);
            second.session.Some? && StoreGet(second.sessions, second.session.value, UsernameKey) == Some(u)
  {
    var first := Start(m, sessions, None, Some(b), firstBackend);
    StartThenResume(m, sessions, b, firstBackend, later, nextBackend);
    var sid := SessionID(Some(b));
    var value := first.response[0].value;
    assert UnescapedSid(value) == sid && value != [];
  }

  /**
   * The manager an example program configures: NewManager("memory",
   * "gosessionid", maxLifeTime) with its error dropped, so nil when no
   * provider is registered as "memory".
   */
  function Configure(providers: map<GoString, Provider>, maxLifeTime: Int64): (r: Option<Manager>)
    ensures r.Some? <==> "memory" in providers
    ensures r.Some? ==> r.value == Manager("gosessionid", providers["memory"], maxLifeTime)
  {
    match NewManager(providers, "memory", "gosessionid", maxLifeTime)
    case Ok(m) => Some(m)
    case Err(_) => None
  }
}

/** demo/main.go: the example program with a 30-second session lifetime. */
module DemoProgram {
  import opened GoTypes
  import opened Sessions
  import LoginForm

  const LifeTime: Int64 := 30

  /** init: the global manager. */
  function Init(providers: map<GoString, Provider>): (r: Option<Manager>)
    ensures r.Some? <==> "memory" in providers
    ensures r.Some? ==> r.value.cookieName == "gosessionid" && r.value.maxLifeTime == 30
                        && r.value.provider == providers["memory"]
  {
    LoginForm.Configure(providers, LifeTime)
  }
}

/** main.go: the same program with a one-hour session lifetime. */
module MainProgram {
  import opened GoTypes
  import opened Sessions
  import LoginForm

  const LifeTime: Int64 := 3600

  /** init: the global manager. */
  function Init(providers: map<GoString, Provider>): (r: Option<Manager>)
    ensures r.Some? <==> "memory" in providers
    ensures r.Some? ==> r.value.cookieName == "gosessionid" && r.value.maxLifeTime == 3600
                        && r.value.provider == providers["memory"]
  {
    LoginForm.Configure(providers, LifeTime)
  }
}
