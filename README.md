# Session manager model

A Dafny model of a Go session-management package and of the login rule
of the two example programs built on it.

The package keeps a process-wide registry of named storage providers.
A `Manager` binds one provider to a cookie name and a lifetime. On each
request, `SessionStart` either creates a session or resumes one:
- With no cookie (or an empty one), it makes a fresh id from 32 random
  bytes (padded base64url), asks the provider to initialise it, and issues
  a cookie carrying the URL-escaped id.
- With a cookie, it unescapes the value and asks the provider to read
  that id.

`SessionDestroy` asks the provider to destroy the raw cookie value and
issues an expiring cookie. `GC` has the provider collect expired sessions.

The provider is modelled through the Provider and Session interfaces:
- an abstract map from session id to store;
- the log of the calls the manager makes into it;
- a `Backend` parameter for what the interface leaves open on each
  request: whether `SessionInit` fails and returns a nil Session, and
  whether `SessionRead` of an id with no store creates one or returns nil.

Other model choices:
- HTTP is reduced to two things. The request's session cookie is an
  `Option` of its value. The response is the list of cookies it sets.
- The random bytes and the clock are parameters.
- Go strings are sequences of byte-valued characters.

Files:
- `gotypes.dfy`: Go value types (bytes, strings, `int64`) and
  Option/Result.
- `base64url.dfy`: the padded base64 encoding with the URL-safe alphabet
  (section 5 of RFC 4648). It comes with a canonical decoder (section 3.5:
  unused bits must be zero) and round trips in both directions, so an
  encoding is the only string that decodes to its bytes.
- `queryescape.dfy`: `url.QueryEscape` and `url.QueryUnescape` in
  query-component mode. Proved: unescaping undoes escaping, and escaping
  leaves a string unchanged exactly when it holds only unreserved bytes.
- `session.dfy`: the registry, the provider, the manager's operations, and
  their effects as pure step functions (`Start`, `Destroy`, `DestroyFixed`).
  It also holds the lemmas relating several requests.
- `login.dfy`: the POST branch of the login handler. It validates the
  username with an anchored `[a-z]{3}` matcher and stores a valid name in
  the session. The file ends with each program's `init` configuration.

The model follows the code in these places:
- Resuming with a cookie whose id the provider no longer has returns
  whatever the provider returned; there is no fallback to a new session.
- When reading random bytes fails, the id is `""` and a session is created
  under it.
- `SessionDestroy` reads the cookie before taking the lock.
- The GC timer takes `maxLifeTime` as nanoseconds.

## Model

| member | source | states |
|---|---|---|
| `Base64Url.Encode` | session.go:67 | the encoding of n bytes has 4·⌈n/3⌉ characters |
| `Base64Url.EncodeShape` | session.go:67 | every character is from the URL-safe alphabet, except the last (3 − n mod 3) mod 3, which are `=` |
| `Base64Url.DecodeEncode` | session.go:67 | decoding the encoding gives back the bytes |
| `Base64Url.EncodeDecode` | session.go:67 | every string the canonical decoder accepts is the encoding of the bytes it decodes to |
| `Base64Url.EncodeInjective` | session.go:67 | different byte strings have different encodings |
| `QueryEscaping.QueryEscape` | session.go:82 | escaping never shortens a string |
| `QueryEscaping.UnescapeEscape` | session.go:88 | `QueryUnescape(QueryEscape(s))` succeeds with `s`, for every s |
| `QueryEscaping.EscapeIsIdentity` | session.go:82 | `QueryEscape(s) == s` iff every byte of s is a letter, digit, `-`, `_`, `.` or `~` |
| `Sessions.StoreSet` | session.go:15 | Set changes only the value under key in the handle's store; every other store and the set of ids stay the same |
| `Sessions.StoreDelete` | session.go:17 | Delete removes only key from the handle's store; every other store and the set of ids stay the same |
| `Sessions.SetThenGet` | session.go:15-16 | after Set, Get of the key returns the value, and Get of any other key is unchanged |
| `Sessions.DeleteThenGet` | session.go:16-17 | after Delete, Get of the key returns nothing |
| `Sessions.Provider.SessionInit` | session.go:24 | logs the call; a failing backend returns nil and stores nothing; otherwise an empty store is put under the id and its handle returned |
| `Sessions.Provider.SessionRead` | session.go:25 | logs the call; an id with a store gets its handle and the stores stay the same; an unknown id gets nil, or a new empty store and its handle when the backend creates on Read |
| `Sessions.Provider.SessionDestroy` | session.go:26 | removes the id's store and logs the call |
| `Sessions.Provider.SessionGC` | session.go:27 | removes the expired stores and logs the call with the lifetime |
| `Sessions.Provider.Set` | session.go:15 | the stores become `StoreSet` of the old ones; no provider call is logged |
| `Sessions.Provider.Get` | session.go:16 | returns a value iff the handle's store holds the key, and then that value |
| `Sessions.Provider.Delete` | session.go:17 | the stores become `StoreDelete` of the old ones; no provider call is logged |
| `Sessions.Registry.Register` | session.go:33-43 | a nil provider panics with "session: Register provider is nil"; a name already present panics with "…called twice for provider" + name; both leave the registry unchanged; otherwise exactly name ↦ provider is added |
| `Sessions.NewManager` | session.go:53-59 | error `UnknownProvide(name)` iff the name is not registered; otherwise a manager bound to that provider, cookie name and lifetime |
| `Sessions.SessionID` | session.go:62-68 | `""` iff the random read fails; otherwise the base64url encoding of the 32 bytes read: 44 characters, 43 from the URL-safe alphabet, then one `=`, and it decodes to those bytes |
| `Sessions.SessionIDsDistinct` | session.go:62-68 | different random bytes give different ids |
| `Sessions.IssuedCookie` | session.go:80-85 | cookie with the manager's name, path `/`, HttpOnly, MaxAge = lifetime; its value unescapes to the id; the value equals the id iff the id has only unreserved bytes |
| `Sessions.Start` | session.go:76-90 | if there is no cookie or it is empty: exactly one Init call for `SessionID(random)` and exactly one issued cookie whose value unescapes to that id, whether or not Init fails; a failed Init gives a nil session and no new store, a successful one an empty store under the id and its handle. Otherwise: exactly one Read call for the unescaped value (`""` if it does not unescape) and no cookie; the id's handle if it has a store, else nil or a new empty store, as the backend does |
| `Sessions.Manager.SessionStart` | session.go:71-93 | the provider's log gains exactly `Start`'s call; its stores, the returned handle and the response are `Start`'s |
| `Sessions.Destroy` | session.go:99-107 | without a cookie: no provider call, no response cookie, stores unchanged. Otherwise: one Destroy call for the raw cookie value, that id removed, one response cookie with empty value, path `/`, HttpOnly, MaxAge −1, expiring now |
| `Sessions.Manager.SessionDestroy` | session.go:96-109 | the provider's log and stores, and the response, are those of `Destroy` |
| `Sessions.DestroyFixed` | session.go:88 | as `Destroy`, but the id destroyed is the one SessionStart reads: the cookie value unescaped |
| `Sessions.Manager.SessionDestroyFixed` | session.go:102-107 | the provider's log and stores, and the response, are those of `DestroyFixed` |
| `Sessions.Manager.GC` | session.go:112-115 | exactly one provider GC call with the manager's lifetime; the expired stores are removed |
| `Sessions.StartThenResume` | session.go:82-89 | a second request bringing back the issued cookie makes one Read call for the new id and gets the same handle, with no cookie and no change to the stores |
| `Sessions.StartAfterFailedInit` | session.go:78-86 | when Init fails the cookie is still issued; the next request bringing it back reads that id and gets a session only if the backend creates one on Read |
| `Sessions.StartWithoutRandomDoesNotResume` | session.go:64-77 | when the random read fails, the issued cookie is empty, so the next request holding it starts another session |
| `Sessions.SessionCookieValueDiffers` | session.go:82 | the cookie value of every id made from random bytes differs from the id |
| `Sessions.DestroyMissesStartedSession` | session.go:104 | destroying with the cookie a new session was issued calls Destroy for an id other than the session's; when Init succeeded, the session's store survives |
| `Sessions.DestroyFixedEndsStartedSession` | session.go:88 | with the value unescaped, destroying with the issued cookie removes exactly that session; every other store keeps its id and its contents |
| `Sessions.StartThenDestroy` | session.go:104 | the same, on the manager's methods: the log holds Init(sid), then Destroy of a different id, and when Init succeeded sid's store remains |
| `LoginForm.MatchRepeatIff` | main.go:33 | the matcher for `^[a-z]{3}$` accepts exactly the 3-character strings of `a`–`z` |
| `LoginForm.CheckUsername` | demo/main.go:36-43 | empty iff the username is empty; invalid iff it is non-empty and not three lower-case letters; logged in iff it is three lower-case letters. Exactly one holds |
| `LoginForm.ReplyText` | demo/main.go:37-42 | the body is "the username can not be null" iff the username was empty, "the username is invalid" iff it was invalid, and starts with "log in successfully: " iff the login succeeded, followed by the escaped password |
| `LoginForm.HandleLoginPost` | demo/main.go:22-43 | SessionStart runs first whatever the form holds. Only a valid username is stored under "username", through the started session. An invalid one leaves the stores as SessionStart left them. A valid one with a nil session (failed Init, or a Read that found nothing) panics before any body; otherwise the body is the outcome's `ReplyText` |
| `LoginForm.LoginIsRemembered` | main.go:36 | after a successful login on a first visit, a visit bringing back the issued cookie finds the username in its session |
| `LoginForm.Configure` | main.go:17 | a manager iff "memory" is registered; then bound to it, with cookie "gosessionid" and the given lifetime |
| `DemoProgram.Init` | demo/main.go:16-19 | the global manager: "memory", "gosessionid", lifetime 30, or nil if "memory" is not registered |
| `MainProgram.Init` | main.go:16-19 | the global manager: "memory", "gosessionid", lifetime 3600, or nil if "memory" is not registered |

## Findings

| source | as written | input that shows it | evidently intended | confidence | as-written member | corrected member |
|---|---|---|---|---|---|---|
| session.go:104 | `SessionDestroy` hands the provider the raw cookie value (`QueryEscape(sid)`); `SessionStart` reads and creates under the unescaped id (session.go:82,88) | any 32 random bytes: the id ends in `=`, the cookie carries `%3D`, so Destroy is called for an id no session has | destroy `QueryUnescape(cookie.Value)`, the id `SessionStart` reads | high (proved on the model; not executed) | `Sessions.DestroyMissesStartedSession` | `Sessions.DestroyFixedEndsStartedSession` |

Both `Sessions.Manager.SessionDestroy` and `Sessions.Destroy` model the code as written. Their corrected counterparts are `Sessions.Manager.SessionDestroyFixed` and `Sessions.DestroyFixed`.

## Left out

- HTTP transport: reading the cookie, `http.SetCookie` header rendering, form parsing, routing and `ListenAndServe` are reduced to the cookie value and the list of cookie records.
- The manager's mutex: operations are modelled as sequential and atomic, so concurrency between requests and GC is not captured.
- The GC timer: the self-rescheduling `time.AfterFunc` and the `go globalSessions.GC()` started in each program's `init` are background tasks. Only one GC round is modelled. With a nil manager, that goroutine would panic; this is not modelled.
- `crypto/rand` is a parameter that either fails or yields 32 bytes.
- Clock: `time.Now()` for the expiring cookie is a parameter.
- Sessions.Provider.SessionGC: which sessions are expired depends on the backend's clock and is passed in. No expiry rule or recency ordering is modelled, because the memory provider is not part of this model.
- The provider's implementation (`providers/memory`) is not part of this model. The Provider interface fixes only signatures; what a backend may do differently is the `Backend` parameter, and the rest is assumed below.
- Sessions.Start: a successful Init is assumed to replace any earlier store under the id with an empty one, and a Read of an id that has a store to return its handle. A backend that errs on such a Read, or keeps the old store on Init, is not modelled.
- Errors of `SessionInit` and `SessionRead`: the manager drops them (session.go:78,89); only the nil Session that comes with a failure is modelled.
- Sessions.IssuedCookie: `int(maxLifeTime)` is taken as lossless. A platform with a 32-bit Go `int` would truncate it.
- Sessions.NewManager: the error's `%q` text formatting is not modelled; the error carries the name.
- QueryEscaping.QueryUnescape: the text of Go's `EscapeError` is not modelled. The manager discards it.
- Keys and values of a session: Go's `interface{}` values are modelled as strings, the only kind the programs store.
- The login handler's GET branch (template parsing and execution, logging) is rendering and I/O. The model treats every non-GET request as the POST branch.
- LoginForm.ReplyText: the `template.HTMLEscapeString` of the password is a parameter, and the `fmt.Printf` of the form is not modelled.
- A missing `username` or `password` form field makes `r.Form[...][0]` panic. That is transport-level and not modelled.
