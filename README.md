# Session lifecycle of the sharding-console user controller

The sharding console is a web database client with several windows (query
tabs). Its `UserController` keeps two process-wide registries:

- the **user registry**, session token (the `userUUID` cookie) -> user session,
  where a user session holds the login credentials and the ordered list of
  window ids it owns;
- the **window registry**, window id -> JDBC connection.

Four endpoints change them: `login` (already logged in / stale token refused /
open a connection and register a user with its first window), `exit` (logout,
cascading to every window the user owns), `addWindow` (another connection for
a logged-in user) and `delWindow` (close one window).

The project has four modules:

- `Sessions` (`sessions.dfy`): the entities (`UserSession`, `WindowSession`,
  `Credentials`, `Connection`) and the removal of a window id from a user's
  list, with its properties.
- `Lifecycle` (`lifecycle.dfy`): the two registries as a value, the invariants
  that tie them together, and one step function per endpoint and per private
  helper of the controller. Each endpoint's contract states its outcomes.
- `Invariants` (`invariants.dfy`): the lemmas that hold across steps. Every
  endpoint keeps the registries well formed. Consistency (every listed window
  resolves) is kept by all of them except a `delWindow` aimed at another
  user's window. Logout releases exactly the owned windows and is idempotent.
  Closing a window right after opening it restores both registries, and a full
  login / open / close / logout session started from empty registries ends
  with empty registries.
- `Controller` (`controller.dfy`): class `UserController` with the two
  registries as `map` fields. It has one method per endpoint and per helper,
  and each updates the fields in place the way the Java code does.
  `removeSession` is a loop over the window list. Each method is proved to
  produce exactly the state (and, for an endpoint, the answer) of the matching
  `Lifecycle` step. The endpoint methods also keep `Lifecycle.Valid`, and all
  of them except the unchecked `DelWindow` keep `Lifecycle.Consistent`.
  `DelWindow` keeps it only when no other session lists the window. The
  private helpers carry no invariant of their own.

Things outside the controller become parameters:

- The connector (`DBConnector.getConnection`) is a function from credentials
  to an optional connection.
- The UUIDs generated for new user and window sessions are id parameters.
  Their freshness is a precondition: a user id is non-empty and not a key, and
  a window id is neither registered nor listed by any user.
- The cookie token is a string, with `""` standing for the absent cookie (the
  `defaultValue`).
- The exceptions (`UserException`) become the `PleaseLoginFirst` and
  `LoginFailed` answers of a `Response` datatype.

`Lifecycle.Valid` is the object invariant of the controller. It says:

- tokens are non-empty and key the session that carries them;
- no session lists a window twice;
- no window is listed by two sessions;
- every registered connection belongs to a logged-in user.

`Lifecycle.Consistent` is the cross-registry invariant: every window id a live
user lists resolves in the window registry.

Two behaviours of the code are worth spelling out:

- A login with a stale token calls `removeSession`, which one might expect to
  clean up that token's windows. It finds no session for the token, so it
  removes nothing. `Lifecycle.Login` proves that this path leaves both
  registries unchanged.
- Closing a window or logging out only unregisters window ids. Whether the
  registry also closes the JDBC connection depends on the registry's own
  code, which is not part of this model.

## Model

| member | source | states |
|---|---|---|
| Sessions.DelWindowId | sharding-console/src/main/java/io/shardingjdbc/console/controller/UserController.java:145 | removing an id from a user's window list takes away exactly one occurrence (multiset difference) and leaves a list without it unchanged |
| Sessions.DelWindowIdFirst | sharding-console/src/main/java/io/shardingjdbc/console/controller/UserController.java:145 | when the id first occurs at position i, the result is the list with exactly position i cut out, everything else in its order |
| Sessions.DelWindowIdDistinct | sharding-console/src/main/java/io/shardingjdbc/console/controller/UserController.java:145 | on a list without repeats the id is gone afterwards, every other id stays, and no repeat appears |
| Sessions.DelWindowIdAppended | sharding-console/src/main/java/io/shardingjdbc/console/controller/UserController.java:145 | removing an id that was absent before it was appended gives back the previous list |
| Lifecycle.CreateWindow | sharding-console/src/main/java/io/shardingjdbc/console/controller/UserController.java:56-64 | a window is created exactly when the connector yields a connection for the credentials; it carries the generated id and owns that connection |
| Lifecycle.SetSession | sharding-console/src/main/java/io/shardingjdbc/console/controller/UserController.java:65-69 | the session, with the window appended to its list and its id and credentials kept, is registered under its id; the window id maps to its connection; every other user and window entry is unchanged |
| Lifecycle.RemoveSession | sharding-console/src/main/java/io/shardingjdbc/console/controller/UserController.java:92-100 | the token no longer resolves and none of its listed windows stays registered; every other user and every window it did not list keeps its entry; nothing is added |
| Lifecycle.SetWindow | sharding-console/src/main/java/io/shardingjdbc/console/controller/UserController.java:125-128 | the resolved session's list gains the window at its end, with id and credentials kept; the window id maps to its connection; every other user and window entry is unchanged |
| Lifecycle.RemoveWindow | sharding-console/src/main/java/io/shardingjdbc/console/controller/UserController.java:144-147 | the resolved session keeps its id and credentials and its list becomes `DelWindowId` of the old one (the first occurrence cut out, the rest in order), and the id leaves the window registry, whoever owns it; every other user and window entry is unchanged |
| Lifecycle.Login | sharding-console/src/main/java/io/shardingjdbc/console/controller/UserController.java:33-54 | "Logged in." iff the token is non-empty and resolves; "Please login first." iff it is non-empty and does not; "Login failed." iff there is no token and no connection; these three leave both registries unchanged; no token and a connection means "Login succeeded", and then the new user maps to a session listing just the new window, which maps to the new connection, and both ids are returned |
| Lifecycle.Exit | sharding-console/src/main/java/io/shardingjdbc/console/controller/UserController.java:85-90 | always succeeds; an empty or unknown token changes nothing; otherwise the token no longer resolves, none of its windows is registered, every other session and every window it did not own stays as it was, and nothing is added |
| Lifecycle.AddWindow | sharding-console/src/main/java/io/shardingjdbc/console/controller/UserController.java:108-123 | "Please login first." iff the token does not resolve; "Login failed." iff the connector refuses the session's stored credentials; both leave the registries unchanged; a resolved token and a connection means "Open new window OK.", and then the new id is appended to the session's list and mapped to the new connection, and is returned |
| Lifecycle.DelWindow | sharding-console/src/main/java/io/shardingjdbc/console/controller/UserController.java:131-147 | "Please login first." iff the token does not resolve, with nothing changed; otherwise "Close window OK.", the caller's session keeps its id and credentials and its list becomes `DelWindowId` of the old one (the first occurrence cut out, the rest in order), the id leaves the window registry, and every other session and window entry stays as it was |
| Lifecycle.DelOwnWindow | sharding-console/src/main/java/io/shardingjdbc/console/controller/UserController.java:131-147 | corrected delWindow: "Please login first." iff the token does not resolve, "Close window OK." otherwise; a window the caller owns is removed exactly as delWindow removes it; a window it does not own leaves both registries unchanged |
| Invariants.LoginPreservesInvariants | sharding-console/src/main/java/io/shardingjdbc/console/controller/UserController.java:33-75 | every outcome of login keeps the registries well formed and keeps them consistent |
| Invariants.ExitPreservesInvariants | sharding-console/src/main/java/io/shardingjdbc/console/controller/UserController.java:85-105 | logout keeps the registries well formed and consistent: no window outlives its owner |
| Invariants.AddWindowPreservesInvariants | sharding-console/src/main/java/io/shardingjdbc/console/controller/UserController.java:107-128 | addWindow keeps the registries well formed and consistent |
| Invariants.DelWindowPreservesInvariants | sharding-console/src/main/java/io/shardingjdbc/console/controller/UserController.java:130-147 | delWindow keeps the registries well formed; it keeps them consistent when no other session lists the window |
| Invariants.DelOwnWindowPreservesInvariants | sharding-console/src/main/java/io/shardingjdbc/console/controller/UserController.java:130-147 | with the ownership check, delWindow keeps the registries well formed and consistent in every case |
| Invariants.DelWindowForeignBreaksConsistency | sharding-console/src/main/java/io/shardingjdbc/console/controller/UserController.java:144-147 | in the well-formed, consistent two-user state (u1 owning w1, u2 owning w2), u2 closing w1 succeeds and leaves u1 listing the unregistered w1 |
| Invariants.DelWindowForeignAlwaysBreaksConsistency | sharding-console/src/main/java/io/shardingjdbc/console/controller/UserController.java:144-147 | on well-formed, consistent registries, a logged-in user closing a window another session lists always gets "Close window OK." and always leaves the registries inconsistent |
| Invariants.DelWindowAgreesWhenNotForeign | sharding-console/src/main/java/io/shardingjdbc/console/controller/UserController.java:144-147 | for a logged-in token on valid, consistent registries, the unchecked and the checked delWindow give the same result iff no other session lists the window |
| Invariants.ExitIdempotent | sharding-console/src/main/java/io/shardingjdbc/console/controller/UserController.java:92-100 | a second exit with the same token changes nothing |
| Invariants.ExitReleasesExactlyOwned | sharding-console/src/main/java/io/shardingjdbc/console/controller/UserController.java:92-100 | on well-formed, consistent registries, the windows that logout unregisters are exactly the ones the user listed |
| Invariants.AddThenDelWindow | sharding-console/src/main/java/io/shardingjdbc/console/controller/UserController.java:108-147 | opening a window and then closing that window returns both registries to where they were |
| Invariants.DelWindowTwice | sharding-console/src/main/java/io/shardingjdbc/console/controller/UserController.java:138-147 | on well-formed registries, a repeated delWindow of the same id by the same token gives the first call's outcome and changes nothing further |
| Invariants.LoginOpenCloseLogout | sharding-console/src/main/java/io/shardingjdbc/console/controller/UserController.java:33-147 | from empty registries: login gives u and w1, addWindow gives w2 and u lists [w1, w2], closing w1 leaves [w2] with w1 unregistered, and logout leaves both registries empty |
| Controller.UserController.Login | sharding-console/src/main/java/io/shardingjdbc/console/controller/UserController.java:33-54 | the registry fields and the answer end up exactly as Lifecycle.Login says; the invariant is kept |
| Controller.UserController.SetSession | sharding-console/src/main/java/io/shardingjdbc/console/controller/UserController.java:65-75 | lists the window in the session and registers both, as Lifecycle.SetSession |
| Controller.UserController.Exit | sharding-console/src/main/java/io/shardingjdbc/console/controller/UserController.java:85-90 | fields and answer as Lifecycle.Exit; the invariant is kept |
| Controller.UserController.RemoveSession | sharding-console/src/main/java/io/shardingjdbc/console/controller/UserController.java:92-105 | the loop unregisters every listed window, then the session is removed, leaving the fields as Lifecycle.RemoveSession |
| Controller.UserController.AddWindow | sharding-console/src/main/java/io/shardingjdbc/console/controller/UserController.java:108-123 | fields and answer as Lifecycle.AddWindow; the invariant is kept |
| Controller.UserController.SetWindow | sharding-console/src/main/java/io/shardingjdbc/console/controller/UserController.java:125-128 | appends the window to the session's list and registers it, as Lifecycle.SetWindow |
| Controller.UserController.DelWindow | sharding-console/src/main/java/io/shardingjdbc/console/controller/UserController.java:131-142 | fields and answer as Lifecycle.DelWindow; well-formedness is kept, consistency only when no other session lists the window |
| Controller.UserController.RemoveWindow | sharding-console/src/main/java/io/shardingjdbc/console/controller/UserController.java:144-147 | drops the id from the session's list and from the window registry, as Lifecycle.RemoveWindow |
| Controller.UserController.DelOwnWindow | sharding-console/src/main/java/io/shardingjdbc/console/controller/UserController.java:131-147 | corrected delWindow: fields and answer as Lifecycle.DelOwnWindow; both invariants are kept |

## Left out

- HTTP routing, request-body binding and the cookie writes (lines 71-74 and 101-104) are transport plumbing. The token is a string parameter, and `LoginSucceeded` carries the user id that the cookie would carry.
- `DBConnector.getConnection` and driver loading are a foreign call. They become the parameter `open: Credentials -> Option<Connection>`. As a function, it yields the same handle for two attempts with the same credentials, so distinct physical connections per window are not told apart.
- UUID generation inside the `UserSession` and `WindowSession` constructors is not part of this model. It is replaced by id parameters with a freshness precondition.
- `UserSessionRegistry` and `WindowSessionRegistry` are not part of this model. The model treats them as plain keyed stores (add overwrites, remove of an absent key is a no-op) and makes them two fields of the controller instead of process-wide singletons.
- Closing a connection when its window is unregistered is not modelled, since the registry code is not visible. The model tracks unregistration only.
- Aliasing of user sessions is not modelled. `findSession` is assumed to return the `UserSession` object the registry stores, so `addWindowID` and `delWindowID` on it (lines 115-117, 138-139, 144-145) update the registered session. The model writes that update as a new map entry for the token.
- Thread safety and concurrent requests are not modelled. Each endpoint is one atomic step.
- `UserSession.delWindowID` is not part of this model. `Sessions.DelWindowId` assumes it behaves like `List.remove(Object)` and removes the first occurrence. Under `Lifecycle.Valid` no list has repeats, so this is the same as removing every occurrence.
- A login request body that already carries an id or a window list is not modelled. The new session gets the generated id and starts with an empty list.
- A `delWindow` body without a `windowID` entry (`windowInfo.get` returns null) is not modelled. The window id is a string parameter.
- Response message strings and the `HashMap` payload are not modelled beyond the window id (and user id) carried in the `Response` datatype.

## Findings

| source | as written | input that shows it | evidently intended | confidence | as-written member | corrected member |
|---|---|---|---|---|---|---|
| sharding-console/src/main/java/io/shardingjdbc/console/controller/UserController.java:144-147 | `removeWindow` unregisters the requested window id without checking that the calling session lists it | user u1 owns window w1 and user u2 owns w2; u2 posts `delWindow` with windowID w1: the answer is "Close window OK.", w1 is unregistered, and u1 still lists w1 | a session closes only its own windows; any other id leaves both registries as they are | medium (not executed) | Invariants.DelWindowForeignBreaksConsistency | Invariants.DelOwnWindowPreservesInvariants |
