# home_proxy_docker, modelled in Dafny

home_proxy_docker runs SOCKS5 proxies as autossh tunnels through jump
servers. It serves a PAC (proxy auto-configuration) script that routes the
hosts a user lists through those proxies. It has a Vue front end, and two
scripts that turn test runs into an HTML report. This project models the
core of that system in Dafny and proves what each part promises.

One module per source file, one `.dfy` file per module:

- **Storage.** `JsonStore` models the JSON-file store: per-table cache, id
  generation, where/order/limit queries, transactions and the seeded
  defaults. `JsonText` models the JSON text of string lists. `Migrate`
  models the migration runner. `Users`, `SystemConfigs`, `ProxyServices`
  and `HostConfigs` model the four tables as in-memory classes.
- **Services.** `PacGenerator` covers the domain map, proxy groups, PAC
  script and cache slots. `ConflictChecker` finds hosts already listed by
  another configuration. `PortManager` covers the port range and
  allocation. `ProcessManager` covers starting, probing and stopping a
  tunnel. `SshService` covers key pairs and the authorized_keys merge.
  `StatusMonitor` is the periodic liveness sweep. `ServiceHost` gives the
  address clients reach the server under.
- **Controllers and middleware.** `AuthController`, `UserController`,
  `ProxyServiceController`, `HostConfigController`, `PacController` and
  `SystemConfigController` model the HTTP handlers. Each handler is a
  method that makes its checks in the source's order, then changes the
  tables. `Validation` models the request validators. `Cors` models the
  CORS origin decision and the cookie `secure` flag.
- **Front end.** `AuthStore` and `Tabs` model the Pinia stores.
  `RouterGuard` models the navigation guard. `SseParser` models the line
  buffer that reads the service-start log stream.
- **Report scripts.** `TestResults` models the Jest and Vitest output
  parsers. `ExtractTestCode` models the test-code extractor. `TestReport`
  models the summary cascade, the success badges, the code enrichment and
  escapeHtml.

`Common` holds the shared string operations (startsWith, includes, trim,
split/join, toLowerCase), the length of a string in UTF-16 code units, the
two string orders (code units for JavaScript's `<` and default sort, code
points for SQLite's ORDER BY), decimal rendering and the stable sort that
Array.prototype.sort performs.

The operating system, the network and foreign libraries become
parameters of the operations that use them:

- processes, `kill`, `lsof` and ssh-keygen;
- the SSH session to a jump server;
- the bind probe;
- bcrypt;
- `JSON.parse` of a server-sent frame;
- the regular expressions of the report scripts;
- the clock.

Every operation that changes state is a method of the class holding that
state. Its contract relates the new state to the old one. Lemmas about
the specification functions state the properties the source relies on.

## Model

| member | source | states |
|---|---|---|
| AuthStore.LoginOutcome | server/front-end/src/stores/auth.js:13-25 | login resolves to success exactly for a successful answer; a failure always carries a non-empty message: '登录失败' for an unsuccessful answer, the thrown error's message when it has one |
| AuthStore.RegisterOutcome | server/front-end/src/stores/auth.js:30-44 | register's success flag follows the answer; the message is never empty and prefers the server's message, then the answer's error message, then the thrown error's own, then the fixed text |
| AuthStore.Store.constructor | server/front-end/src/stores/auth.js:6-8 | the store starts with no user, isAuthenticated false, no navigation and no call made |
| AuthStore.Store.Login | server/front-end/src/stores/auth.js:13-25 | records one login call; a successful answer stores its user and sets the flag, anything else leaves both as they were; keeps the flag in step with the user |
| AuthStore.Store.Register | server/front-end/src/stores/auth.js:30-44 | records one register call and never touches the user, the flag or the route |
| AuthStore.Store.Logout | server/front-end/src/stores/auth.js:49-59 | whatever the logout call does, the user is cleared, the flag is false and the route is /login |
| AuthStore.Store.FetchUser | server/front-end/src/stores/auth.js:65-82 | yields true exactly for a successful answer, which it stores; otherwise (unsuccessful or thrown) clears user and flag |
| AuthStore.Store.CheckAuth | server/front-end/src/stores/auth.js:87-94 | when already logged in: true with no call and no change; otherwise exactly fetchUser's result and effects |
| RouterGuard.Resolve | server/front-end/src/router/index.js:4-39 | a route resolves to its own name; it requires login exactly when it is not Login or Register (children inherit the layout's meta) |
| RouterGuard.BeforeEach | server/front-end/src/router/index.js:47-89 | checkAuth is consulted exactly for protected routes and the login/register pages; a protected route proceeds only when logged in, else goes to Login with redirect=fullPath (to Login without query when the check throws); a logged-in visitor of Login/Register goes to Dashboard; every other route proceeds |
| RouterGuard.RedirectSettles | server/front-end/src/router/index.js:47-89 | the page a redirect leads to is let through by the guard with the same check outcome, so redirects never loop |
| RouterGuard.LoggedOutReachesLogin | server/front-end/src/router/index.js:51-59 | a logged-out visitor of a protected page is sent to Login with its path as redirect, and the Login page then lets them through |
| Tabs.FirstActive | server/front-end/src/stores/tabs.js:63-65 | getActiveTab: None exactly when no tab is active; otherwise an active tab with no active tab before it |
| Tabs.FirstActiveIs | server/front-end/src/stores/tabs.js:63-65 | with at most one active tab, getActiveTab returns the tab whose flag is set |
| Tabs.InitialGood | server/front-end/src/stores/tabs.js:5-13 | the initial list (the unclosable PAC preview, active) satisfies the store invariant and is the active tab |
| Tabs.FindById | server/front-end/src/stores/tabs.js:39 | with unique ids the id lookup finds the only tab carrying that id |
| Tabs.ActivatedOnly | server/front-end/src/stores/tabs.js:54-58 | setActiveTab keeps the invariant and afterwards the active tab is the one with that id (none for an unknown id) |
| Tabs.AddedActivates | server/front-end/src/stores/tabs.js:18-33 | addTab keeps the invariant and leaves exactly the tab with the given id active, whether it was new or already present |
| Tabs.AddExistingKeepsTabs | server/front-end/src/stores/tabs.js:29-32 | addTab with a known id adds nothing: same tabs in the same order, only active flags change |
| Tabs.RemoveRefused | server/front-end/src/stores/tabs.js:38-49 | removeTab of an unknown id or of an unclosable tab changes nothing |
| Tabs.PreviewNeverRemoved | server/front-end/src/stores/tabs.js:38-49 | in a valid list the PAC preview tab can never be removed |
| Tabs.WithoutAt | server/front-end/src/stores/tabs.js:42 | splice(index, 1) drops one tab and shifts the later ones down by one |
| Tabs.RemoveClosable | server/front-end/src/stores/tabs.js:39-48 | removeTab of a closable tab closes exactly that tab |
| Tabs.ClosedKeeps | server/front-end/src/stores/tabs.js:42-47 | closing a tab changes nothing of the tabs kept except their active flag |
| Tabs.ClosedGood | server/front-end/src/stores/tabs.js:38-49 | closing a closable tab of a valid list keeps the invariant |
| Tabs.ClosedActive | server/front-end/src/stores/tabs.js:41-47 | closing the active tab makes the last remaining tab the active one; closing another keeps the active tab |
| Tabs.TabStore.constructor | server/front-end/src/stores/tabs.js:5-13 | the store starts with the PAC preview tab alone, and valid |
| Tabs.TabStore.AddTab | server/front-end/src/stores/tabs.js:18-33 | the loop-based addTab yields Added(old tabs) and keeps the invariant |
| Tabs.TabStore.RemoveTab | server/front-end/src/stores/tabs.js:38-49 | removeTab yields Removed(old tabs) and keeps the invariant |
| Tabs.TabStore.SetActiveTab | server/front-end/src/stores/tabs.js:54-58 | the forEach yields Activated(old tabs): each tab active exactly when its id matches; the invariant holds |
| AuthController.Session.constructor | server/back-end/controllers/authController.js:113-115 | a fresh session holds no user id and no username |
| AuthController.RegisterRejection | server/back-end/controllers/authController.js:8-48 | the checks run in the handler's order: 403 REGISTER_DISABLED when registration is off; 409 USERNAME_EXISTS exactly when it is on and the name is taken; 409 EMAIL_EXISTS exactly when it is on, the name is free and a truthy email is already held; passing means the name is free |
| AuthController.Register | server/back-end/controllers/authController.js:8-80 | a refusal writes nothing and is the first failing check; a success appends exactly one row holding the hashed password and the email, an empty one stored as NULL, answers with its id, username and email, and the new name is then found |
| AuthController.Login | server/back-end/controllers/authController.js:85-156 | 401 INVALID_CREDENTIALS exactly for an unknown username or a password that does not compare, leaving the session alone; otherwise the session gets the user's id and name, and the answer is the profile or 500 when saving the session fails |
| AuthController.GetMe | server/back-end/controllers/authController.js:184-218 | 404 USER_NOT_FOUND exactly when the session's user row is gone; otherwise the row's id, username, email and creation time |
| AuthController.RegisterTwiceRefused | server/back-end/controllers/authController.js:24-34 | while registration is on, a username already in the table is always refused with 409 USERNAME_EXISTS |
| UserController.ChangePassword | server/back-end/controllers/userController.js:7-56 | 404 for an unknown user and 401 INVALID_PASSWORD exactly when the old password does not compare, both writing nothing; on success only that user's row changes, to the new hash and a fresh updated_at |
| UserController.UpdateProfile | server/back-end/controllers/userController.js:61-102 | 409 EMAIL_EXISTS exactly when a truthy email belongs to another user, writing nothing; otherwise only the caller's row takes the body's email, a null body email writing NULL and an absent one writing nothing, and the answer is the updated profile carrying that email, or 500 when the row is gone |
| UserController.OwnEmailAccepted | server/back-end/controllers/userController.js:67-69 | re-submitting the email one alone holds never finds another holder, so it is no conflict |
| Users.StoredEmail | server/back-end/db/models/users.js:16 | an absent or empty email is stored as NULL, any other is stored as given |
| Users.UserTable.constructor | server/back-end/db/models/users.js:6 | an empty table, valid |
| Users.UserTable.Create | server/back-end/db/models/users.js:10-18 | appends one row whose id exceeds every existing id (AUTOINCREMENT), with the given name and hash, the stored email and both timestamps set to now |
| Users.UserTable.FindById | server/back-end/db/models/users.js:23-26 | a row of the table with that id, or none exists |
| Users.UserTable.FindByUsername | server/back-end/db/models/users.js:31-34 | a row with that username, or none exists |
| Users.UserTable.FindByEmail | server/back-end/db/models/users.js:39-42 | a row holding that email, or none does (NULL matches nothing) |
| Users.UserTable.Update | server/back-end/db/models/users.js:47-75 | only the row with that id changes, and only in the provided fields plus updated_at (an email given as null is written as NULL); with no field nothing is written; the result is the row found afterwards |
| Users.UserTable.Delete | server/back-end/db/models/users.js:80-83 | removes exactly the rows with that id and keeps ids distinct |
| Users.UserTable.FindAll | server/back-end/db/models/users.js:88-91 | one listing per row in table order, with id, username and email and no password hash |
| Users.DeleteKeepsDistinct | server/back-end/db/models/users.js:80-83 | deleting by id keeps the ids of the remaining rows distinct |
| Users.PasswordPatchOnlyHash | server/back-end/db/models/users.js:56-59 | a password update changes the hash alone: id, username, email and creation time stay |
| Users.CreatedIsFound | server/back-end/db/models/users.js:10-34 | the row create appended for a username new to the table is the one findByUsername returns |
| SystemConfigs.SystemConfigTable.constructor | server/back-end/db/models/system-configs.js:6 | an empty table, keys distinct |
| SystemConfigs.SystemConfigTable.FindByKey | server/back-end/db/models/system-configs.js:27-30 | the row held under the key, or no row holds it |
| SystemConfigs.SystemConfigTable.FindAll | server/back-end/db/models/system-configs.js:35-38 | exactly the table's rows (same multiset), see FindAllOrdered for the order |
| SystemConfigs.FindAllOrdered | server/back-end/db/models/system-configs.js:36 | the listing is in non-decreasing key order (ORDER BY key) |
| SystemConfigs.SystemConfigTable.GetBoolean | server/back-end/db/models/system-configs.js:64-70 | the default for a missing key; otherwise true exactly when the stored text is 'true' or '1' |
| SystemConfigs.SystemConfigTable.Upsert | server/back-end/db/models/system-configs.js:10-22 | afterwards findByKey returns the row with the new value, the description or NULL when none is given, and a fresh timestamp; every row under another key is kept and none is added; keys stay distinct |
| SystemConfigs.SystemConfigTable.Update | server/back-end/db/models/system-configs.js:43-51 | a missing key writes nothing and yields nothing; otherwise only that row changes, in value and updated_at, and the result is what findByKey then returns |
| SystemConfigs.SystemConfigTable.Delete | server/back-end/db/models/system-configs.js:56-59 | exactly the rows under other keys remain, in order |
| SystemConfigs.SystemConfigTable.SetBoolean | server/back-end/db/models/system-configs.js:75-77 | on an existing key getBoolean afterwards yields the flag written, whatever its default; a missing key writes nothing |
| SystemConfigs.BoolRoundTrip | server/back-end/db/models/system-configs.js:64-77 | the text setBoolean writes is read by getBoolean as the same flag |
| SystemConfigs.FindUnique | server/back-end/db/models/system-configs.js:27-30 | with the key unique (the table's constraint) the row holding it is the one the lookup finds |
| SystemConfigs.DeleteKeepsDistinct | server/back-end/db/models/system-configs.js:56-59 | deleting a key keeps the remaining keys distinct |
| SystemConfigController.Decode | server/back-end/controllers/systemConfigController.js:117 | 'true' and 'false' become booleans, exactly those two; every other text passes through unchanged |
| SystemConfigController.List | server/back-end/controllers/systemConfigController.js:49-93 | one item per row in key order with its key and description; the value decoded, except that an empty or placeholder (192.168.1.4) PAC host becomes the request's service host and an empty PAC port the request's port |
| SystemConfigController.GetByKey | server/back-end/controllers/systemConfigController.js:98-131 | 404 CONFIG_NOT_FOUND exactly for a missing key; otherwise the key with its decoded value |
| SystemConfigController.Update | server/back-end/controllers/systemConfigController.js:136-175 | an undefined value is refused with 400 and writes nothing; a missing key fails with 500 and writes nothing; otherwise the row under the key takes the value's string form and a fresh updated_at, every other row and column stays, and the reply carries the value decoded |
| SystemConfigController.BoolRoundTrip | server/back-end/controllers/systemConfigController.js:152-160 | a boolean written through update is read back as the same boolean |
| SystemConfigController.TextRoundTrip | server/back-end/controllers/systemConfigController.js:152-160 | any other value reads back as its string form, unless that form is 'true' or 'false' |
| SystemConfigController.GetServiceAddress | server/back-end/controllers/systemConfigController.js:7-44 | the host is getServiceHost's, the protocol the forwarded or request one; the port is the forwarded port, else the local one, else the protocol's default, as text; the service URL is exactly protocol://host when that port is the number 80 for http or 443 for https, and protocol://host:port otherwise; the PAC URL is the service URL plus /proxy.pac |
| SystemConfigController.AddressAgreesWithServiceURL | server/back-end/controllers/systemConfigController.js:9-19 | whenever a host header is present, the address endpoint builds the same service URL as getServiceURL |
| ProxyServices.ProxyServiceTable.constructor | server/back-end/db/models/proxy-services.js:6 | an empty table, ids distinct |
| ProxyServices.ProxyServiceTable.Create | server/back-end/db/models/proxy-services.js:10-36 | appends one row with an id above every existing one, the given fields, a falsy jumpPort stored as 22, status defaulting to stopped, no process id, both timestamps now |
| ProxyServices.ProxyServiceTable.FindById | server/back-end/db/models/proxy-services.js:41-44 | the row with that id, or no row has it |
| ProxyServices.ProxyServiceTable.FindAll | server/back-end/db/models/proxy-services.js:49-68 | unpaginated, exactly the listing: every row passing the status filter, newest first; paginated, the LIMIT pageSize OFFSET (page-1)*pageSize window of that listing, element by element, a negative offset read as 0 |
| ProxyServices.ProxyServiceTable.Listing | server/back-end/db/models/proxy-services.js:49-60 | the rows passing the status filter, all from the table, exactly as many as count reports |
| ProxyServices.FindAllNewestFirst | server/back-end/db/models/proxy-services.js:59 | the listing is ordered by creation time, newest first (ORDER BY created_at DESC) |
| ProxyServices.FindAllHasEveryRow | server/back-end/db/models/proxy-services.js:49-68 | without pagination every row passing the status filter is listed |
| ProxyServices.NewerStrictWeak | server/back-end/db/models/proxy-services.js:59 | newest-first is a strict weak order, so the sort is well defined |
| ProxyServices.ProxyServiceTable.Count | server/back-end/db/models/proxy-services.js:73-85 | the number of rows passing the status filter, never more than the table holds |
| ProxyServices.ProxyServiceTable.FindByProxyPort | server/back-end/db/models/proxy-services.js:90-93 | a row holding that proxy port, or none does |
| ProxyServices.SetColumns | server/back-end/db/models/proxy-services.js:98-146 | the SET list is empty exactly when the patch names no field |
| ProxyServices.Applied | server/back-end/db/models/proxy-services.js:98-155 | UPDATE ... WHERE id: rows with that id take the provided fields and a fresh updated_at when any field is provided; every other row is untouched |
| ProxyServices.AppliedAt | server/back-end/db/models/proxy-services.js:98-155 | with distinct ids, the update is the one-row replacement at the row holding the id, and ids stay distinct |
| ProxyServices.AppliedMissing | server/back-end/db/models/proxy-services.js:152-154 | an update of an id no row holds changes nothing |
| ProxyServices.ProxyServiceTable.Update | server/back-end/db/models/proxy-services.js:98-155 | the table becomes Applied of the old rows; no provided field writes nothing; the result is the row found afterwards |
| ProxyServices.ProxyServiceTable.Delete | server/back-end/db/models/proxy-services.js:160-163 | exactly the rows with other ids remain, in order |
| ProxyServices.DeleteKeepsDistinct | server/back-end/db/models/proxy-services.js:160-163 | deleting by id keeps the remaining ids distinct |
| ProxyServices.AppliedRow | server/back-end/db/models/proxy-services.js:98-155 | after an update by id, the row holding that id is the old row with the patch applied, since ids are distinct |
| ProxyServiceController.LogFrame | server/back-end/controllers/proxyServiceController.js:16-21 | a log line is one server-sent event: it starts with `data: ` and ends with a blank line |
| ProxyServiceController.Create | server/back-end/controllers/proxyServiceController.js:145-217 | 400 VALIDATION_ERROR for a missing required field, else 400 PORT_IN_USE when the port cannot be bound, writing nothing in either case; success exactly otherwise, appending one stopped service (jumpPort defaulting to 22); only a non-empty host list appends, after the existing configs, the enabled "<name> - 默认配置" config owned by it with exactly the request's hosts, and clears the PAC cache |
| ProxyServiceController.Update | server/back-end/controllers/proxyServiceController.js:298-378 | 404 for an unknown id, writing nothing; the public key is pushed exactly when a jump field changed and a password was given, and a failed push is a 500 that writes nothing; a running service restarts exactly when a jump field changed; without a restart the row is patched with the body fields and returned; with one, the patch, the stop write (stopped/-1) and the status startProcess writes follow in that order, and the answer is the patched row when the start resolves, 500 when it rejects and none when it never settles |
| ProxyServiceController.RestartService | server/back-end/controllers/proxyServiceController.js:348-360 | the restart inside update: the stop write (stopped/-1) on the current rows, then the status startProcess writes for the updated row; the answer is the updated row when the start resolves, 500 when it rejects, none when it never settles |
| ProxyServiceController.DeleteService | server/back-end/controllers/proxyServiceController.js:383-431 | 404 for an unknown id, touching nothing; otherwise the row is removed and with it every host config it owns (the foreign-key cascade), the tunnel is signalled exactly when it was running with a process id, the key files go when neither fails to unlink and no other file is touched, and the PAC cache is cleared |
| ProxyServiceController.ValidationErrors | server/back-end/controllers/proxyServiceController.js:515-532 | the pushes collect exactly FieldErrors: no error exactly when key path, proxy port, jump host and jump username are all set; at most four |
| ProxyServiceController.FieldErrors | server/back-end/controllers/proxyServiceController.js:515-532 | one message per empty field, in the order key path, proxy port, jump host, jump username; none exactly when all four are set |
| ProxyServiceController.Reason | server/back-end/controllers/proxyServiceController.js:607-704 | the first matching cause in the handler's order; the missing-key reason exactly when the message mentions the missing key file |
| ProxyServiceController.MissingKeyReason | server/back-end/controllers/proxyServiceController.js:607-609 | the process manager's missing-key messages are always classified as a missing key file |
| ProxyServiceController.Start | server/back-end/controllers/proxyServiceController.js:436-724 | 404 for an unknown id and success with no write for a running one; otherwise the answer follows its cause: a validation failure answers START_FAILED with the joined field errors; else a resolved start answers with the new pid and the command, a rejection answers START_FAILED with its message and the reason picked from it, and a start that never settles answers nothing; a started tunnel writes running and its pid, any failure error/-1 |
| ProxyServiceController.Stop | server/back-end/controllers/proxyServiceController.js:728-822 | 404 for an unknown id and success with no write for a stopped one; otherwise, whether the stop failed or timed out, the row is written stopped/-1 and the answer is success |
| ProxyServiceController.AppliedTwice | server/back-end/controllers/proxyServiceController.js:783-809 | writing the same status patch twice equals writing it once, so the handler's repeated status writes agree |
| HostConfigs.HostConfigTable.constructor | server/back-end/db/models/host-configs.js:6 | an empty table |
| HostConfigs.HostConfigTable.Create | server/back-end/db/models/host-configs.js:10-20 | appends one row after the existing ones with an id above all of theirs; the parsed result has the given name, owner and hosts, enabled stored as 1 unless false was given, both timestamps now |
| HostConfigs.HostConfigTable.FindById | server/back-end/db/models/host-configs.js:25-33 | the row with that id with its hosts parsed and enabled as a boolean, or no row has that id |
| HostConfigs.HostConfigTable.FindAll | server/back-end/db/models/host-configs.js:38-61 | exactly the parsed form of each row of the window, in order: table rows of the given owner, newest first, paged when both page and pageSize are given |
| HostConfigs.Window | server/back-end/db/models/host-configs.js:38-55 | without paging, exactly the listing of the owner; with it, the LIMIT/OFFSET window of that listing element by element, the offset (page-1)*pageSize with a negative one read as 0 |
| HostConfigs.Listing | server/back-end/db/models/host-configs.js:40-48 | every row of the owner and no other, newest first |
| HostConfigs.Selected | server/back-end/db/models/host-configs.js:66-94 | every row passing the owner and enabled filters and no other, newest first |
| HostConfigs.WindowNewestFirst | server/back-end/db/models/host-configs.js:48-53 | a page of the listing keeps the newest-first order |
| HostConfigs.FindAllNewestFirst | server/back-end/db/models/host-configs.js:48 | findAll lists later-created rows first, with or without a page |
| HostConfigs.FindAllHasEveryRow | server/back-end/db/models/host-configs.js:38-61 | without a page every row of the owner is listed |
| HostConfigs.NewerStrictWeak | server/back-end/db/models/host-configs.js:48 | newest-first is a strict weak order, so the sort is well defined |
| HostConfigs.NewestFirst | server/back-end/db/models/host-configs.js:48 | ORDER BY created_at DESC: the same rows, each as often, with later creation first |
| HostConfigs.AsRawAll | server/back-end/db/models/host-configs.js:56-60 | one parsed row per selected row, in order, each the parsed form of that row |
| HostConfigs.HostConfigTable.FindAllWithProxyService | server/back-end/db/models/host-configs.js:66-109 | one view per selected row in the same order (id, name, owner id, boolean enabled, hosts and timestamps of that row): rows passing the owner and enabled filters, newest first, each joined with the name, status and port of its owning service, or null for each without one |
| HostConfigs.FindAllWithProxyServiceRows | server/back-end/db/models/host-configs.js:66-109 | an id is listed exactly when a row with that id passes both filters |
| HostConfigs.FindAllWithProxyServiceNewestFirst | server/back-end/db/models/host-configs.js:94 | the joined listing puts later-created rows first |
| HostConfigs.JoinAll | server/back-end/db/models/host-configs.js:96-108 | each selected row becomes one view with its id, owner, boolean enabled, its hosts and the owner's name, status and port (null without an owner) |
| HostConfigs.HostsOfSelected | server/back-end/db/models/host-configs.js:101 | with distinct ids, the hosts joined to a selected row are that row's own |
| HostConfigs.HostConfigTable.Update | server/back-end/db/models/host-configs.js:114-146 | only the row with that id changes, in the provided columns plus updated_at; no provided column writes nothing; the result is the row found afterwards |
| HostConfigs.PatchAt | server/back-end/db/models/host-configs.js:114-146 | patching the row holding the id keeps the table valid and leaves every other row as it was |
| HostConfigs.HostConfigTable.Delete | server/back-end/db/models/host-configs.js:151-154 | exactly the rows with other ids remain, in order |
| HostConfigs.HostConfigTable.DeleteOfService | server/back-end/controllers/proxyServiceController.js:411-412 | the cascade when a proxy service is deleted: its configs go, every other config stays, in order |
| HostConfigs.FilterKeepsDistinct | server/back-end/db/models/host-configs.js:151-154 | dropping rows, by id or by owner, keeps the remaining ids distinct |
| HostConfigs.HostConfigTable.GetAllHosts | server/back-end/db/models/host-configs.js:159-178 | one (configId, host) entry per stored host, config by config in table order, skipping the config a truthy excludeId names |
| HostConfigs.CollectEntries | server/back-end/db/models/host-configs.js:170-176 | the outer forEach collects the entries of every selected row, row by row |
| HostConfigs.AppendEntries | server/back-end/db/models/host-configs.js:171-174 | the inner forEach pushes one row's entries, in host order, after those already collected |
| HostConfigs.EntriesOf | server/back-end/db/models/host-configs.js:171-174 | a row contributes one entry per host, carrying the row's id |
| HostConfigs.EntriesMembership | server/back-end/db/models/host-configs.js:159-178 | an entry is listed exactly when it names a host of a listed row together with that row's id |
| HostConfigController.CreateRejection | server/back-end/controllers/hostConfigController.js:14-70 | the first failing check in handler order: 400 VALIDATION_ERROR for a missing field, 400 INVALID_PROXY_SERVICE_ID exactly for a non-numeric id, 404 exactly for an unknown service, 409 HOST_CONFLICT exactly when a non-empty host list conflicts; none exactly when all pass (an empty host list never conflicts) |
| HostConfigController.CheckCreate | server/back-end/controllers/hostConfigController.js:14-70 | running the checks against the stores gives exactly CreateRejection, always a failure reply |
| HostConfigController.Create | server/back-end/controllers/hostConfigController.js:14-103 | a rejection writes nothing and is CreateRejection's answer; otherwise one enabled row with the given name, owner and hosts is appended and the PAC cache cleared |
| HostConfigController.List | server/back-end/controllers/hostConfigController.js:108-148 | the joined configs of the requested owner, with total equal to the number of items |
| HostConfigController.UpdateRejection | server/back-end/controllers/hostConfigController.js:187-261 | 404 CONFIG_NOT_FOUND for an unknown config; then 409 exactly when a non-empty host list conflicts with another config; 404 PROXY_SERVICE_NOT_FOUND only for a truthy unknown service id; 500 INTERNAL_ERROR exactly when a falsy id 0 passes those checks but names no service, as the UPDATE then breaks the proxy_service_id foreign key; none exactly when every check passes and any given owner exists |
| HostConfigController.CheckUpdate | server/back-end/controllers/hostConfigController.js:187-261 | running the checks against the stores gives exactly UpdateRejection, always a failure reply |
| HostConfigController.Update | server/back-end/controllers/hostConfigController.js:187-263 | a rejection, including the 500 a nonexistent owner 0 draws from the foreign key, writes nothing and leaves the PAC cache alone; otherwise only that row takes the given name, owner and hosts, the PAC cache is cleared and the reply is the row found afterwards |
| HostConfigController.DeleteConfig | server/back-end/controllers/hostConfigController.js:268-304 | 404 for an unknown config, leaving the table and every PAC cache field unchanged; otherwise exactly that config's rows go, the table shrinks and the PAC cache is cleared |
| HostConfigController.FilterDropsOne | server/back-end/controllers/hostConfigController.js:268-290 | removing an id that some row holds shortens the table |
| HostConfigController.CheckConflict | server/back-end/controllers/hostConfigController.js:309-354 | 400 without a hosts array; an empty list never conflicts; otherwise exactly checkConflictWithDetails' answer for the other configs (a falsy excludeConfigId excluding none): each conflicting stored host with its configId and configName, in store order, hasConflict exactly when there is one |
| HostConfigController.SameExclusion | server/back-end/controllers/hostConfigController.js:337 | falling back to null for a missing excludeConfigId excludes the same configs as passing the id itself |
| HostConfigController.SetEnabled | server/back-end/controllers/hostConfigController.js:359-404 | enable/disable rewrite the enabled column of that config alone, clear the PAC cache and answer with the row found afterwards |
| HostConfigController.EnabledOnly | server/back-end/controllers/hostConfigController.js:359-404 | the enabled patch leaves id, name, owner and hosts unchanged and stores 1 or 0 |
| PacGenerator.Lookup | server/back-end/services/pac-generator.js:59-60 | Map.has/get over the domain map: nothing exactly when no entry has that host, otherwise the value stored with it |
| PacGenerator.LookupAddHost | server/back-end/services/pac-generator.js:59-61 | after one guarded set, a host already mapped keeps its proxy, the new host gets the new proxy and every other host stays unmapped |
| PacGenerator.LookupAddHosts | server/back-end/services/pac-generator.js:58-62 | after one configuration's hosts, an already mapped host keeps its proxy and a newly listed one gets this configuration's proxy |
| PacGenerator.DomainMapMeaning | server/back-end/services/pac-generator.js:55-64 | the domain map sends each host to the proxy of the first enabled configuration of a running service that lists it, and to nothing if none does |
| PacGenerator.AddHostKeepsDistinct | server/back-end/services/pac-generator.js:59-61 | the guarded set never maps a host twice |
| PacGenerator.AddHostsKeepsDistinct | server/back-end/services/pac-generator.js:58-62 | one configuration's hosts never map a host twice |
| PacGenerator.DomainMapKeysDistinct | server/back-end/services/pac-generator.js:55-64 | each host is mapped at most once |
| PacGenerator.BuildDomainMap | server/back-end/services/pac-generator.js:55-64 | the forEach over the configurations builds exactly the domain map the specification function describes |
| PacGenerator.AddConfigHosts | server/back-end/services/pac-generator.js:58-62 | the inner forEach adds one configuration's hosts as the specification function describes |
| PacGenerator.GroupByProxy | server/back-end/services/pac-generator.js:67-73 | the forEach over the domain map builds exactly the proxy groups the specification function describes |
| PacGenerator.GroupStep | server/back-end/services/pac-generator.js:68-73 | one more map entry keeps the groups' proxies distinct, each group's hosts exactly the hosts mapped to its proxy, every mapped host covered and no group empty |
| PacGenerator.GroupsShape | server/back-end/services/pac-generator.js:67-73 | grouping gives one non-empty group per distinct proxy, holding exactly the hosts mapped to it; no groups exactly when the map is empty |
| PacGenerator.RulesOf | server/back-end/services/pac-generator.js:76-81 | one rule per group, in group order, with that group's domains and proxy |
| PacGenerator.BuildRules | server/back-end/services/pac-generator.js:76-81 | the forEach pushing rules builds exactly one rule per group |
| PacGenerator.BuildRulesFor | server/back-end/services/pac-generator.js:51-81 | the three loops together build exactly the rules the specification functions describe |
| PacGenerator.RulesSound | server/back-end/services/pac-generator.js:55-81 | every domain in a rule is listed by an enabled configuration of a running service |
| PacGenerator.RulesComplete | server/back-end/services/pac-generator.js:55-81 | every host listed by an enabled configuration of a running service appears in some rule |
| PacGenerator.RulesProxy | server/back-end/services/pac-generator.js:55-81 | a rule holding a domain carries the proxy of the first qualifying configuration listing it |
| PacGenerator.ConfigDomains | server/back-end/services/pac-generator.js:38-86 | a domain is in the configuration's rules exactly when some service runs and a qualifying configuration lists it, and its rule's proxy is the first such configuration's |
| PacGenerator.ConfigProxies | server/back-end/services/pac-generator.js:67-86 | no two rules share a proxy, and each rule's proxy is that of some qualifying configuration |
| PacGenerator.ConfigDirect | server/back-end/services/pac-generator.js:40-86 | direct is set exactly when there are no rules: no running service, or no qualifying configuration lists a host |
| PacGenerator.ComputeConfig | server/back-end/services/pac-generator.js:38-86 | the uncached computation: whether any service runs, and exactly the configuration the specification functions describe |
| PacGenerator.PacGenerator.constructor | server/back-end/services/pac-generator.js:5-7 | all three caches start empty |
| PacGenerator.PacGenerator.ClearCache | server/back-end/services/pac-generator.js:17-21 | all three cache slots are emptied |
| PacGenerator.PacGenerator.GeneratePACConfig | server/back-end/services/pac-generator.js:29-95 | a fresh cached configuration (within the 5 s TTL) is returned as is; otherwise the generated one; the configuration cache and its timestamp are refreshed only when caching and some service runs; the file cache is never touched |
| PacGenerator.PacGenerator.GeneratePACFile | server/back-end/services/pac-generator.js:103-137 | a fresh cached file is returned with nothing changed; otherwise the script is rendered from the configuration served and cached with a new timestamp when caching, and the configuration cache is refreshed exactly as generatePACConfig refreshes it |
| PacGenerator.ScriptFirstMatch | server/back-end/services/pac-generator.js:114-128 | the script returns the proxy of the first rule, in list order, with a matching domain, else DIRECT |
| PacGenerator.SuffixMatching | server/back-end/services/pac-generator.js:121 | a domain matches itself and its sub-domains (sub.example.com) but not a name merely ending in its letters (badexample.com) |
| PacGenerator.OfferedHostsAreProxied | server/back-end/services/pac-generator.js:38-128 | while some service runs, every host a qualifying configuration lists is answered with a SOCKS5 proxy |
| ConflictChecker.CheckConflict | server/back-end/services/host-conflict-checker.js:13-34 | exactly the stored entries of the other configurations whose host equals some candidate ignoring case, in store order; hasConflict exactly when there is one |
| ConflictChecker.ConflictsAppend | server/back-end/services/host-conflict-checker.js:21-28 | collecting over a split list gives the two collections in order, so conflicts keep store order |
| ConflictChecker.ConflictsMembership | server/back-end/services/host-conflict-checker.js:18-28 | an entry is reported, in its stored spelling, exactly when its lower-cased host is that of some candidate |
| ConflictChecker.NoCandidatesNoConflict | server/back-end/services/host-conflict-checker.js:18-27 | an empty candidate list never conflicts |
| ConflictChecker.ExcludedNeverReported | server/back-end/services/host-conflict-checker.js:13-15 | hosts of a truthy excluded configuration are never reported |
| ConflictChecker.FalsyExcludeKeepsAll | server/back-end/services/host-conflict-checker.js:13-15 | a falsy exclusion (null, absent or 0) keeps every stored entry |
| ConflictChecker.WithDetails | server/back-end/services/host-conflict-checker.js:42-65 | no conflict is returned unchanged; otherwise one detailed entry per conflict, with its config id, that config's name ('Unknown' if gone) and the host of the first conflict with the same config id |
| ConflictChecker.Names | server/back-end/services/host-conflict-checker.js:50-59 | one name per conflict, the name of its configuration |
| ConflictChecker.CheckConflictWithDetails | server/back-end/services/host-conflict-checker.js:42-65 | the details of checkConflict's result, as WithDetails states |
| ConflictChecker.SameConfigSameHost | server/back-end/services/host-conflict-checker.js:54 | two conflicts in the same configuration are both reported with the host of the first of them |
| PacController.GetProxyHost | server/back-end/controllers/pacController.js:10-25 | a stored pac_service_host that is non-empty and not the placeholder 192.168.1.4 wins; an unset, empty or placeholder one gives the request's service host; a failing store read gives PROXY_HOST, else 127.0.0.1 |
| PacController.ListReportsProxyHost | server/back-end/controllers/pacController.js:14-19 | the settings list shows, for a textual pac_service_host, the same host the PAC endpoints use |
| PacController.SkipSpaces | server/back-end/controllers/pacController.js:159 | `\s*`: the end of the white-space run starting at the given index |
| PacController.HeaderEnd | server/back-end/controllers/pacController.js:159 | a match of `var\s+proxyDomains\s*=\s*\[` at an index ends strictly after it |
| PacController.HeaderNeedsName | server/back-end/controllers/pacController.js:159 | the declaration header matches only in a text naming proxyDomains |
| PacController.ArrayMatchNeedsName | server/back-end/controllers/pacController.js:159 | the declaration pattern matches only in a text naming proxyDomains |
| PacController.HeaderOfDeclaration | server/back-end/controllers/pacController.js:159 | the canonical header `var proxyDomains = [` matched at the start ends right after its bracket |
| PacController.DeclarationBody | server/back-end/controllers/pacController.js:159-163 | the lazy capture of a declaration stops at the first `];`, so a bracket-free body is captured whole |
| PacController.HostsOfLiterals | server/back-end/controllers/pacController.js:168-173 | the hosts kept from the literals: each trimmed, blank ones dropped, never more than the literals |
| PacController.HostsOfCleanLiterals | server/back-end/controllers/pacController.js:168-173 | literals already trimmed and non-empty are kept as they are, in order |
| PacController.LiteralsAfterQuote | server/back-end/controllers/pacController.js:166 | a double-quoted literal is taken whole and the scan resumes after its closing quote |
| PacController.LiteralsSkip | server/back-end/controllers/pacController.js:166 | characters other than quotes are skipped by the literal scan |
| PacController.QuotedListStep | server/back-end/controllers/pacController.js:166 | the scan of `"h1",...` yields h1 and then scans what follows the comma |
| PacController.LiteralsQuotedList | server/back-end/controllers/pacController.js:166-173 | the scan of a JSON-quoted list of plain hosts gives the hosts back in order |
| PacController.ParseHostsFromPAC | server/back-end/controllers/pacController.js:155-177 | the loop over the literal matches yields exactly the hosts the specification function reads, each trimmed and non-empty |
| PacController.NoDeclarationNoHosts | server/back-end/controllers/pacController.js:159-176 | a text that never names proxyDomains yields no host |
| PacController.DeclarationRoundTrip | server/back-end/controllers/pacController.js:155-177 | a `var proxyDomains = [...]` declaration written with JSON.stringify reads back as exactly its hosts |
| PacController.ExtractHostsFromPAC | server/back-end/controllers/pacController.js:87-123 | 400 VALIDATION_ERROR without a pacUrl, 500 when fetching fails, otherwise the hosts parsed from the fetched text |
| PacController.PacScriptClean | server/back-end/controllers/pacController.js:155-177 | the script this server generates never names proxyDomains when its rules hold no quote, backslash or 'D' |
| PacController.ConfigRulesClean | server/back-end/services/pac-generator.js:55-86 | rules built from clean hosts and a clean proxy host are clean |
| PacController.GeneratedScriptHasNoHosts | server/back-end/controllers/pacController.js:155-177 | reading the server's own generated PAC script (clean hosts) yields no host, since it declares proxyRules and not proxyDomains |
| PortManager.ResolveRange | server/back-end/services/port-manager.js:5-42 | set bounds are used as given, unset ones default to 21081/21083 in development and 11081/11083 otherwise; in production a development port at either end is remapped to 11081/11083 |
| PortManager.ProductionAvoidsDevPorts | server/back-end/services/port-manager.js:35-42 | in production neither end of the range is ever a development port |
| PortManager.DefaultRanges | server/back-end/services/port-manager.js:6-31 | with nothing set, the range is 21081-21083 in development and 11081-11083 otherwise |
| PortManager.PortManager.constructor | server/back-end/services/port-manager.js:22-42 | the module's load-time statements produce the resolved range |
| PortManager.PortManager.IsPortInUse | server/back-end/services/port-manager.js:69-71 | in use exactly when the bind probe fails; AllocatePort states its partner: the port it returns is not in use, and it fails only when every range port that no service holds is in use |
| PortManager.PortManager.GetPortRange | server/back-end/services/port-manager.js:122-127 | a port is in range exactly when it lies between the reported bounds |
| PortManager.PortManager.AllocatePort | server/back-end/services/port-manager.js:77-97 | the lowest port of the range that no stored service uses and that binds; the error 'No available proxy port in range' exactly when there is none; the port returned is not in use by isPortInUse, and on the error every port of the range that no service holds is in use |
| ProcessManager.KeyCandidates | server/back-end/services/proxy-process-manager.js:46-55 | the four candidate locations of a relative key path, none empty |
| ProcessManager.ResolveKeyPath | server/back-end/services/proxy-process-manager.js:38-77 | an absolute key path is used verbatim; a relative one resolves to the first accessible candidate in the listed order, or to the first candidate when none is |
| ProcessManager.CheckPermissions | server/back-end/services/proxy-process-manager.js:93-122 | a failed stat skips the step; a mode of 600 or 400 is accepted; any other mode gets chmod 600, whose failure is only warned about |
| ProcessManager.PermissionStepTightens | server/back-end/services/proxy-process-manager.js:93-122 | when chmod works the key ends owner-only, and an already strict mode is left as it was |
| ProcessManager.Args | server/back-end/services/proxy-process-manager.js:129-140 | the autossh argument vector: the fixed flags, `-i key`, `-D 0.0.0.0:port`, `user@host` and `-p port`, eighteen in all |
| ProcessManager.QuoteArgs | server/back-end/services/proxy-process-manager.js:144-151 | each argument quoted exactly when it contains a space, '=' or '@' |
| ProcessManager.BuildCommand | server/back-end/services/proxy-process-manager.js:143-153 | the loop builds 'autossh' followed by each argument, quoted where needed, joined by spaces |
| ProcessManager.UnquoteQuoteArg | server/back-end/services/proxy-process-manager.js:147-151 | quoting can be undone for any argument not already wrapped in quotes, and it changes exactly the arguments that need it |
| ProcessManager.CommandQuoting | server/back-end/services/proxy-process-manager.js:129-153 | in the command line the -o option values, the key path, the bind address and user@host are quoted; the flags are not |
| ProcessManager.Classify | server/back-end/services/proxy-process-manager.js:209-221 | the tests on the lower-cased stderr in order: a permission error exactly when 'permission denied' or 'permissions' occurs; an authentication failure only when 'authentication failed' or 'publickey' occurs |
| ProcessManager.PublickeyDenialIsPermission | server/back-end/services/proxy-process-manager.js:212-219 | 'Permission denied (publickey)' is classified as a key permission error, not an authentication failure |
| ProcessManager.ExitMessage | server/back-end/services/proxy-process-manager.js:205-229 | never empty: the category prefix plus the trimmed stderr, the trimmed stderr alone when no category matches, and 'exited with code' when there is nothing else to say |
| ProcessManager.StartProcess | server/back-end/services/proxy-process-manager.js:15-263 | the outcome is StartOutcome and the rows take exactly StartWrite: a missing key file rejects with the missing-key message and writes nothing; a tunnel alive after the wait with a pid resolves with that pid and the built command and writes running; a non-zero, non-null exit rejects with ExitMessage and writes error/-1; an exit with code 0 or null never settles |
| ProcessManager.StartOutcome | server/back-end/services/proxy-process-manager.js:15-263 | started exactly for an accessible key and a process alive with a truthy pid that answers the signal; unsettled exactly for an accessible key and a zero or null exit; any other outcome rejects with a non-empty message |
| ProcessManager.StartWrite | server/back-end/services/proxy-process-manager.js:15-263 | a started tunnel writes running and its pid; the only other write is error/-1, and only for a rejection |
| ProcessManager.StopProcess | server/back-end/services/proxy-process-manager.js:269-318 | nothing for a falsy pid; otherwise SIGTERM first, a liveness probe after a closed SIGTERM, and SIGKILL exactly when SIGTERM failed or the probe found the process alive |
| ProcessManager.IsProcessRunning | server/back-end/services/proxy-process-manager.js:323-346 | false for a falsy pid, otherwise whether `kill -0` exits with 0 |
| ProcessManager.StepStdout | server/back-end/services/proxy-process-manager.js:367-381 | the timeout wrapper turns an error or a timeout into empty output |
| ProcessManager.LsofPids | server/back-end/services/proxy-process-manager.js:407-420 | the pids lsof printed: non-empty lines without newlines |
| ProcessManager.LsofNothing | server/back-end/services/proxy-process-manager.js:367-420 | an lsof that fails or times out yields no pid |
| ProcessManager.LsofRoundTrip | server/back-end/services/proxy-process-manager.js:413 | lsof's one-pid-per-line output is read back pid for pid |
| ProcessManager.StopTraceFor | server/back-end/services/proxy-process-manager.js:384-522 | without a port only the stored pid is signalled; with one, SIGTERM goes to the pids lsof finds and SIGKILL only to those still listed afterwards |
| ProcessManager.KillSteps | server/back-end/services/proxy-process-manager.js:384-522 | the kill steps, run in order, produce exactly the trace StopTraceFor describes |
| ProcessManager.StopService | server/back-end/services/proxy-process-manager.js:351-552 | an unknown service returns with no write; otherwise the kill steps run, whatever they report, and the row ends stopped with process id -1 |
| ProcessManager.LiveProbeSkipsPidKill | server/back-end/services/proxy-process-manager.js:487-500 | with a port, a live stored pid is never signalled, because `kill -0` prints nothing when it succeeds |
| SshService.KeyStore.constructor | server/back-end/services/ssh-service.js:10 | a key directory with the given files |
| SshService.KeyStore.PublicPath | server/back-end/services/ssh-service.js:39-40 | the public key is the private key's path plus '.pub', inside the key directory |
| SshService.KeyStore.GenerateKeyPair | server/back-end/services/ssh-service.js:33-71 | an existing private key rejects with 'SSH key <name> already exists' and a failing ssh-keygen with its error, writing nothing; otherwise both files are written and the paths and trimmed public key returned |
| SshService.KeyStore.DeleteKeyPair | server/back-end/services/ssh-service.js:77-103 | succeeds exactly when neither existing file fails to unlink (a missing file is fine), and then both are gone; a failing private key unlink changes nothing, a failing public key unlink leaves the private key already removed |
| SshService.KeyStore.DeleteTwice | server/back-end/services/ssh-service.js:77-103 | once a deletion succeeds, deleting the same pair again succeeds and changes nothing |
| SshService.KeyStore.GetPublicKey | server/back-end/services/ssh-service.js:110-119 | the trimmed public key exactly when its file exists |
| SshService.HomeDir | server/back-end/services/ssh-service.js:160-173 | the output of `echo $HOME`, or '~' on a non-zero exit or empty output |
| SshService.RemoteHost.constructor | server/back-end/services/ssh-service.js:132-133 | a jump server with the given files |
| SshService.RemoteHost.PushPublicKey | server/back-end/services/ssh-service.js:132-376 | the port defaults to 22; a setup error rejects with no write; a key already in authorized_keys is left alone; otherwise the appended text is written; when that write fails, a touch that cannot start rejects with its own error, a non-zero touch exit rejects with '无法创建authorized_keys文件', and after a clean touch (which leaves the file present) the write is retried; a chmod timeout rejects though the file was written |
| SshService.AppendedKeepsAndAdds | server/back-end/services/ssh-service.js:238 | the appended text keeps the old text as a prefix and contains the trimmed key |
| SshService.SecondPushIsNoOp | server/back-end/services/ssh-service.js:229-238 | pushing the same key again finds it present and writes nothing more |
| StatusMonitor.Monitor.constructor | server/back-end/services/proxy-status-monitor.js:8-11 | a monitor starts with no timer |
| StatusMonitor.Monitor.Start | server/back-end/services/proxy-status-monitor.js:16-26 | schedules the check exactly when no timer is held; a second start changes nothing |
| StatusMonitor.Monitor.Stop | server/back-end/services/proxy-status-monitor.js:31-37 | clears the timer, reporting whether there was one |
| StatusMonitor.Checked | server/back-end/services/proxy-status-monitor.js:42-63 | the table after a check: every row replaced by its own check result, nothing added or removed |
| StatusMonitor.CheckedSoFar | server/back-end/services/proxy-status-monitor.js:46-59 | part way through the loop, visited rows are checked and the rest untouched |
| StatusMonitor.CheckAllServices | server/back-end/services/proxy-status-monitor.js:42-63 | the table becomes the full check result: each running service whose truthy pid is no longer alive is written error/-1, every other row stays |
| StatusMonitor.VisitAll | server/back-end/services/proxy-status-monitor.js:46-59 | the for loop over the services found running leaves exactly those visited checked |
| StatusMonitor.Visit | server/back-end/services/proxy-status-monitor.js:47-58 | one turn probes the service and marks it failed when its process is gone, adding it to the visited rows |
| StatusMonitor.NoneVisited | server/back-end/services/proxy-status-monitor.js:44-46 | before the loop nothing has changed |
| StatusMonitor.CheckStep | server/back-end/services/proxy-status-monitor.js:50-55 | writing error/-1 to a dead service is visiting it, whether or not it was visited before |
| StatusMonitor.SkipStep | server/back-end/services/proxy-status-monitor.js:47-50 | a service left alone is its own check result |
| StatusMonitor.AllVisited | server/back-end/services/proxy-status-monitor.js:44-59 | once every running row has been visited, the table is the full check result |
| StatusMonitor.NeverWritesRunning | server/back-end/services/proxy-status-monitor.js:50-55 | the monitor only moves running services to error/-1 with id and port kept; rows not running stay as they are |
| StatusMonitor.AliveUnchanged | server/back-end/services/proxy-status-monitor.js:47-50 | a live process, a falsy pid or a service not running is left exactly as it was |
| StatusMonitor.SentinelIsProbed | server/back-end/services/proxy-status-monitor.js:47-55 | the -1 sentinel is truthy, so a running row holding it is probed and, failing the probe, written error |
| StatusMonitor.CheckIdempotent | server/back-end/services/proxy-status-monitor.js:42-63 | a second check right after the first changes nothing more |
| ServiceHost.FirstExternalFinds | server/back-end/utils/get-service-host.js:36-40 | within one interface, the first IPv4 address that is not internal is chosen |
| ServiceHost.LocalIPIsFirstExternal | server/back-end/utils/get-service-host.js:31-46 | getLocalIP returns the first external IPv4 address over all interfaces in order, else 127.0.0.1 |
| ServiceHost.HeaderHost | server/back-end/utils/get-service-host.js:12-25 | with X-Forwarded-Host or Host present, the service host is that header's text up to the first colon: a prefix without a colon, the whole header when it has no port |
| ServiceHost.SplitFirst | server/back-end/utils/get-service-host.js:19 | the first piece of a split is a prefix of the text, and the whole text when the separator is absent |
| ServiceHost.ServiceURLFromHeader | server/back-end/utils/get-service-host.js:53-68 | with a host header, the URL is protocol://host, followed by :port unless the port is the protocol's default |
| ServiceHost.HeaderPortTextKept | server/back-end/utils/get-service-host.js:63-67 | an X-Forwarded-Port of "80" is text, not the number 80, so http://host:80 keeps its port |
| Cors.Trimmed | server/back-end/server.js:29 | each configured origin trimmed, one for one |
| Cors.CorsOriginsClean | server/back-end/server.js:28-30 | every origin taken from CORS_ORIGIN is non-empty, trimmed and free of commas |
| Cors.TrimInside | server/back-end/server.js:29 | trimming keeps only characters of the original |
| Cors.DynamicOrigins | server/back-end/server.js:41-57 | none outside production; in production http://PROXY_HOST:PROXY_PORT (port defaulting to 8090), plus http://localhost:port when the host is a dotted quad, or only the localhost origin when PROXY_HOST is unset |
| Cors.OriginDecision | server/back-end/server.js:21-87 | allowed exactly when there is no origin, the origin is listed, it parses as a URL in production, or the environment is development; otherwise rejected with 'Invalid origin' in production and 'Not allowed by CORS' elsewhere |
| Cors.IsSecure | server/back-end/server.js:100-102 | the cookie is secure as SESSION_SECURE says when it is defined, else exactly when PROXY_PROTOCOL is https |
| JsonStore.ToCamel | server/back-end/db/json-store.js:62-78 | password_hash is renamed passwordHash with its value; every other key keeps its value; no password_hash remains |
| JsonStore.ToSnake | server/back-end/db/json-store.js:80-96 | passwordHash is renamed password_hash with its value; every other key keeps its value; no passwordHash remains |
| JsonStore.SnakeCamelRoundTrip | server/back-end/db/json-store.js:62-96 | a flat record without a passwordHash key survives the trip to memory names and back |
| JsonStore.CamelSnakeRoundTrip | server/back-end/db/json-store.js:62-96 | a record without a password_hash key survives the trip to file names and back |
| JsonStore.Camel | server/back-end/db/json-store.js:64 | an array of records is converted record by record |
| JsonStore.GenerateId | server/back-end/db/json-store.js:168-171 | 1 for an empty table, otherwise one more than the largest id: above every id and next to one of them |
| JsonStore.Selected | server/back-end/db/json-store.js:180-188 | without where, every row; with it, exactly the rows equal to it on every listed key, in order |
| JsonStore.Ordered | server/back-end/db/json-store.js:191-202 | orderBy only reorders the rows (same multiset); without it the order is kept |
| JsonStore.OrderedSorted | server/back-end/db/json-store.js:191-202 | on a field holding only strings, or only numbers, booleans and null, the result is in the requested direction, descending unless order is ASC |
| JsonStore.NumbersWeak | server/back-end/db/json-store.js:193-199 | comparing numbers, booleans and null with < and > (as numbers) is a strict weak order, so the sort is well defined |
| JsonStore.StringsWeak | server/back-end/db/json-store.js:193-199 | comparing strings with < and > (by UTF-16 code units) is a strict weak order in either direction |
| JsonStore.CoercedLess | server/back-end/db/json-store.js:196-197 | the comparator coerces as < does: null below 1, false below true, true below 2; a missing field is neither below nor above anything |
| Common.CodeUnitOrderDiffers | server/back-end/db/json-store.js:196-197 | string < compares UTF-16 code units: U+1F600 sorts before U+FF61 there, though after it in code point order |
| Common.OrdersAgreeInBmp | server/back-end/db/json-store.js:196-197 | for text within the Basic Multilingual Plane code unit and code point order agree |
| Common.JsLessStrictWeak | server/back-end/scripts/migrate.js:22 | the code unit order of the default sort is a strict weak order |
| JsonStore.Paged | server/back-end/db/json-store.js:204-206 | slice(offset, offset + limit) for a truthy limit, offset defaulting to 0, a negative bound counting from the end as slice does: exactly the rows between the two bounds, in order; no limit keeps everything |
| JsonStore.PagedFromEnd | server/back-end/db/json-store.js:204-206 | a negative offset counts back from the end: slice(-2, 1) of three rows is empty, slice(-2, 3) the last two |
| JsonStore.FoundMatch | server/back-end/db/json-store.js:176-209 | every record findAll returns is a converted row satisfying the where clause |
| JsonStore.FoundAll | server/back-end/db/json-store.js:176-209 | without a limit, findAll returns every matching row, converted, in some order |
| JsonStore.CamelMultiset | server/back-end/db/json-store.js:191-208 | converting two reorderings of the same rows gives reorderings of the same records |
| JsonStore.InsertedRow | server/back-end/db/json-store.js:243-249 | the new row: the generated id unless the data carries its own, the data's fields, and both timestamps set to now |
| JsonStore.UpdatedRow | server/back-end/db/json-store.js:274-279 | the old row merged with the data, the numeric id forced and updated_at refreshed; fields absent from the data keep their old values |
| JsonStore.ReadKeepsView | server/back-end/db/json-store.js:108-114 | caching a file's rows on a miss changes what no table reads as |
| JsonStore.DropCached | server/back-end/db/json-store.js:156 | dropping a table from the cache undoes having cached it |
| JsonStore.Store.constructor | server/back-end/db/json-store.js:43-46 | a store over the given table files with an empty cache |
| JsonStore.Store.ReadTable | server/back-end/db/json-store.js:98-122 | 'Unknown table' for a name outside the four tables; otherwise the cached rows, else the file's (caching them), else [] for a missing file |
| JsonStore.Store.WriteTable | server/back-end/db/json-store.js:129-163 | 'Unknown table' for an unknown name; otherwise the file takes the rows and the table leaves the cache |
| JsonStore.Store.FindAll | server/back-end/db/json-store.js:176-209 | 'Unknown table' for an unknown name; otherwise where, orderBy and limit/offset in that order, each record converted, and the in-place sort left in the cache |
| JsonStore.Store.Recache | server/back-end/db/json-store.js:193 | the cached rows of a table are replaced by a reordering of them, the files untouched |
| JsonStore.Store.FindOne | server/back-end/db/json-store.js:214-217 | the first record findAll would return, or none, with the cache findAll leaves (a table just read from its file and sorted without where stays cached in sorted order) |
| JsonStore.Store.FindById | server/back-end/db/json-store.js:222-228 | none exactly when no row has that numeric id; otherwise the converted FIRST row with it, as find returns; the table cached on a miss |
| JsonStore.Store.Insert | server/back-end/db/json-store.js:233-255 | appends InsertedRow with the next generated id, drops the table from the cache and returns the converted row; 'Unknown table' touches nothing |
| JsonStore.Store.Update | server/back-end/db/json-store.js:260-285 | 'Record not found' when no row has the id, writing nothing and leaving the table cached as the read left it; otherwise the first such row becomes UpdatedRow and is returned converted, and the write drops the table from the cache |
| JsonStore.Store.Delete | server/back-end/db/json-store.js:290-304 | 'Record not found' when no row has the id, writing nothing and leaving the table cached as the read left it; otherwise exactly the first such row is removed and the table leaves the cache |
| JsonStore.Store.Count | server/back-end/db/json-store.js:309-312 | the number of records findAll returns with the same options, with the cache findAll leaves |
| JsonStore.Store.Transaction | server/back-end/db/json-store.js:317-340 | a callback that completes leaves its writes, and the cache holds every existing table as the backup read it except those written; one that throws leaves every table as it read before the callback, an empty cache, and rethrows |
| JsonStore.Store.BackUp | server/back-end/db/json-store.js:323-326 | each of the four tables read in turn, its rows kept as the backup, no table's contents changed, and afterwards every existing table cached |
| JsonStore.Store.BackUpTable | server/back-end/db/json-store.js:324-325 | one turn of the backup loop: the backup is the table as it read before the loop, and the table is now cached if its file exists |
| JsonStore.BackedUpAll | server/back-end/db/json-store.js:320-326 | once the backup loop has read all four tables, the cache holds every existing table as it read before, no table reads differently, and the backups hold every table as it read, each row with an id |
| JsonStore.Store.Restore | server/back-end/db/json-store.js:334-336 | every table written back from its backup, leaving the cache empty |
| JsonStore.Store.ClearCache | server/back-end/db/json-store.js:345-351 | a named table leaves the cache; without a name the whole cache is cleared |
| JsonStore.NumberDefaults | server/back-end/db/json-store.js:389-397 | the three default configs pushed one by one, each taking the next generated id |
| JsonStore.Store.InitializeSystemConfigs | server/back-end/db/json-store.js:356-400 | a non-empty system_configs table is left alone, though cached by the read; an empty one gets register_enabled, pac_service_host and pac_service_port with ids 1, 2 and 3 |
| JsonStore.Store.Initialize | server/back-end/db/json-store.js:405-427 | every missing table file is created empty and existing ones are kept, then the default configs are seeded as above, with the cache as that step leaves it |
| JsonText.EscapePlain | server/back-end/db/models/host-configs.js:12 | JSON.stringify leaves a string without quotes, backslashes or control characters unchanged |
| JsonText.HexRoundTrip | server/back-end/db/models/host-configs.js:12-29 | each hexadecimal digit written in a \u escape is read back as its value |
| JsonText.EscapeCharRoundTrip | server/back-end/db/models/host-configs.js:12-29 | reading an escaped character gives the character back, then continues with the rest |
| JsonText.BodyRoundTrip | server/back-end/db/models/host-configs.js:12-29 | the escaped body of any string, followed by its closing quote, reads back as that string |
| JsonText.ItemsRoundTrip | server/back-end/db/models/host-configs.js:12-29 | a non-empty quoted, comma-separated list closed by ] reads back as its strings |
| JsonText.StringArrayRoundTrip | server/back-end/db/models/host-configs.js:12-29 | JSON.parse(JSON.stringify(hosts)) gives back the hosts, for every list of strings |
| Migrate.VersionDropsExtension | server/back-end/scripts/migrate.js:27 | for a name whose only '.sql' is its extension, the version is the name without it |
| Migrate.VersionCutsFirst | server/back-end/scripts/migrate.js:27 | replace('.sql', '') cuts the first occurrence: a.sql.sql has version a.sql |
| Migrate.GetMigrationFiles | server/back-end/scripts/migrate.js:15-29 | no directory gives nothing; otherwise only listed '.sql' files, each with its path and version |
| Migrate.MigrationFilesComplete | server/back-end/scripts/migrate.js:20-28 | every '.sql' file of an existing directory is listed, once per listing entry |
| Migrate.MigrationFilesSorted | server/back-end/scripts/migrate.js:22 | the files come in name order |
| Migrate.Pending | server/back-end/scripts/migrate.js:150-152 | exactly the files whose version is not yet recorded |
| Migrate.PendingInOrder | server/back-end/scripts/migrate.js:143-152 | the pending list keeps the name order |
| Migrate.StepError | server/back-end/scripts/migrate.js:164-197 | a migration fails exactly when its script fails or its version is already recorded (the primary key) |
| Migrate.Run | server/back-end/scripts/migrate.js:164-198 | the run applies a prefix of the pending list, and reports an error exactly when it stops short |
| Migrate.RunStopsAtFailure | server/back-end/scripts/migrate.js:164-198 | every migration before the stopping point succeeds given the versions recorded before it, and the error reported is that of the first failing one |
| Migrate.Database.constructor | server/back-end/scripts/migrate.js:110-115 | a database with the given recorded versions and no script run yet |
| Migrate.Database.Apply | server/back-end/scripts/migrate.js:167-197 | one migration in its transaction: the script and its version record commit together, or the rollback leaves neither |
| Migrate.RunPending | server/back-end/scripts/migrate.js:164-198 | the loop commits exactly the migrations Run says succeed, in order, and rejects with the first failure's message |
| Migrate.RunMigrations | server/back-end/scripts/migrate.js:108-209 | the pending migrations of the listing are run in order; the recorded versions and executed scripts grow by exactly the committed prefix |
| Migrate.SecondRunIdle | server/back-end/scripts/migrate.js:143-159 | after a run that completes, a second run over the same directory finds nothing pending |
| Validation.VerdictOf | server/back-end/middleware/validation.js:36-48 | next() exactly when no error was collected; otherwise a 400 VALIDATION_ERROR carrying the errors in order |
| Validation.EmailMatchesShape | server/back-end/middleware/validation.js:30-31 | the email scan accepts exactly the strings /^[^\s@]+@[^\s@]+\.[^\s@]+$/ describes: a non-empty local part, one '@', and a domain with an inner dot, none holding '@' or a space |
| Validation.MatchesIsShape | server/back-end/middleware/validation.js:30-31 | every email the scan accepts has the shape of the pattern |
| Validation.ShapeIsMatch | server/back-end/middleware/validation.js:30-31 | every email of the pattern's shape is accepted by the scan |
| Validation.FirstAt | server/back-end/middleware/validation.js:30 | the local part ends at the first '@' |
| Validation.PlainAcrossDot | server/back-end/middleware/validation.js:30 | the domain's text on both sides of a dot contains no '@' or space, so neither does the whole domain |
| Validation.RegisterAccepts | server/back-end/middleware/validation.js:8-48 | a registration passes exactly when a username of 3-20 word characters, a password of 6-50 UTF-16 code units and, if given, a well-formed email are supplied |
| Validation.ValidateRegister | server/back-end/middleware/validation.js:8-48 | the verdict over the username, password and email errors, in that order |
| Validation.ValidateLogin | server/back-end/middleware/validation.js:53-77 | next() exactly when both username and password are non-empty strings; otherwise the missing ones are listed, username first |
| Validation.ValidateChangePassword | server/back-end/middleware/validation.js:82-106 | next() exactly when the old password is given and the new one has 6-50 UTF-16 code units; the errors otherwise, old password first |
| Validation.OneUsernameError | server/back-end/middleware/validation.js:11-34 | the checks are else-if chains: at most one error per field, the username's first and the email's last |
| Validation.HyphenRefused | server/back-end/middleware/validation.js:15-18 | a username of valid length with a hyphen gets the character error, not the length error |
| Common.Utf16Length | server/back-end/middleware/validation.js:15 | length counts UTF-16 code units: between one and two per character, one each exactly when no character lies above U+FFFF |
| Validation.UsernameUnitsAreChars | server/back-end/middleware/validation.js:15-18 | an accepted username is plain ASCII, so its length in code units is its number of characters |
| Validation.AstralUsernameLength | server/back-end/middleware/validation.js:15-18 | a letter and an emoji make a two-character string of three code units: long enough, refused for its characters |
| Validation.AstralPasswordLength | server/back-end/middleware/validation.js:24 | three emoji make six code units, a password long enough |
| SseParser.Handle | server/front-end/src/api/proxy-services.js:134-146 | a complete line yields at most one event, only for a 'data: ' line whose payload parses: onLog with its level and message, else onComplete for a payload with a success flag; never onError |
| SseParser.DispatchAppend | server/front-end/src/api/proxy-services.js:134-146 | handling two runs of lines is handling the first, then the second |
| SseParser.SplitConcat | server/front-end/src/api/proxy-services.js:130-132 | splitting more text after a buffer keeps the buffer's complete lines and continues from its last piece |
| SseParser.SplitConcatStep | server/front-end/src/api/proxy-services.js:130-132 | the splitting equation carries over from a text without its first character to the whole text |
| SseParser.LinesSpell | server/front-end/src/api/proxy-services.js:130-132 | the kept buffer never holds a newline, and the complete lines joined by newlines with the buffer spell the text exactly |
| SseParser.ChunkBoundaries | server/front-end/src/api/proxy-services.js:130-132 | reading text in two chunks leaves the same buffer and the same complete lines as reading it at once |
| SseParser.ChunkBoundariesDispatch | server/front-end/src/api/proxy-services.js:130-146 | so where the stream is cut into chunks never changes the callbacks made |
| SseParser.ServerFrame | server/front-end/src/api/proxy-services.js:130-146 | a frame as the server writes it ('data: ' JSON and a blank line) empties the buffer and calls onLog once when it has a level and a message |
| SseParser.ServerFrameLines | server/front-end/src/api/proxy-services.js:130-132 | a server frame splits into its data line and the blank line, leaving nothing buffered |
| SseParser.ServerFrameDispatch | server/front-end/src/api/proxy-services.js:134-146 | the data line is handled as the parsed payload and the blank line adds nothing |
| SseParser.TrimStartsAt | server/front-end/src/api/proxy-services.js:109-110 | text starting with a non-space is not blank, so the end-of-stream pass looks at it |
| SseParser.LeftoverOnlyCompletes | server/front-end/src/api/proxy-services.js:108-123 | at end of stream the leftover buffer can only call onComplete, each time with a success flag |
| SseParser.AnyCompletedAppend | server/front-end/src/api/proxy-services.js:140-142 | the completed flag over two runs of events is set if either run completes |
| SseParser.Reader.constructor | server/front-end/src/api/proxy-services.js:101-102 | an empty buffer, not completed, no callbacks and the promise pending |
| SseParser.Reader.Receive | server/front-end/src/api/proxy-services.js:130-149 | a chunk: the buffer becomes the unfinished last line, every complete line is handled in order, and completed is set if one of them completed |
| SseParser.Reader.DispatchLines | server/front-end/src/api/proxy-services.js:134-147 | the complete lines of a chunk handled in order |
| SseParser.Reader.DispatchLine | server/front-end/src/api/proxy-services.js:134-146 | one line handled; a payload that does not parse is skipped |
| SseParser.Reader.End | server/front-end/src/api/proxy-services.js:106-127 | end of stream resolves; only when nothing completed and the buffer is not blank are its non-blank lines scanned for completions |
| SseParser.Reader.FinishLines | server/front-end/src/api/proxy-services.js:110-123 | the non-blank leftover lines handled in order |
| SseParser.Reader.FinishLine | server/front-end/src/api/proxy-services.js:112-121 | a leftover line calls onComplete only for a 'data: ' payload with a success flag |
| SseParser.Reader.ReadFailed | server/front-end/src/api/proxy-services.js:151-161 | an abort resolves silently; another read error calls onError and rejects unless a completion was already seen, which leaves the promise as it was |
| SseParser.Reader.RequestFailed | server/front-end/src/api/proxy-services.js:77-86 | a failed request resolves silently when aborted, otherwise calls onError and rejects with the error |
| TestResults.TestsOfStep | scripts/parse-test-results.js:76-96 | a new case adds its entry to the tests of its own file and no other |
| TestResults.EntryOf | scripts/parse-test-results.js:89-94 | a suite test entry keeps the name, full name, status and duration; a Vitest entry carries the describe group, a Jest one none |
| TestResults.SetLevel | scripts/parse-test-results.js:60-64 | a nested describe at a level replaces that level and drops the deeper ones; shallower levels are kept, holes read as "" |
| TestResults.JestSuites | scripts/parse-test-results.js:10-22 | one suite per PASS/FAIL header, in order, passed exactly for PASS, each with no tests; the map points a file at its last header |
| TestResults.LastForStep | scripts/parse-test-results.js:21 | setting the map for a new header keeps every file pointing at its last header so far |
| TestResults.ParseJest | scripts/parse-test-results.js:5-103 | one suite per header with its file and status; the last suite of a file lists exactly the cases of that file in order, without describe groups, other suites none; the cases are exactly those the line-by-line reference yields, and each comes from a test line that is not console output, under the suite and describe path the earlier lines leave; every such line yields its case, in line order |
| TestResults.JestLine | scripts/parse-test-results.js:36-96 | one output line moves the current suite and describe stack as JestStep says, appends exactly the case CaseOf gives, and keeps the suites and cases in step |
| TestResults.KindOf | scripts/parse-test-results.js:38-70 | how a line is read, in the loop order: a header, console output, a top describe title, a nested one, a test line under an open suite, or nothing |
| TestResults.JestStep | scripts/parse-test-results.js:38-66 | a header opens its file and empties the stack; a top title pushes itself; a nested title at indent n sets level n/2-1 and truncates there; every other line leaves the suite and stack as they were |
| TestResults.CaseOf | scripts/parse-test-results.js:69-84 | a case exactly for a test line under an open suite, read with the current describe path joined with the arrow |
| TestResults.JestPrefixStep | scripts/parse-test-results.js:34-97 | one more line moves the reference state by JestStep and appends its case, if any |
| TestResults.CaseLinesMeaning | scripts/parse-test-results.js:34-97 | the case lines of a prefix: increasing, each yielding its case in order, and every case-yielding line among them |
| TestResults.JestCasesTraced | scripts/parse-test-results.js:34-97 | over the whole output, each case comes from its line under the state the earlier lines leave, and no case line is missed |
| TestResults.JestCase | scripts/parse-test-results.js:68-84 | a test line's case: its name, the describe groups joined with ›, the full name, passed exactly for a ✓, its duration and the current suite's file |
| TestResults.AddJestCase | scripts/parse-test-results.js:76-96 | the case joins the list and, only when its file has a suite, that suite's tests; no suite's other fields change |
| TestResults.JestDuplicateHeaderEmpty | scripts/parse-test-results.js:12-21 | a file with two headers: the earlier suite object is unreachable through the map and keeps an empty test list |
| TestResults.SplitOn | scripts/parse-test-results.js:124 | splitting on ' > ' always yields at least one part |
| TestResults.SplitOnJoin | scripts/parse-test-results.js:124 | the parts joined with the separator give the text back |
| TestResults.NameAndGroup | scripts/parse-test-results.js:124-126 | the test name is the last part of the path, the group the others joined with › |
| TestResults.BaseName | scripts/parse-test-results.js:132 | the suite name from a file: a prefix of its last path segment |
| TestResults.ParseVitest | scripts/parse-test-results.js:105-197 | the cases are exactly those the test lines yield, in order; one suite per file, opened by the first test or summary line naming that file, with the status and name that line gives; each suite lists exactly the cases of its file in order; a suite is passed exactly when it opened passed and none of its tests failed; every case has its suite |
| TestResults.VitestLine | scripts/parse-test-results.js:113-191 | one trimmed line appends the case a test line yields and opens a suite exactly when the line names a file not seen before, keeping every earlier suite file and name |
| TestResults.VitestPrefixStep | scripts/parse-test-results.js:112-192 | one more line appends its case, if any, and opens the suite of its file when the file is new |
| TestResults.SuitesOpenedStep | scripts/parse-test-results.js:129-141 | opening a suite exactly for a new file keeps the suites matched to the files the lines open |
| TestResults.FilesOfSuites | scripts/parse-test-results.js:129-141 | a file has a suite exactly when one of the opened suites carries it |
| TestResults.FilesOf | scripts/parse-test-results.js:129-141 | the files of the opened suites, one per suite, in order |
| TestResults.TestsOfAbsent | scripts/parse-test-results.js:176-191 | a summary line's new suite starts with no tests, since no case of its file was seen |
| TestResults.VitestTest | scripts/parse-test-results.js:117-173 | a test line finds or creates its file's suite and appends its case |
| TestResults.VitestSuite | scripts/parse-test-results.js:129-141 | a file seen before keeps its suite untouched; a new one gets a suite named by its first describe or its file, with the test's status |
| TestResults.AddVitestCase | scripts/parse-test-results.js:143-171 | the case joins its file's suite, which turns failed if the case failed |
| TestResults.AllPassedAppend | scripts/parse-test-results.js:143-146 | all tests pass after an append exactly when they did before and the new one passes |
| TestResults.VitestCase | scripts/parse-test-results.js:117-161 | a test line's case: the file and full path the pattern captures, passed exactly for a ✓, the duration, and the name and group of the path |
| ExtractTestCode.QuoteFree | scripts/extract-test-code.js:34 | the greedy run of non-quote characters: all non-quotes, stopped by a quote or the end |
| ExtractTestCode.QuotedAt | scripts/extract-test-code.js:34 | a quoted name: a quote, a non-empty run without quotes, a quote |
| ExtractTestCode.CallNameShape | scripts/extract-test-code.js:34-49 | a name captured from a describe(, test( or it( call is non-empty and quote-free, and its line is not blank |
| ExtractTestCode.NameAtShape | scripts/extract-test-code.js:34-49 | the same at one position of the line |
| ExtractTestCode.FirstSelected | scripts/extract-test-code.js:30-56 | the chosen line, if any, lies in the file |
| ExtractTestCode.FirstSelectedIsFirst | scripts/extract-test-code.js:30-56 | the chosen line is the first non-describe line naming a test equal to, containing or contained in the sought name; none exactly when no such line exists |
| ExtractTestCode.FindTest | scripts/extract-test-code.js:30-56 | the scan stops at that first line, skipping describe lines whatever they name |
| ExtractTestCode.Count | scripts/extract-test-code.js:70-77 | a character occurs no more often than the line is long |
| ExtractTestCode.CountBraces | scripts/extract-test-code.js:70-77 | the count moves by the line's opening minus closing braces, and the flag is set once a '{' is seen |
| ExtractTestCode.SpanStep | scripts/extract-test-code.js:66-77 | scanning one more line adds its braces to the running count |
| ExtractTestCode.FirstStopIsFirst | scripts/extract-test-code.js:66-115 | the brace scan ends at the first line where a stop applies, and finds none exactly when no line has one |
| ExtractTestCode.FirstStopBounds | scripts/extract-test-code.js:80-114 | a stop never falls before the test's own line nor past the last line |
| ExtractTestCode.FirstFallback | scripts/extract-test-code.js:118-135 | the fallback end lies between the test's line and the last but one line |
| ExtractTestCode.FirstFallbackIsFirst | scripts/extract-test-code.js:118-135 | the fallback ends just before the first later test/it at the same or lower indentation or describe at lower, and finds nothing when there is none |
| ExtractTestCode.EndLine | scripts/extract-test-code.js:62-140 | the block's last line lies between its first and the file's last |
| ExtractTestCode.ScanEnd | scripts/extract-test-code.js:63-115 | the brace loop finds the first stop, and reports an opening brace exactly when the rest of the file has one |
| ExtractTestCode.ScanFallback | scripts/extract-test-code.js:118-135 | the fallback loop finds the first fallback line |
| ExtractTestCode.FindEnd | scripts/extract-test-code.js:62-140 | the brace scan, then the fallback if a brace was seen, then at most 30 lines on |
| ExtractTestCode.TrimEmpty | scripts/extract-test-code.js:152 | a line trims to "" exactly when it is all white space |
| ExtractTestCode.DropTrailingBlank | scripts/extract-test-code.js:152-154 | popping never adds lines |
| ExtractTestCode.DropTrailingBlankPrefix | scripts/extract-test-code.js:152-154 | the kept lines are the longest prefix not ending in a blank line; everything dropped is blank |
| ExtractTestCode.PopBlank | scripts/extract-test-code.js:152-154 | the pop loop keeps exactly that prefix |
| ExtractTestCode.Extraction | scripts/extract-test-code.js:7-169 | null exactly for a missing file or no matching test; otherwise 1-based start and end lines inside the file and the given file name |
| ExtractTestCode.Extract | scripts/extract-test-code.js:7-169 | extractTestCode computes that result, the describe groups taking no part in it |
| ExtractTestCode.ExtractedShape | scripts/extract-test-code.js:147-161 | the code starts with the first matching test line and ends on a non-blank line within the block |
| TestReport.EscapeChar | scripts/generate-test-report-enhanced.js:801-809 | each character maps to a non-empty text: one of the five entities or itself |
| TestReport.EscapeHtml | scripts/generate-test-report-enhanced.js:800-810 | a missing or empty text gives ''; escaping never shortens a text |
| TestReport.EscapeLength | scripts/generate-test-report-enhanced.js:809 | the escaped text is at least as long as the original |
| TestReport.EntityAt | scripts/generate-test-report-enhanced.js:802-808 | an entity recognised at the start of a text lies within it |
| TestReport.UnescapeChar | scripts/generate-test-report-enhanced.js:801-809 | decoding one character's escape gives the character back |
| TestReport.UnescapePlain | scripts/generate-test-report-enhanced.js:809 | a character other than '&' decodes to itself |
| TestReport.UnescapeAmp | scripts/generate-test-report-enhanced.js:803 | &amp; decodes to & |
| TestReport.UnescapeLt | scripts/generate-test-report-enhanced.js:804 | &lt; decodes to < |
| TestReport.UnescapeGt | scripts/generate-test-report-enhanced.js:805 | &gt; decodes to > |
| TestReport.UnescapeQuot | scripts/generate-test-report-enhanced.js:806 | &quot; decodes to a double quote |
| TestReport.UnescapeApos | scripts/generate-test-report-enhanced.js:807 | &#039; decodes to a single quote |
| TestReport.UnescapeEscape | scripts/generate-test-report-enhanced.js:800-810 | escaping loses nothing: decoding the entities gives the text back |
| TestReport.EscapeSafe | scripts/generate-test-report-enhanced.js:800-810 | the escaped text holds none of < > " ' and each & in it starts one of the five entities |
| TestReport.EscapePlain | scripts/generate-test-report-enhanced.js:809 | a text without & or markup characters is left unchanged |
| TestReport.Tally | scripts/generate-test-report-enhanced.js:80-95 | the forEach over the count matches: passed and failed take the last number of each kind, total adds them all, skipped the last skipped |
| TestReport.TallyTotal | scripts/generate-test-report-enhanced.js:80-95 | passed plus failed never exceeds the total and equals it when each kind occurs at most once; no match of a kind leaves it 0 |
| TestReport.BackendSummary | scripts/generate-test-report-enhanced.js:59-97 | the three Tests: formats tried in order, each setting failed, passed and total from its numbers, and the count matches only when none applies |
| TestReport.FrontendTotalAddsFileCount | scripts/generate-test-report-enhanced.js:180-193 | Vitest's Test Files line also matches 'N passed', so 3 files and 14 tests give a total of 17 |
| TestReport.BackendOutput | scripts/generate-test-report-enhanced.js:43-52 | the command's output, or on a throw the error's stdout, else its message |
| TestReport.BackendSide | scripts/generate-test-report-enhanced.js:37-101 | a failed chdir gives zero counts, failure, its message as the error and no output, and never the success badge; otherwise the summary is read and recorded with the output, success exactly when no failure was counted, and then the badge is success |
| TestReport.FrontendSide | scripts/generate-test-report-enhanced.js:171-216 | a run that exits is tallied and succeeds exactly without failures; a throw keeps zero counts, fails, records the error's message and its stdout when present, and never shows the success badge |
| TestReport.Badge | scripts/generate-test-report-enhanced.js:259-260 | success exactly for a successful side; error exactly for a failed one with a non-empty error message; warning otherwise |
| TestReport.AttachCode | scripts/generate-test-report-enhanced.js:110-119 | every case gets the code extracted for its file and name, in order |
| TestReport.Enriched | scripts/generate-test-report-enhanced.js:126-137 | a suite test with no matching case is unchanged; otherwise it takes the code and describe group of a case of the same file matching by name or full name; name, status and duration are kept |
| TestReport.EnrichTests | scripts/generate-test-report-enhanced.js:125-138 | each of a suite's tests is enriched in place, the count unchanged |
| TestReport.EnrichSuites | scripts/generate-test-report-enhanced.js:122-140 | every suite keeps its other fields and its number of tests, each test enriched |
| TestReport.ToReport | scripts/generate-test-report-enhanced.js:104-106 | a parsed suite as the report holds it: the same file and tests, no code yet |
| TestReport.BackendReport | scripts/generate-test-report-enhanced.js:37-141 | a failed chdir gives the failed side and no suites or cases; otherwise the summary side as above and exactly the suites and cases JestReport states for the output, any suite test's code coming from a case of that suite's file |
| TestReport.JestReport | scripts/generate-test-report-enhanced.js:102-141 | the cases exactly those ParseJest yields, in order, each with its extracted code; one suite per header with its file and status, whose tests are ParseJest's tests of that suite (a file's last suite holds the file's cases), each enriched from the first case of the suite's file with the same name or full name |
| TestReport.ReportedCodeMatches | scripts/generate-test-report-enhanced.js:124-134 | a suite test carrying code got it from a case of the same file whose name or full name is the test's, and that suite is its file's last one |

## Left out

- File system, processes, SSH sessions, `lsof`, `kill`, ssh-keygen, bind probes and `os.networkInterfaces`: the model sees only what they report. Each is an input to the operation that uses it.
- Timers and concurrency: the 2-second grace check, the 30-second monitor interval, the chmod and connection timeouts and the parallel kills become sequential steps with their outcome as an input. Races between the monitor and start/stop are not modelled.
- bcrypt: a pair of functions `hash` and `compare` passed in. The model relies on no property of the hash except that it is a function.
- Clock: `Date.now()` and ISO timestamps are passed in as `now`.
- `JSON.parse` of a server-sent frame and the regular expressions of the report scripts are parameters. The email pattern of the validators, the PAC `proxyDomains` pattern and the JSON text of host lists are modelled concretely.
- toLowerCase folds the ASCII letters only; the full Unicode case mapping is not modelled. trim and `\s` use the full ECMAScript white-space and line-terminator set.
- `path.join`/`path.resolve` are plain concatenation with '/'. No normalisation of `..` or repeated separators is modelled.
- ORDER BY created_at DESC is a stable sort on an integer timestamp. SQL leaves the order of equal timestamps unspecified; the model keeps insertion order.
- Floating point: the report's pass rate (`toFixed`, division) and the HTML/CSS templating apart from escapeHtml are not modelled, and neither are coverage or console logging.
- Environment ports arrive already parsed as integers. `parseInt` of a malformed PROXY_PORT_START/END (NaN) is not modelled.
- authController `logout` only destroys the Express session and clears its cookie. Sessions are not modelled beyond the two fields login sets.
- hostConfigController `getById` and proxyServiceController `list`/`getById` are thin reads over the modelled tables. pacController `getConfig`, `getPACFile` and `previewPACFile` are wrappers around the modelled generator.
- `fetchPACFile` (HTTP), `testHost` (shell diagnostics), proxyServiceController `connect` and its SSH and proxy probes, and `withTimeout` are network and timers.
- PortManager `releasePort` returns true and does nothing. `isPortAvailable` is the bind-probe parameter.
- The front end's fetch, TextDecoder and reader cancellation are not modelled. The reader receives already decoded text, so a multi-byte character split across chunks is not represented.
- extractTestCode's describe-depth bookkeeping (`describeDepth`, `inTargetDescribe`) is not modelled, because it never influences the result. The describe groups are accepted and ignored.
- Migration: a failure of COMMIT itself is not modelled. Only a failing script or a duplicate version makes a migration fail.
- writeTable's backup copy of the old file is not modelled; only the resulting table contents are.
- JsonStore.Store.Insert: requires that a caller-supplied `id` is a number. The model keeps every stored id numeric as an invariant. In the source, `Math.max(...ids)` in generateId (json-store.js:170) coerces each id to a number: a numeric string counts by its value, while any other id makes the maximum NaN, so every later generated id is NaN too.
- JsonStore: records are flat maps from column name to a string, number, boolean or null value. Nested objects are not modelled.
- HostConfigs: every stored row's `hosts` text is the JSON of a string list. create writes it from the array it was given; update writes whatever `hosts` the caller passed through JSON.stringify (host-configs.js:127-129). The JSON.parse exception on such a row or on a hand-corrupted file is not modelled.
- HostConfigs.HostConfigTable.Update: the table does not enforce the foreign key on proxy_service_id itself; the one write that breaks it (update with a falsy owner 0 naming no service) is answered by HostConfigController.UpdateRejection with the 500 the failed UPDATE draws. The migration defining that key is not part of this model.
- SshService.RemoteHost.PushPublicKey: a non-zero exit of `touch <path> && chmod 600 <path>` leaves the files as they were. The touch may already have created an empty file before the chmod failed; the model does not split the two commands.
- HostConfigController.Update: `hosts` is an optional list of strings. The source also accepts any other truthy value there: it skips the conflict check (hostConfigController.js:205), stores its JSON text, and later makes the PAC generator and getAllHosts throw when they parse the row and call forEach (pac-generator.js:56-58, host-configs.js:171-172). That path is not modelled.
- JsonStore.Less: a string compared with a number, a boolean or null compares neither way. In JavaScript the string is converted to a number first, so a numeric string would order by its value; string-to-number conversion (with its floating-point results) is not modelled. Two strings, and numbers, booleans and null among themselves, compare as in JavaScript.
