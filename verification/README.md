# ktunnel: a verified model

This project models the parts of ktunnel that decide who may expose what, for how long, and what survives a
failure, and proves what the code promises about them.

| files | what they model |
|---|---|
| `RelayDb`, `RelaySystem`, `RelayInvariants`, `RelayTheorems` | the relay's tables, its SQL statements, the operations of the frps plugin, the expiry sweep and the administration as a state machine in which they interleave statement by statement, and what holds over every run of it |
| `RelaySweep` | the expiry sweep's two UPDATEs among everything else, and exactly when they leave a live tunnel on an ended session |
| `RelayStore`, `RelayText`, `RelayHandler` | the store and the plugin handler as classes that update the tables in place, each method proved against those statements and, where it is several of them, against the undisturbed run |
| `LoginThrottle`, `WebServer` | the portal's login rate limiter and its capped session table |
| `WebCredentials`, `CredentialStore` | logins, password changes, resets and requests interleaved on the stored credentials and their versions |
| `FileSystem`, `Checksums`, `Updater` | the self-updater's install transaction on a small file system that records every intermediate state |
| `CertRefresh` | the relay certificate refresh script with its exit trap, for every failure and every signal |
| `SplitArgs` | the argument splitter of both programs |
| `Base64Url`, `JsonText`, `Trimming`, `TokenWire`, `Tokens`, `Decimal` | the relay token format, down to base64url, JSON text and UTF-8 |

A database state is a value `Db`. Every SQL statement, and the whole of `AdmitProxy`'s transaction, is one
function on it; `RelaySystem.Exec` and `RelaySystem.Follow` cut each operation into these statements, a `Sys` holds
the tables, the clock and the operations in flight, and `RelaySystem.IsRun` is any interleaving of them, with
statements that fail and operations that are abandoned anywhere. Time is in whole seconds and does not go back.
Row ids are fresh because rows of the three tables concerned are never deleted. The tables start empty.

The web tables are modelled in nanoseconds, with 0 as Go's zero time. bcrypt, SHA-256, `net.ParseIP`, case folding
of names and the look-up of a token by its hash are parameters. Byte strings are strings of characters below 256.

Where documentation and code differ, the code is followed. Three things a reader may not expect:

- The unique indexes are needed: a `tcp` request that also carries a subdomain passes `AdmitProxy`'s own
  check and only the index refuses it (`RelayTheorems.IndexesRefuseMixedRequest`). For requests as the ktunnel
  client sends them the index never has to refuse (`RelayTheorems.IndexesNeverRefuseNormalised`).
- Such a request is not held against the reservations either (`RelayTheorems.TcpIgnoresReservations`): a row opens on
  the portal's name or on one reserved to another user exactly when a `tcp` request carries it
  (`RelayTheorems.ForeignNameExactly`), and then stands in its owner's way (`RelayTheorems.TcpTakesReservedName`).
  No request of the ktunnel client does that (`RelayTheorems.NormalisedRespectsNames`).
- The two UPDATEs of the expiry sweep can leave a live tunnel on an ended session. Over any run that happens
  exactly when, between the two UPDATEs of a sweep, an admission opens a tunnel for a session last seen before
  the cutoff, and until the second UPDATE that session sends no heartbeat and nothing ends the tunnel
  (`RelaySweep.LeaksExactlyByRaces`; a run from empty tables that does it is built in
  `RelaySweep.LateAdmissionLeaks`). It cannot happen as long as admissions follow their heartbeat within the
  session timeout (`RelaySweep.NoLeakedRows`).

## Model

| member | source | states |
|---|---|---|
| RelayTheorems.UniqueExposureAlways | internal/store/store.go:207-217 | in every state of every run no two live tunnels share a non-empty name or a non-zero port |
| RelayInvariants.AdmitUnique | internal/store/store.go:866-945 | an admission, with its takeover, its checks and the unique indexes, keeps live names and ports unique for every request, normalised or not |
| RelayTheorems.IndexesNeverRefuseNormalised | internal/store/store.go:934-945 | for an http request without a port, or another request without a name, the UNIQUE branch is dead: the answer "in use" comes from the check alone |
| RelayTheorems.IndexesRefuseMixedRequest | internal/store/store.go:207-217 | a request with both a name and a port gets as far as the insert, and inserting it would break uniqueness |
| RelayInvariants.StepKeepsInv | internal/store/store.go:819-950 | every step of the interleaved system keeps ownership, uniqueness, naming and what operations in flight rely on |
| RelayInvariants.Reachable | internal/store/store.go:176-219 | the invariant holds in every state of every run from empty tables |
| RelayInvariants.ExecOwned | internal/store/store.go:733-742 | every statement keeps the chain proxy, session, token, user consistent, though the user and token a login inserts were read several statements earlier |
| RelayInvariants.ExecEvolves | internal/store/store.go:616-627 | no statement deletes a row, un-ends, un-revokes or un-kills anything, or changes whose row it is |
| RelayInvariants.RunEvolves | internal/store/store.go:761-811 | the same over any stretch of any run: the time of an ending or revocation is written once |
| RelayTheorems.OwnershipAlways | internal/store/store.go:829-831 | in every state a tunnel's user is its session's user and that session's token's user, and its name is properly formed |
| RelayTheorems.OpenedOnlyByAdmission | internal/store/store.go:838-901 | a row appears only by an admission and carries its session, run id, name, type, subdomain and port; the session is not killed or ended, the token not revoked, the user enabled and within quota; an http row has a valid lower-case name that is not the portal's and is not reserved to another user, a tcp row a port in the window in force |
| RelayTheorems.AdmittedThenClosed | internal/store/store.go:934-962 | the row an admission adds is the request's own, column by column, and a CloseProxy ends it if and only if it names that session and name |
| RelayTheorems.EndedExactlyBy | internal/plugin/handler.go:322-335 | a live tunnel ends if and only if the step is a CloseProxy of its own session and name, a takeover of its address by another session of its user, or the expiry of its stale session |
| RelayTheorems.LiveUntilEnded | internal/store/store.go:958-962 | over any run a tunnel none of those steps hits stays live and unchanged, so a late CloseProxy for a replaced session never ends the successor |
| RelayTheorems.AdmissionWithinLimit | internal/store/store.go:927-933 | an admission leaves its user at or below the limit |
| RelayTheorems.QuotaStep | internal/store/store.go:927-935 | after any step a user has at most as many live tunnels as before or as the limit allows, whichever is more |
| RelayTheorems.QuotaAlways | internal/store/store.go:488-491 | a user whose limit never exceeds a bound during a run never has more live tunnels than that bound |
| RelayTheorems.AdmittedExactly | internal/store/store.go:819-950 | a normalised request is admitted if and only if policy allows it, every live row with its name or port is the same user's and of another session, and there is room once these are gone; a takeover is reported exactly when there was one |
| RelayTheorems.RefusedBecause | internal/store/store.go:829-945 | why a normalised request is refused, in order: unknown session, policy, an address held by another user or by the session itself, the quota with its limit |
| RelayTheorems.LabelForm | internal/plugin/handler.go:44 | the form of a public name: 1 to 63 small letters, digits and inner dashes |
| RelayTheorems.TakeoverWithinQuota | internal/store/store.go:866-933 | a user within the limit who asks, from a new session, for an address held only by another of the user's sessions is always admitted; the holder's session is reported, exactly that row ends and exactly one is added |
| RelayTheorems.TakeoverKeepsCounts | internal/store/store.go:881-918 | a takeover leaves every user's number of live tunnels as it was |
| RelayTheorems.RevocationFinal | internal/store/store.go:616-627 | the first UPDATE of a revocation sets the time on a token not revoked yet (of the named owner), for good: from then on it cannot log in, none of its sessions passes a check, and no tunnel is ever added for it, not even through a session whose login authenticated before and was created after it |
| RelayTheorems.KillFinal | internal/store/store.go:761-772 | the first UPDATE of a kill marks an open session, for good: from then on its check never passes and no tunnel is ever added for it |
| RelayTheorems.KickHolds | internal/store/store.go:758-772 | after the second UPDATE of a kill no login with the session's token gets past the cooldown for 300 seconds, whatever runs meanwhile |
| RelayTheorems.DisableTakesEffect | internal/store/store.go:455-458 | once a user is disabled none of the user's requests is admitted, and enabling undoes exactly that |
| RelayTheorems.ReservationTakesEffect | internal/store/store.go:645-666 | a reserved name is refused to others, with the owner named, keeps its owner when reserved again, and is free as before once released |
| RelayTheorems.WindowTakesEffect | internal/store/store.go:375-385 | a tcp request outside a usable stored window is refused with that window |
| RelayTheorems.LimitTakesEffect | internal/store/store.go:488-491 | a lowered limit ends no tunnel, but nothing is admitted until there is room |
| RelayTheorems.ForeignNameExactly | internal/store/store.go:850-864 | a new row has the portal's name or one reserved to another user if and only if it was opened by a tcp request carrying that name |
| RelayTheorems.TcpIgnoresReservations | internal/store/store.go:850-901 | the answer to a tcp request is the same whatever names are reserved |
| RelayTheorems.TcpTakesReservedName | internal/plugin/handler.go:269-284 | a case: user 1's tcp request takes the name reserved to user 2, whose http request, admitted alone, is then refused |
| RelayTheorems.NormalisedRespectsNames | internal/store/store.go:850-864 | in a run whose requests are normalised no row ever opens on the portal's name or a name then reserved to another user |
| RelaySweep.NoLeakedRows | internal/store/store.go:802-811 | if every admission follows its heartbeat by at most 120 seconds, no interleaving of the sweep with anything leaves a live tunnel on an ended session |
| RelaySweep.SweepRaceExactly | internal/store/store.go:802-811 | for the two UPDATEs of a sweep anywhere in a run, with any steps between: the second, if nothing was left behind before it, leaves a live tunnel behind if and only if a step between them opened one for a session last seen before the cutoff, and until the second that session sent no heartbeat and nothing ended the tunnel |
| RelaySweep.LeaksExactlyByRaces | internal/store/store.go:802-811 | a run keeps every live tunnel on a live session throughout if and only if no such race happens in it |
| RelaySweep.RaceIsAdmission | internal/store/store.go:819-950 | the step that opens the tunnel of a race is a successful admission for its session |
| RelaySweep.RaceLeaks | internal/store/store.go:802-811 | a race ends in a leaked tunnel whatever else runs, other sweeps included |
| RelaySweep.LateAdmissionLeaks | internal/plugin/handler.go:264-284 | a run from empty tables with such a race: user, token, login, a NewProxy held up before its admission, 121 seconds, and a sweep around the admission |
| RelaySweep.UndisturbedSweep | internal/store/store.go:802-811 | after a sweep nothing interrupts every live tunnel's session is live and was seen in the last 120 seconds |
| RelaySweep.SweepEndsExactly | internal/store/store.go:802-811 | such a sweep ends exactly the sessions not ended and last seen more than 120 seconds ago, with or without tunnels, and exactly their live tunnels, at the clock |
| RelayStore.Store.AdmitProxy | internal/store/store.go:819-950 | the transaction, updating rows before counting and inserting, answers as decided on the tables before it; a refusal, at any point, leaves every table as it was; an admission adds one live row that carries the request, ends now every live row with its name or port, and changes nothing else |
| RelayStore.Store.CheckPolicy | internal/store/store.go:838-901 | lets a request through if and only if its session is open, its token unrevoked and its user enabled, and it asks for an http name that is neither the portal's nor reserved to another user, or for a tcp port in the window in force; says which standing is missing and names the owner of a reserved name |
| RelayStore.Store.EndProxy | internal/store/store.go:958-962 | after it no live row of the session has that name, those that were live end now, and every other row, column and the set of rows stay |
| RelayStore.Store.TouchSession | internal/store/store.go:751-755 | only the named session's row changes: seen now, a run id that is set is never overwritten, and ended or killed sessions stay so |
| RelayStore.Store.ExpireStaleSessions | internal/store/store.go:802-811 | ends now exactly every session not ended and last seen more than 120 seconds ago, with or without tunnels, and its live tunnels; the two UPDATEs are the undisturbed run of the interleaved sweep |
| RelayStore.Store.Authenticate | internal/store/store.go:566-591 | which tokens are accepted and the exact refusal of every other one; only a success writes, and only the token's last use, which is now |
| RelayStore.Store.CreateSession | internal/store/store.go:733-742 | inserts one session under a new id, live and seen now, for a user and token that exist, and changes no other |
| RelayStore.Store.RevokeToken | internal/store/store.go:616-641 | for a token not revoked yet (of that owner, when one is named) sets the time of revocation, kills exactly its sessions that have not ended, and reports whether there was one; nothing else changes |
| RelayStore.Store.KillSession | internal/store/store.go:761-772 | marks exactly a session that has not ended killed and holds its token back for 300 seconds; nothing else changes |
| RelayHandler.StampResolves | internal/plugin/handler.go:204-222 | whatever metadata a client sent, the session a login stamps is the one later calls find, the name is the user's own, the token is gone, and nothing else changed |
| RelayHandler.RewriteKeeps | internal/plugin/handler.go:211-222 | the login that goes back carries the user's own name and the kept metadata, and every other field as it came |
| RelayHandler.CheckedRun | internal/plugin/handler.go:227-307 | NewProxy or Ping with nothing in between has the effect of its statements run one by one |
| RelayHandler.LoginRun | internal/plugin/handler.go:195-204 | a login with nothing in between changes nothing unless its token is usable; then it stamps the token's last use and adds one live session of the token and its user, seen now |
| RelayHandler.Handler.Login | internal/plugin/handler.go:153-223 | accepted if and only if its fields and metadata are within every bound and its token is usable; then a new session exists that passes the check, and the reply is the login with that session's id, the user's own name and no token; a refusal changes nothing |
| RelayHandler.Handler.Connect | internal/plugin/handler.go:195-204 | authenticate, then create the session; succeeds exactly for a usable token |
| RelayHandler.Handler.Session | internal/plugin/handler.go:227-249 | finds a session exactly when the stamped one passes every check, and the exact reason for every refusal |
| RelayHandler.Handler.NewProxy | internal/plugin/handler.go:251-307 | rejects unbounded input untouched; allowed exactly when one row was added, which is the one asked for, column by column, an http name in lower case; every other answer leaves the tunnels alone |
| RelayHandler.Handler.Open | internal/plugin/handler.go:264-307 | heartbeat, then the request's own checks, then the admission, whose verdict is the answer |
| RelayHandler.Handler.Ping | internal/plugin/handler.go:309-320 | allowed exactly for bounded input of a session that passes, which is then seen now |
| RelayHandler.Handler.CloseProxy | internal/plugin/handler.go:322-335 | always allowed; touches only live rows of the stamped session with that name |
| RelayText.ValidUserInfo | internal/plugin/handler.go:134-149 | in whatever order the metadata is walked, the early-exit loop accepts exactly what is within every bound |
| RelayText.UserBounds | internal/plugin/handler.go:28-42 | the bounds in numbers: 256 bytes of user and run id, 32 entries, 64-byte keys, 8192-byte values, 16384 bytes in all |
| RelayText.CheckFields | internal/plugin/handler.go:154-167 | accepts exactly logins of at most 64 fields whose host name, system, architecture and address, where given, are text within their limits |
| RelayText.LoginMetas | internal/plugin/handler.go:160-187 | keeps exactly the text entries, and refuses exactly when these exceed a bound |
| RelayText.TotalMinus | internal/plugin/handler.go:139-148 | the byte total does not depend on the order of the map |
| LoginThrottle.IpWindow | internal/web/server.go:580-608 | over any history any 21 attempts charged to one address span at least 60 seconds, whatever is pruned, reset or refused between |
| LoginThrottle.LoginWindow | internal/web/server.go:580-608 | any 6 attempts admitted for one address and name with no successful login between them span at least 60 seconds |
| LoginThrottle.LockoutEnds | internal/web/server.go:590-608 | a minute after its last charged attempt an address is let through again, if and only if it has a bucket or the table is not full |
| LoginThrottle.AddressRefusedOnlyIf | internal/web/server.go:580-608 | after any history an address is refused only if 20 attempts were charged to it and the last is less than a minute old, or it has no bucket and the table is full |
| LoginThrottle.NameRefusedOnlyIf | internal/web/server.go:580-608 | an attempt whose address is charged is refused only if the name has had 5 admitted since its last success, the last less than a minute ago, or it has no bucket and the table is full |
| LoginThrottle.LetThroughIsCounted | internal/web/server.go:580-588 | an attempt counts against its address even when the name is then refused, counts against the name only when admitted, and a refusal counts against nothing |
| LoginThrottle.QuietTablesEmpty | internal/web/server.go:610-620 | five minutes after the last attempt every bucket is forgotten and the next attempt is admitted, however full the tables were |
| LoginThrottle.PrunedExactly | internal/web/server.go:610-620 | pruning keeps exactly the buckets that are locked or were used in the last five minutes |
| LoginThrottle.KeysApart | internal/web/server.go:537-539 | two attempts share a name bucket if and only if they have the same address and the same normalised name |
| LoginThrottle.TablesBounded | internal/web/server.go:590-594 | neither table ever exceeds 1024 entries |
| LoginThrottle.AllowRemembers | internal/web/server.go:590-608 | one attempt keeps a bucket's count and lockout in step with the history of what it let through |
| LoginThrottle.PruneRemembers | internal/web/server.go:610-620 | forgetting an idle bucket loses nothing the bound needs |
| LoginThrottle.IpRemembered | internal/web/server.go:580-588 | address buckets agree with the whole history of attempts |
| LoginThrottle.KeyRemembered | internal/web/server.go:568-588 | name buckets agree with the history since the last successful login |
| WebServer.Server.AllowAttempt | internal/web/server.go:590-608 | the update in place against the throttle's step |
| WebServer.Server.PruneBuckets | internal/web/server.go:610-620 | the loop removes exactly the buckets that are unlocked and idle for over five minutes |
| WebServer.Server.BeginLoginAttempt | internal/web/server.go:580-588 | prunes both tables, charges the address first and keeps that charge when the name is refused |
| WebServer.Server.CreateSession | internal/web/server.go:541-571 | inserts if and only if the re-read credential has the checked hash, principal and version and is enabled, and the principal has 16 or the table fewer than 1024 unexpired sessions; the session carries the credential and expires after 12 hours; a principal at its cap loses one of its own earliest-expiring sessions and nobody else does |
| WebServer.Server.CurrentSession | internal/web/server.go:284-299 | a session is accepted if and only if it is in the table, not past its expiry and its credential is current; one that is not is removed and nothing else is |
| WebServer.Server.Scan | internal/web/server.go:549-562 | the scan counts the principal's sessions and finds an earliest-expiring one |
| WebServer.Server.PruneSessions | internal/web/server.go:573-579 | removes exactly the expired sessions |
| WebServer.Server.InvalidatePrincipal | internal/web/server.go:633-641 | removes exactly the principal's sessions |
| WebServer.InsertCapped | internal/web/server.go:541-571 | an insertion where there is room keeps at most 1024 sessions and at most 16 a principal |
| WebServer.RoomMade | internal/web/server.go:549-567 | giving up the earliest-expiring session makes that room |
| WebServer.FewerCapped | internal/web/server.go:573-579 | removing sessions keeps the caps |
| WebCredentials.SessionsNeverOutliveCredential | internal/web/server.go:284-307 | a session accepted at any moment of any interleaving was inserted by a login that read its credential and checked the password at an earlier step, and nobody has written the credential since: the stored row's hash matches that password, the account is enabled, and the session has the row's name, version and forced change |
| WebCredentials.AcceptedExactly | internal/web/server.go:300-307 | a session is acceptable if and only if nobody has written its credential since its login read it |
| WebCredentials.LoginGoesOnExactly | internal/web/server.go:355-424 | in every run a login by an account's name goes on if and only if the account is enabled and the password matches its hash, with every column of its own row, and passes the second look while the row is the same |
| WebCredentials.NamesAlways | internal/store/store.go:407-428 | in every state of every run names are unique, not blank and never the administrator's |
| WebCredentials.AccountAdded | internal/store/store.go:407-428 | an account is added if and only if its name is free; it starts enabled and without a password |
| WebCredentials.Origin | internal/web/server.go:409-424 | the two steps a session comes from: the login's reading step and its insertion |
| WebCredentials.Reachable | internal/web/server.go:391-435 | every session and every login or change in flight goes back to the step that read exactly that credential and matched the password |
| WebCredentials.SameVersionUntouched | internal/store/store.go:455-486 | equal versions at two moments of a run if and only if nobody wrote the credential between them |
| WebCredentials.RunAdvances | internal/store/store.go:455-486 | over any stretch of a run a credential is untouched or has a higher version |
| WebCredentials.WritesRaiseVersion | internal/store/store.go:287-344 | a step changes a credential if and only if it raises its version, by exactly one |
| WebCredentials.ChangeTakesEffectExactly | internal/web/server.go:989-1026 | a self-service change, whose reading step is returned, takes effect if and only if nobody wrote the credential between that step and its compare-and-swap |
| WebCredentials.ChangeGoesOnExactly | internal/web/server.go:894-1010 | a self-service change goes on if and only if the present password is right, with the row it read |
| WebCredentials.StoredHashIsLastWritten | internal/store/store.go:462-486 | the stored hash is that of the last writer that committed, for users and the administrator |
| WebCredentials.InsertionIsAStep | internal/web/server.go:541-571 | what the session table's insertion leaves, with its evictions and refusals, is a step of the interleaved system |
| CredentialStore.Credentials.AdminWebCredential | internal/store/store.go:305-318 | hash and version of one moment, and exactly when the stored version is unusable |
| CredentialStore.Credentials.SetAdminWebPassword | internal/store/store.go:287-302 | stores the hash and advances the decimal version by one, from absent to 1 |
| CredentialStore.Credentials.SetAdminWebPasswordIfVersion | internal/store/store.go:322-344 | changes both settings exactly when the version is the expected one |
| CredentialStore.Credentials.SetUserWebPassword | internal/store/store.go:462-473 | an unknown user is reported; otherwise one account has the new hash and a version one higher, its name, standing and every other account stay, and no session accepted before is accepted after |
| CredentialStore.Credentials.SetUserWebPasswordIfVersion | internal/store/store.go:477-486 | takes effect if and only if the version is the expected one, which it then no longer is, so of several changes based on one version at most one does; otherwise nothing changes |
| CredentialStore.Credentials.SetUserDisabled | internal/store/store.go:455-458 | disabling and enabling leave the password and every other account alone, and no session accepted before is accepted after |
| Updater.Installer.Install | cmd/ktunnel/update.go:454-557 | at every moment the executable path holds the whole old program or the whole new one with the expected digest and its preflight behind it; success means the new one checked twice and nothing else left behind; an error means the files as they were but for the two declared cases, a failed rollback leaving the old program in the backup; with nothing failing it installs |
| Updater.Installer.Replace | cmd/ktunnel/update.go:523-557 | from the sealed download on: all files after each outcome of backup, swap, check and rollback |
| Updater.Installer.Fetch | cmd/ktunnel/update.go:487-521 | a download counts only whole, sealed and with the expected digest; otherwise the executable is untouched |
| Updater.Installer.Download | cmd/ktunnel/update.go:498-506 | chunk by chunk, what is hashed is what is written |
| Updater.Installer.BackupExecutable | cmd/ktunnel/update.go:392-428 | returns a name only for a whole copy of at most the size limit, and always for one when nothing fails |
| Checksums.ChecksumFor | cmd/ktunnel/update.go:252-278 | finds a digest exactly when one line alone gives one for the asset, and tells a missing one from an ambiguous one |
| Checksums.NamesExactly | cmd/ktunnel/update.go:256-270 | a line counts for an asset if and only if it starts with 64 hex digits and ends with the asset's name, with or without the marker of binary mode |
| Checksums.ExpectedChecksum | cmd/ktunnel/update.go:311-324 | the asset's own digest wins; otherwise exactly one line must give it |
| Checksums.DigestExactly | cmd/ktunnel/update.go:241-250 | a digest is read exactly from the algorithm's name in any case, a colon and 64 hex digits |
| CertRefresh.Refresh.Run | server/reload-nginx-if-cert-changed.sh:63-321 | for every failure and signal: the installed path only ever shows the old PEM, the verified new one, or nothing when there was none; uncommitted, the old PEM is back byte for byte or whole in the backup, and the recorded hash is as it was; success leaves the new PEM and its hash and no other file, and the next run up to date; a run that is up to date changes nothing; a due run in which nothing fails commits |
| CertRefresh.Refresh.OnExit | server/reload-nginx-if-cert-changed.sh:105-116 | wherever the script stopped, the trap rolls back what is uncommitted and removes every temporary file it knows, and after a commit the backup; only a failed restore changes the status |
| CertRefresh.Refresh.Body | server/reload-nginx-if-cert-changed.sh:245-321 | wherever the script exits, nothing is installed yet, or the rollback is armed, or it was done, or the run is committed |
| CertRefresh.Refresh.Prepare | server/reload-nginx-if-cert-changed.sh:249-272 | goes on only with the whole new PEM verified under its temporary name |
| CertRefresh.Refresh.BackUp | server/reload-nginx-if-cert-changed.sh:274-279 | goes on only with the whole old PEM copied, if there was one |
| CertRefresh.Refresh.SwapIn | server/reload-nginx-if-cert-changed.sh:281-287 | the rollback is armed before the rename, so whatever happens around the rename can be undone |
| CertRefresh.Refresh.Activate | server/reload-nginx-if-cert-changed.sh:289-311 | commits only with the verified new PEM installed and frps seen serving it; otherwise the rollback is armed or done |
| CertRefresh.Refresh.Rollback | server/reload-nginx-if-cert-changed.sh:75-95 | restores what was there; unarmed, begun or committed it does nothing |
| CertRefresh.Refresh.Record | server/reload-nginx-if-cert-changed.sh:312-320 | after the commit nothing, failures included, takes the new PEM away; success records its hash |
| CertRefresh.Refresh.Cleanup | server/reload-nginx-if-cert-changed.sh:63-73 | takes away only the temporary files and, after a commit, the backup |
| SplitArgs.SplitLoop | cmd/ktunnel/main.go:263-277 | the loop over a moving index computes the split of the arguments seen as groups |
| SplitArgs.SplitShuffles | cmd/ktunnel/main.go:254-277 | every list is its positionals and flags shuffled together, each in order, nothing lost or added |
| SplitArgs.SplitNormalForm | cmd/ktunnel/main.go:254-277 | splitting positionals followed by flags gives the same pair, for every argument list |
| SplitArgs.PlacementDoesNotMatter | cmd/ktunneld/main.go:584-599 | when every value flag has its value, two arrangements split alike if and only if they have the same positionals and the same flag groups in order |
| SplitArgs.HangingFlagEats | cmd/ktunnel/main.go:266-274 | the exception: an argument moved behind a value flag left without a value is eaten |
| SplitArgs.DashMakesFlag | cmd/ktunnel/main.go:263-270 | a single argument is a flag if and only if it starts with a dash, known or not, but for the client's lone dash |
| SplitArgs.AttachedValue | cmd/ktunnel/main.go:271-274 | a flag with an attached value, or one that takes none, leaves the next argument alone |
| SplitArgs.PortAndNameInAnyOrder | cmd/ktunnel/main.go:254-277 | for both programs' own tables a value flag with its value may come before or after a positional argument, whatever the value looks like |
| SplitArgs.LoneDash | cmd/ktunneld/main.go:584-599 | a lone dash is an argument for the client and a flag for the daemon |
| SplitArgs.GroupsFlatten | cmd/ktunnel/main.go:263-277 | each value flag stays next to its value: groups read back from their words are the same groups |
| Base64Url.RoundTrip | internal/store/token.go:59-74 | unpadded base64url (sections 3.2 and 5 of RFC 4648) reads back every byte string |
| Base64Url.LongVectors | internal/store/token.go:59-74 | the test vectors of section 10 of RFC 4648 |
| Base64Url.Alphabet | internal/store/token.go:59-74 | the URL-safe alphabet of section 5 of RFC 4648, in order |
| JsonText.UnquoteLiteral | internal/store/token.go:55-58 | every valid UTF-8 text, written as a JSON literal with its escapes, reads back, whatever follows |
| JsonText.NamedEscapes | internal/store/token.go:55-58 | which characters are escaped by name |
| JsonText.NumberedEscapes | internal/store/token.go:55-58 | which are escaped by number |
| JsonText.UnquoteGood | internal/store/token.go:109-112 | whatever a literal holds, lone surrogates and stray bytes included, the text read from it is valid UTF-8 |
| TokenWire.UnmarshalMarshal | internal/store/token.go:34-58 | the four-field object reads back |
| TokenWire.MarshalPlain | internal/store/token.go:34-58 | for plain fields the object is written with its four keys in order, quoted, as by hand |
| Trimming.TrimSettles | internal/store/token.go:41-51 | trimming Unicode white space leaves nothing to trim and leaves trimmed text alone |
| Trimming.TrimTakesSpaces | internal/store/token.go:41-51 | what trimming takes off both ends is white space characters, all of them, and nothing else |
| Trimming.TrimUtf8 | internal/store/token.go:41-51 | trimming valid UTF-8 leaves valid UTF-8 |
| Tokens.MintedReadsBackIff | internal/store/token.go:41-125 | for every server a token can be minted for, the token parses to the trimmed server with its TLS name defaulted to the address if and only if those fields are valid UTF-8 |
| Tokens.MintedReadsBack | internal/store/token.go:64-125 | in particular for every accepted server whose fields are UTF-8 as given |
| Tokens.ValidExactly | internal/store/token.go:151-184 | exactly which servers a token can carry: no blank address or domain, a port of 1 to 65535, no control, space or slash characters, and a TLS name that is an IP address or dot-separated labels |
| Tokens.MintsExactly | internal/store/token.go:41-76 | a token is minted if and only if the server, trimmed and with its TLS name defaulted, is one it can carry |
| Tokens.HostValid | internal/store/token.go:151-184 | every host name of three words of small letters is accepted as its own TLS name |
| Tokens.AcceptedParts | internal/store/token.go:85-149 | an accepted token has three parts, a known version and a secret of 32 bytes and names a valid server, with a TLS name exactly in kt2 |
| Tokens.MintedHasThreeParts | internal/store/token.go:64-90 | a minted token splits on dots into exactly version, blob and secret |
| Tokens.MintAgain | internal/store/token.go:85-125 | a server read from any accepted kt2 text can be minted again and reads back unchanged |
| Tokens.LegacyReadsBackIff | internal/store/token.go:127-149 | a kt1 blob gives back address, port and domain if and only if the address has no bar; colons in the address do no harm |
| Tokens.LegacyTokenReadsBack | internal/store/token.go:85-149 | the same for the whole kt1 token |

## Left out

- RelaySweep.NoLeakedRows: assumes admissions follow their heartbeat by at most 120 seconds; without it the property is false, and `RelaySweep.LeaksExactlyByRaces` says exactly when.
- Tokens.LegacyReadsBackIff: is about blobs of the form address, colon, decimal port, bar, domain that pass validation; other legacy text is only modelled by the parser.
- RelayHandler.Handler.Login: assumes session ids stay below 2^63, as SQLite's do.
- LoginThrottle.LoginWindow: like LoginThrottle.IpWindow, assumes attempts reach the tables in the order of their clock readings, although the clock is read before the lock is taken.
- The columns of a session that hold host name, operating system, architecture and client address, and token labels and prefixes.
- The audit log, listings, display helpers and all HTML, HTTP routing, cookies, CSRF and Origin checks.
- AddProxy, EndSession and EndProxiesForSubdomain, which nothing in the two servers calls.
- Databases that already hold duplicate live rows when they are opened, for which the indexes are not installed.
- Parsing of the stored port window; the model holds the two numbers, 0 for anything unusable.
- Normalisation of reserved names and the label check on them; names reach the model as they are stored.
- bcrypt, SHA-256, HMAC, random generation, TLS, openssl and the frp library; passwords, digests and ids are parameters.
- Wrap-around of 64-bit versions and counters, and rounding of the cooldown message beyond whole minutes.
- Decoding of the JSON requests frps sends; requests arrive as values.
- JSON members of a kt2 blob under an unknown key whose value is an array, an object or a number with a fraction or exponent: the model refuses them, the decoder skips them.
- Downloads, redirects, GitHub requests and size limits on them: a download yields chunks or fails.
- The update lock, its takeover when stale, and the once-a-day passive check; a single updater is assumed.
- Comparison of release versions, which is a short expression.
- The checks that come before the updater's temporary file (symbolic links, uv installs, Windows) are one flag; file modes and directory syncs are not modelled.
- Splitting SHA256SUMS into lines and fields, and the scanner's line limit.
- Signals inside the certificate script's explicit rollback, and everything before its first temporary file, which is one flag.
- File owners and modes in the certificate script, and whether frps restarts after a rollback.
- Configuration files, random names, packaging, install scripts, nginx and Docker files.
