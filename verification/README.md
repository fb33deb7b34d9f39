# The control plane of vnt-hub, modelled and proved in Dafny

vnt-hub keeps users, rooms, groups, devices, events and configuration pushes in a SQLite database, talks to client
devices over long-lived sessions, and lets administrators edit all of it. This project models that control plane and
proves what it keeps over whole runs, what each transaction does, and what its backups restore.

## How it is laid out

* `Wrappers`, `Text`, `Models`, `Listings`: options, text splitting and decimal text, the exchanged values, and what a
  `SELECT` returns (the rows of a set, each once, in an order of its own; every result holds for all orders).
* `Crypto`, `GroupConfig`: field encryption, key preimages and the four encrypted columns of a group. Hashing, the cipher,
  base64 and JSON are an environment of arbitrary functions; where a result needs them, it asks for stated laws (opening
  what was sealed, decoding what was encoded, no separator in the encoded text) and, of JSON, only that the configuration,
  payload or claims at hand are read back as they were written (`Survives`, `PayloadSurvives`, `ClaimsSurvive`).
* `Environments`: an environment that meets all these laws for any finite collection of values and for any run, so that no
  result rests on premises that contradict each other.
* `Schema`, `Effects`, `Databases`: the tables, the net effect of each operation as a function, and the class whose
  methods run the SQL statements one by one, each checked against the foreign keys when it ends.
* `Operations`, `Sessions`: what each operation and handler means for its callers, said without the functions that compute
  it: when it succeeds, which row it writes, which columns, and that every other row stays.
* `Hubs`, `AppStates`: tables, registered clients and queued messages together, each handler as a function and as a method
  that refines it.
* `Runs`, `References`, `Invariants`, `Kicks`, `Storage`, `Strays`, `Reachable`: runs of all handlers but the backup import,
  in any order, what they keep, and a run that puts a device into a group of another room.
* `Credentials`, `Isolation`: over whole runs, which token admits a device, and what is done in one room to the others.
* `Frames`, `Pipeline`, `Convergence`, `Arrivals`: one device in a fixed group with a client that installs pushes in arrival
  order and reports honestly what it runs, one session at a time. The chain of versions is reached from the empty database
  and is an invariant, draining converges, and a report brings a device back that was moved off the chain.
* `Acks`, `GroupPush`, `Adoption`: which push an acknowledgement settles, what a group push is made of, and how often a
  state report can create a group.
* `Rows`, `Imports`, `Overwrites`, `Merges`, `FullMerge`, `RoundTrip`, `Ownership`, `UserRestore`, `BackupDatabases`: the
  database as SQL sees it (dynamically typed cells, column affinity, NOT NULL, defaults, conflict clauses), backups and their import.
* `StoredTables`, `RoomExports`: the tables of `Schema` stored as such rows, so that the results about backups hold of
  every reachable state.
* `Lockout`, `Auth`: login failures per source, and HMAC-SHA-256 login tokens (compact form of section 3.1 of RFC 7515,
  HS256 of section 3.2 of RFC 7518).

## Conventions

* A handler is one atomic step with one clock reading. Fresh ids, tokens and nonces are parameters; an id that is already in
  use makes the insert fail, as the primary key would.
* An operation that fails is `None` (or `Refused`, `Failed`, `Broken`) and changes nothing, which is what a rolled back
  transaction does.
* The row an acknowledgement marks is computed by the methods (`AppStates.AppState.LatestUnacked`). In the functions about
  runs it is part of what a handler draws, because the subquery does not order rows pushed in the same second;
  `AppStates.AppState.HandleClientMessage` returns it, and `Acks` asks that it be one the subquery may return.
* Group versions are taken to fit 32 bits where the wire format cuts them (`Frames.InGroup`).
* The key of a derived encryption key is the hash of one text; hashing its three pieces one after the other is the same.

## Where the code and expectations part

* A device edit only checks that the requested group exists, so it can put a device into a group of another room
  (`src/db.rs:348`). `Strays.StrayDevice` is a run from the empty database that does so, after which neither the group nor
  its room can be deleted and the owner's backup does not restore on its own;
  `Invariants.UpdateDeviceKeepsSameRoom` gives the exact condition under which an edit does not, and
  `Databases.Database.DeleteRoom`, `Databases.Database.DeleteGroup` and `UserRestore.UserBackupRestoresIff` the exact
  conditions of the failures.
* A reconnect pushes when the group's version is above the recorded one (`src/client_api.rs:488`), a report when the two
  differ (`src/client_api.rs:580`). `Arrivals.TestsAgreeIff` says exactly when they decide alike: a device moved to a group of
  lower version is not pushed to when it reconnects, only when it reports.
* The repository's README offers merging as a way to move installations, but a merge passes over the administrator's
  account. A full backup in which the administrator owns a room is therefore refused by a fresh installation:
  `FullMerge.OneRoomCannotBeMerged` is an instance and `FullMerge.FullMergeCommitsIff` the exact condition.
* Deleting a device and replacing its token check the room only where they write the device's row. Under another room's id
  a deletion still removes the device's pushes and events, and both unregister it (`src/db.rs:367-374`, `src/api.rs:255`,
  `src/api.rs:270`): `Isolation.DeletedUnderOtherRoom` and `Isolation.ReplacedUnderOtherRoom` say exactly when the device's
  room is left alone.
* The schema declares defaults, but a merge passes over an object that relies on one (`Imports.MandatoryColumns`).
* An adopted configuration reported at version 0 is stored at version 1, so repeating that report pushes
  (`Adoption.RepeatedReport`).

## Model

| member | source | states |
|---|---|---|
| Crypto.DecryptAfterEncrypt | src/crypto.rs:33-84 | a stored field decrypts to the text it was made from, for every master key, context, text and 12-byte nonce |
| Crypto.OpensOnlySealed | src/crypto.rs:56-84 | a stored value opens only if it is a base64 nonce of 12 bytes, a colon and a base64 ciphertext |
| Crypto.PushKeyPreimageInjective | src/crypto.rs:90-96 | for colon-free ids and tokens, two pushes share the text hashed into their key only when device id, token and version all agree |
| Environments.LawsCanBeMet | src/crypto.rs:33-84 | for any finite collection of configurations, payloads and claims there is an environment that meets every law and reads each of them back, so no premise about the foreign code contradicts another |
| Environments.RunsCanStoreWell | src/db.rs:399-444 | every run whose handlers draw nonces of the cipher's length has an environment in which the premises of the results about runs hold |
| GroupConfig.ReadAfterSeal | src/db.rs:399-444 | splitting a configuration that survives JSON into token, server, optional password and cleared remainder, encrypting each and reading the columns gives the configuration back, with or without a password |
| GroupConfig.ReadAfterReseal | src/db.rs:511-561 | after an update the columns read as the requested configuration, which survives JSON, a cleared password included, or exactly as before when none was requested |
| GroupConfig.ColumnContextsDiffer | src/db.rs:405-440 | no two encrypted columns, of one group or of two, share the text their key is derived from |
| GroupConfig.RemainderHidesSecrets | src/db.rs:1180-1191 | the remainder column is the same whatever the token, server address and password are |
| Effects.UpdateReadsBack | src/db.rs:495-581 | the configuration an update returns is the one the next listing reads, given (and surviving JSON) or kept, and the version grows by exactly one |
| Storage.RunKeepsReadable | src/db.rs:583-617 | over every run that stores configurations which survive JSON, the stored configuration of every group can be read |
| Storage.GroupPushSucceeds | src/api.rs:401-423 | whatever such a run from the empty database did, a group push to a group of the room succeeds, records one row per member and returns the number of registered members |
| Effects.SetRowClosed | src/db.rs:1251-1274 | writing a device row leaves every reference resolved exactly when its room and its group exist |
| Effects.DeleteGroupsClosed | src/db.rs:241-245 | deleting groups, as a room removal does, leaves every reference resolved exactly when no device left uses one of them |
| Databases.Database.DeleteRoom | src/db.rs:224-250 | commits exactly when no device of another room uses one of the room's groups; then exactly the room's subtree is gone, otherwise nothing changes |
| Operations.RoomDeletion | src/db.rs:224-250 | succeeds exactly when no device of another room uses a group of the room; then exactly the room, its groups, its devices and their pushes and events are gone |
| Effects.DevicesOfRoomDeleted | src/db.rs:226-240 | the first three deletes of a room removal never leave a dangling reference |
| Effects.RoomDeleted | src/db.rs:241-247 | the delete of the groups dangles exactly when a device of another room uses one of them, the delete of the room never does, and the five together amount to the net effect |
| Databases.Database.DeleteGroup | src/db.rs:689-703 | detaches the members of the room and deletes the group, or fails and changes nothing exactly when a device of another room uses the group |
| Operations.GroupDeletion | src/db.rs:689-703 | succeeds exactly when a group of the room has no user in another room; then the group is gone, exactly its members in the room are in no group, and no other row changes |
| Effects.GroupDeleted | src/db.rs:696-700 | after detaching the members, deleting the group dangles exactly when a device of another room uses it |
| Databases.Database.DeleteDevice | src/db.rs:365-382 | pushes and events go by device id alone, the row only when it is in the given room; no statement is ever refused |
| Operations.DeviceDeletion | src/db.rs:365-382 | afterwards a device of the room is gone with all its pushes and events and every other row is as it was; under another room's id the row stays, but the pushes and events go |
| Databases.Database.UpsertDeviceHello | src/db.rs:252-317 | a known device is refused unless room and token match and otherwise refreshed without losing a kick, its status returned as it was before; an unknown one is created pending with a fresh id and token |
| Operations.HelloAuthenticates | src/db.rs:252-291 | a hello with id and token is admitted exactly when the device exists, is of the room and has that token on record; then only its own row changes, which keeps its group, version, token and kick |
| Operations.HelloEnrols | src/db.rs:293-317 | a hello without id or token is admitted exactly when the room exists, and adds one pending device with the fresh id and token, in no group, at version 0 |
| Operations.EnrolledReturns | src/db.rs:252-317 | after an enrolment exactly the token it handed out authenticates the new id, in its room and no other |
| Databases.Database.UpdateDevice | src/db.rs:331-363 | edits the given fields and keeps the others; fails without effect exactly when the device is not in the room or the resulting group does not exist |
| Operations.DeviceEdited | src/db.rs:331-363 | an edit succeeds exactly when the device is of the room and a given group exists; given fields are written, the others and every other row kept |
| Databases.Database.SetDeviceGroup | src/db.rs:705-732 | moves a device of the room into a group of the room or out of its group, and otherwise fails without effect |
| Databases.Database.RegenerateDeviceToken | src/db.rs:384-397 | replaces the token of a device of the room and nothing else |
| Databases.Database.CreateGroupWithVersion | src/db.rs:446-467 | the insert at version 1 and the second statement for an adopted version amount to one group at version max(v, 1) |
| Databases.Database.DecryptGroupConfig | src/db.rs:583-617 | reading the columns step by step computes the reading of the stored group that the round trips are about |
| Databases.Database.ResealColumns | src/db.rs:515-561 | the bound columns of the update keep what is absent, except that the password is always written |
| Databases.Database.UpdateGroup | src/db.rs:495-581 | writes the group with its next version and returns that version and the configuration now in force; fails without effect when the group is not in the room or unreadable |
| Operations.GroupUpdated | src/db.rs:495-581 | an update succeeds exactly when the group is of the room and readable; only its row changes, keeping room and creation time, taking the next version, and its name and columns only when new ones are given |
| Databases.Database.DeviceConfig | src/db.rs:619-687 | the reassembly of mutable locals computes the device's effective group, version and configuration under an optional override |
| Operations.NoConfiguration | src/db.rs:619-671 | there is no configuration exactly for a missing device, and reading it fails exactly under a missing or unreadable group |
| Databases.Database.RecordVersion | src/client_api.rs:503-517 | writes the version a client runs and marks the device online unless it is kicked |
| Databases.Database.InsertEvent | src/client_api.rs:374-384 | adds the event, and is refused exactly when its id is taken or the device is missing |
| Databases.Database.AcknowledgePush | src/client_api.rs:412-424 | marks exactly the row that the subquery returned, and nothing when it returned none |
| AppStates.AppState.SealPush | src/api.rs:437-463 | builds the payload and seals it under the key of the device, its token and the version |
| Runs.RunKeepsClosed | src/db.rs:1230-1311 | in every run of all handlers every foreign key resolves at every state |
| Invariants.UpdateDeviceKeepsSameRoom | src/db.rs:331-363 | a device edit keeps every group in its devices' room exactly when the requested group is absent or in that room |
| Invariants.RunKeepsSameRoom | src/db.rs:705-732 | in every run whose device edits name no group, a missing one or one of the room, every grouped device's group is in the device's own room |
| Invariants.RunFromStart | src/db.rs:224-250 | from the empty database every such run is closed and keeps groups in their rooms, and then any room can be deleted |
| Strays.StrayDevice | src/db.rs:331-363 | a run from the empty database ends in a closed state where a device is in a group of another room: neither that room nor that group can be deleted, and the owner's devices no longer use the owner's groups |
| AppStates.AppState.PushConfigToDevice | src/api.rs:425-490 | records one unacknowledged push row and, exactly when the device is registered, queues the message for its session; on an error nothing changes |
| Sessions.PushSaysWhatIsInEffect | src/api.rs:425-490 | a push of a registered device adds one unacknowledged row and one message of which the row keeps the ciphertext; the device reads in it the group, its name, the version and the configuration in effect |
| Sessions.PushFails | src/api.rs:425-480 | a push is made exactly when the device exists, its configuration is in effect and the id is fresh; otherwise nothing changes |
| AppStates.AppState.PushDevice | src/api.rs:390-399 | a push to a device of the room is the push of its own effective configuration |
| AppStates.AppState.PushGroup | src/api.rs:401-423 | pushes to the listed members in turn, stops at the first error and counts the registered ones |
| AppStates.AppState.PushEach | src/api.rs:415-421 | the counting loop computes the pushes to the members one after the other |
| AppStates.AppState.PushCurrentConfigIfNeeded | src/client_api.rs:470-492 | on a reconnect a grouped device is pushed to exactly when its effective version is above the recorded one |
| AppStates.AppState.PushIfConsoleConfigDiffers | src/client_api.rs:569-584 | on a state report the device is pushed to exactly when the effective version, cut to 32 bits, is not the reported one |
| AppStates.AppState.AdoptReported | src/client_api.rs:549-566 | creating the group, joining it and writing the version again amount to one adoption |
| AppStates.AppState.SyncReportedConfigState | src/client_api.rs:494-567 | a running report is recorded first; then the device's group decides: push on a difference, join the reported group of the room, or adopt the report |
| Adoption.ReportIsAnswered | src/client_api.rs:494-584 | a report of a device that has a group, or names one of its room, leaves it in that group with the reported version on record when it runs it, changes no other device and no group, and pushes exactly when the group can be read and its version, cut to 32 bits, differs |
| AppStates.AppState.HandleEventReport | src/client_api.rs:358-398 | traffic and server status are written before the event row, which is dropped when the device has none |
| Sessions.EventReported | src/client_api.rs:358-398 | a report writes exactly the traffic and status it carries into its device's row and adds the event unless its id is taken; for a missing device it does nothing |
| AppStates.AppState.LatestUnacked | src/client_api.rs:412-420 | the ordered subquery yields an unacknowledged row of the device that none is later than, and none exactly when there is none |
| Sessions.SubqueryMeans | src/client_api.rs:412-420 | the rows the subquery may return are exactly the device's unacknowledged pushes that none of its unacknowledged pushes is later than |
| AppStates.AppState.HandleConfigAck | src/client_api.rs:399-425 | records the acknowledged version and marks the latest unacknowledged row as it was before the call, if there is one |
| Sessions.AckSettlesLatest | src/client_api.rs:399-425 | an acknowledgement marks that row and no other push, and otherwise only records the version in the device's row |
| AppStates.AppState.HandleClientMessage | src/client_api.rs:353-468 | each of the seven message kinds has exactly the specified effect on tables, registrations and queues; the row an acknowledgement marks is the one its subquery finds |
| AppStates.AppState.HandleClientHello | src/client_api.rs:288-344 | a hello is refused, answered and kicked, or answered and registered, in that order of checks |
| Sessions.HelloTurnedAway | src/client_api.rs:288-331 | a hello that is not accepted changes nothing and is answered only when it speaks another protocol version |
| Sessions.HelloWelcomed | src/client_api.rs:260-344 | an accepted hello is answered with its id, a token only when new, and the status before; it is registered exactly when not kicked, on a queue that starts with the answer |
| Sessions.HelloCatchesUp | src/client_api.rs:470-492 | an accepted hello records one push of its device exactly when that is not kicked and in a readable group whose version is above the recorded one |
| AppStates.AppState.ServeInbound | src/client_api.rs:279-283 | the loop over a session's messages computes their effects one after the other, each acknowledgement with the row its subquery finds in the state it arrives in |
| AppStates.AppState.HandleClientSession | src/client_api.rs:260-286 | a session is its hello, its messages in arrival order, and the clean-up of whatever registration the device then has |
| Sessions.Leaving | src/client_api.rs:283-286 | a disconnect or the end of a session unregisters the device whichever session registered it, and marks it offline unless it is kicked |
| AppStates.AppState.KickDevice | src/api.rs:367-388 | marks a device of the room kicked, unregisters it and queues the notice; fails without effect otherwise |
| Sessions.KickTells | src/api.rs:367-388 | a kick succeeds exactly for a device of the room, unregisters it, and notifies the session it was registered on and no other |
| AppStates.AppState.DeleteDevice | src/api.rs:244-257 | deletes the device and unregisters its id |
| AppStates.AppState.RegenerateDeviceToken | src/api.rs:259-272 | replaces the token and unregisters the device's id |
| Kicks.KickIsAbsorbing | src/client_api.rs:260-286 | in every run a kicked device stays kicked for as long as its row is there, and is not registered at the end of any handler |
| Kicks.RunHasNoKickedClient | src/client_api.rs:267-272 | from a state without one, no run ever has a kicked row whose id is registered |
| Credentials.StepCredential | src/db.rs:252-317 | in one step of any handler a device's room and token change only by its enrolment, a replacement of its token, or the deletion of it or its room |
| Credentials.RevokedStaysRevoked | src/db.rs:384-397 | in every run a token that is not in force for a device stays so until it is given out again |
| Credentials.TokenStaysInForce | src/db.rs:262-275 | in every run a token in force stays so until the device or its room is deleted or the token replaced |
| Credentials.AcceptedWasIssued | src/db.rs:262-317 | in every state reached from the empty database a token is accepted only if some step gave it out for that device in that room and no later step deleted the device or replaced the token |
| Credentials.EnrolledIsAccepted | src/db.rs:252-317 | what an enrolment handed out is accepted in every later state until it is withdrawn |
| Credentials.WithdrawnIsRefused | src/client_api.rs:307-327 | a hello with a token that was replaced, or whose device was deleted, is refused in every later state and changes nothing |
| Isolation.RunElsewhere | src/db.rs:224-732 | in every run of calls about other rooms a room keeps its row, its groups and devices with their events and pushes, and its devices' registrations |
| Isolation.DeletedUnderOtherRoom | src/api.rs:244-257 | deleting a device under another room's id keeps its row, and leaves its room alone exactly when it has no pushes, events or registration |
| Isolation.ReplacedUnderOtherRoom | src/api.rs:259-272 | replacing a device's token under another room's id changes no row, and unregisters the device exactly when it is registered |
| Pipeline.ChainIsSorted | src/client_api.rs:399-411 | the chain is one non-decreasing list: recorded version, reports on their way, installed version, pushes on their way, group version |
| Pipeline.WorldStepKeepsChain | src/client_api.rs:353-492 | every step of server, client and everybody else keeps the chain while the device stays in its group, and the recorded version never drops |
| Pipeline.RunKeepsChain | src/api.rs:425-490 | in every run of console and client the chain holds at every state, so the recorded version never decreases and never exceeds what the client installed |
| Arrivals.AdoptionStartsChain | src/client_api.rs:546-566 | the adopted first report of a registered device to which no push is on its way puts it on the chain of the new group, at the reported version |
| Arrivals.ChainIsReached | src/client_api.rs:494-567 | from the empty database: after a user, a room and a first hello, whatever configuration the new device reports, it is on the chain of the group adopted from it |
| Convergence.TestsAgree | src/client_api.rs:470-492 | on chain states where the report is what is on record, the `>` of a reconnect and the `!=` of a report decide the same |
| Arrivals.TestsAgreeIff | src/client_api.rs:470-492 | for a report of the recorded version, the `>` of a reconnect and the `!=` of a report decide the same exactly when that version is at most the group's; otherwise the reconnect does nothing and the report pushes |
| Convergence.DrainTerminates | src/client_api.rs:279-283 | every schedule that empties the two queues ends within a measure of the queues, and keeps the chain and what is owed |
| Convergence.DrainNeverStalls | src/client_api.rs:279-283 | while a queue is not empty some turn can be taken |
| Convergence.DrainedAgrees | src/client_api.rs:494-531 | with both queues empty and the group's version owed, recorded, installed and group version are equal |
| Convergence.ReportConverges | src/client_api.rs:494-531 | from every live chain state, one running state report followed by any drain of both queues ends with device version = client version = group version |
| Arrivals.ReportRestoresChain | src/client_api.rs:494-531 | a device in a group of any version, even one lower than its own, is back on the chain with all three versions equal after one running report and at most three turns |
| Acks.CallsMakeHistory | src/client_api.rs:412-424 | every timely run of pushes and acknowledgements of a device is a history of its push rows, call for call |
| Acks.AcksMatchPushes | src/client_api.rs:412-424 | a push row ends acknowledged exactly when bracket matching, last in first out, answers it; the unacknowledged rows number the largest net of pushes over all suffixes; every row that was there before is untouched |
| Acks.OnlyAcked | src/client_api.rs:412-424 | acknowledgements change nothing of a row but its mark, and nothing of a settled row or another device's |
| Acks.SettlesTop | src/client_api.rs:412-420 | the subquery returns exactly the latest unacknowledged row, and none when there is none |
| GroupPush.PushReadsBack | src/api.rs:444-463 | whoever knows the device's id and token reads in a push exactly the payload that was sealed, when that payload survives JSON |
| GroupPush.OverrideIsMembership | src/db.rs:619-687 | the configuration under a group's override is the configuration after moving the device into the group |
| GroupPush.OnlyOwnFieldsDiffer | src/db.rs:672-686 | a member's configuration is its group's stored one except for device id, name and ip, which are the device's own |
| GroupPush.IndividualPush | src/api.rs:390-399 | an individual push records and queues the device's own row and message, or changes nothing |
| GroupPush.GroupPushIsMemberPushes | src/api.rs:401-423 | a group push is all or nothing: it records for each member the row an individual push would record, queues each member's own message, and returns the number of members that are registered; it fails exactly when there is a member and the configuration is unreadable |
| Adoption.ReportIsAdopted | src/client_api.rs:546-566 | a report of a device with no group and none it can join makes one group of the reported configuration at version max(v, 1), puts the device in it at version v and pushes nothing |
| Adoption.AdoptedNameIsNotBlank | src/client_api.rs:546-548 | an adopted group is named as reported, or by a fixed name when that is blank |
| Adoption.AdoptedConfigIsReported | src/client_api.rs:546-566 | the effective configuration afterwards is the reported one, which survives JSON, with the device's own fields laid over it |
| Adoption.RepeatedReport | src/client_api.rs:569-584 | repeating an adopted report pushes nothing exactly when its version is at least 1 |
| Adoption.ApplyKeepsGroup | src/db.rs:689-732 | a console edit takes a device out of its group exactly when it is a successful removal of the room, of the group, or of the membership |
| Adoption.AtMostOneAdoption | src/client_api.rs:518-566 | while a device is not taken out of its group, its state reports make at most one group in any run, and none if it starts in one |
| Lockout.LockIsNotExtended | src/api.rs:713-715 | recording a failure under an active lock changes nothing |
| Lockout.ThreeFailuresLock | src/api.rs:705-721 | three failures of an open source lock it for exactly the 600 seconds after the last, against right and wrong passwords alike; two do not |
| Lockout.SuccessForgets | src/api.rs:106-109 | a success forgets the failures of its source and of no other |
| Lockout.LoginKeepsSound | src/api.rs:76-110 | between attempts every source has fewer than three failures counted, and an attempt concerns its own source alone |
| Lockout.FailuresAreCounted | src/api.rs:705-721 | verified failures plus the initial count are three times the locks set plus the current count |
| Lockout.LocksAreApart | src/api.rs:717-720 | two locks of a source are at least ten minutes apart |
| Lockout.RateBound | src/api.rs:76-110 | without a success in [a, b] at most 3 * ((b - a) / 600 + 1) guesses of one source are verified |
| Lockout.RateBoundIsTight | src/api.rs:705-721 | for every span [a, b] and every source open at its start there are attempts within the span, none successful, of which exactly 3 * ((b - a) / 600 + 1) are verified |
| AppStates.AppState.RecordLoginFailure | src/api.rs:705-721 | updates the shared ledger of the source as specified |
| AppStates.AppState.Login | src/api.rs:76-110 | checks the lock, then the credentials; a failure is recorded and a success forgets the source |
| BackupDatabases.BackupDatabase.ImportRows | src/db.rs:1107-1178 | the counting loop computes the row by row import, and reports a failed statement |
| BackupDatabases.BackupDatabase.ClearTables | src/db.rs:965-979 | the deletes succeed exactly when none of them dangles |
| BackupDatabases.BackupDatabase.ImportBackup | src/db.rs:957-1104 | a whole import is committed with its reports, or rolled back to exactly the state before it |
| BackupDatabases.BackupDatabase.ExportQuery | src/db.rs:928-955 | every row becomes an object with one value per column |
| BackupDatabases.BackupDatabase.ExportBackup | src/db.rs:875-885 | lists every row of the seven tables once |
| BackupDatabases.BackupDatabase.ExportUserBackup | src/db.rs:887-921 | lists every row that belongs to the user once, joins included, and no settings |
| Imports.RowsAreAccounted | src/db.rs:1115-1177 | in both modes every row is counted once, as imported or as skipped |
| Imports.MandatoryColumns | src/db.rs:1138-1149 | a merge passes over an object exactly when a mandatory column has no value, even one with a default; an overwriting import fills in the defaults and fails exactly for a mandatory column that has none |
| Imports.BoundCells | src/db.rs:1150-1163 | an integer column stores a 64-bit integer with an unsigned one reinterpreted, a text column a text or the digits of an integer, and either NULL for null |
| Imports.LastRowIsLast | src/db.rs:1138-1149 | the row left under a key is that of an object with the key such that no later object has it |
| Imports.OverwriteIsLastWins | src/db.rs:1138-1170 | an overwriting import of a table with only key uniqueness commits exactly when every object is storable, then each key holds its last object's row, other rows are unchanged, and every object counts as imported |
| Imports.OverwriteSize | src/db.rs:1165-1170 | the imported count bounds the size of a table loaded from empty, and equals it exactly when no key repeats |
| Overwrites.LastUserIsLast | src/db.rs:1138-1149 | a user left under an id is that of an object with the id such that no later object has the id or the name |
| Overwrites.LastIsLeft | src/db.rs:1138-1149 | and every such object leaves its user |
| Overwrites.OverwriteUsers | src/db.rs:1138-1170 | after an overwriting import of users each id holds the user the file leaves under it, or else the old one when no object has its id or name |
| Overwrites.OverwriteUsersCommits | src/db.rs:965-986 | while nothing refers to a user, as after the clearing, it commits exactly when no object lacks a mandatory column, and counts every object |
| Overwrites.ImportKeepsNames | src/db.rs:1232-1238 | in either mode an import of users keeps usernames unique |
| Overwrites.OverwriteLeavesLast | src/db.rs:957-1104 | an overwriting import that commits leaves of every table exactly the file's last row under each key, of users the last under each id and name, and no session |
| Merges.FirstRowIsFirst | src/db.rs:1140-1142 | the row offered for a key is a complete object's such that no earlier complete object has the key |
| Merges.TakenRowIsFirst | src/db.rs:1124-1149 | the row a merge takes under a key is that of an object that finds its place free after the objects before it, and there is none exactly when no object does |
| Merges.MergeTakesFirst | src/db.rs:1124-1170 | a merging import of any table, users included, commits exactly when the row of every object that finds its key (and a user its name) free resolves, and then is the old rows plus those rows, first come, first served |
| Merges.MergeIsFirstWins | src/db.rs:1138-1170 | a merging import of a table with only key uniqueness commits exactly when the first row offered for each new key resolves, and then is the old rows plus those first rows |
| Merges.MergeIsUnion | src/db.rs:1138-1170 | a merge of any table that commits keeps every row, counts exactly the rows it adds and leaves none of its rows to import |
| Merges.MergeIsFirstComeUnion | src/db.rs:957-1104 | a merge of a whole backup that commits leaves in every table its old rows plus the first objects that found their place free, and the sessions as they were |
| Merges.MergeTwice | src/db.rs:957-1104 | a merge of a whole backup that commits keeps every row of every table and reports its growth; the same import again changes nothing and imports 0 everywhere |
| FullMerge.FullMergeCommitsIff | src/db.rs:981-1096 | merging a full backup commits exactly when every room that is new to the database has an owner that is a user of it or whose name is free in it and is not the administrator's |
| FullMerge.FullMergeResult | src/db.rs:981-1096 | then every table but the users is the database's rows plus the backup's under new keys, the users are joined by the backup's new ones with free names, the sessions stay, and each table's report gives the backup's row count, the growth and the difference |
| FullMerge.AdministratorsRoomRefusesMerge | src/db.rs:1124-1137 | a full backup whose administrator owns a room cannot be merged where that account is missing |
| FullMerge.OneRoomCannotBeMerged | src/db.rs:1124-1137 | the backup of an administrator with one room, merged into an empty database, is rolled back |
| RoundTrip.RowRoundTrip | src/db.rs:928-955 | exporting a typed row and binding the result gives the row back under its key |
| RoundTrip.ClearNeverDangles | src/db.rs:965-979 | from any state whose references resolve, clearing children first never violates a foreign key |
| RoundTrip.LoadRestores | src/db.rs:980-1096 | loading parents first never violates a foreign key, and restores the tables one for one |
| RoundTrip.BackupRoundTrip | src/db.rs:957-1104 | the full export of any sound database, imported with overwrite into any database whose references resolve, commits, makes all seven tables the source's, empties the sessions and reports every row as imported |
| Ownership.RoomJoinIsOwned | src/db.rs:895-906 | the joined groups and devices of a user are exactly the owned ones, with no duplicates |
| Ownership.DeviceJoinIsOwned | src/db.rs:907-918 | the joined events and pushes of a user are exactly the owned ones, with no duplicates |
| Ownership.EveryRowHasAnOwner | src/db.rs:887-921 | every row of the six ownable tables has an owner that is a user |
| Ownership.UserBackupsPartition | src/db.rs:887-921 | the users' exports are pairwise disjoint, together are the full export of every ownable table, and their row counts add up |
| Ownership.OwnedIsClosed | src/db.rs:887-921 | a user's export is closed under all foreign keys exactly when the user's grouped devices use the user's groups |
| Ownership.UserBackupRestores | src/db.rs:957-1104 | then its overwriting import commits and leaves exactly that user's part of the database |
| UserRestore.UserBackupRestoresIff | src/db.rs:957-1104 | a user's backup restores on its own exactly when the user's grouped devices use the user's groups |
| StoredTables.ClosedIsStoredClosed | src/db.rs:1230-1311 | the console's rows have every reference resolved exactly when the stored rows do |
| StoredTables.StoredAreSound | src/db.rs:1230-1311 | tables whose numbers fit 64 bits are stored as a sound database exactly when all their references resolve and usernames are unique |
| StoredTables.StoredOnce | src/db.rs:1230-1311 | storing loses nothing: equal stored rows mean equal tables |
| RoomExports.DeleteRoomKeepsOtherExports | src/db.rs:224-250 | from a closed state with groups in their rooms a room deletion commits, removes exactly the room's subtree from every table and from its owner's export, and leaves every other user's export as it was |
| Reachable.RunKeepsNames | src/api.rs:121-129 | in every run usernames stay unique |
| Reachable.CheckedRunsStayAtHome | src/db.rs:705-732 | after a run whose device edits name no group, a missing one or one of the room, every user's grouped devices use the user's groups |
| Reachable.ReachableBackupsRestore | src/db.rs:875-921 | after every run from the empty database the full backup imports as exactly the stored form of the tables without sessions, which no other tables have; a user's backup commits exactly when the user's grouped devices use the user's groups, and then leaves exactly that user's part |
| Auth.HmacSha256 | src/auth.rs:130-155 | the loop over fixed arrays computes the formula of section 2 of RFC 2104, with its pads 0x36 and 0x5c, for keys of every length |
| Auth.HmacFormula | src/auth.rs:130-155 | the code is H(K xor 0x5c.., H(K xor 0x36.., text)) for the key hashed when longer than 64 bytes and filled up with zeros |
| Auth.EquivalentKeys | src/auth.rs:130-137 | a key longer than a block counts as its digest, and trailing zeros up to a block do not count |
| Auth.CodeCollision | src/auth.rs:139-154 | two texts with one code exhibit two inputs with one digest |
| Auth.ConstantTimeEq | src/auth.rs:157-166 | the accumulating loop decides equality |
| Auth.Sign | src/auth.rs:50-66 | builds the token of the claims that expire a day later |
| Auth.VerifyToken | src/auth.rs:93-128 | accepts exactly the three-part tokens with an HS256 header, the right code and unexpired claims |
| Auth.VerifiedExactly | src/auth.rs:93-128 | of the three-part texts exactly those are verified, with the claims they carry, whose header names HS256, whose signature decodes to the code of the other parts and whose claims have not expired |
| Auth.SignedIsVerified | src/auth.rs:93-128 | a signed token gives its claims back exactly while now <= exp |
| Auth.TokenLivesOneDay | src/auth.rs:50-66 | a token is accepted for exactly 86400 seconds after it was issued |
| Auth.VerifiedIsSigned | src/auth.rs:93-117 | a verified token is its three parts in compact form and carries the code of its first two |
| Auth.SharedSignature | src/auth.rs:112-117 | two different verified tokens with one signature exhibit a collision of the hash |

## Left out

- Sockets, TLS, WebSocket upgrade, UDP peers, task spawning, the event stream, logging, command line and static pages: input and output only.
- SQLite, Argon2, ChaCha20-Poly1305, SHA-256, JSON, base64 and random bytes: arbitrary functions with the laws stated in `Crypto` and `Auth`. That JSON reads a value back as it was written is a premise about the value at hand; it fails of a non-finite `packet_loss`, which the JSON writer turns into null, and of a finite one whose decimal text is read as a neighbouring number, since the JSON library is built without exact float parsing.
- Interleaving of handlers statement by statement: several handlers read, decide and then write, and do not keep the invariants when another handler runs in between.
- Two overlapping sessions of one device in the version chain: the first to end unregisters the other, so the chain is stated for one session at a time; kicks and references are stated for any sessions.
- Route and role checks, username and password validation, password changes, the creation of the administrator's account and plain list queries: each is settled by reading one function.
- The payload readers of event reports: a report carries what they extracted.
- Backup imports as steps of a run: an import may replace any row, so kicks, versions and rooms are kept only by runs without one; what an import itself keeps is proved on the stored rows.
- Rows with a NULL key: SQLite admits them in a TEXT PRIMARY KEY, and `Rows.Keyed` asks of an import that every object has a key.
- INTEGER affinity of text: what an integer column makes of a text is an arbitrary function, and integers of JSON are taken to be those of 64 bits.
- Column migration, TLS certificate storage and session rows: no code path of the modelled operations writes them, except that an overwriting import deletes the sessions.
- BackupDatabases.BackupDatabase.ImportRows: takes the mode alone and passes over the administrator's row in a merge of users, as its only callers ask it to, where the code has a separate flag.
- Pipeline.RunKeepsChain: the client is assumed to install pushes in the order they arrive and to report what it runs, which is the behaviour of another program.
- AppStates.AppState.AdoptReported: uses one clock reading where the code takes one per statement, so the two time columns of an adopted group agree.
