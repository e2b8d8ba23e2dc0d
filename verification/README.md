# web-access: a verified model

web-access is a proxy that gives browsers RDP connections to assigned servers, with saved credentials, directory
and single sign-on, and migration of its whole database between hosts. This project models its hardest behaviour in
Dafny and proves properties of that model.

Protocols whose steps really interleave (the freeze, admission against removal, sign-in) are step relations; each
store, registry or flag write is one step, and the theorems are about every reachable state. Code that updates
fields in place is a class whose methods are proved against functions, and the theorems are about those functions.
Pure code is functions and lemmas.

| files | what they hold |
|---|---|
| `Freeze`, `FreezeInvariant`, `FreezeTheorems`, `FreezeEdits` | the gate, the export lock, the two freeze flags, exports, imports, crashes and starts |
| `Live`, `Admission`, `AdmissionInvariant`, `AdmissionTheorems`, `AdmissionEvidence` | the live registry, and admission of a connection against removals |
| `Crypto`, `Vault`, `VaultTheorems` | sealed blobs, the two wraps of one master key, hosts and archives over whole runs |
| `Tickets`, `Migration` | connection tickets; staging and applying an import |
| `Calendar`, `Instant`, `TimeOrder`, `Retention`, `RetentionByTime` | the civil calendar, times as text, stamps and log names, the two pruners |
| `Saml`, `SamlTheorems`, `SamlFirstUse` | the checks on an assertion and the table of spent identifiers |
| `Throttle`, `ThrottleProofs`, `ThrottleBounds`, `HashBound`, `HashCount` | failed sign-in throttles and the hashing semaphore |
| `Accounts`, `SignIn`, `SignInOutcomes` | user rows, their SIDs and sessions, and sign-ins that interleave |
| `Sid` | security identifiers, binary and spelled (section 2.4.2.2 of MS-DTYP) |
| `Csv`, `ImportParse`, `ImportTheorems`, `ServerImport` | the server list: quoting (section 2 of RFC 4180), parsing, and the import by name |
| `Text`, `Common` | strings as the standard library treats them; options and results |

What is idealised. Encryption opens only under the key and associated data it was made with, and a passphrase key
only under its passphrase and salt; a flow cookie cannot be forged; random tokens, keys and identifiers come in as
parameters and are fresh where they must be. Clocks, the directory's answers and outcomes of I/O are parameters or
free choices of the environment. Unicode lower-casing is a parameter; white space and control characters are written
out. Tables are maps whose keys are the columns SQLite keeps unique, with cascade deletes and identifiers that are
never reused. Integers are unbounded: every value modelled stays far inside 64 bits. Division is written out where
the source truncates toward zero.

Five properties hold only under a condition. Each has the run that needs it, and the condition is exact:

- `set_user_servers` reads the old assignments outside its transaction. Left to finish, an edit signals an admitted
  connection under an assignment it takes away if and only if the assignment was in that read
  (`EditReachesExactlyItsRead`); it was whenever nothing grants the user a server between the read and the
  transaction (`UndisturbedEditReachesAll`), and `RacingEditsEscape` is a run in which it was not.
- Every assertion is accepted once in every run if and only if request identifiers cannot be guessed
  (`OnceExactlyIfUnguessable`; `GuessedRequestIsAcceptedAgain` is the run). Every assertion whose Conditions end is
  if and only if they cannot be guessed or the service does not restart (`EndingOnceExactlyIf`;
  `EndingIsAcceptedAgain` is the run).
- The row of a session is bound to the SID the session's sign-in recorded if and only if the row was not reset
  between the record and the session, or that SID has signed in again since the reset (`SessionsMatchUnlessReset`;
  `SessionStraddlesReset` is a run with a reset in between and another SID after it).
- Writes by work that left the gate always land in the database its reads came from if and only if the work compares
  generations when it comes back (`LandExactlyIfRechecked`). The activity record of a refused single sign-on does not,
  and `UncheckedRecordLandsElsewhere` is the run in which it lands in another database.
- From the year 0 on, stamps and dated log names sort in time order if and only if none is past the year 9999
  (`StampsSortTo9999`, `LogNamesSortTo9999`); `StampsTurn` is the second at which the order breaks.

## Model

| member | source | states |
|---|---|---|
| FreezeTheorems.FreezeMeansHandedOver | src/admin.rs:874-1058 | in every reachable state a frozen database is no longer pending exactly when the export that froze it was handed over |
| FreezeTheorems.RestartSettlesFreeze | src/app.rs:122-151 | however often a start is itself interrupted, the service that comes up is frozen exactly when the freeze it went down with was handed over, and nothing else of the database changed |
| FreezeTheorems.ExportFindsSettledFreeze | src/admin.rs:943-1003 | a freezing export that finds the proxy frozen finds another export's freeze, handed over and not pending, and leaves it as it is |
| FreezeTheorems.OthersFreezeUntouched | src/admin.rs:874-931 | an export that set no freeze never changes a flag afterwards, however it ends |
| FreezeTheorems.UndoLiftsOwnFreeze | src/admin.rs:886-902 | an undo that finds a freeze in its own database finds the one it set, still pending and not handed over |
| FreezeTheorems.SnapshotHolds | src/admin.rs:962-996 | from the moment a freezing export takes its snapshot, through any run of requests, records, hand-overs, other exports, crashes and starts without a step that ends the freeze, the proxy stays frozen and serves exactly the archive's data |
| FreezeTheorems.FreezeLastsUntilLifted | src/admin.rs:943-1058 | a freeze ends exactly at an unfreeze, a swap, an undo in its own database, the clean-up of a failed snapshot or a start that finds it undelivered; every other step of anything keeps flag, freeze, database and data |
| FreezeTheorems.FrozenDataIsArchived | src/admin.rs:962-996 | in every reachable state, while the freeze an archive was taken under is in force, the served data equals the archive's |
| FreezeTheorems.NoEditWhileFrozen | src/admin.rs:62-71 | no step of anything changes the protected data of a frozen database; only another database replaces it |
| FreezeTheorems.SnapshotSeesWholeEdits | src/web.rs:439-480 | a freezing export snapshots with nothing else inside the gate, so no edit is halfway in it |
| FreezeTheorems.WritesLandWhereReadsCameFrom | src/admin.rs:106-114 | every write by work that read under a hold, left the gate and compared generations when it came back is in the database its reads came from |
| FreezeTheorems.UncheckedRecordLandsElsewhere | src/sso.rs:115-120 | a reachable state in which a record written without that comparison is in another database than the work read |
| FreezeTheorems.LandExactlyIfRechecked | src/admin.rs:106-114 | writes of a kind always land where their reads came from if and only if their work compares generations |
| FreezeTheorems.SomethingCanStep | src/admin.rs:886-931 | with unfinished work some grant or some task's own step is always enabled |
| FreezeTheorems.WorkDrains | src/web.rs:410-480 | no deadlock and no livelock: the proxy's own steps are bounded in number in any order, and one is possible while work is unfinished |
| FreezeTheorems.DrainedFreezeIsDelivered | src/admin.rs:1039-1058 | when everything has finished, a freeze that remains was handed over |
| FreezeTheorems.AbandonedExportLeavesNoFreeze | src/admin.rs:827-902 | when everything has finished, an export whose requester left before the hand-over has left no freeze |
| FreezeEdits.DataIsLastEdit | src/admin.rs:225-247 | over any run the served database holds exactly what the last guarded write or import put there: no acknowledged edit is missing and nothing else gets in |
| FreezeEdits.AcknowledgedEditIsArchived | src/admin.rs:962-1003 | an edit is there until the next one, and an export that takes its snapshot meanwhile has it in its archive |
| FreezeEdits.EndsShortExactlyIfRefused | src/admin.rs:63-70 | from its arrival over any run, a request ends with writes not made if and only if it failed, was guarded and met a freeze, came back to another generation, was abandoned or met a crash |
| FreezeEdits.EveryWriteIsMade | src/web.rs:443-470 | while a request writes, whatever interleaves, the writes it has made are in the journal of one database and add up with those left |
| FreezeEdits.UndisturbedExportIsHandedOver | src/admin.rs:943-1058 | an export whose steps succeed and whose requester stays is handed over when it ends, with the database as it was at its snapshot |
| FreezeEdits.ExportIsRecorded | src/admin.rs:1005-1052 | the record, the hand-over and the undo of an export are written once each, exactly while its own database is the one served |
| FreezeEdits.LeavingEarlyChangesNothing | src/admin.rs:826-850 | an import abandoned before its swap and an export abandoned before its snapshot change nothing in the database over any later run |
| FreezeEdits.UnfreezeClearsBothFlags | src/admin.rs:1053-1058 | an unfreeze ends with both flags down whatever ran between its two writes |
| FreezeEdits.NeverOvertaken | src/app.rs:46-50 | work that waits for the gate never has more work ahead of it than before |
| Live.LiveSessions.Register | src/live.rs:48-69 | a new connection gets an identifier nobody has and is in the registry from then on |
| Live.LiveSessions.SetServer | src/live.rs:75-79 | ends of that server reach the connection from here on; one already gone is not brought back |
| Live.LiveSessions.SetIncarnations | src/live.rs:81-85 | the rows are what removing the connection will hand back, and no end reaches anyone differently |
| Live.LiveSessions.Remove | src/live.rs:93-101 | the entry goes, what is returned is that entry's, and ends reach everyone else as before |
| Live.LiveSessions.EndWhere | src/live.rs:103-139 | exactly the connections named are signalled and none other is touched |
| Admission.UserDeleted | src/store.rs:738-744 | deleting a user leaves no session and no assignment of that user, and everything else |
| Admission.ServerDeleted | src/store.rs:913-921 | deleting a server leaves no assignment to it, and everything else |
| AdmissionTheorems.RemovalReachesAdmitted | src/proxy.rs:160-199 | once a sign-out, reset, user or server removal, revocation or assignment edit completes, every admitted connection it concerns has been signalled, in that and every later state |
| AdmissionTheorems.RemovalReachesEarlier | src/live.rs:103-139 | over any run, once a sign-out, reset, revocation or user or server removal completes, every connection of that session or user registered before the signal, or placed on that server before it, has been signalled, whatever session it was opened under |
| AdmissionTheorems.LaterChecksRefuse | src/proxy.rs:160-199 | from a removal's store call on, the admission check it defeats refuses |
| AdmissionTheorems.UndisturbedEditReachesAll | src/admin.rs:225-247 | over runs: when nothing grants the user a server between an edit's read and its transaction, every admitted connection under an assignment it took away is signalled once it is done, in every later state |
| AdmissionTheorems.EditReachesExactlyItsRead | src/admin.rs:225-247 | an edit left to finish signals an admitted connection under an assignment it does not want if and only if the assignment was in its read |
| AdmissionTheorems.EditSignalsOnlyWhatItRead | src/admin.rs:225-247 | in every reachable state a step of an edit signals an admitted connection only if it is the user's, to a server the edit read and does not want |
| AdmissionTheorems.EditReachesWhatItRead | src/admin.rs:225-247 | an edit whose transaction took away only what it had read reaches every connection under what it took |
| AdmissionTheorems.UndisturbedEditTookWhatItRead | src/store.rs:1045-1095 | with no grant to the user between the read and the transaction, the transaction takes away only what was read |
| AdmissionTheorems.RacingEditsEscape | src/admin.rs:225-247 | a reachable state in which an edit took away an assignment made after its read and the connection under it is not signalled |
| AdmissionTheorems.OlderGenerationEnds | src/migrate.rs:397-405 | a connection from before an import is signalled and never admitted |
| AdmissionTheorems.DeadTicketStaysDead | src/auth.rs:90-111 | over any run a ticket once spent or cleared never redeems |
| AdmissionTheorems.ImportKillsTickets | src/migrate.rs:397-405 | no ticket issued before an import redeems after it |
| AdmissionEvidence.AdmittedShowedEverything | src/proxy.rs:160-199 | every admitted connection of any run spent a ticket issued to its user for its server, then was found under a session of its user, then under the very assignment it holds, then with both rows there, in this order and in one database |
| AdmissionEvidence.RefusedExactlyIfLacking | src/proxy.rs:160-199 | over any run an open connection is refused if and only if one of its checks did not find what it looks for or the environment failed it |
| AdmissionEvidence.EntitledIsAdmitted | src/proxy.rs:160-199 | a registered connection with a ticket of its own, a live session and an assignment is admitted, and its ticket is spent |
| AdmissionEvidence.RemovalTakesExactly | src/store.rs:722-744 | each removing store call takes away exactly what its kind says and fails exactly when its row, or a server to assign, is missing |
| AdmissionEvidence.CopyGivesExactly | src/store.rs:1097-1106 | copying assignments gives every server of one user to the other, keeps what was there and changes nobody else's |
| AdmissionEvidence.EndedSessionsStayEnded | src/web.rs:1017-1025 | after the store call of a sign-out, a revocation, a reset or a removal, no earlier session of that token or user is ever there again |
| AdmissionEvidence.RegistryIsTheOpenConnections | src/live.rs:47-100 | the registry holds exactly the connections between registration and close, each under its own user, session and server |
| AdmissionEvidence.EndsOnlyItsOwn | src/live.rs:103-139 | a step signals a connection only as an import, or as the registry call of a removal that is about it, after the store call |
| Crypto.AadIsInjective | src/vault.rs:319-322 | no two pairs of a SID and a server share associated data, whatever the SID holds |
| Vault.Store.ReplaceSecrets | src/store.rs:474-490 | every saved credential, the recovery wrap and the directory password go and the new wrap is in place, together |
| Vault.Vault.Load | src/vault.rs:145-168 | the key this host can open, a new wrapped key for a new database, or none and the database unchanged |
| Vault.Vault.Install | src/vault.rs:170-172 | the key in memory is the one given |
| Vault.Vault.SetRecovery | src/vault.rs:212-225 | the wrap is replaced only by an open vault, with a long enough passphrase and the current one where one is set; otherwise the stated error and nothing changed |
| Vault.Vault.ReplaceRecovery | src/vault.rs:227-235 | the same without the current passphrase |
| Vault.Vault.Reset | src/vault.rs:237-248 | a new master key wrapped for this host, and nothing sealed under the old one left |
| Vault.Vault.Adopt | src/vault.rs:258-264 | the key from the recovery wrap, wrapped for this host in that database; on an error the database is unchanged |
| VaultTheorems.OneMasterKey | src/vault.rs:145-264 | in every state any run of hosts, copies, exports and imports reaches, the key in memory is the one both wraps hold and every secret is sealed under |
| VaultTheorems.CredentialsMove | src/migrate.rs:128-167 | an archive made on an open host, kept through any later run and imported on any host with its passphrase: there every saved credential and the directory password opens to what it did on the old host at the export |
| VaultTheorems.CopyStartsLocked | src/vault.rs:10-13 | after any run, the database of an open host copied to another and started there is unchanged, locked and opens nothing, and still loads its key at home |
| VaultTheorems.UnlockedCopyOpens | src/admin.rs:771-780 | after any run, exactly a passphrase that gives the master key unlocks the copy, every password is then as it was at home, and the next start opens by itself |
| VaultTheorems.PassphraseLasts | src/vault.rs:212-225 | over any later run until the passphrase is changed again or another vault takes the host, the passphrase last set, by a change or outright, recovers the key the host had and exports from it, and every other is refused |
| VaultTheorems.OpensOnlyAsSaved | src/web.rs:1112-1148 | a password sealed for a SID and a server opens for these and no others |
| VaultTheorems.SavedLasts | src/web.rs:1159-1219 | a saved password is what a running host offers through any later stops, starts, unlocking, exports and changes of passphrase, until that user's row or that credential changes or another vault takes the host |
| VaultTheorems.ResetLasts | src/vault.rs:237-248 | after a reset nothing saved before is offered under any key, over any later run, until it is saved anew, imported or copied in |
| VaultTheorems.NewVaultOpens | src/vault.rs:145-168 | a new database starts with a new key and a reset one with another, which the host holds whenever it runs until another vault takes it |
| VaultTheorems.PassphraseIsSetExactlyIf | src/vault.rs:212-235 | a passphrase is set exactly by an open vault, long enough, and where one is set with the current one unless it is replaced outright |
| VaultTheorems.SavesExactlyIf | src/web.rs:1159-1219 | a credential is saved exactly on an open vault with a recovery passphrase for a user with a SID, as given, and no other changes |
| VaultTheorems.DirectoryPasswordLasts | src/app.rs:237-253 | the directory password saved last is the one a running host reads, over any later run, until another vault takes the host |
| Tickets.Tickets.Issue | src/auth.rs:77-90 | the table is the live tickets and the new one |
| Tickets.Tickets.RedeemAt | src/auth.rs:92-103 | the ticket is gone whatever the answer, and answers only within its minute |
| Tickets.Tickets.Clear | src/auth.rs:105-110 | no ticket is left |
| Tickets.RedeemsOnceWhatWasIssued | src/auth.rs:71-111 | over any run of calls, a ticket that redeems was issued to that user and server less than a minute before, with no redeem of it and no clear in between |
| Tickets.NeverRedeemsTwice | src/auth.rs:91-103 | of two redeems of one token in any run, one answers nothing |
| Tickets.RedeemsExactlyIf | src/auth.rs:71-111 | over any run of calls in clock order a redeem answers a ticket if and only if it was issued under that token less than a minute before, not redeemed since and not cleared |
| Migration.Service.Stage | src/migrate.rs:235-259 | the archive is held, at most two are held, and an upload that had not expired gave way only to make two, and only if no kept one is older |
| Migration.Service.Cancel | src/migrate.rs:269-276 | the upload can never be confirmed again, and every other can be exactly when it could before, for the same archive |
| Migration.MakeRoom | src/migrate.rs:241-250 | one more upload fits; none gives way when one fits already, otherwise exactly as many as it takes, and none that is younger than a kept one; the kept ones are untouched |
| Migration.Oldest | src/migrate.rs:242-247 | an upload no other is older than |
| Migration.Service.Confirm | src/migrate.rs:278-311 | it succeeds exactly with a waiting upload whose archive applies and, on a host that holds data, its name; a refusal of any kind leaves data, key, tickets, connections, generation and uploads as they were |
| Migration.Service.ApplyImport | src/migrate.rs:369-407 | it succeeds exactly when the passphrase opens the archive and its recovery wrap and no step on the way fails; success installs the imported database and the key it wraps, clears tickets, signals every connection, counts a generation and keeps the newest backups; a refusal at any stage changes none of them |
| Calendar.CivilInvertsDays | src/saml.rs:227-248 | every real date of the proleptic Gregorian calendar converts to a day and back |
| Calendar.DaysInvertCivil | src/saml.rs:227-248 | every day converts to a real date and back |
| Calendar.RoundTripIffReal | src/saml.rs:251-278 | the round-trip test of the parser passes exactly for real dates |
| Calendar.DaysCountTheCalendar | src/saml.rs:227-235 | the day number is 0 on 1970-01-01 and goes up by one from each date to the next |
| Calendar.UtcPartsAgree | src/migrate.rs:105-120 | the Euclidean conversion names the date the truncating one does, and its parts are a real time that adds up to the seconds given |
| Instant.ParsesExactlyRealTimes | src/saml.rs:250-278 | the parser accepts exactly the texts of real times in four-digit years, whatever the fraction, and answers their seconds |
| Instant.InstantRoundTrips | src/saml.rs:250-290 | parsing undoes formatting exactly in the years 0 to 9999 |
| TimeOrder.RoundTripsInRange | src/saml.rs:250-290 | the same by the clock: exactly from the first second of the year 0 to the last of 9999 |
| TimeOrder.StampOrder | src/migrate.rs:122-126 | stamps of years written with one number of digits sort in time order, to the second |
| TimeOrder.LogNameOrder | src/logfile.rs:26-29 | dated log names of one service sort in day order, in years written with one number of digits |
| TimeOrder.StampsSortTo9999 | src/migrate.rs:122-126 | from the year 0 on, stamps before a given second sort in time order if and only if that second is not past the start of the year 10000 |
| TimeOrder.LogNamesSortTo9999 | src/logfile.rs:26-29 | the same for dated log names, by day |
| Retention.Folder.RemoveOldest | src/migrate.rs:330-340 | all but the last `keep` sorted names go, save those that cannot be deleted |
| Retention.Folder.PruneBackups | src/migrate.rs:313-341 | exactly the import backups with at least `keep` others behind them go; no other file is touched |
| Retention.Folder.PruneLogs | src/logfile.rs:54-75 | exactly the service's dated logs with at least `keep` others behind them go; no other file is touched |
| Retention.KeepsTheLast | src/migrate.rs:313-341 | what is kept is `keep` names, or all of fewer |
| RetentionByTime.OldestBackupsGo | src/migrate.rs:313-341 | a backup goes exactly when `keep` newer ones exist, by time |
| RetentionByTime.OldestLogsGo | src/logfile.rs:26-85 | a day's log goes exactly when `keep` later days have one |
| RetentionByTime.PruneBackupsByTime | src/migrate.rs:313-341 | in a folder of backups and other files, pruning leaves the others and the newest `keep` backups |
| RetentionByTime.PruneLogsByTime | src/logfile.rs:54-75 | in a folder of a service's dated logs and other files, pruning leaves the others and the newest `keep` logs |
| RetentionByTime.OnlyTheirOwnNames | src/migrate.rs:319-332 | the pruners take a file for theirs exactly when its name is a backup of this millennium with its extension, or the stem, a date and the extension of a log |
| Saml.Confirm | src/saml.rs:730-751 | an answer exactly when every bearer confirmation is readable and one holds, and it is the latest of those that hold |
| Saml.CheckConditions | src/saml.rs:753-783 | true exactly when the window holds, every condition is known and for this proxy, and there is an audience |
| Saml.CheckSessions | src/saml.rs:785-793 | true exactly when there is a statement and none has ended |
| Saml.FindSid | src/saml.rs:795-813 | the text of the one attribute of the configured name with one value, or nothing |
| Saml.ReadSid | src/saml.rs:795-822 | the canonical SID the assertion names, exactly when it names one |
| Saml.CheckAssertion | src/saml.rs:694-825 | accepts exactly the acceptable assertions, with their identifier, canonical SID, name identifier and last moment |
| Saml.ServiceProvider.Start | src/saml.rs:449-454 | a cookie of this process for that request, good for five minutes |
| Saml.ServiceProvider.FlowRequest | src/saml.rs:488-508 | the request of a cookie of this process while it is current, and only then |
| Saml.ServiceProvider.Check | src/saml.rs:510-587 | an answer exactly when the cookie, the response and the assertion pass every check before the table, with the assertion's identifier, SID, name identifier and last moment |
| Saml.ServiceProvider.Use | src/saml.rs:588-603 | a first use exactly when neither identifier is held after pruning and two more entries fit; then both are entered |
| Saml.ServiceProvider.Accept | src/saml.rs:510-604 | nothing is spent unless every check passed; a first use spends both identifiers for the stated times and answers the assertion's canonical SID and name identifier |
| SamlTheorems.AcceptedOncePerRequest | src/saml.rs:588-604 | over any run, restarts included, no request is accepted twice although the table forgets |
| SamlTheorems.AcceptedOncePerAssertion | src/saml.rs:588-604 | while requests cannot be guessed, no assertion is accepted twice over any run, restarts included |
| SamlTheorems.AcceptedOnceWhenItEnds | src/saml.rs:753-823 | in one service run an assertion whose Conditions end is accepted once even if requests could be guessed |
| SamlTheorems.GuessedRequestIsAcceptedAgain | src/saml.rs:588-604 | if requests can be guessed there is a run that accepts an assertion without an end twice |
| SamlTheorems.EndingIsAcceptedAgain | src/saml.rs:393-409 | if they can and the service restarts there is a run that accepts one that ends twice |
| SamlTheorems.OnceExactlyIfUnguessable | src/saml.rs:588-604 | all runs accept each assertion once if and only if requests cannot be guessed |
| SamlTheorems.EndingOnceExactlyIf | src/saml.rs:753-823 | all runs accept each assertion that ends once if and only if requests cannot be guessed or the service does not restart |
| SamlTheorems.TableIsBounded | src/saml.rs:598-600 | the table never holds more than its limit |
| SamlFirstUse.RefusalIsExplained | src/saml.rs:590-603 | over any run a response that passes every check is accepted, or names an identifier accepted before and still held, or finds the table full |
| SamlFirstUse.FirstUseIsAccepted | src/saml.rs:590-603 | over any run a first use of a request and an assertion is accepted while two entries for each acceptance so far leave room |
| SamlFirstUse.SpendsExactlyIf | src/saml.rs:590-603 | a use is a first one exactly when neither identifier is held and two more entries fit, and then both are entered, each with its end |
| Throttle.Throttle.BlockedAt | src/auth.rs:144-152 | the answer and the table of the specification |
| Throttle.Throttle.TakeAt | src/auth.rs:159-175 | the answer and the table of the specification |
| Throttle.Throttle.RefundKey | src/auth.rs:177-186 | the newest attempt of the key goes, and the key with its last |
| Throttle.Throttle.FailAt | src/auth.rs:192-199 | the attempt is added to what is still current |
| Throttle.Throttle.Clear | src/auth.rs:201-206 | at any later time the key is unblocked and its next attempt let through, and every other key is answered as it would have been |
| Throttle.Retain | src/auth.rs:149-149 | the attempts still in the window, in order |
| ThrottleProofs.PruningIsInvisible | src/auth.rs:132-206 | for every run of calls under a clock that does not go back, the pruned table answers as a log that never forgets |
| ThrottleBounds.WindowHoldsAtMostLimit | src/auth.rs:153-175 | without refunds or clears no window of time holds more than `limit` attempts let through |
| HashBound.GuessesInFlightBounded | src/web.rs:795-823 | failures in the window plus hashes in flight for one name never exceed the failure limit minus one plus the permits, whatever is abandoned |
| HashCount.FailuresAreTheWrongGuesses | src/web.rs:808-822 | over any interleaving the failures counted for a name are exactly the wrong guesses at it in the window since the last right one |
| HashCount.BlockedExactlyAtTheLimit | src/web.rs:794-806 | an attempt is let through to a permit, and again to its hash, exactly while the wrong guesses are below the limit |
| HashCount.AttemptEndsExactlyIf | src/web.rs:782-830 | an attempt ends only by its hash, by being abandoned, by a dying task or at the limit |
| HashCount.OneGuessCountsOnce | src/web.rs:812-819 | a wrong guess counts once for its own name and a right one leaves nothing counted for it; no other name changes |
| HashCount.CountsFiveMinutes | src/auth.rs:116-170 | exactly the attempts less than five minutes old count |
| HashCount.NobodyIsStuck | src/web.rs:798-803 | a waiting attempt gets a permit exactly while fewer than four are out, and while four are, a holder can go on |
| Accounts.Store.UserByName | src/store.rs:517-526 | a row of that name, or none exactly when there is none |
| Accounts.Store.UserRename | src/store.rs:544-560 | renames exactly the row that was read, still bound to the SID, and only to a free name |
| Accounts.Store.UserCreate | src/store.rs:586-617 | a new row under a new identifier, or a conflict exactly when the name is taken |
| Accounts.Store.UserRecordLogin | src/store.rs:638-658 | binds an unbound row or keeps the binding, on the row that was read, and writes nothing otherwise |
| Accounts.Store.LocalAccountSet | src/store.rs:660-691 | a new local account, a new password for one, or a refusal that changes nothing |
| Accounts.Store.UserClearSid | src/store.rs:720-736 | the SID, the saved credentials and the sessions of the row go together |
| Accounts.Store.UserDelete | src/store.rs:738-744 | nothing of the row is left in any table, everything of every other row is, and its identifier is not free again |
| Accounts.Store.SessionCreate | src/store.rs:1172-1187 | a session exactly for the row that was authenticated |
| SignIn.NamesStayUniqueAndRowsBound | src/web.rs:930-994 | over any interleaving usernames stay unique, between resets one row takes sign-ins by one SID, and every sign-in since the last reset of a row is by the SID it is bound to |
| SignIn.RowsAreKept | src/store.rs:544-560 | a row keeps its incarnation, servers and saved credentials through every step not about them; its name changes only to the one the directory gives its SID, its SID only by a first sign-in or a reset |
| SignIn.RenamedAccountKeepsItsRow | src/web.rs:930-955 | a sign-in that renames its row makes no other, and through whatever interleaves afterwards records on that row and nowhere else, while the row keeps its servers and saved credentials unless a step is about these |
| SignIn.SessionsMatchUnlessReset | src/web.rs:762-777 | the row of a session is bound to the SID its sign-in recorded if and only if it was not reset in between or that SID signed in again since |
| SignIn.SessionStraddlesReset | src/web.rs:762-777 | a run in which the reset falls in between and another SID then binds the row |
| SignInOutcomes.EndsExactlyIf | src/web.rs:832-994 | over any run a sign-in that is over got its session on the row it recorded, or gave up because a row was not, or was no longer, what it needs; never both |
| SignInOutcomes.NeverStuck | src/store.rs:530-542 | a sign-in that is not over can always make its next store call: a name that is taken has a row, a SID bound to a directory row has a lowest one |
| SignInOutcomes.ActOutcome | src/web.rs:832-994 | a store call of a sign-in ends it exactly when it gives up, changing nothing, or makes its session; a row that takes it is bound to its SID and the sign-in recorded |
| SignInOutcomes.ReadRowSignsIn | src/web.rs:955-994 | with nothing in between, the row a sign-in read takes it exactly when the row is of its kind and bound to nobody else |
| SignInOutcomes.KnownAccount | src/web.rs:930-994 | a directory account whose name is taken gets that row exactly when it is not local and free or its own |
| SignInOutcomes.NewAccount | src/web.rs:930-994 | a directory account nobody knows gets a new row of its name, with no servers, bound to it |
| SignInOutcomes.LocalAccount | src/web.rs:834-866 | a local account whose password was checked gets in under the SID it has or a new one |
| SignInOutcomes.EditsTakeEffect | src/store.rs:722-744 | each administrator's edit of accounts does what it is for: a reset unbinds and drops sessions and credentials, an assignment is exactly the list given |
| SignInOutcomes.EditsKeepOthers | src/store.rs:722-744 | and leaves every other row, its servers, its credentials and its sessions as they were |
| Sid.SidToString | src/directory.rs:169-190 | the canonical spelling of the SID the bytes encode, or nothing |
| Sid.SidBytes | src/directory.rs:209-228 | the encoding of the SID the text spells, or nothing |
| Sid.Extend | src/directory.rs:224-226 | the sub-authorities behind what was there |
| Sid.DecodeEncode | src/directory.rs:169-228 | decoding undoes encoding for every SID |
| Sid.EncodeDecode | src/directory.rs:169-190 | encoding undoes decoding: no two binary forms denote one SID |
| Sid.ParseSpelled | src/directory.rs:209-228 | a spelling parses back exactly with one to fifteen sub-authorities |
| Sid.BinaryRoundTrips | src/directory.rs:169-228 | from bytes to string and back, exactly with one to fifteen sub-authorities |
| Sid.StringRoundTrips | src/directory.rs:169-228 | from string to bytes and back is the canonical spelling, with the same bytes |
| Sid.CanonicalIsIdempotent | src/directory.rs:203-207 | the canonical form of a canonical form is itself |
| Sid.CanonicalIffBinary | src/directory.rs:203-207 | two accepted spellings have one canonical form exactly when they have one binary form |
| Csv.CsvFields | src/admin.rs:450-476 | the fields the scanner specification gives, or nothing for an open quote |
| Csv.FieldsRoundTrip | src/admin.rs:450-476 | any way of writing at least one field, plain or quoted with space around, reads back as the trimmed fields |
| ImportParse.ParseImport | src/admin.rs:478-574 | the rows, or every fault with its line, as the line-by-line specification gives them |
| ImportParse.ImportIsSound | src/admin.rs:478-574 | whatever is accepted is valid rows with distinct names, and a domain column only with a group column |
| ImportParse.FaultsAreReported | src/admin.rs:478-574 | the faults are exactly those of the faulty lines, each with its number; a repeated name is one an earlier accepted row has |
| ImportParse.LinesAreCounted | src/admin.rs:478-574 | every line that is not blank, comment or heading is one row or one fault |
| ImportParse.CommentsAreIgnored | src/admin.rs:486-497 | blank and comment lines put in anywhere change no row, no fault and not which line is the heading; only later line numbers move |
| ImportParse.RowReadsExactly | src/admin.rs:508-560 | a row is refused exactly for its first fault from the left, and otherwise holds its trimmed columns, a missing one told from an empty one |
| ImportParse.HostWithPortIsRefused | src/admin.rs:341-348 | a host written with a port is refused |
| ImportTheorems.ImportInverts | src/admin.rs:478-574 | every list of valid rows with distinct names survives being written and read |
| ImportTheorems.ImportSkipsHeading | src/admin.rs:491-496 | and under any heading line |
| ImportTheorems.ImportIsStable | src/admin.rs:478-574 | reading, writing and reading again gives what was read first |
| ServerImport.Store.GroupInsert | src/store.rs:1447-1469 | a new group behind the last, or a conflict exactly when the name is taken |
| ServerImport.Last | src/store.rs:1459-1463 | one past the greatest position, or the first |
| ServerImport.Store.ServersImport | src/store.rs:924-988 | the tables the row-by-row specification gives, with every row created or updated |
| ServerImport.ImportIsLastRowWins | src/store.rs:924-988 | each column of each server is that of the last row giving it, or what it was; unnamed servers are untouched |
| ServerImport.ImportIsIdempotent | src/store.rs:924-988 | importing the same rows again creates nothing and changes no server and no group, for every list of rows |
| ServerImport.ImportCounts | src/store.rs:924-988 | each server created adds one to the table, each updated none |
| ServerImport.ServersAreNamedByTheirFirstRow | src/store.rs:924-988 | a new server has the name of the first row that names it and a number no server had; one that was there keeps both |
| ServerImport.GroupsAreNamedByTheirFirstRow | src/store.rs:924-988 | exactly the groups that rows name are added, each named by its first row, with a number no group had, behind every group there was |
| ServerImport.ImportKeepsKeys | src/store.rs:924-988 | after any import no two servers and no two groups share a number and each is under its own name |

## Left out

- The byte relay, TLS, name resolution, the WebSocket upgrade and RDCleanPath: I/O and library code.
- XML parsing and signature verification: the parsed assertion and the result of the signature checks are inputs.
- Cryptography, randomness and Argon2 themselves, and the zip container with its checksum.
- SQL text, schema migrations and integrity checks: tables are maps, and opening or checking a file succeeds or not.
- LDAP: the directory's answer is the environment's.
- HTTP status codes, cookies, audit text and log lines, including the count of ended connections an end returns.
- Command-line tools, configuration seeding, the Windows service wrapper and static assets.
- The activity record of a revocation pass, written outside the gate (src/server.rs:355-357): the freeze model's unchecked record is the one of a refused single sign-on, which holds the gate when it writes.
- `set_assignments`, `copy_assignments` and group edits as methods: their effect on assignments is part of the admission and sign-in models.
- The background sweep of staged uploads and of temporary files: they would only add easy members.
- FreezeTheorems.FreezeMeansHandedOver: an archive counts as handed over when its pending flag is cleared, so a response lost on the network after that is not distinguished; flag writes are taken not to fail.
- Migration.Service.ApplyImport: a snapshot that fails leaves no file, because what a failing copy leaves behind is the database engine's; when a refused swap's own backup cannot be deleted, it stays, and the contract says so.
- TimeOrder.StampOrder: years from 0 on with one number of digits, because the year 10000 sorts before 9999 (`StampsSortTo9999` is the exact bound); TimeOrder.LogNameOrder likewise. Years before 0 are outside both.
- VaultTheorems.CredentialsMove: archives are those the program exported; an archive someone else builds under a known passphrase is outside the claim.
- SignIn.NamesStayUniqueAndRowsBound: a local sign-in starts at the read that `finish_local` makes, so the password check before it is not a step.
