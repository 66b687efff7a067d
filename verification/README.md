# A verified model of the two-phase-commit key-value store

The store keeps versions of keys on several participants (`storageServ`), lets a coordinator
(`logicServ`) commit a transaction on all of them at once, and is driven by a small interactive client.
This project models the code that decides what is stored, what is read, what commits and what travels on
the wire, and proves what that code guarantees over whole runs.

| file | what it models |
|---|---|
| `Text.dfy`, `Timestamps.dfy` | timestamps as text: the order of `std::string`, and how far it follows the clock `GetTS` reads |
| `Keys.dfy`, `Records.dfy`, `Tables.dfy` | the one string-keyed database, and the four typed tables it stands for |
| `Operations.dfy`, `Storage.dfy` | each operation of `Storage.cpp`, as a function on the tables and as the method that performs it on the database |
| `Chains.dfy`, `Histories.dfy`, `Walks.dfy` | a key's versions as a linked list, over whole histories of writes with failing calls, and when the walk down it ends |
| `Participant.dfy`, `Server.dfy` | a participant over any run of requests, disconnections, crashes and restarts, and its request handler |
| `Snapshots.dfy`, `CommitOrder.dfy` | what readers see over such a run: the same again, their own writes, and the newest commit |
| `Polling.dfy`, `Commitment.dfy` | the recovery poll, and the whole commit of one transaction under message delay, reordering and loss |
| `Atomicity.dfy`, `CommitTimes.dfy`, `Mishaps.dfy` | what the commit guarantees, at which timestamps it happens, and runs that go wrong |
| `Failures.dfy`, `OptionalCommits.dfy` | what a reported failure is worth, and runs with their commit steps taken out |
| `Progress.dfy`, `Projection.dfy` | commits that can be carried through and outcomes that can spread; each participant's own run within a commit |
| `Visibility.dfy` | one transaction's writes on several participants, as one reader finds them |
| `Network.dfy`, `Framing.dfy` | the two byte loops, and length-prefixed messages over them |
| `Commands.dfy`, `Client.dfy` | the client's command language and its event loop |

## Assumptions

Each is a guard of a step relation or a precondition, named here.

- *Clock.* Timestamps never go down in text order (`Tick`, `Allowed`). `GetTSOrder` shows that this is what
  a common clock gives until the year 2286, and `ClockOrder` when it fails.
- *Timely writes.* A participant's run may begin any name any number of times; its theorems are about runs
  in which nothing is written for a transaction past its begin and the reads on the way to a write succeed
  (`Timely`). `StructureLastsExactly` says for any run at all exactly when the structure
  lasts, `WriteKeepsInvExactly` which writes keep it, `FreshBeginsAreTimely` that
  fresh names are enough, `StepKeepsLiveExactly` and `RefusedCloseExactly` which steps endanger it, and
  `RolledBackWriterBreaksChain` is a run that ends without a chain. Single operations are modelled with failing
  reads and writes; `AddDataForgetsExactly` and `LockHeldExactly` show the effect.
- *No unread response when a commit starts* (`NothingUnread`, only where a reported success is to be true). The
  coordinator abandons a request's response when its client sends the next request early
  (`logicServ.cpp:350-354`), and then takes it for the prepare's: `UnreadResponseMisleads`. This client never
  does that: `SendsOweNothing`.
- *A polling routine commits* at a timestamp issued by then and not below the transaction's start or the
  participant's own (`Possible`), as a round always does: `StepProjects`. A round's own clock reading is not
  before the start timestamp it polls for (`PollRound`).
- *One polling routine per transaction.* A round stores an outcome over a prepared record only. The code puts it
  without reading the record again (`storageServ.cpp:132`, `142`, `156`), and the close of a refused begin can
  wake a second routine for a prepared name (`storageServ.cpp:445-448`), which could write over the first one's
  outcome.
- *Segments between network calls run undisturbed*, as coroutines give way only there (`Server.dfy`).
- *Answers are true when given*, and may then be late, repeated or lost (`HeardBefore`).
- *Host ids are distinct and `GetTS` gives no empty text* (`StartCommit`, `PollRound`).
- *A kernel schedule is finite*: `SendBuff` would spin for ever on a `write` that always returns 0.

## Where code, diagram and text disagree

The model follows the code.

- `design.puml:21-23` and `README1.md:61` report success when every prepare succeeded. The coordinator only
  counts responses and ignores their result (`src/logicServ.cpp:270-288`), so a reported success can be false:
  `SuccessCanBeFalse`, with the exact condition in `SuccessIsTrueExactly`. A reported failure can be false too:
  `FailureCanBeFalse`, with the exact condition in `FailureIsFinalExactly`.
- `design.puml:25-27` shows an optional commit sent to a participant. Nothing sends one, and the handler for
  it does nothing; participants decide by polling each other.
- `design.puml:74-77` draws an entry that repeats the record its `next` names. The code keeps the newest
  version in the entry alone, as `README1.md:11-14` has it: `EntryIsNoMirror`.
- All participants are meant to commit at one timestamp (`README1.md:63`). After a crash in the middle of a
  prepare they may not: `CommitTimestampsCanDiffer`, and with it `FracturedReadAfterCrash`; `SplitReadersExactly`
  says which readers are hit.
- A reader is meant to see one snapshot (`README1.md:46-52`). After a crash in the middle of a prepare its answer can
  change: `ReadChangesAfterCrash`, with the exact condition in `RepeatableReadExactly`; and it can be given the older
  of two commits: `EarlyStartHidesNewest`, with the exact condition in `ReadsNewestCommitExactly`.
- `get_for_update` is meant to return the newest version; it does not return the transaction's own pending
  write: `ForUpdateSeesOwnWriteExactly`.

## Model

The files `Storage.cpp`, `Utils.cpp`, `Msg.cpp`, `storageServ.cpp`, `logicServ.cpp` and `README1.md` are not
UTF-8 text. For what they implement, the source column names the declaration, the step of the sequence diagram or
the call, and the last column ends with the lines of the body itself.

| member | source | states |
|---|---|---|
| Text.LeTotal | src/Core/Storage.h:63-64 | the order used on timestamps is total and antisymmetric (`Storage.cpp:314`) |
| Text.LeTrans | src/Core/Storage.h:63-64 | and transitive (`Storage.cpp:325`) |
| Timestamps.GetTSIsGood | src/Core/Utils.h:19 | no timestamp contains an underscore or reads "entry" (`Utils.cpp:34-41`) |
| Timestamps.GetTSAsWritten | src/Core/Utils.h:19 | whole seconds are their digits and seven zeros, microseconds alone their digits (`Utils.cpp:34-41`) |
| Timestamps.GetTSInjective | src/Core/Utils.h:19 | two clock readings share a timestamp only if they are equal (`Utils.cpp:34-41`) |
| Timestamps.ClockOrder | src/Core/Utils.h:19 | for any two readings, text order follows the clock exactly when they have equally many digits or the earlier is at most the leading digits of the later (`Utils.cpp:34-41`) |
| Timestamps.GetTSOrder | src/Core/Utils.h:19 | from 2001 to 2286 one timestamp is below another exactly when its clock reading is (`Utils.cpp:34-41`) |
| Timestamps.ClockOrderFails | src/Core/Utils.h:19 | a pair of readings whose timestamps sort the wrong way round (`Utils.cpp:34-41`) |
| Keys.ParseTransInverts | src/Core/Storage.h:35-40 | `parseTrans` recovers the name `makeTrans` was given |
| Keys.NamesAsWritten | design.puml:74-77 | the names of each kind, letter by letter |
| Keys.DataNamesMeet | src/Core/Storage.h:47-49 | two version names are equal exactly for equal arguments or an underscore that can be read as the separator at either place |
| Keys.HeadMeetsVersion | src/Core/Storage.h:44-49 | an entry's name is a version's name exactly for the timestamp "entry" |
| Keys.DataNamesClash | src/Core/Storage.h:47-49 | two different keys sharing one version name, and a version name that is an entry's |
| Keys.NamesDistinct | src/Core/Storage.h:35-49 | with timestamps free of underscores and not "entry", no two of the four kinds of address share a name |
| Keys.TransPrefix | src/Core/Storage.h:35-40 | the names under "trans_" are those of transactions (`Storage.cpp:152-153`) |
| Tables.StoreRepresents | src/Core/Storage.h:24 | a put under a name changes one slot of one table and nothing else (`Storage.cpp:35`) |
| Tables.FlatRefinesTyped | src/Core/Storage.h:35-49 | every sequence of puts, gets and deletes is answered as four separate tables would answer it |
| Tables.PrefixScan | src/Core/Storage.h:55 | the scan under "trans_" meets exactly the transaction table (`Storage.cpp:152-153`) |
| StorageEngine.Storage.AddTrans | src/Core/Storage.h:33 | the database and return code after `addTrans` are the table operation's, failing calls included (`Storage.cpp:26-40`) |
| Operations.BeginCodes | src/Core/Storage.h:33 | each return code of `addTrans` names its cause (`Storage.cpp:26-40`) |
| StorageEngine.Storage.AddLock | src/Core/Storage.h:51 | the same for `addLock` (`Storage.cpp:43-90`) |
| Operations.LockCodes | src/Core/Storage.h:51 | each return code of `addLock` names its cause (`Storage.cpp:43-90`) |
| StorageEngine.Storage.AddData | src/Core/Storage.h:53 | the same for `addData` and its two puts (`Storage.cpp:92-148`) |
| Operations.WriteCodes | src/Core/Storage.h:53 | each return code of `addData` names its cause (`Storage.cpp:92-148`) |
| StorageEngine.Storage.StartUpClean | src/Core/Storage.h:55 | rolls back everything merely begun and wakes exactly the prepared transactions, each once (`Storage.cpp:150-174`) |
| StorageEngine.Storage.StartCleanTrans | src/Core/Storage.h:57 | rolls back one begun transaction or wakes one prepared one, or does nothing on a failing get (`Storage.cpp:176-203`) |
| StorageEngine.Storage.UpdateTransPrepared | src/Core/Storage.h:59 | stores state, start timestamp and the whole participant list, only over a begun record (`Storage.cpp:205-237`) |
| StorageEngine.Storage.UpdateTransSelfCommitTs | src/Core/Storage.h:61 | stores the participant's own timestamp, only in a prepared record (`Storage.cpp:240-264`) |
| Operations.PrepareCodes | src/Core/Storage.h:59-61 | the return codes of both updates name a missing record and a wrong state (`Storage.cpp:205-264`) |
| StorageEngine.Storage.ReadData | src/Core/Storage.h:63-64 | wherever the walk ends, over a chain or not, it answers with the first version down it that settles the question for the reader (`Storage.cpp:267-359`) |
| Chains.WalkVisitsChain | src/Core/Storage.h:63-64 | following `next` from the entry visits the chain in order and stops at its end (`Storage.cpp:278-349`) |
| Chains.ChainUnique | src/Core/Storage.h:44-49 | the stored records determine the chain (`Storage.cpp:278-349`) |
| Chains.AddDataStored | src/Core/Storage.h:53 | a successful write puts its version first, in place if the writer was first already, and keeps every other version (`Storage.cpp:100-146`) |
| Chains.AddDataFailed | src/Core/Storage.h:53 | a write reported as failed changes no chain, even if its first put was stored (`Storage.cpp:115-119`) |
| Chains.AddDataForgets | src/Core/Storage.h:53 | a failing read of the entry makes the write succeed and lose every older version (`Storage.cpp:133-145`) |
| Chains.AddDataForgetsExactly | src/Core/Storage.h:53 | a write reported as successful leaves the chain it should unless its get failed while another's version was there to lose (`Storage.cpp:96-145`) |
| Chains.AddDataElsewhere | src/Core/Storage.h:44-53 | a write to one key leaves every other key's chain (`Storage.cpp:92-148`) |
| Chains.WriteKeepsChainExactly | src/Core/Storage.h:53 | a successful write leaves a chain exactly when its transaction is the newest writer or has no version yet (`Storage.cpp:110-131`) |
| Chains.StaleWriteLoops | src/Core/Storage.h:53 | four writes after which the walk of `ReadData` never ends (`Storage.cpp:110-131`) |
| Walks.WalkEndsExactly | src/Core/Storage.h:53-64 | after any history of writes, whichever of their database calls fail, the walk down a key ends exactly when no transaction has two turns at writing it among those stored under their names: all but the newest, and the newest too after a write that failed half-way (`Storage.cpp:92-148`, `278-349`) |
| Chains.EntryIsNoMirror | design.puml:74-77 | the entry never repeats the record its `next` names, contrary to the diagram |
| Histories.StoreKeepsHistoryExactly | src/Core/Storage.h:44-53 | after any history of writes to all keys, failing calls included, the stored chain of a key is its history at every point if and only if no write is stored out of order (`Storage.cpp:92-148`) |
| Histories.WriteReports | src/Core/Storage.h:53 | a write in such a history reports success exactly when it is stored (`Storage.cpp:92-148`) |
| Histories.HistoryWriters | design.puml:74-77 | a key's chain holds exactly the transactions with a stored write since the last one whose failing get forgot the others, and exactly those that wrote the key where no call failed (`README1.md:53-58`) |
| Histories.HistoryNewestFirst | design.puml:74-77 | each version is its writer's last stored write, and those come latest first (`README1.md:10-14`) |
| Participant.WriterExclusion | src/Core/Storage.h:41-53 | over any run of timely writes, whatever names are begun again, a key's versions form a chain without repeats, and only the lock holder can be an unfinished writer, with the newest version (`Storage.cpp:43-90`) |
| Participant.LockRefusedExactly | src/Core/Storage.h:51 | in every reachable state a lock is refused exactly when another unfinished transaction holds it (`Storage.cpp:51-73`) |
| Participant.LockHeldExactly | src/Core/Storage.h:51 | success means the lock is held, except exactly when the read failed (`Storage.cpp:47-89`) |
| Snapshots.LockProtects | src/Core/Storage.h:51 | a lock once held stays held, and nobody else writes the key, until its transaction is finished, over any run (`Storage.cpp:43-90`) |
| Participant.HolderIsFreshOrHead | design.puml:14-17 | a lock holder's write is always one that keeps the chain, over finished writers (`storageServ.cpp:377-400`) |
| Participant.StoreKeepsPromises | src/Core/Storage.h:57-61 | no storage operation drops a record, reopens an outcome or takes back a prepare (`Storage.cpp:176-264`) |
| Participant.RestartEndsBegun | src/Core/Storage.h:55 | after a restart or a crash in a prepare nothing is merely begun and no connection is left; the rest is as it was, but for the prepared record (`storageServ.cpp:247-256`, `558-560`) |
| Participant.WriteKeepsInvExactly | src/Core/Storage.h:51-53 | a write by any connection, with any failing calls, keeps chains and locks in order exactly when its lock is refused, not really taken or taken for a known transaction, and what gets stored is by a known writer that leads the chain or is new to it, holds the lock unless finished, lies over a finished one and forgets nobody (`storageServ.cpp:377-400`) |
| Participant.StructureLastsExactly | src/Core/Storage.h:33-61 | over any run at all, chains and locks stay in order if and only if every lock and write along it keeps them so (`storageServ.cpp:214-448`) |
| Participant.StepKeepsLiveExactly | src/Core/Storage.h:33-61 | a step leaves every open connection a transaction that is merely begun exactly when it shares no name with another connection (`storageServ.cpp:224-267`) |
| Participant.FreshBeginsAreTimely | src/Core/Storage.h:33 | when every begin has a new name nothing is ever written too late (`storageServ.cpp:218-232`) |
| Participant.RefusedCloseExactly | src/Core/Storage.h:57 | a refused begin and the close of its connection keep the store sound, and all other connections their transactions exactly when none of them has that name (`storageServ.cpp:445-448`) |
| Participant.RolledBackWriterBreaksChain | src/Core/Storage.h:51-57 | a run in which such a close rolls a live connection's transaction back, which then writes on and leaves no chain (`storageServ.cpp:377-400`) |
| Participant.RolledBackWriterLoopsReaders | src/Core/Storage.h:51-64 | such a run after one more writer: the walk of `ReadData` down the key never ends (`Storage.cpp:278-349`) |
| Server.Connection.Begin | src/Core/Storage.h:33 | begins once per connection, is refused exactly for a known name or a failing call, and marks the connection even then (`storageServ.cpp:218-232`) |
| Server.Connection.TryWrite | design.puml:14-17 | lock and write together, on any connection, answering the error of the lock or of the write, and after a success read back as the transaction's own value (`storageServ.cpp:362-406`) |
| Server.WriteSuccessExactly | design.puml:14-17 | what `TryWrite` answers is success exactly when the version is stored at the entry with its value and kind, and without failing calls exactly when no other unfinished transaction holds the lock (`storageServ.cpp:377-405`) |
| Server.Connection.Get | design.puml:9-12 | a get answers with the first version down the walk that settles the question at the transaction's timestamp, the key's history where that is stored (`storageServ.cpp:314-326`) |
| Server.Connection.TryGetForUpdate | design.puml:9-12 | a get for update is granted, without failing calls, exactly when no other unfinished transaction holds the lock; it then holds it and reads likewise at a fresh timestamp (`storageServ.cpp:290-326`) |
| Server.Connection.Prepare | design.puml:21-22 | stores record and own timestamp, wakes a polling routine and frees the connection, or changes nothing, as for another transaction's prepare (`storageServ.cpp:233-266`) |
| Server.Connection.Close | src/Core/Storage.h:57 | the transaction named in the connection's begin, granted or refused, is rolled back if unprepared (`storageServ.cpp:445-448`) |
| Server.Connection.StartUp | src/Core/Storage.h:55 | after a restart no transaction is merely begun, and the prepared ones have been woken, each once (`storageServ.cpp:558-560`) |
| CommitOrder.OrderExactly | design.puml:19-27 | over any run, crashes included, every key's versions stay in the order of their commits if and only if no transaction that lost its own timestamp commits before a version it was written over (`storageServ.cpp:247-256`, `60-65`) |
| CommitOrder.ReadsNewestCommitExactly | src/Core/Storage.h:63-64 | over any run, every read of every key by anyone at any point finds the reader's own write or the latest commit before it, waits only for an undecided newest writer, and finds nothing only if nothing committed before it, if and only if commits are in that order (`README1.md:46-52`) |
| CommitOrder.OrphanStopsRead | src/Core/Storage.h:63-64 | a version whose transaction has no record ends the read with an error (`Storage.cpp:301-307`) |
| CommitOrder.LateStartsSuffice | design.puml:19-22 | that is so in every run, with any crashes, in which each start timestamp is read after its transaction's last write (`logicServ.cpp:188`) |
| CommitOrder.EarlyStartHidesNewest | src/Core/Storage.h:59-64 | a run with a start timestamp read before a write, a crash in the prepare, and a reader given the older of two commits (`storageServ.cpp:247-256`) |
| Snapshots.RepeatableReadExactly | design.puml:9-12 | once answered, a reader gets the same answer or a wait at every later point of any run, crashes included, if and only if no transaction that lost its own timestamp commits the newest version of the key before the reader (`README1.md:46-52`) |
| Snapshots.CommitKeepsReadExactly | src/Core/Storage.h:63-64 | one commit leaves an answered reader's answer alone exactly when it is not before the reader (`Storage.cpp:324-337`) |
| Visibility.ReadChangesAfterCrash | src/Core/Storage.h:59-64 | a run with a crash inside a prepare after which a reader's answer changes, ending in the record a commit run of two participants leaves (`storageServ.cpp:247-256`, `119-137`) |
| Snapshots.OwnWritesAreRead | src/Core/Storage.h:53-64 | after a successful write a get returns exactly that until the next write while the transaction is unfinished, whatever others do and whenever the participant crashes; afterwards that or a wait, unless a transaction that lost its own timestamp commits the key before it (`Storage.cpp:291-298`) |
| Snapshots.ForUpdateSeesOwnWriteExactly | src/Core/Storage.h:63-64 | a get for update returns the pending own write exactly when its timestamp is the transaction's name (`storageServ.cpp:319-325`) |
| Polling.PollOnce | design.puml:21-27 | the loop computes the round, for any replies and any missing ones (`storageServ.cpp:60-163`) |
| Polling.PollCaused | design.puml:21-27 | every outcome of a round has its cause among the replies: all prepared and the largest timestamp, a commit copied, a rollback heard (`storageServ.cpp:68-163`) |
| Polling.UndecidedExactly | design.puml:21-27 | a participant asks again exactly when no outcome was reported and someone is not known to be prepared (`storageServ.cpp:60-163`) |
| Polling.UnanimousCommits | design.puml:21-27 | when all say prepared the round commits at the largest timestamp (`storageServ.cpp:150-163`) |
| Commitment.RunKeepsInv | design.puml:19-27 | the protocol's invariant holds in every state of every run (`storageServ.cpp:233-269`) |
| Atomicity.PlanCoversBegun | design.puml:19-21 | in every run the participant list is exactly those that have begun for the coordinator: nobody is left unasked (`logicServ.cpp:203-225`) |
| Atomicity.NeverSplit | design.puml:21-27 | no participant commits while another that has begun the transaction rolls back (`README1.md:59-67`) |
| Atomicity.SuccessIsTrueExactly | design.puml:21-23 | when success is reported, and no earlier response was left unread, all participants hold the prepared record with the coordinator's timestamp and list exactly when every response was a success (`logicServ.cpp:270-288`) |
| Atomicity.CommitSafety | design.puml:19-23 | success reported on successes alone, with no earlier response left unread, is true then and in every later state, in any message order and with any loss |
| Mishaps.UnreadResponseMisleads | design.puml:21-23 | a run in which a left-over response passes for a prepare's, success is reported on successes alone and the transaction is rolled back (`logicServ.cpp:350-354`, `storageServ.cpp:384-390`) |
| Mishaps.SuccessCanBeFalse | design.puml:21-23 | a run in which success is reported and the transaction is rolled back (`logicServ.cpp:273-276`) |
| Mishaps.FailureCanBeFalse | design.puml:21-23 | a run in which failure is reported and the transaction commits (`logicServ.cpp:261-267`) |
| Failures.FailureIsFinalExactly | design.puml:21-23 | after a reported failure the transaction can still commit in some continuation exactly when every participant has prepared or is open with the request on its way (`logicServ.cpp:213-267`) |
| Failures.SendFailureIsFinal | design.puml:21-23 | a failure reported because a prepare could not be sent is final (`logicServ.cpp:217-223`) |
| Failures.UnsentRequestEnds | design.puml:21-23 | a run in which the only request cannot be sent, failure is told and nobody can commit (`logicServ.cpp:217-223`) |
| Failures.LostRequestEnds | design.puml:21-23 | a run in which the only request is lost, failure is told and nobody can commit (`logicServ.cpp:261-267`) |
| Atomicity.OutcomesFollowVerdict | design.puml:21-27 | a written outcome is the verdict of the prepared records of all |
| Atomicity.VerdictNeverReverses | design.puml:21-27 | the verdict, once there, never changes |
| Atomicity.RecoveryAgreement | design.puml:21-27 | any two participants that have decided, at any two times, decided alike (`README1.md:64-67`) |
| OptionalCommits.CommitsAreOptional | design.puml:25-27 | take from any run the steps that write a commit: what is left is a run, with nobody committed, the same report to the client and the same verdict |
| Atomicity.OutcomesDoNotDecide | design.puml:25-27 | the verdict is the same with any of the written commits taken back |
| Atomicity.HearingAllCommits | design.puml:21-27 | a participant that hears prepared from all others commits (`storageServ.cpp:150-163`) |
| Atomicity.HearingRollbackRollsBack | design.puml:21-27 | a participant that hears of a rollback from anyone rolls back, and nothing else in its record changes (`storageServ.cpp:138-147`) |
| Atomicity.HearingOutcomeFollowsIt | design.puml:21-27 | the first outcome heard is followed, a commit at the very timestamp heard (`storageServ.cpp:119-147`) |
| Polling.FirstOutcomeDecides | design.puml:21-27 | for any replies the first outcome among them decides the round, up to the assertion on an earlier timestamp (`storageServ.cpp:68-148`) |
| Progress.OutcomeSpreads | design.puml:21-27 | from every state in which someone has an outcome any prepared participant can get the same one (`storageServ.cpp:60-163`, `407-430`) |
| Progress.CommitCanSucceed | design.puml:19-27 | from every state in which all participants are open the commit can be carried through: all asked, success told, all committed (`logicServ.cpp:182-288`) |
| CommitTimes.CommitTimestampsAgree | design.puml:25-27 | unless a participant lost its own timestamp, all commit at one timestamp, the largest own one (`README1.md:63`) |
| CommitTimes.CommitTimestampBounds | design.puml:25-27 | a commit timestamp is not below the participant's own and not in the future (`storageServ.cpp:60-65`) |
| CommitTimes.CountedTimestampExactly | design.puml:25-27 | deciding by count, a participant commits at the largest own timestamp, or, exactly when it lost its own and its clock has passed that, at its clock (`storageServ.cpp:60-65`) |
| Mishaps.CommitTimestampsCanDiffer | design.puml:25-27 | a run in which two participants commit one transaction at different timestamps (`storageServ.cpp:60-65`) |
| Atomicity.PollAssertionHolds | design.puml:21-27 | the assertion in the polling loop never fails (`storageServ.cpp:123-129`) |
| Visibility.JudgedByRecord | src/Core/Storage.h:63-64 | a reader is shown a foreign version, made to wait, or passes it over, by the record alone (`Storage.cpp:313-340`) |
| Visibility.ShownStaysShownExactly | src/Core/Storage.h:63-64 | what one participant has shown a reader, every other shows or has it wait for from then on, except exactly where it has committed and not before the reader; never if no participant lost its own timestamp (`README1.md:62-63`) |
| Visibility.PassedOverStaysHidden | src/Core/Storage.h:63-64 | what one participant made a reader pass over, no other shows it afterwards, unless that participant itself lost its own timestamp in a crash, or had committed and the other commits before it; both are ruled out if no participant lost its own timestamp (`README1.md:62-63`) |
| Visibility.SuccessIsSeen | design.puml:19-23 | after success told on successes alone, everything that begins later is shown the transaction or waits for it on every participant, for ever after (`README1.md:61-63`, `logicServ.cpp:193-194`) |
| Visibility.SplitReadersExactly | design.puml:25-27 | when a participant commits by count, the readers that see half of the transaction, against any other that has committed, are exactly those between the two commit timestamps; there are any exactly when the other's is not the largest own timestamp, or the clock of the first where that lost its own and has passed the largest (`storageServ.cpp:60-65`) |
| Projection.CommitIsARunOfEach | design.puml:19-27 | every commit run is, seen from any one participant, a run of that participant, ending with the same record: the two models agree (`storageServ.cpp:218-267`, `60-163`) |
| Projection.StepProjects | design.puml:19-27 | each step of the commit is a step of the participant's own run, or leaves its record alone (`storageServ.cpp:218-267`, `60-163`) |
| Visibility.FracturedReadAfterCrash | src/Core/Storage.h:61-64 | with a timestamp lost in a crash a reader can see half of a transaction (`storageServ.cpp:60-65`) |
| Network.ReadBuff | src/Core/Network.cpp:69-85 | the next bytes in order, in at most `len` reads, fewer than `len` exactly when some read brought none |
| Network.SendBuff | src/Core/Network.cpp:87-100 | zero only after every byte; otherwise the error of the last write, which leaves a proper prefix; and the loop ends |
| Framing.SendMsg | src/client.cpp:132-136 | a message sent is its frame appended to the stream, or a proper prefix of it with the error of the last write (`Msg.cpp:59-70`) |
| Framing.ReadOneMsg | src/client.cpp:61-63 | a message received took exactly its header and its text off the stream; anything else has a failed read or an impossible length (`Msg.cpp:23-41`) |
| Framing.HeaderRoundTripExactly | src/client.cpp:62 | a length survives its header exactly when it fits in a signed 32-bit number (`Msg.cpp:27-28`) |
| Framing.HeaderBytes | src/client.cpp:62 | the lowest byte of a length comes first (`Msg.cpp:59-66`) |
| Framing.MessageIsTheFrame | src/client.cpp:61-74 | reading from a stream that begins with a frame gives that frame's message and leaves the rest (`Msg.cpp:16-71`) |
| Framing.MessagesArriveInOrder | src/Core/Network.cpp:69-100 | for every interleaving and fragmentation no byte is lost, repeated or reordered, and the delivered messages are the first of those sent, all of them once the stream is drained |
| Commands.Dispatch | src/client.cpp:99-130 | the chain of comparisons is a lookup in the table of names and word counts, so its order does not matter |
| Commands.Parse | src/client.cpp:91-130 | scanning at most four words loses nothing: a chunk means what all its words say |
| Commands.RequestExactly | src/client.cpp:99-130 | a chunk is a request exactly when its first word names one and its word count is that request's |
| Commands.CommandRoundTrip | src/client.cpp:91-123 | every request printed with either name and any spacing reads back as itself |
| Commands.SaysRequestExactly | src/client.cpp:99-130 | a chunk is a given request exactly when its words are that request's, under either name |
| Commands.SaysHashExactly | src/client.cpp:124-126 | and it asks for a hash exactly when its words are `hash`, a key and a size |
| Commands.EveryTextIsALine | src/client.cpp:92 | scanning any text loses no character and splits or joins no word |
| Commands.CTextExactly | src/client.cpp:80-92 | what is scanned is the chunk up to its first zero |
| Client.Loop.Pass | src/client.cpp:45-137 | one pass of the loop, socket before terminal |
| Client.Loop.Run | src/client.cpp:45-137 | the loop over any sequence of events |
| Client.Conservation | src/client.cpp:59-90 | requests sent and replies nobody waited for balance replies shown, requests lost and the one awaited |
| Client.ShowsEveryReply | src/client.cpp:59-78 | the screen shows the text of every reply until the client goes, in order; sent and lost requests are told from the events alone |
| Client.OneOutstanding | src/client.cpp:59-90 | against a server that answers each request at most once and nothing else, at most one request is outstanding and none is unaccounted for |
| Client.WaitingExactly | src/client.cpp:44-137 | `waitRecvFlg` is set exactly when a request has gone out and the server has not been heard from since |
| Client.HandedAreTheAccepted | src/client.cpp:80-137 | the requests handed to `SendMsg` are, in order, the chunks that parse to one and arrive with none unanswered |
| Client.SendsOweNothing | src/client.cpp:59-90 | facing a fair server a request is sent only when nothing is owed on the connection |
| Client.SendsAlternate | src/client.cpp:87-137 | after a request is sent none is sent until the server is heard from |

## Left out

- Sockets, addresses, connecting, coroutines and `co_poll`: system calls; an event is chosen freely instead.
- RocksDB beyond a map with failing calls, and the write failures on which the cleaning routines abort.
- Protobuf and JSON: a record and a message text are values.
- `GetHash` and the choice of a participant for a key: each participant is modelled for the keys it gets.
- The per-participant status copied into a transaction's list while polling: nothing reads it.
- The pool of one hundred polling routines, and what happens when it is empty.
- The coordinator's handling of get, update and rollback requests, beyond the begins and rollbacks they cause.
- StorageEngine.Storage.AddData: asks for a begin timestamp without underscore and other than "entry", as `GetTS` gives; `DataNamesClash` shows the names that meet otherwise.
- StorageEngine.Storage.UpdateTransPrepared: the status mark on the participant's own list entry is not stored; nothing reads it.
- StorageEngine.Storage.ReadData: a failing database call, on which the source aborts or returns -1; and records on which the walk never ends, which `WalkEndsExactly` describes.
- Server.Connection.Begin: names that `GetTS` never gives.
- Server.Connection.Get: keys on which the walk never ends, and failing database calls, as in `ReadData`.
- Server.Connection.TryGetForUpdate: the same.
- A header or text cut short: `ReadOneMsg` reads past its buffer or throws; the model stops there.
- Framing.ReadOneMsg: big-endian hosts are not modelled; both ends use the little-endian layout.
- Commands.Parse: words of 100 characters or more and chunks of 1000 bytes overflow their buffers; preconditions exclude them.
- What `hash` prints, log lines, usage text, configuration files.
- Waiting itself: a refused lock or a wait answer ends the step, and the retry is another step.
