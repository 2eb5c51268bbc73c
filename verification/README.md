# The lock service, its replication and its clients: a verified model

A Chubby-like lock service: clients open named nodes, lock them, read and write small
files and hear of changes. This project models its logic in Dafny and proves what it
promises, and where the program falls short it shows a run and the exact condition under
which the step is right.

What is modelled, file by file:

- `Text.dfy`: legal names, parent names, the bar-separated child list of a directory as the
  server writes it and the client's Tokenize reads it, decimal numerals. `Numbers.dfy`:
  division for digits.
- `Database.dfy`: the store. Each operation is a function on a table of nodes; the class
  `ServerDb` is the object that reads and updates rows, proved equal to the functions.
  `DirectoryTree.dfy` and `History.dfy` prove the tree invariant, that instance numbers are
  never reused, and what the counters count.
- `StoreEffects.dfy`: when each command succeeds and what it changes, stated on the table itself;
  `Effects.dfy` does the same for each request of the service: its answer, whom it tells, and
  what it leaves in the tables.
- `Handles.dfy`: the two handle tables and why they stay inverse.
- `Service.dfy`: what each request does to the eight in-memory tables and the store, as a
  function; `LockServer.dfy` is the class with the eight tables as fields, its loops
  included, proved equal to the functions.
- `Registrations.dfy`, `LockSafety.dfy`, `Requests.dfy`, `Disconnecting.dfy`, `Runs.dfy`,
  `Waiting.dfy`, `Replies.dfy`, `LiveHandles.dfy`, `Ownership.dfy`, `ServedStore.dfy`,
  `Clients.dfy`, `Ephemerals.dfy`, `Events.dfy`: what every request and every run of the service keeps.
- `WrittenSafety.dfy`: when the program as written keeps locks right, request by request and on
  every run.
- `Hanging.dfy`: exactly when a close or a lost session never ends in the program as written,
  and whom a close leaves in a queue. `Losses.dfy`: how a lost session ends on any state.
  `Findings.dfy`: what the program does wrong, each with a run from the start that gets there.
- `Replication.dfy`: replicas, crashes, view changes, messages in flight and commands as one
  transition system, with the election theorems. `ReplicatedLogs.dfy` proves what survives a
  crash. `Replicas.dfy` has the replica's own methods and loops and ties them to the steps.
  `Settling.dfy` proves that an election comes to an agreement. `Failover.dfy` joins the log,
  the store and the held sets.
- `SharedLock.dfy`: one lock as its clients see it, and that the service's acquire and release
  are such a lock. `Barrier.dfy`: the double-barrier client over that lock and the events, and
  when its count is exact. `BarrierSafety.dfy`: what it keeps even when a lock is granted twice.
  `BarrierProgress.dfy`: that clients get on and leave.
- `Wire.dfy`, `Messages.dfy`, `Proxy.dfy`: bytes, commands and results, and the replicated
  front of the store against the store itself.
- `UnionGen.dfy`: the code generator for tagged unions.

The datatype `Variant` has two values. `AsWritten` is the program. `Intended` has two
repairs, which comments and the design report ask for: a `release` that hands a lock over
makes the waiter the stored owner, and a `fileClose` takes the closing session's entries
out of the real queue. Every theorem says which variant it holds for.

As written, lawful requests (see below) keep the service safe as long as none gives up a lock
that somebody waits for, and one that does breaks it (`WrittenSafety.WrittenStepIsSafeIff`). Two
clients can then be told that they hold the same lock. The barrier bears even that in part: on
every run over either lock nobody leaves early and no two wake-ups merge
(`BarrierSafety.NobodyLeavesEarly`). What a double grant can cost is an arrival: the count in
the file is exact, and somebody is woken, on every run over the repaired lock and on every run
over the lock as written in which no acquire finds the lock free while a client works under it
(`Barrier.WrittenStepKeepsInvIff`). `BarrierSafety.BarrierStrands` is a run on which an arrival
is lost and all clients wait for ever.

Two predicates say, request by request, what the run theorems of the lock protocol ask of the
callers. `Requests.Lawful`: overwrite no directory, acquire through a live handle or on a
locked file, release a lock that is one's own or free (or the next waiter's), take no client
name that means nobody; a new leader reads its own store. `Runs.StepIsSafeIff` shows that a
served request keeps the service safe exactly under it. `Requests.Answerable`: name the session
before using it, do not take the empty name while waiting, and leave no queue entry behind when
lost. `Runs.StepIsGoodIff` shows that a lawful request is served and leaves every waiter known
exactly under it. A lost session cannot help what it leaves behind: the entry that stays is the
one for an ephemeral node of its own client, and `Findings.LostWaiterReached` shows the server
stopping over it, even with the repairs. `Runs.MutualExclusion` and `Failover.NewLeaderKeepsLocks`
need `Lawful` and a run that is served; `Runs.RunIsConsistent`, `Replies.RunAnswersOnce` and
`ServedStore.RunReaches` need neither.

How the parts of the world outside are represented:

- A request carries a flag `up`: whether the replica that serves it can run store commands.
  When it cannot, the request is answered with PAXOS_ERROR or its own failure value.
- A handle object is an identity (its address in the program) and a value. Hash values stay
  symbolic; on the wire they are numbers given by a function that is a parameter.
- A failed assertion ends a request with `Aborted`, a loop that never ends with `Hung`.
- Replicas are crash-stop and start together; reachable means live. A message once sent may
  arrive at any later time and any number of times. The call that carries a command to one
  backup is one step.
- Barrier clients take one step at a time in any order; an event is delivered at any later
  time.

Where code and comments differ the code is followed. `fileDelete` compares a 32-bit request
number with a 64-bit minus one, which is always different, so its rethrow is dead code
(server/serverimpl.cc:396-401). `findFd` never returns null, so the BAD_ARG branches behind
it are dead. `release` checks no ownership, and no request checks a handle that a client
brings. A write to a flag of the wire format accepts any word but zero as true
(xdrpp/xdrpp/types.h:182-190), which section 4.4 of RFC 4506 does not allow.

`dafny verify dfyconfig.toml` checks the whole project.

## Model

| member | source | states |
|---|---|---|
| Text.CheckName | server/serverimpl.cc:830-846 | accepts a key exactly when it starts with a slash, does not end with one, has only letters, digits, underscores and slashes, and no two slashes in a row; the empty key is refused |
| Text.NameOkIff | server/serverimpl.cc:830-846 | the legal keys are exactly the paths of one or more components, each a non-empty word of ASCII letters, digits and underscores with a slash in front |
| Text.GetParentName | server/serverdb.cc:32-46 | the backward scan returns the key up to its last slash, "/" when that slash is the first character, and the empty key for itself |
| Text.ParentOfName | server/serverimpl.cc:116-130 | a legal path is its parent, a slash and a slash-free leaf, and the parent is the root or a shorter legal path |
| Text.Tokenize | apps/common.h:25-41 | the two-position loop returns the maximal runs of non-delimiter characters, for every string and every delimiter set |
| Text.GetlineAgreesWithTokenize | apps/common.h:25-41 | for every string, the non-empty pieces of the server's getline split are what the client's Tokenize on a bar returns |
| Text.DirContentDelete | server/serverdb.cc:55-71 | the loop returns the encoding of the list without the deleted name, whatever the string was |
| Text.PiecesOfEncode | server/serverdb.cc:48-71 | reading back the encoding of a list of bar-free names gives the list |
| Text.ChildListEdits | server/serverdb.cc:48-71 | adding and deleting a name on the stored string is adding and deleting it in the list |
| Text.ParseToString | apps/double_barrier.cc:93-101 | parsing a decimal numeral gives the number back |
| Text.DigitsOfNumeral | apps/double_barrier.cc:93-101 | the characters of a numeral are its decimal digits, the highest first, without leading zeros |
| Text.EncodeIsJoined | server/serverdb.cc:48-53 | the stored list of a directory has each child with a bar in front, in order |
| Text.WithoutKeepsOrder | server/serverdb.cc:55-71 | taking a name out of a list keeps the others in order |
| Database.ServerDb.constructor | server/serverdb.cc:421-451 | a new store has no nodes and has given out no number |
| Database.ServerDb.CheckAndCreate | server/serverdb.cc:74-144 | creates the node with the next number and appends it to its parent's list, or fails and changes nothing, exactly when the create step does |
| Database.ServerDb.CheckAndOpen | server/serverdb.cc:146-164 | returns the stored number, and fails exactly when the node is missing |
| Database.ServerDb.CheckAndDelete | server/serverdb.cc:167-242 | removes the node and its name from the parent's list, fails, or stops at the parent assertions, exactly as the delete step |
| Database.ServerDb.CheckAndRead | server/serverdb.cc:245-283 | returns the content and all counters of the node, only for a matching number |
| Database.ServerDb.CheckAndUpdate | server/serverdb.cc:285-324 | replaces content, checksum and content generation of a matching node, a directory included |
| Database.ServerDb.TestAndSetLockOwner | server/serverdb.cc:326-370 | sets owner and lock generation only when the node matches and nobody owns it |
| Database.ServerDb.ResetLockOwner | server/serverdb.cc:372-403 | resets the owner of a matching node whoever asks |
| Database.ServerDb.GetStates | server/serverdb.cc:405-418 | returns each (name, owner) pair of the table exactly once |
| StoreEffects.CreateSucceedsIff | server/serverdb.cc:78-106 | a create succeeds exactly when the name is not stored and its parent is the root or a stored directory, however many children that has; it returns the next number, and else nothing changes |
| StoreEffects.CreateEffect | server/serverdb.cc:108-144 | the new node is empty, unowned, of the kind asked for, with both generations 0; no node but it and its parent changes |
| StoreEffects.CreateListsChild | server/serverdb.cc:125-143 | the parent gets the name at the end of its list, one more content generation and the checksum, and keeps its other fields |
| StoreEffects.OpenSucceedsIff | server/serverdb.cc:146-164 | an open succeeds exactly when the node is stored, returns its number and changes nothing |
| StoreEffects.DeleteSucceedsIff | server/serverdb.cc:171-216 | a delete succeeds exactly when the number is right, nobody owns the node, a directory is empty and the parent is there; without the parent the assertion fails; else nothing changes |
| StoreEffects.DeleteEffect | server/serverdb.cc:218-242 | the node is gone, the parent gets one more content generation and its checksum, and no other node changes |
| StoreEffects.DeleteUnlistsChild | server/serverdb.cc:55-71 | the parent's list loses the name and keeps the others in order |
| StoreEffects.ReadSucceedsIff | server/serverdb.cc:245-283 | a read succeeds exactly when the number is right and delivers every field but the owner |
| StoreEffects.UpdateSucceedsIff | server/serverdb.cc:285-324 | an update succeeds exactly when the number is right, and changes content, checksum and content generation of that node only |
| StoreEffects.LockSucceedsIff | server/serverdb.cc:326-370 | a lock succeeds exactly when the number is right and nobody owns the node, and changes its owner and lock generation only |
| StoreEffects.UnlockSucceedsIff | server/serverdb.cc:372-403 | an unlock succeeds exactly when the number is right, whoever asks, and changes the owner only |
| StoreEffects.StatesEffect | server/serverdb.cc:405-418 | the listing has exactly the pairs of a stored name and its owner, unowned nodes included |
| StoreEffects.DirectoryTakesAll | server/serverdb.cc:74-144 | creating any number of new names in one directory one after the other succeeds each time, gives numbers that go up by one, and appends the names to the stored list in that order |
| DirectoryTree.CreateKeepsTree | server/serverdb.cc:74-144 | a create under a legal name keeps: distinct numbers up to the maximum, every parent the root or a stored directory, every directory's string the encoding of exactly its children in the order of their numbers |
| DirectoryTree.DeleteKeepsTree | server/serverdb.cc:167-242 | a delete that passes its guards finds its parent, so the assertions hold, and keeps the tree |
| DirectoryTree.UpdateKeepsTreeIff | server/serverdb.cc:285-324 | an update keeps the tree exactly when it fails, hits a plain file, or writes back the child list that is there |
| DirectoryTree.AscendingIsUnique | server/serverdb.cc:48-71 | the creation-order list of a directory's children is unique |
| DirectoryTree.RunKeepsTree | server/serverdb.cc:167-242 | on every run of legal creates, file updates and any other commands the tree is intact and no delete whatever can fail the parent assertions |
| DirectoryTree.AncestorsExist | server/serverdb.cc:87-106 | every proper ancestor of a stored path is a stored directory |
| History.NumbersIncrease | server/serverdb.cc:108-123 | of two creates on one run the later returns the larger number |
| History.DeletedPairIsDead | server/serverdb.cc:189-194 | after a delete of (name, number) every later read, update, delete, lock and unlock with that pair fails on every continuation, even if the name is created again |
| History.RetiredForever | server/serverdb.cc:108-123 | a given-out number that does not name a node never names it again |
| History.GenerationsCount | server/serverdb.cc:359-366 | the lock generation equals the number of grants since creation, and a node's content generation the number of updates, creates and deletes that touched it |
| History.HeldUntilReset | server/serverdb.cc:326-403 | a granted lock keeps its owner until a reset of that instance |
| History.ResetBetweenGrants | server/serverdb.cc:326-403 | between two grants on the same instance there is a reset |
| History.GrantExcludesIff | server/serverdb.cc:352-357 | a grant makes the next one fail exactly when the client is not named like the mark for nobody |
| Handles.AddKeepsInverse | server/serverimpl.cc:234-237 | entering a handle keeps the two handle tables inverse, without duplicates, with distinct identities and no empty list |
| Handles.DropKeepsInverse | server/serverimpl.cc:311-319 | closing a handle keeps the tables inverse |
| Handles.DropFileMembers | server/serverimpl.cc:402-417 | deleting a file takes from every session exactly its handles on that file |
| Handles.DropFileKeepsInverse | server/serverimpl.cc:402-417 | deleting a file, which hits other sessions too, keeps the tables inverse |
| Handles.FindKeepsInverse | server/serverimpl.cc:849-874 | the lookup, with its unknown-handle path, keeps the tables inverse and leaves the handle listed under its file, so the erase in delete removes one list |
| Handles.FindAgain | server/serverimpl.cc:849-874 | looking the same handle up again changes nothing |
| Handles.FindTakesFirst | server/serverimpl.cc:849-862 | a handle that is listed is found where it first stands in the session's list, and nothing changes |
| Handles.FindEntersUnknown | server/serverimpl.cc:863-870 | a handle that is not listed is put at the end of the session's and the file's list, and of no other |
| Handles.AddAppends | server/serverimpl.cc:234-237 | opening puts the handle at the end of those two lists, and of no other |
| Handles.DropRemoves | server/serverimpl.cc:311-319 | closing takes the one handle from those two lists, and touches no other |
| LockServer.Server.constructor | server/serverimpl.cc:786-816 | a new server has empty tables |
| LockServer.Server.FindFd | server/serverimpl.cc:849-874 | returns the session's first handle of this value, or enters the unknown handle into both tables |
| LockServer.Server.SendLockChangeEvent | server/serverimpl.cc:876-888 | one event to each registered session in list order |
| LockServer.Server.SendContentChangeEvent | server/serverimpl.cc:890-902 | one event to each registered session in list order |
| LockServer.Server.FileOpen | server/serverimpl.cc:164-256 | turns the eight tables and the store into those of the open step, with its replies and events |
| LockServer.Server.GetContentsAndStat | server/serverimpl.cc:446-490 | leaves all but the lookup unchanged and answers as the read step |
| LockServer.Server.SetContents | server/serverimpl.cc:492-536 | changes store and replies as the write step, events to the file's listeners after the reply |
| LockServer.Server.Acquire | server/serverimpl.cc:538-586 | as the acquire step: grant and hold, queue, or stop when somebody waits for a free lock |
| LockServer.Server.TryAcquire | server/serverimpl.cc:588-638 | as the tryAcquire step: grant and hold, or answer false |
| LockServer.Server.Release | server/serverimpl.cc:640-715 | as the release step of the chosen variant: reset, drop from the held set, hand over to the head of the queue |
| LockServer.Server.DropHandlesOf | server/serverimpl.cc:402-417 | the loop over the file's handles leaves both tables without them |
| LockServer.Server.FileDelete | server/serverimpl.cc:362-444 | as the delete step |
| LockServer.Server.ClearLockQueue | server/serverimpl.cc:321-336 | for the program as written: the loop ends exactly when the queue is empty or led by the session, and what changes is at most the removal of a one-entry queue; repaired: the session's entries are gone |
| LockServer.Server.Forget | server/serverimpl.cc:310-348 | as the last part of a close |
| LockServer.Server.FileClose | server/serverimpl.cc:258-360 | as the close step: release, delete if ephemeral, otherwise drop handle, queue entries and registrations |
| LockServer.Server.StartSession | server/serverimpl.cc:718-746 | as the start step |
| LockServer.Server.FileReopen | server/serverimpl.cc:748-780 | as the reopen step: the handle is entered unchecked |
| LockServer.Server.Disconnect | server/serverimpl.cc:785-795 | closes, by value, all handles listed at the start, then forgets the session |
| LockServer.Server.InitializeLeader | server/serverimpl.cc:797-816 | all tables are emptied and the held sets rebuilt from rows that list the store twice |
| Registrations.RegisteredKeeps | server/serverimpl.cc:234-243 | opening keeps: tables inverse, and every session in an event list has an open handle on that file |
| Registrations.CloseKeeps | server/serverimpl.cc:258-360 | closing keeps both, for either variant |
| Registrations.DeleteKeeps | server/serverimpl.cc:402-440 | deleting keeps both |
| Runs.StepIsConsistent | server/serverimpl.cc:164-816 | every request of either variant keeps both, with no condition on handles or ownership |
| Runs.RunIsConsistent | server/serverimpl.cc:164-816 | so does every run |
| Effects.SendIsReply | server/chubby_server.h:111-120 | an answer is sent exactly when the request number is not the one reserved for internal calls |
| Effects.FlagIsBinaryDigit | server/serverimpl.cc:184-205 | a flag is a binary digit of the mode, whatever the other digits are |
| Effects.OpenAnswers | server/serverimpl.cc:164-225 | the server stops exactly when the session has no client name; an illegal name, or a file and a directory at once, is answered BAD_ARG, a replica that cannot run commands PAXOS_ERROR, and a node that is not there or cannot be created FS_FAIL; none of them changes anything |
| Effects.OpenEffect | server/serverimpl.cc:227-256 | every other open is answered with the handle, signed with the hash of name, number and write flag, and then one event goes to each content listener of the parent directory, in order; the handle is entered |
| Effects.OpenRegisters | server/serverimpl.cc:239-243 | the session joins exactly the listener lists its mode asks for, and only a node created as ephemeral joins its client's set |
| Effects.ReadAnswers | server/serverimpl.cc:446-490 | a read is answered with content and metadata exactly when the node has the handle's number, and else with FS_FAIL |
| Effects.WriteAnswers | server/serverimpl.cc:492-536 | a write that works is answered true, then each content listener of the file is told in order; one that does not is answered FS_FAIL |
| Effects.AcquireAnswers | server/serverimpl.cc:538-586 | an acquire of a free lock is answered true, then each lock listener of the file is told in order; one of a lock that is not free, or through a stale handle, is put at the end of the queue unanswered; exactly when somebody waits for the free lock, or the session has no name, the server stops |
| Effects.TryAcquireAnswers | server/serverimpl.cc:588-638 | the same for a tryAcquire, which is answered false where the acquire would wait |
| Effects.ReleaseAnswers | server/serverimpl.cc:640-715 | a release through a live handle is answered true, whoever asks; then the head of the queue is answered true, and each lock listener of the file is told in order; a stale handle is answered FS_FAIL; exactly when the next in line is unknown, or the session has no name, the server stops |
| Effects.ReleaseEffect | server/serverimpl.cc:663-704 | it resets the stored owner and takes the head from the queue, and only with the repairs stores the next owner; no other table but the held sets changes |
| Effects.ReleaseMovesFile | server/serverimpl.cc:670-699 | the file leaves the releaser's held set, whoever the stored owner is, and joins the next client's |
| Effects.DeleteAnswers | server/serverimpl.cc:362-400 | a delete that does not work is answered false, or PAXOS_ERROR, and changes nothing but the lookup; the server stops exactly when the parent is gone or the session has no name |
| Effects.DeleteTells | server/serverimpl.cc:428-444 | a delete that works is answered true, then each content listener of the file and then of its parent is told, in order |
| Effects.DeleteEffect | server/serverimpl.cc:402-444 | it leaves no handle, queue or listener of the file and no mark of the session's own client, and nothing else changes |
| Effects.OthersKeepTheirPlace | server/serverimpl.cc:321-336 | with the repairs, the cleanup of a queue keeps the other sessions' entries in order |
| Effects.StartAnswers | server/serverimpl.cc:718-746 | a ready leader answers true and maps the session to its client and no other; any other replica answers false and changes nothing |
| Effects.ReopenAnswers | server/serverimpl.cc:748-780 | a reopened handle is answered true and entered unchecked; the session joins exactly the lists its mode asks for, and the node the client's ephemeral set if the mode says so |
| Effects.LeadEffect | server/serverimpl.cc:797-816 | a new leader keeps its store and has no session, handle, queue, listener or ephemeral mark |
| LockSafety.OneHolder | server/serverimpl.cc:561-573 | while held sets mirror the stored owners at most one client holds a file |
| LockSafety.AcquireKeepsLocksIff | server/serverimpl.cc:559-585 | an acquire keeps held sets and queues right exactly when the handle is live or the file is locked; only a stale handle on a free file is left waiting without a holder |
| LockSafety.TakenKeepsLocks | server/serverimpl.cc:561-573 | a granted acquire finds no queue, so the assertion holds, and keeps held sets equal to stored owners |
| LockSafety.FreedKeepsLocksIff | server/serverimpl.cc:661-710 | for both variants, a release through a live handle returns exactly when the next in line is known, and then held sets mirror stored owners exactly when, as written, the lock is the releaser's or free and nobody waits; repaired, it is the releaser's, free, or the next waiter's |
| Requests.DeleteDropsNoWaiter | server/serverdb.cc:182-187 | while only locked files have queues, a node that can be deleted is unlocked, so its delete drops no waiter |
| Hanging.DeleteDropsWaitersIff | server/serverimpl.cc:419-420 | on any state, a delete that is served takes the queue of a file with waiters, and answers none of them, exactly when the node can be deleted, so has no stored owner |
| Requests.ReleaseIsGood | server/serverimpl.cc:640-715 | a repaired release of a fitting lock that returns keeps the service safe; while all waiters are known it returns and keeps them known |
| Requests.CloseIsGood | server/serverimpl.cc:258-360 | the same of a repaired close by a known session |
| Runs.StepIsSafeIff | server/serverimpl.cc:538-715 | with the repairs, a request that is served to its end keeps the tree, the handle tables, the listeners, the held sets and the queues right exactly when it plays by the rules of Requests.Lawful, which can be read off before it |
| Runs.StepIsGoodIff | server/serverimpl.cc:538-795 | with the repairs, a lawful request trips no assertion, hangs no loop and leaves every waiter known exactly when it is answerable, which can be read off before it |
| Runs.RunIsSafe | server/serverimpl.cc:538-795 | every run of lawful requests that is served keeps the service safe |
| Runs.RunIsGood | server/serverimpl.cc:538-795 | every run of lawful and answerable requests is served to its end, without a failed assertion or an endless loop |
| Runs.MutualExclusion | server/serverimpl.cc:538-715 | on every served run of lawful requests, lost sessions of any kind included, a client holds a file exactly when it is the stored owner, at most one client holds it, and a file with a queue is locked |
| Runs.SameWithoutWaiters | server/serverimpl.cc:686-704 | while nobody waits the program as written does exactly what the repaired one does |
| Runs.TryAcquireRunsAreSafe | server/serverimpl.cc:588-715 | the program as written is safe, and served to its end, on every run of lawful requests by known sessions that locks only with tryAcquire, whatever becomes of ephemeral deletes |
| WrittenSafety.CloseIsSafeIff | server/serverimpl.cc:258-336 | as written, from a safe state, a close by a known session that is served keeps the service safe exactly when it gives up no lock that somebody waits for |
| WrittenSafety.LossIsSafeIff | server/serverimpl.cc:785-795 | as written, the same of the loss of a session whose client does not wait behind itself: exactly when no live handle of it is for a lock of its client that somebody waits for |
| WrittenSafety.WrittenStepIsSafeIff | server/serverimpl.cc:538-795 | as written, for every request but a takeover and every such loss: a request that is served keeps the service safe exactly when it is lawful and gives up no lock that somebody waits for, which can be read off before it |
| WrittenSafety.WrittenRunIsSafe | server/serverimpl.cc:538-795 | as written, every served run of lawful requests, acquires and losses included, that give up no lock somebody waits for keeps the service safe |
| WrittenSafety.WrittenMutualExclusion | server/serverimpl.cc:538-715 | on such a run at most one client holds a file, it is the stored owner, and a file with a queue is locked |
| Runs.FailoverKeepsLocks | server/serverimpl.cc:797-816 | a backup with the leader's store rebuilds the held set of every real client, although every row comes twice |
| Findings.TwoHoldersReached | server/serverimpl.cc:686-704 | a run of the program as written after which two clients have been told they hold the same lock |
| Findings.HandOverGrantsTwice | server/serverimpl.cc:663-704 | as written, whenever a release hands over to an only waiter, the next acquire of anybody is granted too |
| Findings.LostWaiterReached | server/serverimpl.cc:686-699 | a run, of either variant, in which a session waits for the lock of its own ephemeral node and is lost, and the holder's next release then stops the server |
| Findings.LostStrangerReached | server/serverimpl.cc:263-264 | two requests that stop the server: a read by a session that has not introduced itself, and its loss |
| Hanging.CleanupIsRightIff | server/serverimpl.cc:322-336 | the written queue cleanup does what is meant exactly when there is no queue, an empty one, or one entry of the closing session |
| Hanging.ReleaseReturnsIff | server/serverimpl.cc:640-710 | in either variant a release is served exactly when the session is known and, if the lock is freed, so is the head of the queue |
| Hanging.CloseHangsIff | server/serverimpl.cc:258-336 | as written, a close never ends exactly when the session is known, the node is not ephemeral for its client, and another session is first in the queue, not counting a head to which the close itself hands the lock |
| Losses.DisconnectEnds | server/serverimpl.cc:785-795 | as written, on any state whatever, how the loss of a session ends, served, stopped or never: it depends on the store, the queues and the client's held and ephemeral files alone, handle by handle; a next in line that is unknown stops the server |
| Hanging.DisconnectHangsIff | server/serverimpl.cc:785-795 | as written, while the tree is intact and every waiter is known: the loss of a session never ends exactly when, for some file, the closes of its handles come to such a queue; else it is served |
| Losses.DisconnectEndsByFile | server/serverimpl.cc:785-795 | on any state, for a session whose files are all plain: the loss is served exactly when it is for each file by itself, and else the file that stops at the earliest handle decides how it ends |
| Losses.ScanWithoutLock | server/serverimpl.cc:322-336 | a file its client does not hold never stops the server, and hangs it exactly when the session has a handle on it and another session is first in its queue |
| Losses.LostHolderAborts | server/serverimpl.cc:686-699 | the loss of a session that holds a lock through its first handle stops the server if the next in line is gone |
| Hanging.HangsWithoutLockIff | server/serverimpl.cc:322-336 | for a file its client does not hold: exactly when the session has a handle on it and another session is first in its queue |
| Findings.HangReached | server/serverimpl.cc:322-336 | a run as written whose last close never ends |
| Findings.LossHangReached | server/serverimpl.cc:785-795 | a run as written that ends with a lost session and never ends |
| Hanging.StaysQueuedIff | server/serverimpl.cc:321-336 | as written, a session that closes its handle on a node that is not ephemeral for its client stays queued exactly when the queue the cleanup meets has a second entry; that queue is then unchanged, and else gone |
| Hanging.ClosedWaiterIsGranted | server/serverimpl.cc:321-336 | a session at the head of a longer queue that has closed its handle is told at the next release that it holds the lock |
| Findings.ClosedWaiterReached | server/serverimpl.cc:321-336 | a run as written in which such a session closes its only handle |
| Findings.ClosedWaiterHolds | server/serverimpl.cc:686-704 | the next release of that run gives the lock to the session that has no handle |
| Findings.GoneWaiterReached | server/serverimpl.cc:686-699 | a run as written, on a plain node, in which that session is lost and the loss of the holder then stops the server |
| Findings.PlainFileDeletedReached | server/serverimpl.cc:422-424 | a run, of either variant, in which a close deletes a plain file that another client created, because the name of an earlier ephemeral one is still marked |
| Findings.HolderLosesNodeReached | server/serverimpl.cc:301-308 | a run as written in which the close of a session that was handed the lock of its ephemeral node deletes it while another client is the stored owner and holds it |
| Findings.DroppedWaiterReached | server/serverimpl.cc:419-420 | a run as written in which a delete after a hand-over drops a waiter, which is never answered |
| Ephemerals.CloseRemovesIff | server/serverimpl.cc:258-308 | on any state and for either variant, of all nodes a close that is served removes exactly the one it names, when its name is among the client's ephemeral ones, the handle is live, a directory is empty, and the lock is free or, as written, counted as the client's own; how that node was created does not matter |
| Findings.StaleAcquireAborts | server/serverimpl.cc:565-583 | an acquire with a stale handle on a free file is left waiting, and the next good acquire fails the assertion |
| Findings.StaleAcquireReached | server/serverimpl.cc:565-583 | a run, of either variant, that ends so: create, delete, create again, a stale and a good acquire |
| Findings.OverwrittenDirectoryAborts | server/serverdb.cc:215-216 | four commands, one of them an update of a directory, after which a delete fails the parent assertion |
| Waiting.StepExplains | server/serverimpl.cc:583-710 | every queue changes only by asking at its end, granting its head and cancelling a session's entries |
| Waiting.EveryAcquireIsAccountedFor | server/serverimpl.cc:583-710 | on every served run of lawful requests without a takeover each queued acquire is in exactly one place, waiting, granted once or cancelled; grants are in order of asking and ahead of all who wait; the queue in memory is the waiting ones |
| Waiting.GrantIsAnswered | server/serverimpl.cc:686-704 | a granting release sends true to the head of the queue |
| Replies.StepAnswersOnce | server/serverimpl.cc:164-795 | a served request is answered once, an acquire that queues not yet, and nobody else is answered but waiters that are granted the lock; for either variant |
| Replies.RunAnswersOnce | server/serverimpl.cc:164-795 | the same over whole runs |
| Disconnecting.CloseTables | server/serverimpl.cc:310-319 | the handle tables after a close: without the handle, or without the ephemeral node's handles |
| Disconnecting.DisconnectForgets | server/serverimpl.cc:785-795 | after a disconnect whose ephemeral deletes succeed the session is in no handle table, event list or lock queue |
| Disconnecting.DisconnectIsGoodIff | server/serverimpl.cc:785-795 | with the repairs, whatever becomes of the deletes: a disconnect is served exactly when the session used no handle or is known; it keeps the service safe; and it leaves only known waiters exactly when no entry of the session stays in the queue of a file that is ephemeral for its client, which can be read off before it |
| Disconnecting.DisconnectReleasesIff | server/serverimpl.cc:785-795 | given that its client held locks only on files the session had open and did not wait behind itself: a lost session leaves its client no lock, in memory and in the store, exactly when the loss is served by a replica that can run commands or there was no lock |
| Ownership.StepProper | server/serverimpl.cc:538-795 | with one session per client, no request for a lock already held or waited for, no close of a held file at a replica that does not lead, answerable requests and live handles, every request keeps: a held file is open in the holder's session, no waiter holds what it waits for, no session waits twice |
| Ownership.LostSessionHoldsNothingIff | server/serverimpl.cc:785-795 | on every run of such clients losing a session leaves its client no lock, in memory or in the store, exactly when the loss is served by a replica that can run commands or there was no lock |
| LiveHandles.LookupKeepsLiveIff | server/serverimpl.cc:849-874 | a lookup keeps all listed handles live exactly when the handle brought is live |
| LiveHandles.CloseKeepsLiveIff | server/serverimpl.cc:258-348 | a close of either variant keeps all listed handles live exactly when it brings a live handle or one on a file that is not ephemeral for the client, whether or not a delete works |
| LiveHandles.StepKeepsLiveIff | server/serverimpl.cc:192-237 | every request of either variant that is served keeps all listed handles live exactly when the handle it brings, if any, is live, or closes a file that is not ephemeral for the client |
| LiveHandles.TableHandlesWork | server/serverimpl.cc:466-518 | on every served run of either variant whose requests bring such handles a read or write through a listed handle of a leader never reports FS_FAIL |
| ServedStore.RunReaches | server/serverimpl.cc:164-795 | on every run of either variant the store changes only by commands |
| ServedStore.DeadHandleStaysDead | server/serverdb.cc:264-269 | a handle whose instance is gone reads nothing, gets no lock and deletes nothing on every continuation of the service |
| Clients.OpenGivesWorkingHandle | server/serverimpl.cc:214-256 | a handle in an open's answer names the live node with its number and the write right asked for, and is listed under the session; a creating open made a new node |
| Clients.WriteThenRead | server/serverimpl.cc:466-530 | after a write that answers true, a read through any handle on that instance returns the content, its checksum and the next generation |
| Ephemerals.EphemeralGoesWithHandle | server/serverimpl.cc:258-308 | with the repairs, a node that an open of any creating mode made ephemeral goes when the session closes that handle, after any lawful and answerable requests of anybody that leave the session and the leader in place, exactly when its lock is free, or the client's with nobody waiting, and a directory is empty; it is that very node, not a later one of its name |
| Ephemerals.CloseDeletesIff | server/serverimpl.cc:258-308 | on any state and for either variant, the exact condition for one close of an ephemeral node: empty if a directory, and its lock free, or counted as the client's own and, with the repairs, nobody next in line; as written it also goes from under a waiter that the close has just granted its lock, and from under a stored owner that took it after a hand-over |
| Ephemerals.CloseDeletesEphemeral | server/serverimpl.cc:281-308 | for either variant and on any state, closing any handle on an ephemeral, unlocked, empty node deletes the node |
| Ephemerals.GoneIff | server/serverimpl.cc:258-444 | which node a delete or a close of either variant removes, read off before the request, on any state |
| Clients.EventsReachListeners | server/serverimpl.cc:876-902 | one event for each listener in order and nothing else |
| Clients.SubscriptionLastsIff | server/serverimpl.cc:338-348 | for events of a file's lock and of its content alike: while listeners have their handles, which every run keeps, a subscription outlives a served request of either variant exactly when it does not delete the node, is no close or loss of the session for which the node is plain, and does not change the leader; a delete that fails ends nothing |
| Clients.SubscriberHearsWrites | server/serverimpl.cc:239-243 | who opens a file asking for content events is sent one by every later successful write of anybody, until then |
| Events.CloseTells | server/serverimpl.cc:280-360 | all a served close sends: if it gives up the lock, true to the next in line and one event to each lock listener; if it deletes the node, one event to each content listener of it and then of its parent; then true to the session |
| Events.HeardIff | server/serverimpl.cc:164-715 | for either variant, on any state, and every request but a lost session: a session is told of a file's lock exactly when it is registered for that and the request grants the lock to who asks or gives it up, and of its content exactly when it is registered for that and the request writes it, deletes it, or opens, creates or deletes a child of it |
| Events.LossHeardIff | server/serverimpl.cc:785-795 | a lost session tells exactly what its closes, one after the other, tell |
| Events.SubscriberHears | server/serverimpl.cc:239-243 | who opens a file asking for lock or for content events is told by every later request of anybody that changes it, until the subscription ends |
| Events.GrantIsHeard | server/serverimpl.cc:571-573 | whenever an acquire or a tryAcquire is answered true, every lock listener of the file is told |
| Events.ChildChangeNotifies | server/serverimpl.cc:245-256 | whenever a served request other than a lost session makes a node appear in the store or disappear from it, every content listener of the directory above is told by that request |
| Replicas.ReplicaState.constructor | paxos/change_view_engine.cc:7-14 | a replica starts with no view, not leading |
| Replicas.ReplicaState.IsLeaderDown | paxos/change_view_engine.cc:20-39 | true exactly when the replica does not lead and its primary is unset or unreachable |
| Replicas.ReplicaState.GetNewLeaderRank | paxos/change_view_engine.cc:42-57 | despite its early exit the loop returns the minimum of the own rank and all reachable ranks |
| Replicas.ReplicaState.NotifyNewLeader | paxos/change_view_engine.cc:59-81 | stops exactly when the leader is not down; otherwise promotes itself exactly when no lower rank is reachable, or asks the lowest |
| Replicas.ReplicaState.OnInitReply | paxos/change_view_engine.cc:82-90 | refused, the replica stops leading and has the refuser as its primary; heard, both stay as they are; either way the mode is active again |
| Replicas.ReplicaState.OnInitView | paxos/paxos_impl.cc:54-80 | a leader refuses and changes nothing; any other replica promotes itself |
| Replicas.ReplicaState.OnNewView | paxos/paxos_impl.cc:15-28 | the replica follows the announced primary and leads no more; the mode stays |
| Replicas.ReplicateCommand | paxos/execute_replicate_engine.cc:26-42 | the loop and the final run append the command to the log of every reachable replica and of the leader, and to no other |
| Replicas.ProbesFindRank | paxos/change_view_engine.cc:42-81 | without a crash in between, the one-at-a-time probes end where the loop ends: promoted, or asking the minimum rank |
| Replicas.ViewChangeIsNotify | paxos/change_view_engine.cc:59-81 | without a crash in between, beginning a view change and probing stops the replica, makes it lead or makes it ask just as NotifyNewLeader does with the same replicas in reach |
| Replicas.PassingReachesAll | paxos/execute_replicate_engine.cc:26-42 | without a crash in between, the steps of a command give it to every live replica and then acknowledge it |
| Replicas.AssertionFailsIff | paxos/change_view_engine.cc:60-61 | the assertion can come to fail exactly when a new view of a live primary reaches a replica that is starting its own view change |
| Replicas.NobodyAborts | paxos/change_view_engine.cc:60-61 | on every run without such an arrival no replica stops at the assertion |
| Replicas.StartUpAborts | paxos/change_view_engine.cc:95-119 | two replicas that just start, with no crash, can end with one stopped at the assertion |
| Replicas.CutShortLeavesUnequal | paxos/execute_replicate_engine.cc:30-41 | a leader that crashes after the first backup leaves two live replicas with unequal logs |
| Settling.ReplyIsObeyed | paxos/change_view_engine.cc:82-90 | the step that takes the answer does the same, and nothing else |
| Settling.RefusedAskerStaysQuiet | paxos/change_view_engine.cc:20-39 | as long as the refuser lives, whatever else happens, the refused replica does not take the leader for down and starts no view change, unless it hears a new view of somebody else |
| Settling.NoticesIff | paxos/change_view_engine.cc:114-119 | a replica begins a view change exactly when it is idle and active, does not lead, and its primary is unset or crashed |
| Settling.CrashStops | paxos/change_view_engine.cc:20-39 | a crash stops the one replica for good |
| Settling.AskedToLead | paxos/paxos_impl.cc:54-80 | asked to lead, a leader answers with a refusal; any other replica leads and begins to announce it |
| Settling.NewViewIsFollowed | paxos/paxos_impl.cc:15-28 | told of a new view, a replica has its primary and leads no more |
| Settling.LeaderTakesCommand | paxos/execute_replicate_engine.cc:26-30 | a leader that is not passing on a command takes any |
| Settling.AnnouncingReachesAll | paxos/execute_replicate_engine.cc:7-24 | while nothing crashes, a replica that leads after its search announces itself to exactly the other live replicas, and is then idle |
| Settling.ServingReachesAll | paxos/paxos_impl.cc:70-80 | and so does one that was asked to lead, before it answers who asked |
| Settling.ElectionSettles | paxos/change_view_engine.cc:59-119 | once a replica that its search made leader has announced itself and been heard, it alone leads and is the primary of every live replica |
| Replication.StepKeepsElection | paxos/paxos_impl.cc:11-81 | every step keeps: whoever leads, serves a request to lead, announces or passes on a command has only crashed replicas below it, and so has every rank named by a view or a message |
| Replication.OneLiveLeader | paxos/change_view_engine.cc:59-93 | on every run a live leader is the lowest live rank, so there is at most one |
| Replication.LivePrimariesAgree | paxos/paxos_impl.cc:15-28 | on every run two live replicas whose primaries are live have the same primary |
| ReplicatedLogs.StepKeepsLogs | paxos/execute_replicate_engine.cc:26-42 | every step keeps: without the command on its way, the log of a higher live rank is a subsequence of that of a lower one, and acknowledged commands are in all of them |
| ReplicatedLogs.LogsAreOrdered | paxos/execute_replicate_engine.cc:26-42 | on every run with any number of crashes, live logs are ordered by rank, the leader's command on its way counted as its own, and every live log has all acknowledged commands in order |
| ReplicatedLogs.LeaderHasEverything | paxos/change_view_engine.cc:42-57 | a live leader has every command any live replica has run, and every acknowledged one |
| ReplicatedLogs.StepKeepsLevelIff | paxos/execute_replicate_engine.cc:26-42 | equal logs stay equal exactly when the step is not a crash of the leader with its command at some but not all live backups |
| ReplicatedLogs.RunKeepsLevel | paxos/execute_replicate_engine.cc:26-42 | if no crash cuts a command short all live logs stay equal |
| Failover.SameStores | paxos/execute_replicate_engine.cc:26-42 | then all live replicas have the same store between commands |
| Failover.NewLeaderKeepsLocks | server/serverimpl.cc:797-816 | then, after any served run of lawful requests, the replica that takes over has the crashed leader's store and rebuilds for every real client the held set it had |
| Barrier.SharedFiles.constructor | apps/double_barrier.cc:60-64 | the count file starts empty |
| Barrier.SharedFiles.Arrive | apps/double_barrier.cc:89-108 | what a client does to the two files under the lock |
| Barrier.ArrivalCounts | apps/double_barrier.cc:93-104 | an arrival counts one up, and the one that makes the number full, and only it, empties the file |
| Barrier.SectionIsArrival | apps/double_barrier.cc:87-110 | the single steps under the lock amount to that arrival |
| SharedLock.AcquireAsks | server/serverimpl.cc:559-585 | an acquire through a live handle does to a file's owner and queue what asking does to the barrier's lock; it is told true at once exactly when the lock was free and nobody waited, and stops the server exactly when it stops the lock |
| SharedLock.ReleaseGivesBack | server/serverimpl.cc:661-710 | for either variant, a release does what giving the lock back does, and tells the head of the queue |
| SharedLock.ReadsAndWritesKeepLocks | server/serverimpl.cc:446-536 | reads and writes change no owner and no queue |
| Barrier.StepKeepsInv | apps/double_barrier.cc:48-56 | over the repaired lock every step of every client, event delivery included, keeps the barrier's invariant |
| BarrierSafety.StepIsSafe | apps/double_barrier.cc:48-56 | over either lock, double grants included, every step keeps: entries and exits of each client go with the rounds, the count is a numeral of at most the arrivals, at most one client finds itself last, and only when all have arrived |
| BarrierSafety.NobodyLeavesEarly | apps/double_barrier.cc:85-117 | on every run over either lock: nobody has left more rounds than anybody has entered, at most one wake-up is on its way to a client, so none merge, and the count is a numeral of at most the arrivals of the round |
| Barrier.CountIsExact | apps/double_barrier.cc:93-104 | on every run over the repaired lock, and on every run over the lock as written, hand-overs included, in which no acquire finds the lock free while somebody works under it, the count file holds the arrivals of the round whenever nobody works under the lock |
| Barrier.WaitersAreWoken | apps/double_barrier.cc:112-117 | on the runs of Barrier.CountIsExact, when all wait somebody has a wake-up pending, and everybody has exactly when all wait in the same round |
| BarrierSafety.StrandedIff | apps/double_barrier.cc:112-117 | on every run over either lock, when all wait a wake-up is pending exactly for those who have not entered the current round, and the clients are stranded exactly when all have entered it |
| BarrierProgress.PendingLeaves | apps/double_barrier.cc:112-117 | a waiting client with a wake-up on its way can leave at once, over either lock and whatever the others do |
| BarrierProgress.RoundEnds | apps/double_barrier.cc:112-119 | on the runs of Barrier.CountIsExact, clients that all wait in the same round can all leave, each once |
| BarrierProgress.NeverStuck | apps/double_barrier.cc:85-119 | on these runs, clients that have all come to the barrier always have a step that one of them can take |
| Barrier.WrittenStepKeepsInvIff | apps/double_barrier.cc:87-110 | over the lock as written a step keeps the barrier well, with some client taken for the owner, exactly when it is no acquire that finds the stored lock free while somebody works under it |
| Barrier.DoublingBreaks | apps/double_barrier.cc:87-110 | such an acquire puts two clients to work under the lock at once, or stops the server |
| BarrierSafety.StrandedForever | apps/double_barrier.cc:112-117 | clients that all wait with no wake-up pending do so on every continuation |
| BarrierSafety.BarrierStrands | apps/double_barrier.cc:85-119 | over the lock as written, a run of three clients after which all have entered once, the count is two, and nobody ever leaves |
| Wire.PutBytes | xdrpp/xdrpp/marshal.cc:35-46 | copies the bytes, pads with zeros to the next multiple of four, touches nothing else and lands there |
| Wire.GetBytes | xdrpp/xdrpp/marshal.cc:21-33 | returns the bytes; accepts exactly when all padding is zero, and then lands on the next multiple of four |
| Wire.OpaqueIff | xdrpp/xdrpp/marshal.h:156-172 | a byte string is read exactly from the bytes that are written for it, so accepted input comes out the same when written again |
| Wire.OpaqueLayout | xdrpp/xdrpp/marshal.cc:35-46 | a byte string is its length as a word, the bytes, and the fewest zeros that make whole words |
| Wire.TextIff | xdrpp/xdrpp/marshal.h:156-172 | a text is read exactly from the bytes that are written for it |
| Wire.TextLayout | xdrpp/xdrpp/marshal.h:156-172 | a text is its length as a word and one byte for each character in order |
| Wire.PaddingIsThere | xdrpp/xdrpp/marshal.h:117-139 | in a message of whole words the length check, which ignores the padding, is enough |
| Wire.Word32Iff | xdrpp/xdrpp/marshal.h:58-66 | a 32-bit word is read exactly from its big-endian bytes |
| Wire.WordIsBigEndian | xdrpp/xdrpp/marshal.h:58-66 | the bytes of a 32-bit word are its digits to the base 256, the highest first, and a word is read as the value of its first four bytes |
| Wire.Word64Iff | xdrpp/xdrpp/marshal.h:61-71 | the same for 64 bits, high word first |
| Wire.LongIsBigEndian | xdrpp/xdrpp/marshal.h:61-71 | the eight bytes of a 64-bit word are its digits to the base 256, the highest first, and it is read as their value |
| Wire.BoolIsCanonicalIff | xdrpp/xdrpp/types.h:182-190 | a flag comes out the same exactly when the word was 0 or 1; any other word is accepted as true |
| Wire.BoolLayout | xdrpp/xdrpp/types.h:182-190 | a flag is written as the word 1 or 0 and read as true from every word but 0 |
| Wire.HeaderIff | xdrpp/xdrpp/marshal.cc:6-19 | the header word of a message gives its size back, and only sizes below 2^31 have one |
| Wire.HeaderIsBigEndian | xdrpp/xdrpp/marshal.cc:6-19 | the header's first byte has its top bit set, and the rest of its 32 bits is the size, highest byte first |
| Messages.CommandRoundTrip | server/server_paxos.hh:720-736 | decoding undoes encoding for every command that fits |
| Messages.CommandLayout | server/server_paxos.x:1-98 | the bytes of each command: its number, 0 to 7, then its arguments in order |
| Messages.CommandIff | server/server_paxos.hh:720-736 | a message is accepted as a command exactly when it is the command's number and fields and nothing more; only a flag may look different from what is written |
| Messages.ResultRoundTrip | server/server_paxos.hh:962-976 | decoding undoes encoding for every result that fits |
| Messages.ResultLayout | server/server_paxos.x:1-116 | the bytes of each result: its number, what it delivers, and the success flag last |
| Messages.ResultIff | server/server_paxos.hh:962-976 | a message is accepted as a result exactly when it is the result's number and fields and nothing more; only flags may look different from what is written |
| Messages.MetaRoundTrip | server/server_paxos.hh:74-89 | metadata comes back field by field, whatever follows |
| Messages.MetaLayout | server/server_paxos.x:11-17 | metadata is instance, content generation, lock generation and checksum as 64-bit words and the directory flag |
| Messages.RowsRoundTrip | xdrpp/xdrpp/types.h:209-227 | a list of pairs comes back |
| Messages.RowsLayout | xdrpp/xdrpp/types.h:209-227 | the pairs of a list follow each other, each with its name first |
| Proxy.BackstoreRun | server/serverdb_backstore.cc:8-120 | decodes, runs the one store operation, packs its outcome; the state listing is two listings in a row; a bad message or failed assertion gives no output |
| Proxy.CallIsPacked | server/serverdb_paxos.cc:30-59 | whatever goes through the log comes back as the result made for the command |
| Proxy.ProxyRefinesIff | server/serverdb_paxos.cc:62-176 | a call through the log does to the store what a direct call does, and answers the same exactly when the number returned, if any, fits in 32 bits |
| Proxy.WideCallAgreesIff | server/serverdb_paxos.cc:88-162 | a read, update, delete, lock or unlock with a number beyond 32 bits does to the store and answers what a direct one does exactly when neither the number nor its cut would have any effect |
| Proxy.TwiceHasSameRows | server/serverdb_backstore.cc:99-110 | the listing has the rows of a single one, each twice as often |
| UnionGen.NumberFields | xdrpp/xdrc/parse.cc:1615-1621 | void arms get number 0, the others 1, 2, 3 in order |
| UnionGen.NumbersTellArms | xdrpp/xdrc/parse.cc:1615-1621 | equal numbers mean the same arm or two void ones |
| UnionGen.UnionFunction | xdrpp/xdrc/gen_hh.cc:277-305 | the loop emits one clause for each arm but the default, in order, and ends with the default's value or -1 |
| UnionGen.ChainAgreesWithSwitch | xdrpp/xdrc/gen_hh.cc:348-363 | for every tag the emitted chain gives the number of the arm the emitted switch takes: -1 exactly when it returns false, 0 exactly for a void arm |
| UnionGen.UnionObject.constructor | xdrpp/xdrc/gen_hh.cc:386-391 | a new union holds a blank value of the arm of its tag |
| UnionGen.UnionObject.SetTag | xdrpp/xdrc/gen_hh.cc:368-384 | the setter refuses a bad tag when it validates; it changes tag and arm only when the number changes |
| UnionGen.LoadRestoresTagIff | xdrpp/xdrc/gen_hh.cc:546-557 | loading a saved union into any object restores arm and value, and the tag exactly when the object has that tag or another arm |
| UnionGen.FreshRestoresAllIff | xdrpp/xdrc/gen_hh.cc:546-557 | every saved union comes back whole into a fresh object exactly when no other tag selects the arm of tag 0 |
| UnionGen.StoreUnionsComeBack | server/server_paxos.hh:755-765 | in the store's unions the tags 0 to 7 have the numbers 1 to 8, all others -1, and every saved one comes back |

## Left out

- Sockets, event loops, threads, sleeps and reconnects: they appear as steps that may come in any order.
- SQLite and SQL text: the table is a map; quoting, the printf width of numbers and 64-bit wrap-around of counters are not modelled.
- Empty map entries that `operator[]` creates on a lookup are not distinguished from missing ones; the erase in `fileDelete` therefore rests on the proved listing of the handle instead.
- Use of a freed handle object in `fileDelete` and `disconnect`: handles are values with an identity, so the freed value is still read; the memory error itself is not modelled.
- The aliasing of one handle object from two tables: the tables hold equal values with one identity.
- A replica that stops or starts to lead in the middle of a request: one flag says for all store commands of a request, or of all closes of a lost session, whether they can run.
- Runs of the service cover one period of leadership and may contain a takeover as a step; the accounting of queued acquires stops at a takeover, which forgets all queues.
- What clients do after a takeover (reopening handles, sessions) beyond the `fileReopen` step.
- Ownership.LostSessionHoldsNothingIff: a client that starts a session while it still holds locks, as after a takeover, is not a careful one; its locks are known before its handles are.
- Runs.StepIsSafeIff: says nothing about takeovers with a listing other than the store's own; the store delivers its own, twice.
- WrittenSafety.WrittenStepIsSafeIff: for the loss of a session only where its client does not wait behind itself; and takeovers are left to `Runs.FailoverKeepsLocks`.
- Events.ChildChangeNotifies: not for a lost session, in which a listener may lose its own registration before a child goes; `Events.LossHeardIff` says who hears of what then.
- Waiting.EveryAcquireIsAccountedFor: for the repaired program only; as written the cleanup loses or keeps entries as `Hanging.CleanupIsRightIff` and `Hanging.StaysQueuedIff` say, and a delete after a hand-over drops the waiters left without an answer (`Hanging.DeleteDropsWaitersIff`).
- A replica whose call to the new leader breaks off ends with an exception; this is the step `Crash`.
- The result of a replicated command at a backup and the quorum size, which the program ignores, so no claim about partitions is made.
- A leader that runs several commands at once: one command is on its way at a time.
- Liveness under timing: nothing is said about how soon a leader is found or a barrier is passed.
- `inRegion` of the barrier, which nothing reads; and clients beyond the number the barrier is for.
- Emitted code is modelled as its structure (clauses, labels, arms), not as text; duplicate labels inside one arm and negative labels are not distinguished.
- Union assignment across arms, struct boilerplate, enum names, the generated lexer and parser tables beyond the numbering of arms.
- The increment and decrement test calls, command-line clients and the other apps.
