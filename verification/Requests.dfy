/**
 The requests of the lock service as one step function, and what each of them keeps.
 */
module Requests {
  import opened Text
  import opened Database
  import opened DirectoryTree
  import opened Handles
  import opened Service
  import opened Registrations
  import opened LockSafety

  datatype Op =
    | OpenOp(s: Session, file: string, mode: nat, masterSeq: nat, xid: Xid, up: bool)
    | ReadOp(s: Session, h: FileHandler, xid: Xid, up: bool)
    | WriteOp(s: Session, h: FileHandler, content: string, xid: Xid, up: bool)
    | AcquireOp(s: Session, h: FileHandler, xid: Xid, up: bool)
    | TryAcquireOp(s: Session, h: FileHandler, xid: Xid, up: bool)
    | ReleaseOp(s: Session, h: FileHandler, xid: Xid, up: bool)
    | DeleteOp(s: Session, h: FileHandler, xid: Xid, up: bool)
    | CloseOp(s: Session, h: FileHandler, xid: Xid, up: bool)
    | StartOp(s: Session, client: Client, xid: Xid, up: bool)
    | ReopenOp(s: Session, h: FileHandler, mode: nat, xid: Xid)
    | DisconnectOp(s: Session, up: bool)
    | LeadOp(rows: seq<(string, string)>)

  function Step(v: Variant, srv: Srv, op: Op): Res {
    match op
    case OpenOp(s, file, mode, masterSeq, xid, up) => FileOpen(srv, s, file, mode, masterSeq, xid, up)
    case ReadOp(s, h, xid, up) => GetContentsAndStat(srv, s, h, xid, up)
    case WriteOp(s, h, content, xid, up) => SetContents(srv, s, h, content, xid, up)
    case AcquireOp(s, h, xid, up) => Acquire(srv, s, h, xid, up)
    case TryAcquireOp(s, h, xid, up) => TryAcquire(srv, s, h, xid, up)
    case ReleaseOp(s, h, xid, up) => Release(v, srv, s, h, xid, up)
    case DeleteOp(s, h, xid, up) => FileDelete(srv, s, h, xid, up)
    case CloseOp(s, h, xid, up) => FileClose(v, srv, s, h, xid, up)
    case StartOp(s, client, xid, up) => StartSession(srv, s, client, xid, up)
    case ReopenOp(s, h, mode, xid) => FileReopen(srv, s, h, mode, xid)
    case DisconnectOp(s, up) => Disconnect(v, srv, s, up)
    case LeadOp(rows) => Done(InitializeLeader(srv, rows), [])
  }

  /** A run ends early when a request hangs or aborts the server. */
  function RunOps(v: Variant, srv: Srv, ops: seq<Op>): Res
    decreases ops
  {
    if ops == [] then Done(srv, [])
    else
      var first := Step(v, srv, ops[0]);
      if first.end == Returned then Then(first, RunOps(v, first.srv, ops[1..])) else first
  }

  /** What keeps the service safe. */
  ghost predicate Core(srv: Srv) {
    Consistent(srv) && TreeInv(srv.db) && LocksOk(srv)
  }

  /** What keeps it running as well. */
  ghost predicate Good(srv: Srv) {
    Core(srv) && WaitersOk(srv)
  }

  const START := Srv(EMPTY_DB, NO_TABLES, map[], map[], map[], map[], map[], map[])

  lemma StartIsGood()
    ensures Good(START)
  {}

  // ---------------------------------------------------------------- what a request must find

  /** The request plays by the rules of the lock protocol: it overwrites no directory, asks for
      a lock through a live handle or for one that is taken, gives back a lock that is its own
      or free, and takes no client name that means nobody. A new leader reads its own store. */
  ghost predicate Lawful(v: Variant, srv: Srv, op: Op) {
    match op
    case WriteOp(_, h, content, _, up) => up ==> Harmless(srv.db, Update(h.file, h.inst, content))
    case AcquireOp(s, h, _, up) =>
      Known(srv, s) && up ==> Live(srv.db, h.file, h.inst) || Owner(srv.db, h.file) != NO_OWNER
    case ReleaseOp(s, h, _, up) =>
      Known(srv, s) && up && Live(srv.db, h.file, h.inst) ==> ReleaseFits(v, srv, srv.clients[s], h.file)
    case StartOp(_, client, _, up) => up ==> client != NO_OWNER
    case LeadOp(rows) => ListedTwice(rows, srv.db)
    case _ => true
  }

  predicate IsEphemeral(srv: Srv, s: Session, file: string)
    requires Known(srv, s)
  {
    file in GetSet(srv.eph, srv.clients[s])
  }

  /** The lock queue of a file that is ephemeral for the client, after a session of the client
      closes these handles. Each close through a live handle gives up the client's lock to the
      head of the queue; no such close takes an entry out, and the node cannot be deleted
      while somebody waits. */
  function LeftWaiting(q: seq<Waiter>, holds: bool, clients: map<Session, Client>, client: Client,
                       file: string, inst: nat, fds: seq<Fd>): seq<Waiter>
    decreases fds
  {
    if fds == [] || q == [] then q
    else if holds && fds[0].h.file == file && fds[0].h.inst == inst then
      LeftWaiting(q[1..], q[0].session in clients && clients[q[0].session] == client,
                  clients, client, file, inst, fds[1..])
    else LeftWaiting(q, holds, clients, client, file, inst, fds[1..])
  }

  function InstOf(db: Db, file: string): nat {
    if file in db.fs then db.fs[file].inst else 0
  }

  /** The entries that stay in the queue of an ephemeral file when session s is lost. */
  function LeftBehind(srv: Srv, s: Session, file: string, up: bool): seq<Waiter>
    requires Known(srv, s)
  {
    LeftWaiting(Get(srv.queues, file), up && file in GetSet(srv.held, srv.clients[s]), srv.clients,
                srv.clients[s], file, InstOf(srv.db, file), Get(srv.tables.bySession, s))
  }

  predicate HasEntry(q: seq<Waiter>, s: Session) {
    exists w :: w in q && w.session == s
  }

  ghost predicate IsWaiting(srv: Srv, s: Session) {
    exists f :: HasEntry(Get(srv.queues, f), s)
  }

  /** No entry of the session outlives it in the queue of a file that is ephemeral for it. */
  ghost predicate LeavesNoEntry(srv: Srv, s: Session, up: bool) {
    Known(srv, s) ==>
      forall f {:trigger IsEphemeral(srv, s, f)} :: IsEphemeral(srv, s, f) ==> !HasEntry(LeftBehind(srv, s, f, up), s)
  }

  /** The request can be served to its end and leaves every waiter known: its session has
      introduced itself, a waiting session does not take the empty name, and a lost session
      that used handles has introduced itself and leaves no entry in a queue. */
  ghost predicate Answerable(srv: Srv, op: Op) {
    match op
    case OpenOp(s, _, _, _, _, _) => Known(srv, s)
    case AcquireOp(s, _, _, _) => Known(srv, s)
    case TryAcquireOp(s, _, _, _) => Known(srv, s)
    case ReleaseOp(s, _, _, _) => Known(srv, s)
    case DeleteOp(s, _, _, _) => Known(srv, s)
    case CloseOp(s, _, _, _) => Known(srv, s)
    case StartOp(s, client, _, up) => up && client == "" ==> !IsWaiting(srv, s)
    case DisconnectOp(s, up) =>
      (Get(srv.tables.bySession, s) == [] || Known(srv, s)) && LeavesNoEntry(srv, s, up)
    case _ => true
  }

  ghost predicate LawfulRun(v: Variant, srv: Srv, ops: seq<Op>)
    decreases ops
  {
    ops != [] ==>
      Lawful(v, srv, ops[0])
      && (Step(v, srv, ops[0]).end == Returned ==> LawfulRun(v, Step(v, srv, ops[0]).srv, ops[1..]))
  }

  ghost predicate AnswerableRun(v: Variant, srv: Srv, ops: seq<Op>)
    decreases ops
  {
    ops != [] ==>
      Answerable(srv, ops[0])
      && (Step(v, srv, ops[0]).end == Returned ==> AnswerableRun(v, Step(v, srv, ops[0]).srv, ops[1..]))
  }

  /** The state stays safe, and stays good if it was. */
  ghost predicate KeptIn(srv: Srv, post: Srv) {
    Core(post) && (WaitersOk(srv) ==> WaitersOk(post))
  }

  /** A request that returns leaves the state safe; in a good state it returns and leaves it good. */
  ghost predicate Kept(srv: Srv, r: Res) {
    && (r.end == Returned ==> Core(r.srv))
    && (WaitersOk(srv) ==> r.end == Returned && WaitersOk(r.srv))
  }

  // ---------------------------------------------------------------- opening, reading, writing

  lemma MoreHandles(srv: Srv, post: Srv)
    requires post.queues == srv.queues && post.held == srv.held && post.clients == srv.clients
    requires LockTable(post.db) == LockTable(srv.db)
    requires forall x, f {:trigger HasHandle(srv.tables, x, f)} ::
               HasHandle(srv.tables, x, f) ==> HasHandle(post.tables, x, f)
    ensures LocksOk(srv) ==> LocksOk(post)
    ensures WaitersOk(srv) ==> WaitersOk(post)
  {}

  function OpenCommand(file: string, mode: nat): Cmd {
    if Has(mode, CREATE_DIRECTORY) || Has(mode, CREATE_FILE) then Create(file, Has(mode, CREATE_DIRECTORY))
    else Open(file)
  }

  lemma OpenIsGood(srv: Srv, op: Op)
    requires Core(srv) && op.OpenOp? && Known(srv, op.s)
    ensures Kept(srv, Step(Intended, srv, op))
  {
    var (db, r) := Apply(srv.db, OpenCommand(op.file, op.mode));
    if op.up && NameOk(op.file) && r.Number? {
      OpenedStoreIsGood(srv, op.file, op.mode);
      EnteredIsGood(srv.(db := db), op.s, op.file, op.mode,
                    OpenCommand(op.file, op.mode).Create? && Has(op.mode, EPHEMERAL), op.masterSeq, r.inst, op.xid);
    }
  }

  lemma OpenedStoreIsGood(srv: Srv, file: string, mode: nat)
    requires Core(srv) && NameOk(file)
    ensures KeptIn(srv, srv.(db := Apply(srv.db, OpenCommand(file, mode)).0))
  {
    var cmd := OpenCommand(file, mode);
    StepKeepsTree(srv.db, cmd);
    LockTableAfter(srv.db, cmd);
    SameLocks(srv, Apply(srv.db, cmd).0);
  }

  lemma EnteredIsGood(srv: Srv, s: Session, file: string, mode: nat, ephemeral: bool,
                      masterSeq: nat, inst: nat, xid: Xid)
    requires Core(srv) && Known(srv, s)
    ensures KeptIn(srv, Entered(srv, s, file, mode, ephemeral, masterSeq, inst, xid).srv)
  {
    var h := FileHandler(Magic(file, inst, Has(mode, WRITE)), masterSeq, file, inst, Has(mode, WRITE));
    RegisteredIsGood(srv, s, h, mode);
    EphemeralsAreFree(Registered(srv, s, h, mode),
                      if ephemeral then srv.eph[srv.clients[s] := GetSet(srv.eph, srv.clients[s]) + {file}]
                      else srv.eph);
  }

  /** Nothing else depends on which nodes are ephemeral. */
  lemma EphemeralsAreFree(srv: Srv, eph: map<Client, set<string>>)
    requires Core(srv)
    ensures KeptIn(srv, srv.(eph := eph))
  {}

  lemma ReopenIsGood(srv: Srv, op: Op)
    requires Core(srv) && op.ReopenOp?
    ensures Kept(srv, Step(Intended, srv, op))
  {
    RegisteredIsGood(srv, op.s, op.h, op.mode);
    EphemeralsAreFree(Registered(srv, op.s, op.h, op.mode), Step(Intended, srv, op).srv.eph);
  }

  lemma RegisteredIsGood(srv: Srv, s: Session, h: FileHandler, mode: nat)
    requires Core(srv)
    ensures KeptIn(srv, Registered(srv, s, h, mode))
  {
    RegisteredKeeps(srv, s, h, mode);
    AddHandle(srv.tables, s, h);
    MoreHandles(srv, Registered(srv, s, h, mode));
  }

  lemma FoundIsGood(srv: Srv, s: Session, h: FileHandler)
    requires Core(srv)
    ensures KeptIn(srv, Found(srv, s, h))
  {
    FoundKeeps(srv, s, h);
    FoundKeepsLocks(srv, s, h);
  }

  lemma WriteIsGood(srv: Srv, op: Op)
    requires Core(srv) && op.WriteOp? && Lawful(Intended, srv, op)
    ensures Kept(srv, Step(Intended, srv, op))
  {
    var cmd := Update(op.h.file, op.h.inst, op.content);
    FoundIsGood(srv, op.s, op.h);
    if op.up {
      StepKeepsTree(srv.db, cmd);
      LockTableAfter(srv.db, cmd);
      SameLocks(Found(srv, op.s, op.h), Apply(srv.db, cmd).0);
    }
  }

  /** A change of the store that keeps the tree and the locks. */
  lemma SameLocks(srv: Srv, db: Db)
    requires Core(srv) && TreeInv(db) && LockTable(db) == LockTable(srv.db)
    ensures KeptIn(srv, srv.(db := db))
  {
    MoreHandles(srv, srv.(db := db));
  }

  // ---------------------------------------------------------------- locks

  lemma LockingIsGood(srv: Srv, op: Op)
    requires Core(srv) && (op.AcquireOp? || op.TryAcquireOp?) && Known(srv, op.s) && Lawful(Intended, srv, op)
    ensures Kept(srv, Step(Intended, srv, op))
  {
    var found := Found(srv, op.s, op.h);
    var cmd := Lock(op.h.file, op.h.inst, srv.clients[op.s]);
    FoundIsGood(srv, op.s, op.h);
    StepKeepsTree(srv.db, cmd);
    if op.up {
      if Apply(srv.db, cmd).1 == Ok {
        TakenKeepsLocks(found, op.s, op.h, op.xid);
      } else if op.AcquireOp? {
        AcquireKeepsLocksIff(srv, op.s, op.h, op.xid);
      }
    }
  }

  lemma ReleaseIsGood(srv: Srv, s: Session, h: FileHandler, xid: Xid, up: bool)
    requires Core(srv) && Known(srv, s)
    requires up && Live(srv.db, h.file, h.inst) ==> ReleaseFits(Intended, srv, srv.clients[s], h.file)
    ensures Kept(srv, Release(Intended, srv, s, h, xid, up))
  {
    var found := Found(srv, s, h);
    FoundIsGood(srv, s, h);
    ReleaseFrame(Intended, srv, s, h, xid, up);
    if up && Live(srv.db, h.file, h.inst) {
      FreedKeepsLocksIff(Intended, found, s, h, xid);
      assert ReleaseFits(Intended, found, srv.clients[s], h.file);
      ReleasedTree(Intended, srv, s, h, xid);
    }
  }

  lemma ReleasedTree(v: Variant, srv: Srv, s: Session, h: FileHandler, xid: Xid)
    requires TreeInv(srv.db) && Known(srv, s)
    ensures TreeInv(Release(v, srv, s, h, xid, true).srv.db)
  {
    var found := Found(srv, s, h);
    var db1 := Apply(srv.db, Unlock(h.file, h.inst)).0;
    StepKeepsTree(srv.db, Unlock(h.file, h.inst));
    FreedDb(v, found.(db := db1), s, h, xid);
    if NextClient(srv, h.file).Some? {
      StepKeepsTree(db1, Lock(h.file, h.inst, NextClient(srv, h.file).value));
    }
  }

  /** The store after a release: with the repair, the next client is its owner. */
  lemma FreedDb(v: Variant, srv: Srv, s: Session, h: FileHandler, xid: Xid)
    requires Known(srv, s)
    ensures Freed(v, srv, s, h, xid).srv.db
         == if v.Intended? && NextClient(srv, h.file).Some?
            then Apply(srv.db, Lock(h.file, h.inst, NextClient(srv, h.file).value)).0
            else srv.db
  {}

  // ---------------------------------------------------------------- delete and close

  /** A node that can be deleted is unlocked, so nobody waits for it: nothing is dropped
      from a lock queue. */
  lemma DeleteDropsNoWaiter(srv: Srv, file: string, inst: nat)
    requires QueuesLocked(srv) && Apply(srv.db, Delete(file, inst)).1 == Ok
    ensures file !in srv.queues && srv.queues - {file} == srv.queues
  {}

  lemma DeleteIsGood(srv: Srv, s: Session, h: FileHandler, xid: Xid, up: bool)
    requires Core(srv) && Known(srv, s)
    ensures var r := FileDelete(srv, s, h, xid, up);
            r.end == Returned && Kept(srv, r) && r.srv.clients == srv.clients
  {
    var cmd := Delete(h.file, h.inst);
    var found := Found(srv, s, h);
    FoundIsGood(srv, s, h);
    StepKeepsTree(srv.db, cmd);
    LockTableAfter(srv.db, cmd);
    if up && Apply(srv.db, cmd).1 == Ok {
      DeleteDropsNoWaiter(srv, h.file, h.inst);
      SameLocks(found, Apply(srv.db, cmd).0);
      PurgedIsGood(found.(db := Apply(srv.db, cmd).0), s, h.file, xid);
    }
  }

  lemma PurgedIsGood(srv: Srv, s: Session, file: string, xid: Xid)
    requires Core(srv) && Known(srv, s) && file !in srv.queues
    ensures KeptIn(srv, Purged(srv, s, file, xid).srv)
  {
    PurgedKeeps(srv, s, file, xid);
    var post := Purged(srv, s, file, xid).srv;
    assert srv.queues - {file} == srv.queues;
    if WaitersOk(srv) {
      forall f, w | w in Get(post.queues, f)
        ensures Known(post, w.session) && HasHandle(post.tables, w.session, f)
      {
        assert w in Get(srv.queues, f) && f != file;
        DropFileHandles(srv.tables, file, w.session, f);
      }
    }
  }

  lemma ForgetIsGood(srv: Srv, s: Session, fd: Fd)
    requires Core(srv)
    ensures var r := Forget(Intended, srv, s, fd);
            r.end == Returned && Kept(srv, r) && r.srv.clients == srv.clients
  {
    ForgetKeeps(Intended, srv, s, fd);
    ForgetKeepsLocks(srv, Forget(Intended, srv, s, fd).srv, s, fd);
  }

  lemma ForgetKeepsLocks(srv: Srv, post: Srv, s: Session, fd: Fd)
    requires LocksOk(srv)
    requires post.db == srv.db && post.held == srv.held && post.clients == srv.clients
    requires post.tables == Drop(srv.tables, s, fd)
    requires post.queues == if fd.h.file in srv.queues
                            then Put(srv.queues, fd.h.file, NotOf(srv.queues[fd.h.file], s)) else srv.queues
    ensures LocksOk(post) && (WaitersOk(srv) ==> WaitersOk(post))
  {
    if WaitersOk(srv) {
      DropHandle(srv.tables, s, fd);
      forall f, w | w in Get(post.queues, f)
        ensures Known(post, w.session) && HasHandle(post.tables, w.session, f)
      {
        assert w in Get(srv.queues, f) && (f != fd.h.file || w.session != s);
      }
    }
  }

  lemma LetGoIsGood(srv: Srv, s: Session, fd: Fd, xid: Xid, up: bool)
    requires Core(srv) && Known(srv, s)
    ensures var r := LetGo(Intended, srv, s, fd, xid, up);
            r.end == Returned && Kept(srv, r) && r.srv.clients == srv.clients
  {
    DeleteIsGood(srv, s, fd.h, NO_REPLY, up);
    ForgetIsGood(srv, s, fd);
  }

  lemma CloseIsGood(srv: Srv, s: Session, h: FileHandler, xid: Xid, up: bool)
    requires Core(srv) && Known(srv, s)
    ensures var r := FileClose(Intended, srv, s, h, xid, up);
            Kept(srv, r) && r.srv.clients == srv.clients
  {
    var found := Found(srv, s, h);
    FoundIsGood(srv, s, h);
    ReclaimIsGood(found, s, h, up);
    var first := Reclaim(Intended, found, s, h, up);
    if first.end == Returned {
      LetGoIsGood(first.srv, s, Find(srv.tables, s, h).1, xid, up);
    }
  }

  lemma ReclaimIsGood(srv: Srv, s: Session, h: FileHandler, up: bool)
    requires Core(srv) && Known(srv, s)
    ensures var r := Reclaim(Intended, srv, s, h, up);
            Kept(srv, r) && r.srv.clients == srv.clients
  {
    var client := srv.clients[s];
    if h.file in GetSet(srv.held, client) {
      assert client != NO_OWNER;
      assert Owner(srv.db, h.file) == client;
      ReleaseIsGood(srv, s, h, NO_REPLY, up);
      ReleaseFrame(Intended, srv, s, h, NO_REPLY, up);
    }
  }

  lemma {:induction false} CloseAllIsGood(srv: Srv, s: Session, fds: seq<Fd>, up: bool)
    requires Core(srv) && (fds == [] || Known(srv, s))
    ensures var r := CloseAll(Intended, srv, s, fds, up);
            Kept(srv, r) && r.srv.clients == srv.clients
    decreases fds
  {
    if fds != [] {
      var first := FileClose(Intended, srv, s, fds[0].h, NO_REPLY, up);
      CloseIsGood(srv, s, fds[0].h, NO_REPLY, up);
      if first.end == Returned {
        CloseAllIsGood(first.srv, s, fds[1..], up);
      }
    }
  }
}
