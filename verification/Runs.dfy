/**
 Whole runs of the lock service: what holds after every sequence of requests.
 */
module Runs {
  import opened Database
  import opened DirectoryTree
  import opened Handles
  import opened Service
  import opened Registrations
  import opened LockSafety
  import opened Requests
  import opened Disconnecting

  // ---------------------------------------------------------------- a new leader

  /** The files of the rows that name this owner. */
  lemma {:induction false} HeldFromRows(rows: seq<(string, string)>, c: Client, f: string)
    ensures f in GetSet(HeldFrom(rows), c) <==> (f, c) in rows
  {
    if rows != [] {
      var front, last := rows[..|rows| - 1], rows[|rows| - 1];
      HeldFromRows(front, c, f);
      assert rows == front + [last];
      assert (f, c) in rows <==> (f, c) in front || (f == last.0 && c == last.1);
    }
  }

  lemma LeadIsGood(srv: Srv, rows: seq<(string, string)>)
    requires TreeInv(srv.db) && ListedTwice(rows, srv.db)
    ensures Good(InitializeLeader(srv, rows))
  {
    var post := InitializeLeader(srv, rows);
    TwiceIsMembers(rows, srv.db);
    forall c, f ensures f in GetSet(post.held, c) <==> f in srv.db.fs && srv.db.fs[f].owner == c {
      HeldFromRows(rows, c, f);
    }
  }

  /** Failover keeps locks: a backup with the same store that takes over gives every real
      client the held set it had, although it reads each row twice. */
  lemma FailoverKeepsLocks(leader: Srv, backup: Srv, rows: seq<(string, string)>, c: Client)
    requires HeldAgrees(leader) && backup.db == leader.db
    requires ListedTwice(rows, backup.db) && c != NO_OWNER
    ensures GetSet(InitializeLeader(backup, rows).held, c) == GetSet(leader.held, c)
  {
    TwiceIsMembers(rows, backup.db);
    forall f ensures f in GetSet(HeldFrom(rows), c) <==> f in GetSet(leader.held, c) {
      HeldFromRows(rows, c, f);
    }
  }

  // ---------------------------------------------------------------- every step, every run

  lemma DisconnectIsSafe(srv: Srv, s: Session, up: bool)
    requires Core(srv) && (Get(srv.tables.bySession, s) == [] || Known(srv, s))
    ensures var r := Disconnect(Intended, srv, s, up);
            r.end == Returned ==> Core(r.srv)
  {
    CloseAllIsGood(srv, s, Get(srv.tables.bySession, s), up);
  }

  lemma SessionStepIsSafe(srv: Srv, op: Op)
    requires Core(srv) && Lawful(Intended, srv, op) && Step(Intended, srv, op).end == Returned
    requires op.StartOp? || op.DisconnectOp? || op.LeadOp? || op.ReadOp? || op.ReopenOp?
    ensures Core(Step(Intended, srv, op).srv)
  {
    match op
    case ReadOp(s, h, _, _) => FoundIsGood(srv, s, h);
    case StartOp(_, _, _, _) =>
    case ReopenOp(_, _, _, _) => ReopenIsGood(srv, op);
    case DisconnectOp(s, up) => if Get(srv.tables.bySession, s) == [] || Known(srv, s) { DisconnectIsSafe(srv, s, up); }
    case LeadOp(rows) => LeadIsGood(srv, rows);
  }

  lemma FileStepIsKept(srv: Srv, op: Op)
    requires Core(srv) && Lawful(Intended, srv, op)
    requires op.WriteOp? || ((op.OpenOp? || op.DeleteOp? || op.CloseOp?) && Known(srv, op.s))
    ensures Kept(srv, Step(Intended, srv, op))
  {
    match op
    case OpenOp(_, _, _, _, _, _) => OpenIsGood(srv, op);
    case WriteOp(_, _, _, _, _) => WriteIsGood(srv, op);
    case DeleteOp(s, h, xid, up) => DeleteIsGood(srv, s, h, xid, up);
    case CloseOp(s, h, xid, up) => CloseIsGood(srv, s, h, xid, up);
  }

  lemma LockStepIsKept(srv: Srv, op: Op)
    requires Core(srv) && Lawful(Intended, srv, op)
    requires (op.AcquireOp? || op.TryAcquireOp? || op.ReleaseOp?) && Known(srv, op.s)
    ensures Kept(srv, Step(Intended, srv, op))
  {
    if op.ReleaseOp? {
      ReleaseIsGood(srv, op.s, op.h, op.xid, op.up);
    } else {
      LockingIsGood(srv, op);
    }
  }

  /** The request needs a session that has introduced itself, and none has. */
  predicate FromStranger(srv: Srv, op: Op) {
    (op.OpenOp? || op.DeleteOp? || op.CloseOp? || op.AcquireOp? || op.TryAcquireOp? || op.ReleaseOp?)
    && !Known(srv, op.s)
  }

  lemma StrangersStopTheServer(v: Variant, srv: Srv, op: Op)
    requires FromStranger(srv, op)
    ensures Step(v, srv, op).end == Aborted
  {}

  /** With the two repairs, a request that plays by the rules and is served to its end keeps
      the tree, the tables, the held sets and the queues right. */
  lemma StepIsSafe(srv: Srv, op: Op)
    requires Core(srv) && Lawful(Intended, srv, op) && Step(Intended, srv, op).end == Returned
    ensures Core(Step(Intended, srv, op).srv)
  {
    if FromStranger(srv, op) {
      StrangersStopTheServer(Intended, srv, op);
    } else if op.AcquireOp? || op.TryAcquireOp? || op.ReleaseOp? {
      LockStepIsKept(srv, op);
    } else if op.OpenOp? || op.WriteOp? || op.DeleteOp? || op.CloseOp? {
      FileStepIsKept(srv, op);
    } else {
      SessionStepIsSafe(srv, op);
    }
  }

  lemma UnlawfulWriteBreaks(srv: Srv, op: Op)
    requires Core(srv) && op.WriteOp? && !Lawful(Intended, srv, op)
    ensures !TreeInv(Step(Intended, srv, op).srv.db)
  {
    UpdateKeepsTreeIff(srv.db, op.h.file, op.h.inst, op.content);
  }

  lemma UnlawfulLockingBreaks(srv: Srv, op: Op)
    requires Core(srv) && (op.AcquireOp? || op.ReleaseOp?) && !Lawful(Intended, srv, op)
    requires Step(Intended, srv, op).end == Returned
    ensures !LocksOk(Step(Intended, srv, op).srv)
  {
    if op.AcquireOp? {
      AcquireKeepsLocksIff(srv, op.s, op.h, op.xid);
    } else {
      var found := Found(srv, op.s, op.h);
      FoundKeepsLocks(srv, op.s, op.h);
      FreedKeepsLocksIff(Intended, found, op.s, op.h, op.xid);
      assert !ReleaseFits(Intended, found, srv.clients[op.s], op.h.file);
    }
  }

  /** None of these rules can be dropped: a request that is served to its end keeps the service
      safe exactly when it plays by them. */
  lemma StepIsSafeIff(srv: Srv, op: Op)
    requires Core(srv) && !op.LeadOp? && Step(Intended, srv, op).end == Returned
    ensures Core(Step(Intended, srv, op).srv) <==> Lawful(Intended, srv, op)
  {
    if Lawful(Intended, srv, op) {
      StepIsSafe(srv, op);
    } else if op.WriteOp? {
      UnlawfulWriteBreaks(srv, op);
    } else if op.AcquireOp? || op.ReleaseOp? {
      UnlawfulLockingBreaks(srv, op);
    } else {
      assert op.StartOp? && !NamesOk(Step(Intended, srv, op).srv) by {
        assert op.s in Step(Intended, srv, op).srv.clients;
      }
    }
  }

  lemma StartIsGoodIff(srv: Srv, op: Op)
    requires Good(srv) && op.StartOp? && Lawful(Intended, srv, op)
    ensures Good(Step(Intended, srv, op).srv) <==> Answerable(srv, op)
  {
    var post := Step(Intended, srv, op).srv;
    if op.up {
      if op.client == "" && IsWaiting(srv, op.s) {
        var f :| HasEntry(Get(srv.queues, f), op.s);
        var w :| w in Get(srv.queues, f) && w.session == op.s;
        assert w in Get(post.queues, f) && !Known(post, w.session);
      } else {
        forall f, w | w in Get(post.queues, f) ensures Known(post, w.session) && HasHandle(post.tables, w.session, f) {
          assert w in Get(srv.queues, f) && HasEntry(Get(srv.queues, f), w.session);
        }
      }
    }
  }

  /** In a good state a request that plays by the rules is served to its end, without a failed
      assertion or an endless loop, and leaves the state good, exactly when it is answerable. */
  lemma StepIsGoodIff(srv: Srv, op: Op)
    requires Good(srv) && Lawful(Intended, srv, op)
    ensures Step(Intended, srv, op).end == Returned && Good(Step(Intended, srv, op).srv)
       <==> Answerable(srv, op)
  {
    if FromStranger(srv, op) {
      StrangersStopTheServer(Intended, srv, op);
    } else if op.AcquireOp? || op.TryAcquireOp? || op.ReleaseOp? {
      LockStepIsKept(srv, op);
    } else if op.OpenOp? || op.WriteOp? || op.DeleteOp? || op.CloseOp? {
      FileStepIsKept(srv, op);
    } else {
      SessionStepIsGoodIff(srv, op);
    }
  }

  lemma SessionStepIsGoodIff(srv: Srv, op: Op)
    requires Good(srv) && Lawful(Intended, srv, op)
    requires op.StartOp? || op.DisconnectOp? || op.LeadOp? || op.ReadOp? || op.ReopenOp?
    ensures Step(Intended, srv, op).end == Returned && Good(Step(Intended, srv, op).srv)
       <==> Answerable(srv, op)
  {
    match op
    case ReadOp(s, h, _, _) => FoundIsGood(srv, s, h);
    case StartOp(_, _, _, _) => StartIsGoodIff(srv, op);
    case ReopenOp(_, _, _, _) => ReopenIsGood(srv, op);
    case DisconnectOp(s, up) => DisconnectIsGoodIff(srv, s, up);
    case LeadOp(rows) => LeadIsGood(srv, rows);
  }

  /** On every run of lawful requests that is served to its end the state is safe. */
  lemma {:induction false} RunIsSafe(srv: Srv, ops: seq<Op>)
    requires Core(srv) && LawfulRun(Intended, srv, ops) && RunOps(Intended, srv, ops).end == Returned
    ensures Core(RunOps(Intended, srv, ops).srv)
    decreases ops
  {
    if ops != [] {
      StepIsSafe(srv, ops[0]);
      RunIsSafe(Step(Intended, srv, ops[0]).srv, ops[1..]);
    }
  }

  /** A run of lawful and answerable requests is served to its end. */
  lemma {:induction false} RunIsGood(srv: Srv, ops: seq<Op>)
    requires Good(srv) && LawfulRun(Intended, srv, ops) && AnswerableRun(Intended, srv, ops)
    ensures RunOps(Intended, srv, ops).end == Returned
    ensures Good(RunOps(Intended, srv, ops).srv)
    decreases ops
  {
    if ops != [] {
      StepIsGoodIff(srv, ops[0]);
      RunIsGood(Step(Intended, srv, ops[0]).srv, ops[1..]);
    }
  }

  /** On every run of lawful requests from the start: at most one client holds a file, it is
      the stored owner, and a file somebody waits for is locked. */
  lemma MutualExclusion(ops: seq<Op>, file: string, c: Client, d: Client)
    requires LawfulRun(Intended, START, ops) && RunOps(Intended, START, ops).end == Returned
    requires c != NO_OWNER && d != NO_OWNER
    ensures var srv := RunOps(Intended, START, ops).srv;
            && (file in GetSet(srv.held, c) <==> Owner(srv.db, file) == c)
            && (file in GetSet(srv.held, c) && file in GetSet(srv.held, d) ==> c == d)
            && (file in srv.queues ==> srv.queues[file] != [] && Owner(srv.db, file) != NO_OWNER)
  {
    StartIsGood();
    RunIsSafe(START, ops);
  }

  // ---------------------------------------------------------------- the program as written

  /** Tables stay inverse and listeners keep their handles on every run of either variant,
      whatever the requests are, as long as the server is up. */
  lemma StepIsConsistent(v: Variant, srv: Srv, op: Op)
    requires Consistent(srv) && Step(v, srv, op).end == Returned
    ensures Consistent(Step(v, srv, op).srv)
  {
    if op.OpenOp? {
      OpenIsConsistent(srv, op);
    } else if op.ReadOp? || op.WriteOp? || op.AcquireOp? || op.TryAcquireOp? {
      FoundKeeps(srv, op.s, op.h);
      match op
      case ReadOp(s, h, xid, up) => ReadFrame(srv, s, h, xid, up);
      case WriteOp(s, h, content, xid, up) => WriteFrame(srv, s, h, content, xid, up);
      case AcquireOp(s, h, xid, up) => AcquireFrame(srv, s, h, xid, up);
      case TryAcquireOp(s, h, xid, up) => TryAcquireFrame(srv, s, h, xid, up);
    } else if op.ReleaseOp? || op.DeleteOp? || op.CloseOp? {
      EndStepIsConsistent(v, srv, op);
    } else {
      SessionStepIsConsistent(v, srv, op);
    }
  }

  /** At most the lookup's change to the handle tables, and no change to listeners, sessions
      or ephemeral nodes. */
  ghost predicate OnlyLooksUp(srv: Srv, r: Res, s: Session, h: FileHandler) {
    && (r.srv.tables == Found(srv, s, h).tables || (r.srv.tables == srv.tables && r.end == Aborted))
    && r.srv.lockEv == srv.lockEv && r.srv.contentEv == srv.contentEv
    && r.srv.clients == srv.clients && r.srv.eph == srv.eph
  }

  lemma ReadFrame(srv: Srv, s: Session, h: FileHandler, xid: Xid, up: bool)
    ensures OnlyLooksUp(srv, GetContentsAndStat(srv, s, h, xid, up), s, h)
  {}

  lemma WriteFrame(srv: Srv, s: Session, h: FileHandler, content: string, xid: Xid, up: bool)
    ensures OnlyLooksUp(srv, SetContents(srv, s, h, content, xid, up), s, h)
  {}

  lemma TakenFrame(found: Srv, s: Session, file: string, db: Db, xid: Xid)
    requires Known(found, s)
    ensures var post := Taken(found, s, file, db, xid).srv;
            post.tables == found.tables && post.lockEv == found.lockEv && post.contentEv == found.contentEv
            && post.clients == found.clients && post.eph == found.eph
  {}

  lemma AcquireFrame(srv: Srv, s: Session, h: FileHandler, xid: Xid, up: bool)
    ensures OnlyLooksUp(srv, Acquire(srv, s, h, xid, up), s, h)
  {
    if Known(srv, s) {
      TakenFrame(Found(srv, s, h), s, h.file, Apply(srv.db, Lock(h.file, h.inst, srv.clients[s])).0, xid);
    }
  }

  lemma TryAcquireFrame(srv: Srv, s: Session, h: FileHandler, xid: Xid, up: bool)
    ensures OnlyLooksUp(srv, TryAcquire(srv, s, h, xid, up), s, h)
  {
    if Known(srv, s) {
      TakenFrame(Found(srv, s, h), s, h.file, Apply(srv.db, Lock(h.file, h.inst, srv.clients[s])).0, xid);
    }
  }

  lemma EndStepIsConsistent(v: Variant, srv: Srv, op: Op)
    requires Consistent(srv) && Step(v, srv, op).end == Returned
    requires op.ReleaseOp? || op.DeleteOp? || op.CloseOp?
    ensures Consistent(Step(v, srv, op).srv)
  {
    if op.ReleaseOp? {
      ReleaseKeeps(v, srv, op.s, op.h, op.xid, op.up);
    } else if op.DeleteOp? {
      DeleteKeeps(srv, op.s, op.h, op.xid, op.up);
    } else {
      CloseKeeps(v, srv, op.s, op.h, op.xid, op.up);
    }
  }

  lemma SessionStepIsConsistent(v: Variant, srv: Srv, op: Op)
    requires Consistent(srv) && Step(v, srv, op).end == Returned
    requires op.StartOp? || op.ReopenOp? || op.DisconnectOp? || op.LeadOp?
    ensures Consistent(Step(v, srv, op).srv)
  {
    if op.ReopenOp? {
      RegisteredKeeps(srv, op.s, op.h, op.mode);
    } else if op.DisconnectOp? {
      CloseAllKeeps(v, srv, op.s, Get(srv.tables.bySession, op.s), op.up);
    }
  }

  lemma OpenIsConsistent(srv: Srv, op: Op)
    requires Consistent(srv) && op.OpenOp?
    ensures Consistent(Step(Intended, srv, op).srv)
  {
    var creates := Has(op.mode, CREATE_DIRECTORY) || Has(op.mode, CREATE_FILE);
    var cmd := if creates then Create(op.file, Has(op.mode, CREATE_DIRECTORY)) else Open(op.file);
    var (db, r) := Apply(srv.db, cmd);
    if r.Number? {
      var h := FileHandler(Magic(op.file, r.inst, Has(op.mode, WRITE)), op.masterSeq, op.file, r.inst,
                           Has(op.mode, WRITE));
      RegisteredKeeps(srv.(db := db), op.s, h, op.mode);
    }
  }

  lemma {:induction false} RunIsConsistent(v: Variant, srv: Srv, ops: seq<Op>)
    requires Consistent(srv) && RunOps(v, srv, ops).end == Returned
    ensures Consistent(RunOps(v, srv, ops).srv)
    decreases ops
  {
    if ops != [] {
      StepIsConsistent(v, srv, ops[0]);
      RunIsConsistent(v, Step(v, srv, ops[0]).srv, ops[1..]);
    }
  }

  /** While nobody waits the program as written does what the repaired one does, and nobody
      comes to wait but through an acquire. */
  lemma SameWithoutWaiters(srv: Srv, op: Op)
    requires srv.queues == map[] && !op.AcquireOp?
    ensures Step(AsWritten, srv, op) == Step(Intended, srv, op)
    ensures Step(AsWritten, srv, op).srv.queues == map[]
  {
    if op.CloseOp? {
      SameClose(srv, op.s, op.h, op.xid, op.up);
    } else if op.DisconnectOp? {
      SameCloseAll(srv, op.s, Get(srv.tables.bySession, op.s), op.up);
    } else if op.ReleaseOp? {
      SameRelease(srv, op.s, op.h, op.xid, op.up);
    } else if op.DeleteOp? {
      SameDelete(srv, op.s, op.h, op.xid, op.up);
    }
  }

  lemma SameRelease(srv: Srv, s: Session, h: FileHandler, xid: Xid, up: bool)
    requires srv.queues == map[]
    ensures Release(AsWritten, srv, s, h, xid, up) == Release(Intended, srv, s, h, xid, up)
    ensures Release(AsWritten, srv, s, h, xid, up).srv.queues == map[]
  {}

  lemma SameDelete(srv: Srv, s: Session, h: FileHandler, xid: Xid, up: bool)
    requires srv.queues == map[]
    ensures FileDelete(srv, s, h, xid, up).srv.queues == map[]
  {}

  lemma SameForget(srv: Srv, s: Session, fd: Fd)
    requires srv.queues == map[]
    ensures Forget(AsWritten, srv, s, fd) == Forget(Intended, srv, s, fd)
    ensures Forget(AsWritten, srv, s, fd).srv.queues == map[]
  {}

  lemma SameLetGo(srv: Srv, s: Session, fd: Fd, xid: Xid, up: bool)
    requires srv.queues == map[]
    ensures LetGo(AsWritten, srv, s, fd, xid, up) == LetGo(Intended, srv, s, fd, xid, up)
    ensures LetGo(AsWritten, srv, s, fd, xid, up).srv.queues == map[]
  {
    SameForget(srv, s, fd);
    SameDelete(srv, s, fd.h, NO_REPLY, up);
  }

  lemma SameReclaim(srv: Srv, s: Session, h: FileHandler, up: bool)
    requires srv.queues == map[] && Known(srv, s)
    ensures Reclaim(AsWritten, srv, s, h, up) == Reclaim(Intended, srv, s, h, up)
    ensures Reclaim(AsWritten, srv, s, h, up).srv.queues == map[]
  {
    SameRelease(srv, s, h, NO_REPLY, up);
  }

  lemma SameClose(srv: Srv, s: Session, h: FileHandler, xid: Xid, up: bool)
    requires srv.queues == map[]
    ensures FileClose(AsWritten, srv, s, h, xid, up) == FileClose(Intended, srv, s, h, xid, up)
    ensures FileClose(AsWritten, srv, s, h, xid, up).srv.queues == map[]
  {
    if Known(srv, s) {
      var found := Found(srv, s, h);
      SameReclaim(found, s, h, up);
      SameLetGo(Reclaim(AsWritten, found, s, h, up).srv, s, Find(srv.tables, s, h).1, xid, up);
    }
  }

  lemma {:induction false} SameCloseAll(srv: Srv, s: Session, fds: seq<Fd>, up: bool)
    requires srv.queues == map[]
    ensures CloseAll(AsWritten, srv, s, fds, up) == CloseAll(Intended, srv, s, fds, up)
    ensures CloseAll(AsWritten, srv, s, fds, up).srv.queues == map[]
    decreases fds
  {
    if fds != [] {
      SameClose(srv, s, fds[0].h, NO_REPLY, up);
      SameCloseAll(FileClose(AsWritten, srv, s, fds[0].h, NO_REPLY, up).srv, s, fds[1..], up);
    }
  }

  /** As written, the service is safe and is served to its end on every lawful run that locks
      only with tryAcquire and whose sessions introduce themselves: nobody ever waits. */
  lemma {:induction false} TryAcquireRunsAreSafe(srv: Srv, ops: seq<Op>)
    requires Good(srv) && srv.queues == map[]
    requires LawfulRun(AsWritten, srv, ops) && IntroducedRun(AsWritten, srv, ops)
    requires forall op :: op in ops ==> !op.AcquireOp?
    ensures RunOps(AsWritten, srv, ops).end == Returned
    ensures Good(RunOps(AsWritten, srv, ops).srv) && RunOps(AsWritten, srv, ops).srv.queues == map[]
    decreases ops
  {
    if ops != [] {
      SameWithoutWaiters(srv, ops[0]);
      NobodyWaits(srv, ops[0]);
      StepIsGoodIff(srv, ops[0]);
      TryAcquireRunsAreSafe(Step(AsWritten, srv, ops[0]).srv, ops[1..]);
    }
  }

  /** The session has introduced itself, where the request needs that. */
  predicate Introduced(srv: Srv, op: Op) {
    && !FromStranger(srv, op)
    && (op.DisconnectOp? ==> Get(srv.tables.bySession, op.s) == [] || Known(srv, op.s))
  }

  ghost predicate IntroducedRun(v: Variant, srv: Srv, ops: seq<Op>)
    decreases ops
  {
    ops != [] ==>
      Introduced(srv, ops[0])
      && (Step(v, srv, ops[0]).end == Returned ==> IntroducedRun(v, Step(v, srv, ops[0]).srv, ops[1..]))
  }

  lemma NobodyWaits(srv: Srv, op: Op)
    requires srv.queues == map[] && Introduced(srv, op) && Lawful(AsWritten, srv, op)
    ensures Answerable(srv, op) && Lawful(Intended, srv, op)
  {}
}
