/**
 Ephemeral nodes: an open that creates one ties it to the client, and a close through its
 handle deletes it, however much later, unless the lock or the directory is in use.
 */
module Ephemerals {
  import opened Text
  import opened Database
  import History
  import opened Handles
  import opened Service
  import Registrations
  import opened LockSafety
  import opened Requests
  import opened Disconnecting
  import opened Runs
  import LiveHandles
  import ServedStore
  import opened Clients

  // ---------------------------------------------------------------- closing

  /** A node that is ephemeral for the client, not locked and empty goes with any handle on it. */
  lemma CloseDeletesEphemeral(v: Variant, srv: Srv, s: Session, h: FileHandler, xid: Xid)
    requires Known(srv, s) && h.file in GetSet(srv.eph, srv.clients[s])
    requires h.file !in GetSet(srv.held, srv.clients[s])
    requires CanDelete(srv.db, h.file, h.inst) && ParentPresent(srv.db, h.file)
    ensures h.file !in FileClose(v, srv, s, h, xid, true).srv.db.fs
  {
    var found, fd := Found(srv, s, h), Find(srv.tables, s, h).1;
    assert Reclaim(v, found, s, h, true) == Done(found, []);
    assert FileClose(v, srv, s, h, xid, true).srv == LetGo(v, found, s, fd, xid, true).srv;
    assert LetGo(v, found, s, fd, xid, true).srv == FileDelete(found, s, h, NO_REPLY, true).srv;
  }

  /** What a close finds after it has given up its lock: as written nobody owns the node, with
      the repair the next in line does, if any. A lock the client does not hold is left alone. */
  predicate FreeAfter(v: Variant, srv: Srv, client: Client, file: string) {
    if file in GetSet(srv.held, client)
    then v.AsWritten? || NextClient(srv, file).None? || NextClient(srv, file) == Some(NO_OWNER)
    else Owner(srv.db, file) == NO_OWNER
  }

  /** The lock is free by then, and a directory is empty. */
  predicate CanGo(v: Variant, srv: Srv, client: Client, file: string) {
    && file in srv.db.fs && FreeAfter(v, srv, client, file)
    && (srv.db.fs[file].isDir ==> srv.db.fs[file].content == "")
  }

  lemma GrantedNode(db: Db, file: string, inst: nat, client: Client)
    requires Live(db, file, inst)
    ensures var post := Apply(Apply(db, Unlock(file, inst)).0, Lock(file, inst, client)).0;
            && Live(post, file, inst) && post.fs[file].owner == client
            && post.fs[file].content == db.fs[file].content && post.fs[file].isDir == db.fs[file].isDir
  {}

  lemma FreedNode(v: Variant, srv: Srv, s: Session, h: FileHandler)
    requires Known(srv, s) && Live(srv.db, h.file, h.inst)
    ensures var db1 := Apply(srv.db, Unlock(h.file, h.inst)).0;
            var mid, next := Freed(v, srv.(db := db1), s, h, NO_REPLY).srv.db, NextClient(srv, h.file);
            && Live(mid, h.file, h.inst)
            && (mid.fs[h.file].owner == NO_OWNER <==> v.AsWritten? || next.None? || next == Some(NO_OWNER))
            && mid.fs[h.file].content == srv.db.fs[h.file].content
            && mid.fs[h.file].isDir == srv.db.fs[h.file].isDir
  {
    FreedDb(v, srv.(db := Apply(srv.db, Unlock(h.file, h.inst)).0), s, h, NO_REPLY);
    if NextClient(srv, h.file).Some? {
      GrantedNode(srv.db, h.file, h.inst, NextClient(srv, h.file).value);
    }
  }

  /** The node between the two halves of a close. */
  lemma ReclaimedNode(v: Variant, srv: Srv, s: Session, h: FileHandler)
    requires Known(srv, s) && Live(srv.db, h.file, h.inst)
    requires Reclaim(v, Found(srv, s, h), s, h, true).end == Returned
    ensures var mid := Reclaim(v, Found(srv, s, h), s, h, true).srv;
            && Live(mid.db, h.file, h.inst)
            && (CanDelete(mid.db, h.file, h.inst) <==> CanGo(v, srv, srv.clients[s], h.file))
  {
    var found := Found(srv, s, h);
    if h.file in GetSet(srv.held, srv.clients[s]) {
      FreedNode(v, Found(found, s, h), s, h);
    }
  }

  lemma LetGoDeletesIff(v: Variant, mid: Srv, s: Session, fd: Fd, xid: Xid)
    requires Known(mid, s) && IsEphemeral(mid, s, fd.h.file) && LetGo(v, mid, s, fd, xid, true).end == Returned
    ensures Live(LetGo(v, mid, s, fd, xid, true).srv.db, fd.h.file, fd.h.inst)
       <==> Live(mid.db, fd.h.file, fd.h.inst) && !CanDelete(mid.db, fd.h.file, fd.h.inst)
  {
    DeleteShape(mid, s, fd.h, NO_REPLY, true);
    assert LetGo(v, mid, s, fd, xid, true).srv.db == FileDelete(mid, s, fd.h, NO_REPLY, true).srv.db;
  }

  /** On any state: a close that is served, through a handle on a node that is ephemeral for the
      client, deletes the node exactly when the node can go; a stale handle deletes nothing. */
  lemma CloseDeletesIff(v: Variant, srv: Srv, s: Session, h: FileHandler, xid: Xid)
    requires Known(srv, s) && IsEphemeral(srv, s, h.file)
    requires FileClose(v, srv, s, h, xid, true).end == Returned
    ensures Live(FileClose(v, srv, s, h, xid, true).srv.db, h.file, h.inst)
       <==> Live(srv.db, h.file, h.inst) && !CanGo(v, srv, srv.clients[s], h.file)
  {
    var mid, fd := Reclaim(v, Found(srv, s, h), s, h, true).srv, Find(srv.tables, s, h).1;
    assert FileClose(v, srv, s, h, xid, true).srv == LetGo(v, mid, s, fd, xid, true).srv
           && LetGo(v, mid, s, fd, xid, true).end == Returned by {
      LiveHandles.CloseIsTwoHalves(v, srv, s, h, xid, true);
    }
    assert Known(mid, s) && IsEphemeral(mid, s, h.file) by { LiveHandles.ReclaimTables(v, srv, s, h, true); }
    LetGoDeletesIff(v, mid, s, fd, xid);
    assert Live(srv.db, h.file, h.inst) <==> Live(mid.db, h.file, h.inst) by {
      LiveHandles.ReclaimStoreAlike(v, Found(srv, s, h), s, h, true);
    }
    if Live(srv.db, h.file, h.inst) {
      ReclaimedNode(v, srv, s, h);
    }
  }

  lemma LetGoRemoves(v: Variant, mid: Srv, s: Session, fd: Fd, xid: Xid, up: bool, f: string)
    requires Known(mid, s) && f in mid.db.fs && LetGo(v, mid, s, fd, xid, up).end == Returned
    ensures f !in LetGo(v, mid, s, fd, xid, up).srv.db.fs
       <==> f == fd.h.file && up && IsEphemeral(mid, s, f) && CanDelete(mid.db, f, fd.h.inst)
  {
    if IsEphemeral(mid, s, fd.h.file) {
      assert LetGo(v, mid, s, fd, xid, up).srv.db == FileDelete(mid, s, fd.h, NO_REPLY, up).srv.db;
      DeleteShape(mid, s, fd.h, NO_REPLY, up);
      if f != fd.h.file {
        DeletedInst(mid.db, fd.h.file, fd.h.inst, f);
      }
    } else {
      assert LetGo(v, mid, s, fd, xid, up).srv.db == mid.db by { ForgetShape(v, mid, s, fd); }
    }
  }

  /** On any state: of all nodes a close that is served removes exactly the one it names, if that
      can go and its name is among the client's ephemeral ones. Nothing is asked about how that
      very node was created. */
  lemma CloseRemovesIff(v: Variant, srv: Srv, s: Session, h: FileHandler, xid: Xid, up: bool, f: string)
    requires Known(srv, s) && f in srv.db.fs
    requires FileClose(v, srv, s, h, xid, up).end == Returned
    ensures f !in FileClose(v, srv, s, h, xid, up).srv.db.fs
       <==> && f == h.file && up && IsEphemeral(srv, s, f)
            && Live(srv.db, f, h.inst) && CanGo(v, srv, srv.clients[s], f)
  {
    var mid, fd := Reclaim(v, Found(srv, s, h), s, h, up).srv, Find(srv.tables, s, h).1;
    assert FileClose(v, srv, s, h, xid, up).srv == LetGo(v, mid, s, fd, xid, up).srv
           && LetGo(v, mid, s, fd, xid, up).end == Returned by {
      LiveHandles.CloseIsTwoHalves(v, srv, s, h, xid, up);
    }
    LiveHandles.ReclaimTables(v, srv, s, h, up);
    LiveHandles.ReclaimStoreAlike(v, Found(srv, s, h), s, h, up);
    LiveHandles.AlikeNames(srv.db, mid.db, f);
    LetGoRemoves(v, mid, s, fd, xid, up, f);
    if f == h.file && up && Live(srv.db, f, h.inst) {
      ReclaimedNode(v, srv, s, h);
    }
  }

  /** Which node a delete or a close removes, read off before it. */
  predicate Removes(v: Variant, srv: Srv, op: Op, f: string)
    requires op.DeleteOp? || op.CloseOp?
  {
    && op.up && op.h.file == f && Live(srv.db, f, op.h.inst)
    && if op.DeleteOp? then CanDelete(srv.db, f, op.h.inst)
       else Known(srv, op.s) && IsEphemeral(srv, op.s, f) && CanGo(v, srv, srv.clients[op.s], f)
  }

  lemma DeleteRemovesIff(srv: Srv, s: Session, h: FileHandler, xid: Xid, up: bool, f: string)
    requires f in srv.db.fs && FileDelete(srv, s, h, xid, up).end == Returned
    ensures f !in FileDelete(srv, s, h, xid, up).srv.db.fs <==> up && h.file == f && CanDelete(srv.db, f, h.inst)
  {
    DeleteShape(srv, s, h, xid, up);
    DeletedNames(srv.db, h.file, h.inst);
  }

  /** So the deletion that ends a subscription can be read off before the request. */
  lemma GoneIff(v: Variant, srv: Srv, op: Op, f: string)
    requires (op.DeleteOp? || op.CloseOp?) && f in srv.db.fs && Step(v, srv, op).end == Returned
    ensures Gone(srv, Step(v, srv, op).srv, f) <==> Removes(v, srv, op, f)
  {
    if op.DeleteOp? {
      DeleteRemovesIff(srv, op.s, op.h, op.xid, op.up, f);
    } else {
      CloseRemovesIff(v, srv, op.s, op.h, op.xid, op.up, f);
    }
  }

  /** The lock is free, or the client's own with nobody to hand it to; a directory is empty. */
  predicate IsIdle(srv: Srv, client: Client, file: string) {
    && file in srv.db.fs
    && (srv.db.fs[file].owner == NO_OWNER || (srv.db.fs[file].owner == client && file !in srv.queues))
    && (srv.db.fs[file].isDir ==> srv.db.fs[file].content == "")
  }

  /** While held sets mirror the stored owners and waiters are known, that is what it comes to
      with the repairs. */
  lemma CanGoIffIdle(srv: Srv, s: Session, file: string)
    requires Good(srv) && Known(srv, s)
    ensures CanGo(Intended, srv, srv.clients[s], file) <==> IsIdle(srv, srv.clients[s], file)
  {
    assert file in GetSet(srv.held, srv.clients[s]) <==> Owner(srv.db, file) == srv.clients[s];
    HeadsAreKnown(srv, file);
  }

  // ---------------------------------------------------------------- however much later

  /** The node, while it is there, is ephemeral for the session's client. */
  predicate Tied(srv: Srv, s: Session, client: Client, file: string, inst: nat) {
    && s in srv.clients && srv.clients[s] == client && inst <= srv.db.maxInst
    && (Live(srv.db, file, inst) ==> file in GetSet(srv.eph, client))
  }

  /** A request that starts the session anew, drops it or changes the leader. */
  predicate Unties(op: Op, s: Session) {
    (op.StartOp? && op.s == s) || (op.DisconnectOp? && op.s == s) || op.LeadOp?
  }

  lemma NumbersGrow(db: Db, cmd: Cmd)
    ensures db.maxInst <= Apply(db, cmd).0.maxInst
  {}

  lemma {:induction false} NumbersGrowOnRuns(db: Db, cmds: seq<Cmd>)
    ensures db.maxInst <= Run(db, cmds).maxInst
    decreases cmds
  {
    if cmds != [] {
      NumbersGrow(db, cmds[0]);
      NumbersGrowOnRuns(Apply(db, cmds[0]).0, cmds[1..]);
    }
  }

  /** Commands keep a retired pair retired, so the tie holds as long as the mark does. */
  lemma MarkKeepsTied(srv: Srv, post: Srv, s: Session, client: Client, file: string, inst: nat)
    requires Tied(srv, s, client, file, inst) && ServedStore.Reaches(srv.db, post.db)
    requires s in post.clients && post.clients[s] == client
    requires file in GetSet(srv.eph, client) ==> file in GetSet(post.eph, client)
    ensures Tied(post, s, client, file, inst)
  {
    var cmds :| Run(srv.db, cmds) == post.db;
    NumbersGrowOnRuns(srv.db, cmds);
    if !Live(srv.db, file, inst) {
      History.RetiredForever(srv.db, cmds, file, inst);
    }
  }

  lemma DeleteKeepsTied(srv: Srv, x: Session, h: FileHandler, xid: Xid, up: bool,
                        s: Session, client: Client, file: string, inst: nat)
    requires Tied(srv, s, client, file, inst) && Known(srv, x)
    ensures Tied(FileDelete(srv, x, h, xid, up).srv, s, client, file, inst)
  {
    var post := FileDelete(srv, x, h, xid, up).srv;
    DeleteShape(srv, x, h, xid, up);
    if up && Apply(srv.db, Delete(h.file, h.inst)).1 == Ok && h.file == file {
      assert Live(srv.db, file, inst) ==> h.inst == inst;
      assert !Live(post.db, file, inst);
    } else {
      ServedStore.DeleteReaches(srv, x, h, xid, up);
      assert file in GetSet(srv.eph, client) ==> file in GetSet(post.eph, client);
      MarkKeepsTied(srv, post, s, client, file, inst);
    }
  }

  lemma LetGoKeepsTied(v: Variant, srv: Srv, x: Session, fd: Fd, xid: Xid, up: bool,
                       s: Session, client: Client, file: string, inst: nat)
    requires Tied(srv, s, client, file, inst) && Known(srv, x)
    ensures Tied(LetGo(v, srv, x, fd, xid, up).srv, s, client, file, inst)
  {
    if IsEphemeral(srv, x, fd.h.file) {
      DeleteKeepsTied(srv, x, fd.h, NO_REPLY, up, s, client, file, inst);
    } else {
      ForgetShape(v, srv, x, fd);
    }
  }

  lemma CloseKeepsTied(v: Variant, srv: Srv, x: Session, h: FileHandler, xid: Xid, up: bool,
                       s: Session, client: Client, file: string, inst: nat)
    requires Tied(srv, s, client, file, inst) && Known(srv, x)
    requires FileClose(v, srv, x, h, xid, up).end == Returned
    ensures Tied(FileClose(v, srv, x, h, xid, up).srv, s, client, file, inst)
    ensures FileClose(v, srv, x, h, xid, up).srv.clients == srv.clients
  {
    var mid, fd := Reclaim(v, Found(srv, x, h), x, h, up).srv, Find(srv.tables, x, h).1;
    LiveHandles.CloseIsTwoHalves(v, srv, x, h, xid, up);
    LiveHandles.ReclaimTables(v, srv, x, h, up);
    LiveHandles.ReclaimStoreAlike(v, Found(srv, x, h), x, h, up);
    ServedStore.ReleaseReaches(v, Found(srv, x, h), x, h, NO_REPLY, up);
    ServedStore.ReachesOne(srv.db, States);
    MarkKeepsTied(srv, mid, s, client, file, inst);
    LetGoKeepsTied(v, mid, x, fd, xid, up, s, client, file, inst);
    DeleteShape(mid, x, h, NO_REPLY, up);
    ForgetShape(v, mid, x, fd);
  }

  lemma {:induction false} CloseAllKeepsTied(v: Variant, srv: Srv, x: Session, fds: seq<Fd>, up: bool,
                                             s: Session, client: Client, file: string, inst: nat)
    requires Tied(srv, s, client, file, inst) && (fds == [] || Known(srv, x))
    requires CloseAll(v, srv, x, fds, up).end == Returned
    ensures Tied(CloseAll(v, srv, x, fds, up).srv, s, client, file, inst)
    ensures CloseAll(v, srv, x, fds, up).srv.clients == srv.clients
    decreases fds
  {
    if fds != [] {
      CloseKeepsTied(v, srv, x, fds[0].h, NO_REPLY, up, s, client, file, inst);
      CloseAllKeepsTied(v, FileClose(v, srv, x, fds[0].h, NO_REPLY, up).srv, x, fds[1..], up, s, client, file, inst);
    }
  }

  lemma OpenMarksStay(srv: Srv, s: Session, file: string, mode: nat, masterSeq: nat, xid: Xid, up: bool, client: Client)
    ensures var post := FileOpen(srv, s, file, mode, masterSeq, xid, up).srv;
            GetSet(srv.eph, client) <= GetSet(post.eph, client) && post.clients == srv.clients
  {}

  lemma HandleMarksStay(v: Variant, srv: Srv, op: Op)
    requires op.ReadOp? || op.WriteOp? || op.AcquireOp? || op.TryAcquireOp? || op.ReleaseOp?
    ensures Step(v, srv, op).srv.eph == srv.eph && Step(v, srv, op).srv.clients == srv.clients
  {
    match op
    case ReadOp(s, h, xid, up) => ReadFrame(srv, s, h, xid, up);
    case WriteOp(s, h, content, xid, up) => WriteFrame(srv, s, h, content, xid, up);
    case AcquireOp(s, h, xid, up) => AcquireFrame(srv, s, h, xid, up);
    case TryAcquireOp(s, h, xid, up) => TryAcquireFrame(srv, s, h, xid, up);
    case ReleaseOp(s, h, xid, up) => if Known(srv, s) { Registrations.ReleaseFrame(v, srv, s, h, xid, up); }
  }

  /** Requests that delete nothing take nothing from the ephemeral sets. */
  lemma MarksStay(v: Variant, srv: Srv, op: Op, client: Client)
    requires !op.DeleteOp? && !op.CloseOp? && !op.DisconnectOp? && !op.LeadOp?
    ensures GetSet(srv.eph, client) <= GetSet(Step(v, srv, op).srv.eph, client)
    ensures Step(v, srv, op).srv.clients
         == if op.StartOp? && op.up then srv.clients[op.s := op.client] else srv.clients
  {
    match op
    case OpenOp(s, file, mode, masterSeq, xid, up) => OpenMarksStay(srv, s, file, mode, masterSeq, xid, up, client);
    case StartOp(_, _, _, _) =>
    case ReopenOp(_, _, _, _) =>
    case _ => HandleMarksStay(v, srv, op);
  }

  lemma StepKeepsTied(v: Variant, srv: Srv, op: Op, s: Session, client: Client, file: string, inst: nat)
    requires Tied(srv, s, client, file, inst) && !Unties(op, s) && Step(v, srv, op).end == Returned
    ensures Tied(Step(v, srv, op).srv, s, client, file, inst)
  {
    if op.DeleteOp? {
      DeleteKeepsTied(srv, op.s, op.h, op.xid, op.up, s, client, file, inst);
    } else if op.CloseOp? {
      CloseKeepsTied(v, srv, op.s, op.h, op.xid, op.up, s, client, file, inst);
    } else if op.DisconnectOp? {
      var fds := Get(srv.tables.bySession, op.s);
      assert CloseAll(v, srv, op.s, fds, op.up).end == Returned;
      assert fds == [] || Known(srv, op.s);
      CloseAllKeepsTied(v, srv, op.s, fds, op.up, s, client, file, inst);
    } else {
      MarksStay(v, srv, op, client);
      ServedStore.StepReaches(v, srv, op);
      MarkKeepsTied(srv, Step(v, srv, op).srv, s, client, file, inst);
    }
  }

  predicate StaysTied(ops: seq<Op>, s: Session) {
    forall op :: op in ops ==> !Unties(op, s)
  }

  lemma {:induction false} RunKeepsTied(v: Variant, srv: Srv, ops: seq<Op>, s: Session, client: Client,
                                        file: string, inst: nat)
    requires Tied(srv, s, client, file, inst) && StaysTied(ops, s) && RunOps(v, srv, ops).end == Returned
    ensures Tied(RunOps(v, srv, ops).srv, s, client, file, inst)
    decreases ops
  {
    if ops != [] {
      StepKeepsTied(v, srv, ops[0], s, client, file, inst);
      RunKeepsTied(v, Step(v, srv, ops[0]).srv, ops[1..], s, client, file, inst);
    }
  }

  lemma OpenedEphemeral(srv: Srv, s: Session, file: string, mode: nat, masterSeq: nat, xid: Xid, h: FileHandler)
    requires Known(srv, s) && OpenCommand(file, mode).Create? && Has(mode, EPHEMERAL)
    requires Reply(s, xid, Opened(h)) in FileOpen(srv, s, file, mode, masterSeq, xid, true).out
    ensures var post := FileOpen(srv, s, file, mode, masterSeq, xid, true).srv;
            h.file == file && Live(post.db, file, h.inst) && Tied(post, s, srv.clients[s], file, h.inst)
  {
    OpenWentThrough(srv, s, file, mode, masterSeq, xid, h);
    OpenGivesWorkingHandle(srv, s, file, mode, masterSeq, xid, h);
    NumbersGrow(srv.db, OpenCommand(file, mode));
  }

  /** With the repairs: a node that was created ephemeral goes when the session closes the handle
      the open gave, after any lawful requests of anybody that leave the session and the leader in
      place: exactly when its lock is free or the client's with nobody waiting, and, for a
      directory, nothing is in it. It is that very node, not a later one of its name. */
  lemma EphemeralGoesWithHandle(srv: Srv, s: Session, file: string, mode: nat, masterSeq: nat, xid: Xid,
                                h: FileHandler, ops: seq<Op>, xid': Xid)
    requires Good(srv) && Known(srv, s) && OpenCommand(file, mode).Create? && Has(mode, EPHEMERAL)
    requires Reply(s, xid, Opened(h)) in FileOpen(srv, s, file, mode, masterSeq, xid, true).out
    requires StaysTied(ops, s)
    requires LawfulRun(Intended, FileOpen(srv, s, file, mode, masterSeq, xid, true).srv, ops)
    requires AnswerableRun(Intended, FileOpen(srv, s, file, mode, masterSeq, xid, true).srv, ops)
    ensures var later := RunOps(Intended, FileOpen(srv, s, file, mode, masterSeq, xid, true).srv, ops).srv;
            Live(FileClose(Intended, later, s, h, xid', true).srv.db, file, h.inst)
            <==> Live(later.db, file, h.inst) && !IsIdle(later, srv.clients[s], file)
  {
    var post := FileOpen(srv, s, file, mode, masterSeq, xid, true).srv;
    OpenIsGood(srv, OpenOp(s, file, mode, masterSeq, xid, true));
    OpenedEphemeral(srv, s, file, mode, masterSeq, xid, h);
    RunIsGood(post, ops);
    RunKeepsTied(Intended, post, ops, s, srv.clients[s], file, h.inst);
    ClosedTied(RunOps(Intended, post, ops).srv, s, h, xid');
  }

  lemma ClosedTied(srv: Srv, s: Session, h: FileHandler, xid: Xid)
    requires Good(srv) && Known(srv, s) && Tied(srv, s, srv.clients[s], h.file, h.inst)
    ensures Live(FileClose(Intended, srv, s, h, xid, true).srv.db, h.file, h.inst)
       <==> Live(srv.db, h.file, h.inst) && !IsIdle(srv, srv.clients[s], h.file)
  {
    CloseIsGood(srv, s, h, xid, true);
    if Live(srv.db, h.file, h.inst) {
      CloseDeletesIff(Intended, srv, s, h, xid);
      CanGoIffIdle(srv, s, h.file);
    } else {
      CloseKeepsTied(Intended, srv, s, h, xid, true, s, srv.clients[s], h.file, h.inst);
      ServedStore.CloseReaches(Intended, srv, s, h, xid, true);
      var cmds :| Run(srv.db, cmds) == FileClose(Intended, srv, s, h, xid, true).srv.db;
      History.RetiredForever(srv.db, cmds, h.file, h.inst);
    }
  }
}
