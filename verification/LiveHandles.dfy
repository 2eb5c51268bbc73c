/**
 Handles in the tables name live nodes exactly as long as requests bring handles that do:
 the lookup takes unknown handles on trust.
 */
module LiveHandles {
  import opened Database
  import opened Handles
  import opened Service
  import opened Registrations
  import opened LockSafety
  import opened Requests
  import opened Disconnecting
  import opened Runs

  ghost predicate AllLive(t: Tables, db: Db) {
    forall s, fd {:trigger fd in Get(t.bySession, s)} ::
      fd in Get(t.bySession, s) ==> Live(db, fd.h.file, fd.h.inst)
  }

  /** The lookup keeps all handles live exactly when the handle brought is live. */
  lemma LookupKeepsLiveIff(t: Tables, db: Db, s: Session, h: FileHandler)
    requires AllLive(t, db)
    ensures AllLive(Find(t, s, h).0, db) <==> Live(db, h.file, h.inst)
  {
    var (r, fd) := Find(t, s, h);
    assert fd in Get(r.bySession, s);
    if Live(db, h.file, h.inst) {
      forall x, g | g in Get(r.bySession, x) ensures Live(db, g.h.file, g.h.inst) {
        assert g in Get(t.bySession, x) || g == fd;
      }
    }
  }

  /** The same pairs of name and number are live. */
  ghost predicate Alike(db: Db, post: Db) {
    forall f, i {:trigger Live(db, f, i)} {:trigger Live(post, f, i)} :: Live(db, f, i) <==> Live(post, f, i)
  }

  lemma AlikeNames(db: Db, post: Db, f: string)
    requires Alike(db, post)
    ensures f in post.fs <==> f in db.fs
  {
    if f in db.fs { assert Live(db, f, db.fs[f].inst) && Live(post, f, db.fs[f].inst); }
    if f in post.fs { assert Live(post, f, post.fs[f].inst) && Live(db, f, post.fs[f].inst); }
  }

  lemma StoreStaysAlike(db: Db, cmd: Cmd)
    requires !cmd.Create? && (!cmd.Delete? || Apply(db, cmd).1 != Ok)
    ensures Alike(db, Apply(db, cmd).0)
  {}

  lemma CreateKeepsLive(t: Tables, db: Db, cmd: Cmd)
    requires AllLive(t, db) && (cmd.Create? || cmd.Open?)
    ensures AllLive(t, Apply(db, cmd).0)
  {}

  lemma AddKeepsLiveIff(t: Tables, db: Db, s: Session, h: FileHandler)
    requires AllLive(t, db)
    ensures AllLive(Add(t, s, h), db) <==> Live(db, h.file, h.inst)
  {
    var r := Add(t, s, h);
    assert Fd(t.nextId, h) in Get(r.bySession, s);
    if Live(db, h.file, h.inst) {
      forall x, g | g in Get(r.bySession, x) ensures Live(db, g.h.file, g.h.inst) {
        assert g in Get(t.bySession, x) || g == Fd(t.nextId, h);
      }
    }
  }

  lemma AlikeKeepsLiveIff(t: Tables, db: Db, post: Db)
    requires Alike(db, post)
    ensures AllLive(t, post) <==> AllLive(t, db)
  {
    if AllLive(t, db) {
      forall x, g | g in Get(t.bySession, x) ensures Live(post, g.h.file, g.h.inst) {
        assert Live(db, g.h.file, g.h.inst);
      }
    }
    if AllLive(t, post) {
      forall x, g | g in Get(t.bySession, x) ensures Live(db, g.h.file, g.h.inst) {
        assert Live(post, g.h.file, g.h.inst);
      }
    }
  }

  /** A stale handle of a close is gone again when the close is done. */
  lemma DropUndoesLookup(t: Tables, db: Db, s: Session, h: FileHandler)
    requires AllLive(t, db)
    ensures AllLive(Drop(Find(t, s, h).0, s, Find(t, s, h).1), db)
  {
    var (found, fd) := Find(t, s, h);
    var r := Drop(found, s, fd);
    forall x, g | g in Get(r.bySession, x) ensures Live(db, g.h.file, g.h.inst) {
      assert g in Get(found.bySession, x) && (x != s || g != fd);
      if FirstMatch(Get(t.bySession, s), h).None? {
        assert Get(found.bySession, x) == if x == s then Get(t.bySession, x) + [fd] else Get(t.bySession, x);
      }
      assert g in Get(t.bySession, x);
    }
  }

  /** Deleting a node takes exactly its handles out of the tables. */
  lemma DeleteKeepsLive(t: Tables, db: Db, file: string, inst: nat)
    requires Inverse(t) && Apply(db, Delete(file, inst)).1 == Ok
    requires forall s, fd {:trigger fd in Get(t.bySession, s)} ::
               fd in Get(t.bySession, s) && fd.h.file != file ==> Live(db, fd.h.file, fd.h.inst)
    ensures AllLive(DropFile(t, file), Apply(db, Delete(file, inst)).0)
  {
    var r := DropFile(t, file);
    DeletedLive(db, file, inst);
    forall x, g | g in Get(r.bySession, x)
      ensures Live(Apply(db, Delete(file, inst)).0, g.h.file, g.h.inst)
    {
      DropFileMembers(t, file, x);
      assert Live(db, g.h.file, g.h.inst);
    }
  }

  /** The handle a request brings names a live node. A close may also bring a stale handle
      to a file that is not ephemeral for its client. */
  predicate BringsLive(srv: Srv, op: Op) {
    match op
    case ReadOp(_, h, _, _) => Live(srv.db, h.file, h.inst)
    case WriteOp(_, h, _, _, _) => Live(srv.db, h.file, h.inst)
    case AcquireOp(_, h, _, _) => Live(srv.db, h.file, h.inst)
    case TryAcquireOp(_, h, _, _) => Live(srv.db, h.file, h.inst)
    case ReleaseOp(_, h, _, _) => Live(srv.db, h.file, h.inst)
    case DeleteOp(_, h, _, _) => Live(srv.db, h.file, h.inst)
    case ReopenOp(_, h, _, _) => Live(srv.db, h.file, h.inst)
    case CloseOp(s, h, _, _) => Known(srv, s) ==> LiveOrPlain(srv, s, h.file, h.inst)
    case _ => true
  }

  predicate LiveOrPlain(srv: Srv, s: Session, file: string, inst: nat)
    requires Known(srv, s)
  {
    Live(srv.db, file, inst) || !IsEphemeral(srv, s, file)
  }

  lemma LookedUpIff(srv: Srv, post: Srv, s: Session, h: FileHandler)
    requires AllLive(srv.tables, srv.db)
    requires post.tables == Found(srv, s, h).tables && Alike(srv.db, post.db)
    ensures AllLive(post.tables, post.db) <==> Live(srv.db, h.file, h.inst)
  {
    LookupKeepsLiveIff(srv.tables, srv.db, s, h);
    AlikeKeepsLiveIff(post.tables, srv.db, post.db);
  }

  lemma LockStoreAlike(srv: Srv, s: Session, h: FileHandler, xid: Xid, up: bool)
    ensures Alike(srv.db, Acquire(srv, s, h, xid, up).srv.db)
    ensures Alike(srv.db, TryAcquire(srv, s, h, xid, up).srv.db)
  {
    if s in srv.clients {
      StoreStaysAlike(srv.db, Lock(h.file, h.inst, srv.clients[s]));
    }
  }

  lemma FileStepKeepsLiveIff(v: Variant, srv: Srv, op: Op)
    requires AllLive(srv.tables, srv.db) && Step(v, srv, op).end == Returned
    requires op.ReadOp? || op.WriteOp? || op.AcquireOp? || op.TryAcquireOp?
    ensures AllLive(Step(v, srv, op).srv.tables, Step(v, srv, op).srv.db) <==> Live(srv.db, op.h.file, op.h.inst)
  {
    if op.ReadOp? {
      ReadFrame(srv, op.s, op.h, op.xid, op.up);
    } else if op.WriteOp? {
      WriteFrame(srv, op.s, op.h, op.content, op.xid, op.up);
      StoreStaysAlike(srv.db, Update(op.h.file, op.h.inst, op.content));
    } else if op.AcquireOp? {
      AcquireFrame(srv, op.s, op.h, op.xid, op.up);
      LockStoreAlike(srv, op.s, op.h, op.xid, op.up);
    } else {
      TryAcquireFrame(srv, op.s, op.h, op.xid, op.up);
      LockStoreAlike(srv, op.s, op.h, op.xid, op.up);
    }
    LookedUpIff(srv, Step(v, srv, op).srv, op.s, op.h);
  }

  lemma OpenKeepsLive(v: Variant, srv: Srv, op: Op)
    requires AllLive(srv.tables, srv.db) && op.OpenOp?
    ensures AllLive(Step(v, srv, op).srv.tables, Step(v, srv, op).srv.db)
  {
    var cmd := OpenCommand(op.file, op.mode);
    var (db, r) := Apply(srv.db, cmd);
    CreateKeepsLive(srv.tables, srv.db, cmd);
    if r.Number? {
      var h := FileHandler(Magic(op.file, r.inst, Has(op.mode, WRITE)), op.masterSeq, op.file, r.inst,
                           Has(op.mode, WRITE));
      AddKeepsLiveIff(srv.tables, db, op.s, h);
    }
  }

  lemma ReleaseStoreAlike(v: Variant, srv: Srv, s: Session, h: FileHandler, xid: Xid, up: bool)
    requires Known(srv, s)
    ensures Alike(srv.db, Release(v, srv, s, h, xid, up).srv.db)
  {
    var found := Found(srv, s, h);
    var db1 := Apply(srv.db, Unlock(h.file, h.inst)).0;
    StoreStaysAlike(srv.db, Unlock(h.file, h.inst));
    FreedDb(v, found.(db := db1), s, h, xid);
    if NextClient(srv, h.file).Some? {
      StoreStaysAlike(db1, Lock(h.file, h.inst, NextClient(srv, h.file).value));
    }
  }

  lemma ReleaseKeepsLiveIff(v: Variant, srv: Srv, s: Session, h: FileHandler, xid: Xid, up: bool)
    requires AllLive(srv.tables, srv.db) && Known(srv, s)
    ensures var post := Release(v, srv, s, h, xid, up).srv;
            AllLive(post.tables, post.db) <==> Live(srv.db, h.file, h.inst)
  {
    ReleaseFrame(v, srv, s, h, xid, up);
    ReleaseStoreAlike(v, srv, s, h, xid, up);
    LookedUpIff(srv, Release(v, srv, s, h, xid, up).srv, s, h);
  }

  /** What a delete does to the handles: if it works the file's handles go. */
  lemma DeleteTables(srv: Srv, s: Session, h: FileHandler, xid: Xid, up: bool)
    requires Known(srv, s)
    ensures FileDelete(srv, s, h, xid, up).srv.tables
         == if up && Apply(srv.db, Delete(h.file, h.inst)).1 == Ok then DropFile(Found(srv, s, h).tables, h.file)
            else Found(srv, s, h).tables
  {}

  lemma DeleteKeepsLiveIff(srv: Srv, s: Session, h: FileHandler, xid: Xid, up: bool)
    requires Consistent(srv) && AllLive(srv.tables, srv.db) && Known(srv, s)
    ensures var post := FileDelete(srv, s, h, xid, up).srv;
            AllLive(post.tables, post.db) <==> Live(srv.db, h.file, h.inst)
  {
    FoundKeeps(srv, s, h);
    LookupKeepsLiveIff(srv.tables, srv.db, s, h);
    DeleteTables(srv, s, h, xid, up);
    DeleteShape(srv, s, h, xid, up);
    if up && Apply(srv.db, Delete(h.file, h.inst)).1 == Ok {
      DeleteKeepsLive(Found(srv, s, h).tables, srv.db, h.file, h.inst);
    }
  }

  // ---------------------------------------------------------------- closing

  lemma ReclaimStoreAlike(v: Variant, srv: Srv, s: Session, h: FileHandler, up: bool)
    requires Known(srv, s)
    ensures Alike(srv.db, Reclaim(v, srv, s, h, up).srv.db)
  {
    if h.file in GetSet(srv.held, srv.clients[s]) {
      ReleaseStoreAlike(v, srv, s, h, NO_REPLY, up);
    }
  }

  lemma ReclaimTables(v: Variant, srv: Srv, s: Session, h: FileHandler, up: bool)
    requires Known(srv, s)
    ensures var mid := Reclaim(v, Found(srv, s, h), s, h, up).srv;
            mid.tables == Found(srv, s, h).tables && mid.clients == srv.clients && mid.eph == srv.eph
            && mid.lockEv == srv.lockEv && mid.contentEv == srv.contentEv
  {
    FindAgain(srv.tables, s, h);
    ReleaseFrame(v, Found(srv, s, h), s, h, NO_REPLY, up);
  }

  lemma CloseIsTwoHalves(v: Variant, srv: Srv, s: Session, h: FileHandler, xid: Xid, up: bool)
    requires Known(srv, s) && FileClose(v, srv, s, h, xid, up).end == Returned
    ensures FileClose(v, srv, s, h, xid, up).srv
         == LetGo(v, Reclaim(v, Found(srv, s, h), s, h, up).srv, s, Find(srv.tables, s, h).1, xid, up).srv
    ensures LetGo(v, Reclaim(v, Found(srv, s, h), s, h, up).srv, s, Find(srv.tables, s, h).1, xid, up).end == Returned
  {}

  /** The second half of a close, with the handle in the tables. */
  lemma LetGoKeepsLiveIff(v: Variant, mid: Srv, t: Tables, db: Db, s: Session, h: FileHandler, xid: Xid, up: bool)
    requires Inverse(t) && AllLive(t, db) && Alike(db, mid.db)
    requires mid.tables == Find(t, s, h).0 && Known(mid, s)
    requires LetGo(v, mid, s, Find(t, s, h).1, xid, up).end == Returned
    ensures var post := LetGo(v, mid, s, Find(t, s, h).1, xid, up).srv;
            AllLive(post.tables, post.db) <==> Live(db, h.file, h.inst) || !IsEphemeral(mid, s, h.file)
  {
    var (found, fd) := Find(t, s, h);
    FindKeepsInverse(t, s, h);
    FindAgain(t, s, h);
    LookupKeepsLiveIff(t, db, s, h);
    AlikeKeepsLiveIff(found, db, mid.db);
    if IsEphemeral(mid, s, h.file) {
      DeletedTablesLive(mid, found, db, s, h, up);
    } else {
      DropUndoesLookup(t, db, s, h);
      AlikeKeepsLiveIff(Drop(found, s, fd), db, mid.db);
      ForgetShape(v, mid, s, fd);
      assert Forget(v, mid, s, fd).srv.tables == Drop(found, s, fd);
    }
  }

  lemma DeletedTablesLive(mid: Srv, found: Tables, db: Db, s: Session, h: FileHandler, up: bool)
    requires Known(mid, s) && mid.tables == found && Inverse(found) && Found(mid, s, h).tables == found
    requires Alike(db, mid.db) && (AllLive(found, mid.db) <==> Live(db, h.file, h.inst))
    ensures var post := FileDelete(mid, s, h, NO_REPLY, up).srv;
            AllLive(post.tables, post.db) <==> Live(db, h.file, h.inst)
  {
    DeleteTables(mid, s, h, NO_REPLY, up);
    DeleteShape(mid, s, h, NO_REPLY, up);
    if up && Apply(mid.db, Delete(h.file, h.inst)).1 == Ok {
      assert Live(mid.db, h.file, h.inst) && Live(db, h.file, h.inst);
      DeleteKeepsLive(found, mid.db, h.file, h.inst);
    }
  }

  /** A close keeps all listed handles live exactly when it brings a live handle or one on a
      file that is not ephemeral for the client, whether or not a delete works. */
  lemma CloseKeepsLiveIff(v: Variant, srv: Srv, s: Session, h: FileHandler, xid: Xid, up: bool)
    requires Consistent(srv) && Known(srv, s) && AllLive(srv.tables, srv.db)
    requires FileClose(v, srv, s, h, xid, up).end == Returned
    ensures var post := FileClose(v, srv, s, h, xid, up).srv;
            AllLive(post.tables, post.db) <==> LiveOrPlain(srv, s, h.file, h.inst)
  {
    CloseIsTwoHalves(v, srv, s, h, xid, up);
    ReclaimTables(v, srv, s, h, up);
    ReclaimStoreAlike(v, Found(srv, s, h), s, h, up);
    LetGoKeepsLiveIff(v, Reclaim(v, Found(srv, s, h), s, h, up).srv, srv.tables, srv.db, s, h, xid, up);
  }

  /** A node that is live, or not ephemeral for the client, is so after a close: what a close
      deletes is not ephemeral any more. */
  lemma CloseKeepsOthersLive(v: Variant, srv: Srv, s: Session, h: FileHandler, up: bool, f: string, i: nat)
    requires Known(srv, s) && FileClose(v, srv, s, h, NO_REPLY, up).end == Returned && LiveOrPlain(srv, s, f, i)
    ensures var post := FileClose(v, srv, s, h, NO_REPLY, up).srv;
            Known(post, s) && LiveOrPlain(post, s, f, i)
  {
    var mid, fd := Reclaim(v, Found(srv, s, h), s, h, up).srv, Find(srv.tables, s, h).1;
    CloseIsTwoHalves(v, srv, s, h, NO_REPLY, up);
    ReclaimTables(v, srv, s, h, up);
    ReclaimStoreAlike(v, Found(srv, s, h), s, h, up);
    LetGoKeepsOthersLive(v, mid, s, fd, up, f, i);
  }

  lemma LetGoKeepsOthersLive(v: Variant, srv: Srv, s: Session, fd: Fd, up: bool, f: string, i: nat)
    requires Known(srv, s) && LiveOrPlain(srv, s, f, i)
    ensures var post := LetGo(v, srv, s, fd, NO_REPLY, up).srv;
            Known(post, s) && LiveOrPlain(post, s, f, i)
  {
    DeleteShape(srv, s, fd.h, NO_REPLY, up);
    ForgetShape(v, srv, s, fd);
    DeletedLive(srv.db, fd.h.file, fd.h.inst);
  }

  lemma {:induction false} CloseAllKeepsLive(v: Variant, srv: Srv, s: Session, fds: seq<Fd>, up: bool)
    requires Consistent(srv) && (fds == [] || Known(srv, s)) && AllLive(srv.tables, srv.db)
    requires forall fd :: fd in fds ==> LiveOrPlain(srv, s, fd.h.file, fd.h.inst)
    requires CloseAll(v, srv, s, fds, up).end == Returned
    ensures var post := CloseAll(v, srv, s, fds, up).srv;
            AllLive(post.tables, post.db)
    decreases fds
  {
    if fds != [] {
      var post := FileClose(v, srv, s, fds[0].h, NO_REPLY, up).srv;
      assert FileClose(v, srv, s, fds[0].h, NO_REPLY, up).end == Returned;
      assert Consistent(post) by { CloseKeeps(v, srv, s, fds[0].h, NO_REPLY, up); }
      assert AllLive(post.tables, post.db) by {
        assert fds[0] in fds;
        CloseKeepsLiveIff(v, srv, s, fds[0].h, NO_REPLY, up);
      }
      forall fd | fd in fds[1..] ensures Known(post, s) && LiveOrPlain(post, s, fd.h.file, fd.h.inst) {
        assert fd in fds;
        CloseKeepsOthersLive(v, srv, s, fds[0].h, up, fd.h.file, fd.h.inst);
      }
      assert Known(post, s) by { CloseKeepsOthersLive(v, srv, s, fds[0].h, up, fds[0].h.file, fds[0].h.inst); }
      CloseAllKeepsLive(v, post, s, fds[1..], up);
    }
  }

  lemma DisconnectKeepsLive(v: Variant, srv: Srv, s: Session, up: bool)
    requires Consistent(srv) && AllLive(srv.tables, srv.db) && Disconnect(v, srv, s, up).end == Returned
    ensures AllLive(Disconnect(v, srv, s, up).srv.tables, Disconnect(v, srv, s, up).srv.db)
  {
    var fds := Get(srv.tables.bySession, s);
    assert fds == [] || Known(srv, s);
    forall fd | fd in fds ensures LiveOrPlain(srv, s, fd.h.file, fd.h.inst) {
      assert Live(srv.db, fd.h.file, fd.h.inst);
    }
    CloseAllKeepsLive(v, srv, s, fds, up);
  }

  // ---------------------------------------------------------------- every request, every run

  /** A request of either variant that is served keeps all listed handles live exactly when the
      handle it brings, if any, is live, or closes a file that is not ephemeral. */
  lemma StepKeepsLiveIff(v: Variant, srv: Srv, op: Op)
    requires Consistent(srv) && AllLive(srv.tables, srv.db) && Step(v, srv, op).end == Returned
    ensures var post := Step(v, srv, op).srv;
            AllLive(post.tables, post.db) <==> BringsLive(srv, op)
  {
    match op
    case OpenOp(_, _, _, _, _, _) => OpenKeepsLive(v, srv, op);
    case ReadOp(_, _, _, _) => FileStepKeepsLiveIff(v, srv, op);
    case WriteOp(_, _, _, _, _) => FileStepKeepsLiveIff(v, srv, op);
    case AcquireOp(_, _, _, _) => FileStepKeepsLiveIff(v, srv, op);
    case TryAcquireOp(_, _, _, _) => FileStepKeepsLiveIff(v, srv, op);
    case ReleaseOp(s, h, xid, up) => ReleaseKeepsLiveIff(v, srv, s, h, xid, up);
    case DeleteOp(s, h, xid, up) => DeleteKeepsLiveIff(srv, s, h, xid, up);
    case CloseOp(s, h, xid, up) => CloseKeepsLiveIff(v, srv, s, h, xid, up);
    case StartOp(_, _, _, _) =>
    case ReopenOp(s, h, _, _) => AddKeepsLiveIff(srv.tables, srv.db, s, h);
    case DisconnectOp(s, up) => DisconnectKeepsLive(v, srv, s, up);
    case LeadOp(_) =>
  }

  ghost predicate BringsLiveRun(v: Variant, srv: Srv, ops: seq<Op>)
    decreases ops
  {
    ops != [] ==> BringsLive(srv, ops[0]) && BringsLiveRun(v, Step(v, srv, ops[0]).srv, ops[1..])
  }

  lemma {:induction false} RunKeepsLive(v: Variant, srv: Srv, ops: seq<Op>)
    requires Consistent(srv) && AllLive(srv.tables, srv.db)
    requires BringsLiveRun(v, srv, ops) && RunOps(v, srv, ops).end == Returned
    ensures var post := RunOps(v, srv, ops).srv;
            AllLive(post.tables, post.db)
    decreases ops
  {
    if ops != [] {
      StepIsConsistent(v, srv, ops[0]);
      StepKeepsLiveIff(v, srv, ops[0]);
      RunKeepsLive(v, Step(v, srv, ops[0]).srv, ops[1..]);
    }
  }

  lemma LiveHandleWorks(srv: Srv, s: Session, h: FileHandler, content: string, xid: Xid)
    requires Live(srv.db, h.file, h.inst)
    ensures GetContentsAndStat(srv, s, h, xid, true).out
         == Send(s, xid, Data(srv.db.fs[h.file].content, MetaOf(srv.db.fs[h.file])))
    ensures SetContents(srv, s, h, content, xid, true).out
         == Send(s, xid, Value(true)) + ContentEvents(Get(srv.contentEv, h.file), h.file)
  {}

  /** On every served run of either variant whose requests bring such handles, a read or write
      through a handle in the tables never reports FS_FAIL. */
  lemma TableHandlesWork(v: Variant, ops: seq<Op>, s: Session, fd: Fd, content: string, xid: Xid)
    requires BringsLiveRun(v, START, ops) && RunOps(v, START, ops).end == Returned
    requires fd in Get(RunOps(v, START, ops).srv.tables.bySession, s)
    ensures var srv := RunOps(v, START, ops).srv;
            && Reply(s, xid, Error(FS_FAIL)) !in GetContentsAndStat(srv, s, fd.h, xid, true).out
            && Reply(s, xid, Error(FS_FAIL)) !in SetContents(srv, s, fd.h, content, xid, true).out
  {
    StartIsGood();
    RunKeepsLive(v, START, ops);
    NoFailure(RunOps(v, START, ops).srv, s, fd, content, xid);
  }

  lemma NoFailure(srv: Srv, s: Session, fd: Fd, content: string, xid: Xid)
    requires AllLive(srv.tables, srv.db) && fd in Get(srv.tables.bySession, s)
    ensures Reply(s, xid, Error(FS_FAIL)) !in GetContentsAndStat(srv, s, fd.h, xid, true).out
    ensures Reply(s, xid, Error(FS_FAIL)) !in SetContents(srv, s, fd.h, content, xid, true).out
  {
    LiveHandleWorks(srv, s, fd.h, content, xid);
    OnlyEvents(Get(srv.contentEv, fd.h.file), fd.h.file);
  }
}
