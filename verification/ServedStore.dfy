/**
 Whatever requests a server serves, its store only ever changes by commands; so what is
 proved of command histories holds of the store behind every run of the service.
 */
module ServedStore {
  import opened Database
  import opened History
  import opened Handles
  import opened Service
  import opened Requests
  import opened LockSafety

  /** Some sequence of commands leads from one store to the other. */
  ghost predicate Reaches(db: Db, post: Db) {
    exists cmds :: Run(db, cmds) == post
  }

  lemma ReachesOne(db: Db, cmd: Cmd)
    ensures Reaches(db, db) && Reaches(db, Apply(db, cmd).0)
  {
    assert Run(db, []) == db;
    assert Run(db, [] + [cmd]) == Apply(db, cmd).0 by { RunAppend(db, [], cmd); }
  }

  lemma ReachesThen(db: Db, mid: Db, post: Db)
    requires Reaches(db, mid) && Reaches(mid, post)
    ensures Reaches(db, post)
  {
    var a :| Run(db, a) == mid;
    var b :| Run(mid, b) == post;
    RunConcat(db, a, b);
  }

  lemma ReleaseReaches(v: Variant, srv: Srv, s: Session, h: FileHandler, xid: Xid, up: bool)
    ensures Reaches(srv.db, Release(v, srv, s, h, xid, up).srv.db)
  {
    var db := Apply(srv.db, Unlock(h.file, h.inst)).0;
    ReachesOne(srv.db, Unlock(h.file, h.inst));
    if Known(srv, s) {
      var freed := Found(srv, s, h).(db := db);
      FreedDb(v, freed, s, h, xid);
      if NextClient(freed, h.file).Some? {
        ReachesOne(db, Lock(h.file, h.inst, NextClient(freed, h.file).value));
        ReachesThen(srv.db, db, Apply(db, Lock(h.file, h.inst, NextClient(freed, h.file).value)).0);
      }
    }
  }

  lemma DeleteReaches(srv: Srv, s: Session, h: FileHandler, xid: Xid, up: bool)
    ensures Reaches(srv.db, FileDelete(srv, s, h, xid, up).srv.db)
  {
    ReachesOne(srv.db, Delete(h.file, h.inst));
  }

  lemma LetGoReaches(v: Variant, srv: Srv, s: Session, fd: Fd, xid: Xid, up: bool)
    ensures Reaches(srv.db, LetGo(v, srv, s, fd, xid, up).srv.db)
  {
    ReachesOne(srv.db, States);
    DeleteReaches(srv, s, fd.h, NO_REPLY, up);
  }

  lemma CloseReaches(v: Variant, srv: Srv, s: Session, h: FileHandler, xid: Xid, up: bool)
    ensures Reaches(srv.db, FileClose(v, srv, s, h, xid, up).srv.db)
  {
    ReachesOne(srv.db, States);
    if Known(srv, s) {
      var found := Found(srv, s, h);
      var first := Reclaim(v, found, s, h, up);
      ReleaseReaches(v, found, s, h, NO_REPLY, up);
      var last := LetGo(v, first.srv, s, Find(srv.tables, s, h).1, xid, up);
      LetGoReaches(v, first.srv, s, Find(srv.tables, s, h).1, xid, up);
      ReachesThen(srv.db, first.srv.db, last.srv.db);
    }
  }

  lemma {:induction false} CloseAllReaches(v: Variant, srv: Srv, s: Session, fds: seq<Fd>, up: bool)
    ensures Reaches(srv.db, CloseAll(v, srv, s, fds, up).srv.db)
    decreases fds
  {
    ReachesOne(srv.db, States);
    if fds != [] {
      var first := FileClose(v, srv, s, fds[0].h, NO_REPLY, up);
      CloseReaches(v, srv, s, fds[0].h, NO_REPLY, up);
      CloseAllReaches(v, first.srv, s, fds[1..], up);
      ReachesThen(srv.db, first.srv.db, CloseAll(v, first.srv, s, fds[1..], up).srv.db);
    }
  }

  lemma OpenReaches(srv: Srv, s: Session, file: string, mode: nat, masterSeq: nat, xid: Xid, up: bool)
    ensures Reaches(srv.db, FileOpen(srv, s, file, mode, masterSeq, xid, up).srv.db)
  {
    ReachesOne(srv.db, OpenCommand(file, mode));
  }

  lemma LockingReaches(srv: Srv, s: Session, h: FileHandler, xid: Xid, up: bool)
    ensures Reaches(srv.db, Acquire(srv, s, h, xid, up).srv.db)
    ensures Reaches(srv.db, TryAcquire(srv, s, h, xid, up).srv.db)
  {
    ReachesOne(srv.db, Lock(h.file, h.inst, if s in srv.clients then srv.clients[s] else ""));
  }

  lemma WriteReaches(srv: Srv, s: Session, h: FileHandler, content: string, xid: Xid, up: bool)
    ensures Reaches(srv.db, SetContents(srv, s, h, content, xid, up).srv.db)
  {
    ReachesOne(srv.db, Update(h.file, h.inst, content));
  }

  lemma StepReaches(v: Variant, srv: Srv, op: Op)
    ensures Reaches(srv.db, Step(v, srv, op).srv.db)
  {
    match op
    case OpenOp(s, file, mode, masterSeq, xid, up) => OpenReaches(srv, s, file, mode, masterSeq, xid, up);
    case WriteOp(s, h, content, xid, up) => WriteReaches(srv, s, h, content, xid, up);
    case AcquireOp(s, h, xid, up) => LockingReaches(srv, s, h, xid, up);
    case TryAcquireOp(s, h, xid, up) => LockingReaches(srv, s, h, xid, up);
    case ReleaseOp(s, h, xid, up) => ReleaseReaches(v, srv, s, h, xid, up);
    case DeleteOp(s, h, xid, up) => DeleteReaches(srv, s, h, xid, up);
    case CloseOp(s, h, xid, up) => CloseReaches(v, srv, s, h, xid, up);
    case DisconnectOp(s, up) => CloseAllReaches(v, srv, s, Get(srv.tables.bySession, s), up);
    case _ => ReachesOne(srv.db, States);
  }

  /** On every run of either variant the store changes only by commands. */
  lemma {:induction false} RunReaches(v: Variant, srv: Srv, ops: seq<Op>)
    ensures Reaches(srv.db, RunOps(v, srv, ops).srv.db)
    decreases ops
  {
    ReachesOne(srv.db, States);
    if ops != [] {
      var first := Step(v, srv, ops[0]);
      StepReaches(v, srv, ops[0]);
      RunReaches(v, first.srv, ops[1..]);
      ReachesThen(srv.db, first.srv.db, RunOps(v, first.srv, ops[1..]).srv.db);
    }
  }

  /** A handle whose instance is gone stays dead on every continuation, whatever is created
      later under the same name: it reads nothing, gets no lock and cannot be deleted. */
  lemma DeadHandleStaysDead(v: Variant, srv: Srv, ops: seq<Op>, s: Session, h: FileHandler, xid: Xid)
    requires Retired(srv.db, h.file, h.inst)
    ensures var post := RunOps(v, srv, ops).srv;
            && !Live(post.db, h.file, h.inst)
            && GetContentsAndStat(post, s, h, xid, true).out == Send(s, xid, Error(FS_FAIL))
            && (Known(post, s) ==> TryAcquire(post, s, h, xid, true).out == Send(s, xid, Value(false)))
            && (Known(post, s) ==> FileDelete(post, s, h, xid, true).out == Send(s, xid, Value(false)))
  {
    RunReaches(v, srv, ops);
    var cmds :| Run(srv.db, cmds) == RunOps(v, srv, ops).srv.db;
    RetiredForever(srv.db, cmds, h.file, h.inst);
  }
}
