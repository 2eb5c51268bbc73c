/**
 Every request is answered exactly once: at once, or, for an acquire that waits, by the
 grant that takes it from the queue.
 */
module Replies {
  import opened Text
  import opened Database
  import opened Handles
  import opened Service
  import opened Requests

  /** The requests that are answered by these messages, each as often as it is. */
  function Answers(out: seq<Out>): multiset<(Session, Xid)> {
    if out == [] then multiset{}
    else
      var last := out[|out| - 1];
      Answers(out[..|out| - 1]) + (if last.Reply? then multiset{(last.session, last.xid)} else multiset{})
  }

  /** The waiting acquires that the granting moves owe an answer. */
  function Owed(moves: seq<Move>): multiset<(Session, Xid)> {
    if moves == [] then multiset{}
    else
      var last := moves[|moves| - 1];
      Owed(moves[..|moves| - 1]) + (if last.Granted? then Own(last.who.session, last.who.xid) else multiset{})
  }

  /** Internal calls are not answered. */
  function Own(s: Session, xid: Xid): multiset<(Session, Xid)> {
    if xid == NO_REPLY then multiset{} else multiset{(s, xid)}
  }

  /** The step answers the requests in own and the waiters it grants, and nobody else. */
  predicate Balanced(r: Res, own: multiset<(Session, Xid)>) {
    Answers(r.out) == own + Owed(r.moves)
  }

  lemma {:induction false} AnswersConcat(a: seq<Out>, b: seq<Out>)
    ensures Answers(a + b) == Answers(a) + Answers(b)
    decreases b
  {
    if b == [] {
      assert a + b == a;
    } else {
      assert (a + b)[..|a + b| - 1] == a + b[..|b| - 1];
      AnswersConcat(a, b[..|b| - 1]);
    }
  }

  lemma {:induction false} OwedConcat(a: seq<Move>, b: seq<Move>)
    ensures Owed(a + b) == Owed(a) + Owed(b)
    decreases b
  {
    if b == [] {
      assert a + b == a;
    } else {
      assert (a + b)[..|a + b| - 1] == a + b[..|b| - 1];
      OwedConcat(a, b[..|b| - 1]);
    }
  }

  lemma SendAnswers(s: Session, xid: Xid, ret: Ret)
    ensures Answers(Send(s, xid, ret)) == Own(s, xid)
  {}

  lemma {:induction false} EventsAnswerNothing(listeners: seq<Session>, file: string)
    ensures Answers(LockEvents(listeners, file)) == multiset{}
    ensures Answers(ContentEvents(listeners, file)) == multiset{}
  {
    if listeners != [] {
      var front, last := listeners[..|listeners| - 1], listeners[|listeners| - 1];
      EventsAnswerNothing(front, file);
      AnswersConcat(LockEvents(front, file), [LockChanged(last, file)]);
      AnswersConcat(ContentEvents(front, file), [ContentModified(last, file)]);
      assert Answers([LockChanged(last, file)]) == multiset{} && Answers([ContentModified(last, file)]) == multiset{};
    }
  }

  lemma ParentEventsAnswerNothing(srv: Srv, file: string)
    ensures Answers(ParentEvents(srv, file)) == multiset{}
  {
    EventsAnswerNothing(Get(srv.contentEv, ParentName(file)), ParentName(file));
  }

  /** A reply followed by messages that answer nothing. */
  lemma ReplyThen(s: Session, xid: Xid, ret: Ret, events: seq<Out>)
    requires Answers(events) == multiset{}
    ensures Answers(Send(s, xid, ret) + events) == Own(s, xid)
  {
    SendAnswers(s, xid, ret);
    AnswersConcat(Send(s, xid, ret), events);
  }

  lemma ThenBalances(first: Res, second: Res, a: multiset<(Session, Xid)>, b: multiset<(Session, Xid)>)
    requires first.end == Returned && Balanced(first, a) && Balanced(second, b)
    ensures Balanced(Then(first, second), a + b)
  {
    AnswersConcat(first.out, second.out);
    OwedConcat(first.moves, second.moves);
  }

  // ---------------------------------------------------------------- each request

  lemma EnteredBalances(srv: Srv, s: Session, file: string, mode: nat, ephemeral: bool, masterSeq: nat,
                        inst: nat, xid: Xid)
    requires Known(srv, s)
    ensures Balanced(Entered(srv, s, file, mode, ephemeral, masterSeq, inst, xid), Own(s, xid))
  {
    var h := FileHandler(Magic(file, inst, Has(mode, WRITE)), masterSeq, file, inst, Has(mode, WRITE));
    var r := Entered(srv, s, file, mode, ephemeral, masterSeq, inst, xid);
    ParentEventsAnswerNothing(r.srv, file);
    ReplyThen(s, xid, Opened(h), ParentEvents(r.srv, file));
  }

  lemma OpenBalances(srv: Srv, s: Session, file: string, mode: nat, masterSeq: nat, xid: Xid, up: bool)
    requires FileOpen(srv, s, file, mode, masterSeq, xid, up).end == Returned
    ensures Balanced(FileOpen(srv, s, file, mode, masterSeq, xid, up), Own(s, xid))
  {
    SendAnswers(s, xid, Error(BAD_ARG));
    SendAnswers(s, xid, Error(PAXOS_ERROR));
    SendAnswers(s, xid, Error(FS_FAIL));
    var (db, r) := Apply(srv.db, OpenCommand(file, mode));
    if r.Number? {
      EnteredBalances(srv.(db := db), s, file, mode, OpenCommand(file, mode).Create? && Has(mode, EPHEMERAL),
                      masterSeq, r.inst, xid);
    }
  }

  lemma WriteBalances(srv: Srv, s: Session, h: FileHandler, content: string, xid: Xid, up: bool)
    ensures Balanced(SetContents(srv, s, h, content, xid, up), Own(s, xid))
  {
    var events := ContentEvents(Get(srv.contentEv, h.file), h.file);
    EventsAnswerNothing(Get(srv.contentEv, h.file), h.file);
    ReplyThen(s, xid, Value(true), events);
    SendAnswers(s, xid, Error(PAXOS_ERROR));
    SendAnswers(s, xid, Error(FS_FAIL));
  }

  lemma TakenBalances(found: Srv, s: Session, file: string, db: Db, xid: Xid)
    requires Known(found, s) && Taken(found, s, file, db, xid).end == Returned
    ensures Balanced(Taken(found, s, file, db, xid), Own(s, xid))
  {
    EventsAnswerNothing(Get(found.lockEv, file), file);
    ReplyThen(s, xid, Value(true), LockEvents(Get(found.lockEv, file), file));
  }

  /** An acquire is answered now exactly when it does not join the queue. */
  lemma AcquireBalances(srv: Srv, s: Session, h: FileHandler, xid: Xid, up: bool)
    requires Acquire(srv, s, h, xid, up).end == Returned
    ensures var r := Acquire(srv, s, h, xid, up);
            Balanced(r, if r.moves == [Asked(h.file, Waiter(s, xid))] then multiset{} else Own(s, xid))
  {
    var found := Found(srv, s, h);
    var (db, r) := Apply(srv.db, Lock(h.file, h.inst, srv.clients[s]));
    SendAnswers(s, xid, Error(PAXOS_ERROR));
    if up && r == Ok {
      TakenBalances(found, s, h.file, db, xid);
    } else if up {
      assert [Asked(h.file, Waiter(s, xid))][..0] == [];
    }
  }

  lemma TryAcquireBalances(srv: Srv, s: Session, h: FileHandler, xid: Xid, up: bool)
    requires TryAcquire(srv, s, h, xid, up).end == Returned
    ensures Balanced(TryAcquire(srv, s, h, xid, up), Own(s, xid))
  {
    var found := Found(srv, s, h);
    var (db, r) := Apply(srv.db, Lock(h.file, h.inst, srv.clients[s]));
    SendAnswers(s, xid, Error(PAXOS_ERROR));
    SendAnswers(s, xid, Value(false));
    if up && r == Ok {
      TakenBalances(found, s, h.file, db, xid);
    }
  }

  lemma HandOverBalances(v: Variant, srv: Srv, h: FileHandler)
    requires HandOver(v, srv, h).end == Returned
    ensures Balanced(HandOver(v, srv, h), multiset{})
  {}

  lemma FreedBalances(v: Variant, srv: Srv, s: Session, h: FileHandler, xid: Xid)
    requires Known(srv, s) && Freed(v, srv, s, h, xid).end == Returned
    ensures Balanced(Freed(v, srv, s, h, xid), Own(s, xid))
  {
    var client := srv.clients[s];
    var next := HandOver(v, srv.(held := PutSet(srv.held, client, GetSet(srv.held, client) - {h.file})), h);
    var events := LockEvents(Get(srv.lockEv, h.file), h.file);
    HandOverBalances(v, srv.(held := PutSet(srv.held, client, GetSet(srv.held, client) - {h.file})), h);
    EventsAnswerNothing(Get(srv.lockEv, h.file), h.file);
    SendAnswers(s, xid, Value(true));
    AnswersConcat(Send(s, xid, Value(true)), next.out);
    AnswersConcat(Send(s, xid, Value(true)) + next.out, events);
  }

  lemma ReleaseBalances(v: Variant, srv: Srv, s: Session, h: FileHandler, xid: Xid, up: bool)
    requires Release(v, srv, s, h, xid, up).end == Returned
    ensures Balanced(Release(v, srv, s, h, xid, up), Own(s, xid))
  {
    SendAnswers(s, xid, Error(PAXOS_ERROR));
    SendAnswers(s, xid, Error(FS_FAIL));
    var (db, r) := Apply(srv.db, Unlock(h.file, h.inst));
    if up && r == Ok {
      FreedBalances(v, Found(srv, s, h).(db := db), s, h, xid);
    }
  }

  lemma DeleteBalances(srv: Srv, s: Session, h: FileHandler, xid: Xid, up: bool)
    requires FileDelete(srv, s, h, xid, up).end == Returned
    ensures Balanced(FileDelete(srv, s, h, xid, up), Own(s, xid))
  {
    SendAnswers(s, xid, Error(PAXOS_ERROR));
    SendAnswers(s, xid, Value(false));
    var (db, r) := Apply(srv.db, Delete(h.file, h.inst));
    if up && r == Ok {
      PurgedBalances(Found(srv, s, h).(db := db), s, h.file, xid);
    }
  }

  lemma PurgedBalances(srv: Srv, s: Session, file: string, xid: Xid)
    requires Known(srv, s)
    ensures Balanced(Purged(srv, s, file, xid), Own(s, xid))
  {
    var events := ContentEvents(Get(srv.contentEv, file), file);
    EventsAnswerNothing(Get(srv.contentEv, file), file);
    ParentEventsAnswerNothing(srv, file);
    ReplyThen(s, xid, Value(true), events);
    AnswersConcat(Send(s, xid, Value(true)) + events, ParentEvents(srv, file));
  }

  lemma ForgetBalances(v: Variant, srv: Srv, s: Session, fd: Fd)
    ensures Balanced(Forget(v, srv, s, fd), multiset{})
  {}

  lemma LetGoBalances(v: Variant, srv: Srv, s: Session, fd: Fd, xid: Xid, up: bool)
    requires LetGo(v, srv, s, fd, xid, up).end == Returned
    ensures Balanced(LetGo(v, srv, s, fd, xid, up), Own(s, xid))
  {
    var ephemeral := s in srv.clients && fd.h.file in GetSet(srv.eph, srv.clients[s]);
    var last := if ephemeral then FileDelete(srv, s, fd.h, NO_REPLY, up) else Forget(v, srv, s, fd);
    if ephemeral {
      DeleteBalances(srv, s, fd.h, NO_REPLY, up);
    } else {
      ForgetBalances(v, srv, s, fd);
    }
    SendAnswers(s, xid, Value(true));
    ThenBalances(last, Done(last.srv, Send(s, xid, Value(true))), multiset{}, Own(s, xid));
  }

  lemma ReclaimBalances(v: Variant, srv: Srv, s: Session, h: FileHandler, up: bool)
    requires Known(srv, s) && Reclaim(v, srv, s, h, up).end == Returned
    ensures Balanced(Reclaim(v, srv, s, h, up), multiset{})
  {
    if h.file in GetSet(srv.held, srv.clients[s]) {
      ReleaseBalances(v, srv, s, h, NO_REPLY, up);
    }
  }

  lemma CloseParts(v: Variant, srv: Srv, s: Session, h: FileHandler, xid: Xid, up: bool)
    requires Known(srv, s)
    ensures var first := Reclaim(v, Found(srv, s, h), s, h, up);
            FileClose(v, srv, s, h, xid, up) == Then(first, LetGo(v, first.srv, s, Find(srv.tables, s, h).1, xid, up))
  {}

  lemma CloseBalances(v: Variant, srv: Srv, s: Session, h: FileHandler, xid: Xid, up: bool)
    requires FileClose(v, srv, s, h, xid, up).end == Returned
    ensures Balanced(FileClose(v, srv, s, h, xid, up), Own(s, xid))
  {
    var found, fd := Found(srv, s, h), Find(srv.tables, s, h).1;
    var first := Reclaim(v, found, s, h, up);
    CloseParts(v, srv, s, h, xid, up);
    ReclaimBalances(v, found, s, h, up);
    LetGoBalances(v, first.srv, s, fd, xid, up);
    ThenBalances(first, LetGo(v, first.srv, s, fd, xid, up), multiset{}, Own(s, xid));
  }

  lemma {:induction false} CloseAllBalances(v: Variant, srv: Srv, s: Session, fds: seq<Fd>, up: bool)
    requires CloseAll(v, srv, s, fds, up).end == Returned
    ensures Balanced(CloseAll(v, srv, s, fds, up), multiset{})
    decreases fds
  {
    if fds != [] {
      var first := FileClose(v, srv, s, fds[0].h, NO_REPLY, up);
      CloseBalances(v, srv, s, fds[0].h, NO_REPLY, up);
      CloseAllBalances(v, first.srv, s, fds[1..], up);
      ThenBalances(first, CloseAll(v, first.srv, s, fds[1..], up), multiset{}, multiset{});
    }
  }

  /** What the request itself is owed now: nothing for an acquire that joins the queue and for
      what does not come from a client. */
  function OwnAnswer(op: Op, r: Res): multiset<(Session, Xid)> {
    if op.DisconnectOp? || op.LeadOp? then multiset{}
    else if op.AcquireOp? && r.moves == [Asked(op.h.file, Waiter(op.s, op.xid))] then multiset{}
    else Own(op.s, op.xid)
  }

  lemma FileOpsBalance(v: Variant, srv: Srv, op: Op)
    requires op.OpenOp? || op.WriteOp? || op.DeleteOp? || op.CloseOp?
    requires Step(v, srv, op).end == Returned
    ensures Balanced(Step(v, srv, op), Own(op.s, op.xid))
  {
    match op
    case OpenOp(s, file, mode, masterSeq, xid, up) => OpenBalances(srv, s, file, mode, masterSeq, xid, up);
    case WriteOp(s, h, content, xid, up) => WriteBalances(srv, s, h, content, xid, up);
    case DeleteOp(s, h, xid, up) => DeleteBalances(srv, s, h, xid, up);
    case CloseOp(s, h, xid, up) => CloseBalances(v, srv, s, h, xid, up);
  }

  /** For either variant: a request that is served is answered once, now or by a later grant,
      and besides that only waiters that are granted the lock hear an answer. */
  lemma StepAnswersOnce(v: Variant, srv: Srv, op: Op)
    requires Step(v, srv, op).end == Returned
    ensures Balanced(Step(v, srv, op), OwnAnswer(op, Step(v, srv, op)))
  {
    if op.OpenOp? || op.WriteOp? || op.DeleteOp? || op.CloseOp? {
      FileOpsBalance(v, srv, op);
    } else if op.AcquireOp? {
      AcquireBalances(srv, op.s, op.h, op.xid, op.up);
    } else if op.TryAcquireOp? {
      TryAcquireBalances(srv, op.s, op.h, op.xid, op.up);
    } else if op.ReleaseOp? {
      ReleaseBalances(v, srv, op.s, op.h, op.xid, op.up);
    } else {
      SimpleBalances(v, srv, op);
    }
  }

  lemma SimpleBalances(v: Variant, srv: Srv, op: Op)
    requires op.ReadOp? || op.StartOp? || op.ReopenOp? || op.DisconnectOp? || op.LeadOp?
    requires Step(v, srv, op).end == Returned
    ensures Balanced(Step(v, srv, op), OwnAnswer(op, Step(v, srv, op)))
  {
    if op.DisconnectOp? {
      var closed := CloseAll(v, srv, op.s, Get(srv.tables.bySession, op.s), op.up);
      CloseAllBalances(v, srv, op.s, Get(srv.tables.bySession, op.s), op.up);
      ThenBalances(closed, Done(closed.srv.(clients := closed.srv.clients - {op.s}), []), multiset{}, multiset{});
    } else if !op.LeadOp? {
      forall ret ensures Answers(Send(op.s, op.xid, ret)) == Own(op.s, op.xid) { SendAnswers(op.s, op.xid, ret); }
    }
  }

  /** The answers that the requests of a run are owed when they are served. */
  function Due(v: Variant, srv: Srv, ops: seq<Op>): multiset<(Session, Xid)>
    decreases ops
  {
    if ops == [] then multiset{}
    else
      var first := Step(v, srv, ops[0]);
      OwnAnswer(ops[0], first) + Due(v, first.srv, ops[1..])
  }

  /** Over a whole run: the answers sent are those due at once and those of the grants. */
  lemma {:induction false} RunAnswersOnce(v: Variant, srv: Srv, ops: seq<Op>)
    requires RunOps(v, srv, ops).end == Returned
    ensures Balanced(RunOps(v, srv, ops), Due(v, srv, ops))
    decreases ops
  {
    if ops != [] {
      var first := Step(v, srv, ops[0]);
      StepAnswersOnce(v, srv, ops[0]);
      RunAnswersOnce(v, first.srv, ops[1..]);
      ThenBalances(first, RunOps(v, first.srv, ops[1..]), OwnAnswer(ops[0], first), Due(v, first.srv, ops[1..]));
    }
  }
}
