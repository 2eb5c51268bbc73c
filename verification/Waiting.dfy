/**
 Every queued acquire is, at each moment, exactly one of: waiting, granted once in the
 order of asking, or cancelled.
 */
module Waiting {
  import opened Text
  import opened Database
  import opened Handles
  import opened Service
  import opened LockSafety
  import opened Requests
  import opened Runs

  // ---------------------------------------------------------------- the moves explain the queues

  /** A move on the queue of file f; none when it does not fit. */
  function Play1(q: seq<Waiter>, m: Move, f: string): Option<seq<Waiter>> {
    match m
    case Asked(g, w) => Some(if g == f then q + [w] else q)
    case Granted(g, w) =>
      if g != f then Some(q) else if q != [] && q[0] == w then Some(q[1..]) else None
    case Cancelled(g, s) => Some(if g == f then NotOf(q, s) else q)
  }

  function Play(q: seq<Waiter>, moves: seq<Move>, f: string): Option<seq<Waiter>>
    decreases moves
  {
    if moves == [] then Some(q)
    else
      var r := Play1(q, moves[0], f);
      if r.None? then None else Play(r.value, moves[1..], f)
  }

  lemma {:induction false} PlayConcat(q: seq<Waiter>, a: seq<Move>, b: seq<Move>, f: string)
    ensures Play(q, a + b, f)
         == if Play(q, a, f).None? then None else Play(Play(q, a, f).value, b, f)
    decreases a
  {
    if a == [] {
      assert a + b == b;
    } else {
      assert (a + b)[0] == a[0] && (a + b)[1..] == a[1..] + b;
      var r := Play1(q, a[0], f);
      if r.Some? {
        PlayConcat(r.value, a[1..], b, f);
      }
    }
  }

  lemma PlayOne(q: seq<Waiter>, m: Move, f: string)
    ensures Play(q, [m], f) == Play1(q, m, f)
  {}

  /** The moves of the request turn the queue of f before into the queue of f after. */
  predicate Explains(srv: Srv, r: Res, f: string) {
    Play(Get(srv.queues, f), r.moves, f) == Some(Get(r.srv.queues, f))
  }

  lemma ThenExplains(srv: Srv, first: Res, second: Res, f: string)
    requires Explains(srv, first, f) && first.end == Returned && Explains(first.srv, second, f)
    ensures Explains(srv, Then(first, second), f)
  {
    PlayConcat(Get(srv.queues, f), first.moves, second.moves, f);
  }

  lemma FreedExplains(srv: Srv, s: Session, h: FileHandler, xid: Xid, f: string)
    requires Known(srv, s) && Freed(Intended, srv, s, h, xid).end == Returned
    ensures Explains(srv, Freed(Intended, srv, s, h, xid), f)
  {
    if h.file in srv.queues {
      var head, rest := srv.queues[h.file][0], srv.queues[h.file][1..];
      PlayOne(Get(srv.queues, f), Granted(h.file, head), f);
      assert Get(Put(srv.queues, h.file, rest), f) == if f == h.file then rest else Get(srv.queues, f);
    }
  }

  lemma ReleaseExplains(srv: Srv, s: Session, h: FileHandler, xid: Xid, up: bool, f: string)
    requires Known(srv, s) && Release(Intended, srv, s, h, xid, up).end == Returned
    ensures Explains(srv, Release(Intended, srv, s, h, xid, up), f)
  {
    if up && Apply(srv.db, Unlock(h.file, h.inst)).1 == Ok {
      FreedExplains(Found(srv, s, h).(db := Apply(srv.db, Unlock(h.file, h.inst)).0), s, h, xid, f);
    }
  }

  lemma ForgetExplains(srv: Srv, s: Session, fd: Fd, f: string)
    ensures Explains(srv, Forget(Intended, srv, s, fd), f)
  {
    var file := fd.h.file;
    if file in srv.queues {
      PlayOne(Get(srv.queues, f), Cancelled(file, s), f);
      var kept := NotOf(srv.queues[file], s);
      assert Get(Put(srv.queues, file, kept), f) == if f == file then kept else Get(srv.queues, f);
    }
  }

  lemma DeleteExplains(srv: Srv, s: Session, h: FileHandler, xid: Xid, up: bool, f: string)
    requires QueuesLocked(srv) && FileDelete(srv, s, h, xid, up).end == Returned
    ensures Explains(srv, FileDelete(srv, s, h, xid, up), f)
  {
    if Apply(srv.db, Delete(h.file, h.inst)).1 == Ok {
      DeleteDropsNoWaiter(srv, h.file, h.inst);
    }
  }

  lemma LetGoExplains(srv: Srv, s: Session, fd: Fd, xid: Xid, up: bool, f: string)
    requires Core(srv) && Known(srv, s)
    ensures Explains(srv, LetGo(Intended, srv, s, fd, xid, up), f)
  {
    var last := if IsEphemeral(srv, s, fd.h.file) then FileDelete(srv, s, fd.h, NO_REPLY, up)
                else Forget(Intended, srv, s, fd);
    if IsEphemeral(srv, s, fd.h.file) {
      DeleteIsGood(srv, s, fd.h, NO_REPLY, up);
      DeleteExplains(srv, s, fd.h, NO_REPLY, up, f);
    } else {
      ForgetExplains(srv, s, fd, f);
    }
    ThenExplains(srv, last, Done(last.srv, Send(s, xid, Value(true))), f);
  }

  lemma ReclaimExplains(srv: Srv, s: Session, h: FileHandler, up: bool, f: string)
    requires Core(srv) && Known(srv, s) && Reclaim(Intended, srv, s, h, up).end == Returned
    ensures Explains(srv, Reclaim(Intended, srv, s, h, up), f)
  {
    if h.file in GetSet(srv.held, srv.clients[s]) {
      ReleaseExplains(srv, s, h, NO_REPLY, up, f);
    }
  }

  lemma CloseExplains(srv: Srv, s: Session, h: FileHandler, xid: Xid, up: bool, f: string)
    requires Core(srv) && Known(srv, s) && FileClose(Intended, srv, s, h, xid, up).end == Returned
    ensures Explains(srv, FileClose(Intended, srv, s, h, xid, up), f)
  {
    var found := Found(srv, s, h);
    var first := Reclaim(Intended, found, s, h, up);
    var fd := Find(srv.tables, s, h).1;
    FoundIsGood(srv, s, h);
    ReclaimIsGood(found, s, h, up);
    ReclaimExplains(found, s, h, up, f);
    LetGoExplains(first.srv, s, fd, xid, up, f);
    ThenExplains(srv, first, LetGo(Intended, first.srv, s, fd, xid, up), f);
  }

  lemma {:induction false} CloseAllExplains(srv: Srv, s: Session, fds: seq<Fd>, up: bool, f: string)
    requires Core(srv) && (fds == [] || Known(srv, s)) && CloseAll(Intended, srv, s, fds, up).end == Returned
    ensures Explains(srv, CloseAll(Intended, srv, s, fds, up), f)
    decreases fds
  {
    if fds != [] {
      var first := FileClose(Intended, srv, s, fds[0].h, NO_REPLY, up);
      CloseIsGood(srv, s, fds[0].h, NO_REPLY, up);
      CloseExplains(srv, s, fds[0].h, NO_REPLY, up, f);
      CloseAllExplains(first.srv, s, fds[1..], up, f);
      ThenExplains(srv, first, CloseAll(Intended, first.srv, s, fds[1..], up), f);
    }
  }

  lemma DisconnectExplains(srv: Srv, s: Session, up: bool, f: string)
    requires Core(srv) && Disconnect(Intended, srv, s, up).end == Returned
    ensures Explains(srv, Disconnect(Intended, srv, s, up), f)
  {
    var fds := Get(srv.tables.bySession, s);
    var closed := CloseAll(Intended, srv, s, fds, up);
    CloseAllExplains(srv, s, fds, up, f);
    ThenExplains(srv, closed, Done(closed.srv.(clients := closed.srv.clients - {s}), []), f);
  }

  lemma AcquireExplains(srv: Srv, s: Session, h: FileHandler, xid: Xid, up: bool, f: string)
    ensures Explains(srv, Acquire(srv, s, h, xid, up), f)
  {
    PlayOne(Get(srv.queues, f), Asked(h.file, Waiter(s, xid)), f);
  }

  /** These requests leave the queues alone. */
  lemma OpenExplains(srv: Srv, s: Session, file: string, mode: nat, masterSeq: nat, xid: Xid, up: bool)
    ensures var r := FileOpen(srv, s, file, mode, masterSeq, xid, up);
            r.moves == [] && r.srv.queues == srv.queues
  {}

  lemma TryAcquireExplains(srv: Srv, s: Session, h: FileHandler, xid: Xid, up: bool)
    ensures var r := TryAcquire(srv, s, h, xid, up);
            r.moves == [] && r.srv.queues == srv.queues
  {}

  lemma WriteExplains(srv: Srv, s: Session, h: FileHandler, content: string, xid: Xid, up: bool)
    ensures var r := SetContents(srv, s, h, content, xid, up);
            r.moves == [] && r.srv.queues == srv.queues
  {}

  lemma PlainStepExplains(srv: Srv, op: Op, f: string)
    requires op.OpenOp? || op.ReadOp? || op.WriteOp? || op.TryAcquireOp? || op.StartOp? || op.ReopenOp?
    ensures Explains(srv, Step(Intended, srv, op), f)
  {
    match op
    case OpenOp(s, file, mode, masterSeq, xid, up) => OpenExplains(srv, s, file, mode, masterSeq, xid, up);
    case WriteOp(s, h, content, xid, up) => WriteExplains(srv, s, h, content, xid, up);
    case TryAcquireOp(s, h, xid, up) => TryAcquireExplains(srv, s, h, xid, up);
    case _ =>
  }

  lemma StepExplains(srv: Srv, op: Op, f: string)
    requires Core(srv) && !op.LeadOp? && Step(Intended, srv, op).end == Returned
    ensures Explains(srv, Step(Intended, srv, op), f)
  {
    match op
    case AcquireOp(s, h, xid, up) => AcquireExplains(srv, s, h, xid, up, f);
    case ReleaseOp(s, h, xid, up) => ReleaseExplains(srv, s, h, xid, up, f);
    case DeleteOp(s, h, xid, up) => DeleteExplains(srv, s, h, xid, up, f);
    case CloseOp(s, h, xid, up) => CloseExplains(srv, s, h, xid, up, f);
    case DisconnectOp(s, up) => DisconnectExplains(srv, s, up, f);
    case _ => PlainStepExplains(srv, op, f);
  }

  lemma {:induction false} RunExplains(srv: Srv, ops: seq<Op>, f: string)
    requires Core(srv) && LawfulRun(Intended, srv, ops) && RunOps(Intended, srv, ops).end == Returned
    requires forall op :: op in ops ==> !op.LeadOp?
    ensures Explains(srv, RunOps(Intended, srv, ops), f)
    decreases ops
  {
    if ops != [] {
      var first := Step(Intended, srv, ops[0]);
      StepIsSafe(srv, ops[0]);
      StepExplains(srv, ops[0], f);
      RunExplains(first.srv, ops[1..], f);
      ThenExplains(srv, first, RunOps(Intended, first.srv, ops[1..]), f);
    }
  }

  // ---------------------------------------------------------------- the life of each request

  /** The history of one lock queue: who asked, in order, and where each request is now.
      Requests are named by their place in the order of asking. */
  datatype Line = Line(asked: seq<Waiter>, waiting: seq<nat>, granted: seq<nat>, cancelled: set<nat>)

  const NO_LINE := Line([], [], [], {})

  predicate InRange(line: Line) {
    && (forall i :: i in line.waiting ==> i < |line.asked|)
    && (forall i :: i in line.granted ==> i < |line.asked|)
  }

  ghost predicate Increasing(s: seq<nat>) {
    forall i, j :: 0 <= i < j < |s| ==> s[i] < s[j]
  }

  /** Each request is in exactly one place, and grants and waiters are in order of asking. */
  ghost predicate Accounted(line: Line) {
    && InRange(line)
    && Increasing(line.granted + line.waiting)
    && (forall i :: 0 <= i < |line.asked| ==>
          (i in line.cancelled <==> i !in line.granted + line.waiting))
    && (forall i :: i in line.cancelled ==> i < |line.asked|)
  }

  function Names(asked: seq<Waiter>, places: seq<nat>): (q: seq<Waiter>)
    requires forall i :: i in places ==> i < |asked|
  {
    seq(|places|, k requires 0 <= k < |places| => assert places[k] in places; asked[places[k]])
  }

  function Queue(line: Line): seq<Waiter>
    requires InRange(line)
  {
    Names(line.asked, line.waiting)
  }

  function Keep(asked: seq<Waiter>, places: seq<nat>, s: Session): (r: seq<nat>)
    requires forall i :: i in places ==> i < |asked|
    ensures forall i :: i in r <==> i in places && asked[i].session != s
  {
    if places == [] then []
    else
      var last := places[|places| - 1];
      var front := places[..|places| - 1];
      assert places == front + [last];
      assert last in places;
      assert forall i :: i in front ==> i in places;
      var r := Keep(asked, front, s);
      if asked[last].session == s then r else r + [last]
  }

  /** The history after a move on the queue of file f. */
  function Record(line: Line, m: Move, f: string): Line
    requires InRange(line)
  {
    match m
    case Asked(g, w) =>
      if g != f then line
      else line.(asked := line.asked + [w], waiting := line.waiting + [|line.asked|])
    case Granted(g, w) =>
      if g != f || line.waiting == [] then line
      else line.(granted := line.granted + [line.waiting[0]], waiting := line.waiting[1..])
    case Cancelled(g, s) =>
      if g != f then line
      else
        var kept := Keep(line.asked, line.waiting, s);
        line.(waiting := kept,
              cancelled := line.cancelled + set i | i in line.waiting && i !in kept)
  }

  lemma {:induction false} KeepIsNotOf(asked: seq<Waiter>, places: seq<nat>, s: Session)
    requires forall i :: i in places ==> i < |asked|
    ensures Names(asked, Keep(asked, places, s)) == NotOf(Names(asked, places), s)
  {
    if places != [] {
      var front, last := places[..|places| - 1], places[|places| - 1];
      assert last in places && forall i :: i in front ==> i in places;
      KeepIsNotOf(asked, front, s);
      assert Names(asked, places)[..|places| - 1] == Names(asked, front);
      assert Names(asked, Keep(asked, front, s) + [last]) == Names(asked, Keep(asked, front, s)) + [asked[last]];
    }
  }

  lemma {:induction false} KeepIncreasing(asked: seq<Waiter>, before: seq<nat>, places: seq<nat>, s: Session)
    requires forall i :: i in places ==> i < |asked|
    requires Increasing(before + places)
    ensures Increasing(before + Keep(asked, places, s))
  {
    if places == [] {
      assert before + [] == before;
    } else {
      var front, last := places[..|places| - 1], places[|places| - 1];
      var all := before + places;
      assert last in places && forall i :: i in front ==> i in places;
      assert before + front == all[..|all| - 1];
      KeepIncreasing(asked, before, front, s);
      var kept := before + Keep(asked, front, s);
      forall k | 0 <= k < |kept| ensures kept[k] < last {
        assert kept[k] in before + front;
        var j :| 0 <= j < |all| - 1 && all[j] == kept[k];
        assert all[j] < all[|all| - 1];
      }
      assert before + (Keep(asked, front, s) + [last]) == kept + [last];
    }
  }

  /** A fitting move keeps every request accounted for, and the history tells the queue. */
  lemma RecordAccounts(line: Line, m: Move, f: string)
    requires Accounted(line) && Play1(Queue(line), m, f).Some?
    ensures Accounted(Record(line, m, f))
    ensures Queue(Record(line, m, f)) == Play1(Queue(line), m, f).value
  {
    match m
    case Asked(g, w) => if g == f { AskAccounts(line, w); }
    case Granted(g, w) => if g == f { GrantAccounts(line); }
    case Cancelled(g, s) =>
      if g == f {
        KeepIsNotOf(line.asked, line.waiting, s);
        KeepIncreasing(line.asked, line.granted, line.waiting, s);
        CancelAccounts(line, s);
      }
  }

  lemma AskAccounts(line: Line, w: Waiter)
    requires Accounted(line)
    ensures var next := line.(asked := line.asked + [w], waiting := line.waiting + [|line.asked|]);
            Accounted(next) && Queue(next) == Queue(line) + [w]
  {
    var next := line.(asked := line.asked + [w], waiting := line.waiting + [|line.asked|]);
    var all := line.granted + line.waiting;
    assert next.granted + next.waiting == all + [|line.asked|];
    forall k | 0 <= k < |all| ensures all[k] < |line.asked| { assert all[k] in all; }
    forall k | 0 <= k < |line.waiting| ensures Queue(next)[k] == Queue(line)[k] {
      assert line.waiting[k] in line.waiting;
    }
  }

  lemma GrantAccounts(line: Line)
    requires Accounted(line) && line.waiting != []
    ensures var next := line.(granted := line.granted + [line.waiting[0]], waiting := line.waiting[1..]);
            Accounted(next) && Queue(next) == Queue(line)[1..]
  {
    var next := line.(granted := line.granted + [line.waiting[0]], waiting := line.waiting[1..]);
    assert next.granted + next.waiting == line.granted + line.waiting;
    assert line.waiting[0] in line.waiting && forall i :: i in next.waiting ==> i in line.waiting;
    assert Queue(next) == Queue(line)[1..];
  }

  lemma WaitingIsNotGranted(before: seq<nat>, places: seq<nat>, i: nat)
    requires Increasing(before + places) && i in places
    ensures i !in before
  {
    var all := before + places;
    var b :| 0 <= b < |places| && places[b] == i;
    assert all[|before| + b] == i;
    forall a | 0 <= a < |before| ensures before[a] < i {
      assert all[a] < all[|before| + b];
    }
  }

  lemma CancelAccounts(line: Line, s: Session)
    requires Accounted(line)
    requires Increasing(line.granted + Keep(line.asked, line.waiting, s))
    ensures Accounted(Record(line, Cancelled("", s), ""))
  {
    forall i | i in line.waiting ensures i !in line.granted {
      WaitingIsNotGranted(line.granted, line.waiting, i);
    }
  }

  function RecordAll(line: Line, moves: seq<Move>, f: string): Line
    requires Accounted(line) && Play(Queue(line), moves, f).Some?
    decreases moves
  {
    if moves == [] then line
    else
      RecordAccounts(line, moves[0], f);
      RecordAll(Record(line, moves[0], f), moves[1..], f)
  }

  lemma {:induction false} RecordAllAccounts(line: Line, moves: seq<Move>, f: string)
    requires Accounted(line) && Play(Queue(line), moves, f).Some?
    ensures Accounted(RecordAll(line, moves, f))
    ensures Queue(RecordAll(line, moves, f)) == Play(Queue(line), moves, f).value
    decreases moves
  {
    if moves != [] {
      RecordAccounts(line, moves[0], f);
      RecordAllAccounts(Record(line, moves[0], f), moves[1..], f);
    }
  }

  /** On every lawful run of one leader: the moves give each acquire that was queued for f one
      place, waiting, granted or cancelled; grants went out in the order of asking, ahead of
      all who still wait; and the queue in memory is exactly the waiting ones. */
  lemma EveryAcquireIsAccountedFor(ops: seq<Op>, f: string)
    requires LawfulRun(Intended, START, ops) && RunOps(Intended, START, ops).end == Returned
    requires forall op :: op in ops ==> !op.LeadOp?
    ensures var r := RunOps(Intended, START, ops);
            && Play([], r.moves, f).Some?
            && Accounted(RecordAll(NO_LINE, r.moves, f))
            && Queue(RecordAll(NO_LINE, r.moves, f)) == Get(r.srv.queues, f)
  {
    StartIsGood();
    RunExplains(START, ops, f);
    assert Queue(NO_LINE) == [];
    RecordAllAccounts(NO_LINE, RunOps(Intended, START, ops).moves, f);
  }

  /** A grant answers the acquire it takes from the queue. */
  lemma GrantIsAnswered(v: Variant, srv: Srv, s: Session, h: FileHandler, xid: Xid, up: bool, w: Waiter)
    requires Granted(h.file, w) in Release(v, srv, s, h, xid, up).moves && w.xid != NO_REPLY
    ensures Reply(w.session, w.xid, Value(true)) in Release(v, srv, s, h, xid, up).out
    ensures h.file in srv.queues && srv.queues[h.file] != [] && srv.queues[h.file][0] == w
  {}
}
