/**
 Replicas, election and replication as one transition system.

 A replica stops for ever when it crashes, and reachable means live. The view-change
 thread probes other replicas one at a time while it holds its replica's lock, so a crash
 can fall between any two probes. A message, once sent, may arrive at any later time and
 more than once. The call that carries a command to a backup is one step.
 */
module Replication {
  import opened Text

  datatype Mode = Active | Manager

  /** What the lock of a replica protects. */
  datatype Local = Local(isLeader: bool, view: Option<nat>, mode: Mode)

  const BOOT := Local(false, None, Active)

  /** Where the view-change thread is. */
  datatype Pc = Idle | Scanning(next: nat) | Asking(target: nat) | Announcing(next: nat)

  /** A request to lead that is being served: who asked, and the next replica to announce to. */
  datatype Handler = Handler(asker: nat, next: nat)

  /** A command that the leader is passing on, and the next replica to get it. */
  datatype Exec<C> = Exec(cmd: C, next: nat)

  datatype Replica<C> = Replica(live: bool, local: Local, pc: Pc, handler: Option<Handler>,
                                exec: Option<Exec<C>>, log: seq<C>)

  datatype Msg =
    | InitView(sender: nat, to: nat)
    | InitReply(sender: nat, to: nat, ok: bool)
    | NewView(primary: nat, to: nat)

  datatype Cluster<C> = Cluster(reps: seq<Replica<C>>, msgs: set<Msg>, acked: seq<C>, aborted: set<nat>)

  datatype Action<C> =
    | Crash(r: nat)
    | NoticeDown(r: nat)
    | BeginChange(r: nat)
    | Probe(r: nat)
    | Announce(r: nat)
    | TakeInit(r: nat, asker: nat)
    | HandlerAnnounce(r: nat)
    | TakeReply(r: nat, ok: bool)
    | TakeView(r: nat, primary: nat)
    | Submit(r: nat, cmd: C)
    | PassOn(r: nat)

  function Start<C>(n: nat): Cluster<C> {
    Cluster(seq(n, _ => Replica(true, BOOT, Idle, None, None, [])), {}, [], {})
  }

  predicate Up<C>(c: Cluster<C>, r: int) {
    0 <= r < |c.reps| && c.reps[r].live
  }

  function Set<C>(c: Cluster<C>, r: nat, rep: Replica<C>): Cluster<C>
    requires r < |c.reps|
  {
    c.(reps := c.reps[r := rep])
  }

  function Post<C>(c: Cluster<C>, m: Msg): Cluster<C> {
    c.(msgs := c.msgs + {m})
  }

  // ---------------------------------------------------------------- the local state

  function Promoted(self: nat): Local {
    Local(true, Some(self), Active)
  }

  /** A new view ends leadership; it does not touch the mode. */
  function Following(l: Local, primary: nat): Local {
    Local(false, Some(primary), l.mode)
  }

  /** The reply to a request to lead: a refusal means that the target already leads. */
  function Answered(l: Local, target: nat, ok: bool): Local {
    (if ok then l else Following(l, target)).(mode := Active)
  }

  /** Which replicas can be reached. */
  function Lives<C>(c: Cluster<C>): seq<bool> {
    seq(|c.reps|, i requires 0 <= i < |c.reps| => c.reps[i].live)
  }

  /** The replica does not lead, and its primary is unset or out of reach. */
  predicate PrimaryDown(live: seq<bool>, l: Local) {
    !l.isLeader && (l.view.Some? ==> !(l.view.value < |live| && live[l.view.value]))
  }

  predicate LeaderDown<C>(c: Cluster<C>, l: Local) {
    PrimaryDown(Lives(c), l)
  }

  // ---------------------------------------------------------------- the steps

  function Promote<C>(c: Cluster<C>, r: nat): Cluster<C>
    requires r < |c.reps|
  {
    Set(c, r, c.reps[r].(local := Promoted(r), pc := Announcing(0)))
  }

  /** One probe of the search for the lowest reachable rank; it ends at the first replica
      that answers. */
  function ProbeStep<C>(c: Cluster<C>, r: nat, i: nat): Cluster<C>
    requires r < |c.reps|
  {
    if i >= |c.reps| then Promote(c, r)
    else if i == r || !Up(c, i) then Set(c, r, c.reps[r].(pc := Scanning(i + 1)))
    else if i < r then Post(Set(c, r, c.reps[r].(pc := Asking(i))), InitView(r, i))
    else Promote(c, r)
  }

  function Announced<C>(c: Cluster<C>, r: nat, i: nat): Cluster<C> {
    if i != r && Up(c, i) then Post(c, NewView(r, i)) else c
  }

  function AnnounceStep<C>(c: Cluster<C>, r: nat, i: nat): Cluster<C>
    requires r < |c.reps|
  {
    if i < |c.reps| then Announced(Set(c, r, c.reps[r].(pc := Announcing(i + 1))), r, i)
    else Set(c, r, c.reps[r].(pc := Idle))
  }

  function InitStep<C>(c: Cluster<C>, r: nat, asker: nat): Cluster<C>
    requires r < |c.reps|
  {
    if c.reps[r].local.isLeader then Post(c, InitReply(r, asker, false))
    else Set(c, r, c.reps[r].(local := Promoted(r), handler := Some(Handler(asker, 0))))
  }

  function HandlerStep<C>(c: Cluster<C>, r: nat, h: Handler): Cluster<C>
    requires r < |c.reps|
  {
    if h.next < |c.reps| then
      Announced(Set(c, r, c.reps[r].(handler := Some(Handler(h.asker, h.next + 1)))), r, h.next)
    else
      Post(Set(c, r, c.reps[r].(handler := None)), InitReply(r, h.asker, true))
  }

  /** The command goes to the next backup, or, after the last, to the leader's own store. */
  function PassStep<C>(c: Cluster<C>, r: nat, x: Exec<C>): Cluster<C>
    requires r < |c.reps|
  {
    var p := c.reps[r];
    if x.next >= |c.reps| then
      Set(c, r, p.(exec := None, log := p.log + [x.cmd])).(acked := c.acked + [x.cmd])
    else
      var sent := Set(c, r, p.(exec := Some(Exec(x.cmd, x.next + 1))));
      if x.next == r || !Up(c, x.next) then sent
      else Set(sent, x.next, c.reps[x.next].(log := c.reps[x.next].log + [x.cmd]))
  }

  /** A crashed replica takes no step, and a step that is not possible now changes nothing.
      A thread that scans holds the lock, so no message is taken meanwhile. */
  function Step<C>(c: Cluster<C>, a: Action<C>): Cluster<C> {
    if !Up(c, a.r) then c
    else
      var r, p := a.r, c.reps[a.r];
      match a
      case Crash(_) => Set(c, r, p.(live := false))
      case NoticeDown(_) =>
        if p.pc.Idle? && p.local.mode.Active? && LeaderDown(c, p.local)
        then Set(c, r, p.(local := p.local.(mode := Manager))) else c
      case BeginChange(_) =>
        if !p.pc.Idle? || p.local.mode.Active? then c
        else if LeaderDown(c, p.local) then Set(c, r, p.(pc := Scanning(0)))
        else Set(c, r, p.(live := false)).(aborted := c.aborted + {r})
      case Probe(_) => if p.pc.Scanning? then ProbeStep(c, r, p.pc.next) else c
      case Announce(_) => if p.pc.Announcing? then AnnounceStep(c, r, p.pc.next) else c
      case TakeInit(_, asker) =>
        if InitView(asker, r) in c.msgs && p.handler.None? && !p.pc.Scanning? then InitStep(c, r, asker) else c
      case HandlerAnnounce(_) => if p.handler.Some? then HandlerStep(c, r, p.handler.value) else c
      case TakeReply(_, ok) =>
        if p.pc.Asking? && InitReply(p.pc.target, r, ok) in c.msgs
        then Set(c, r, p.(local := Answered(p.local, p.pc.target, ok), pc := Idle)) else c
      case TakeView(_, primary) =>
        if NewView(primary, r) in c.msgs && !p.pc.Scanning?
        then Set(c, r, p.(local := Following(p.local, primary))) else c
      case Submit(_, cmd) =>
        if p.local.isLeader && p.exec.None? && !p.pc.Scanning?
        then Set(c, r, p.(exec := Some(Exec(cmd, 0)))) else c
      case PassOn(_) => if p.exec.Some? then PassStep(c, r, p.exec.value) else c
  }

  function Run<C>(c: Cluster<C>, actions: seq<Action<C>>): Cluster<C>
    decreases actions
  {
    if actions == [] then c else Run(Step(c, actions[0]), actions[1..])
  }

  // ---------------------------------------------------------------- only the lowest rank leads

  ghost predicate LowerDown<C>(c: Cluster<C>, k: nat) {
    forall j :: 0 <= j < |c.reps| && j < k ==> !c.reps[j].live
  }

  /** Whatever a replica does for leadership, it does with all lower ranks crashed. */
  ghost predicate RepOk<C>(c: Cluster<C>, r: nat, p: Replica<C>) {
    p.live ==>
      && (p.local.isLeader || p.exec.Some? || p.handler.Some? || p.pc.Announcing? ==> LowerDown(c, r))
      && (p.exec.Some? ==> p.exec.value.next <= |c.reps|)
      && (p.local.view.Some? ==> p.local.view.value < |c.reps| && LowerDown(c, p.local.view.value))
      && (p.pc.Scanning? ==> forall j :: 0 <= j < |c.reps| && j < p.pc.next && j != r ==> !c.reps[j].live)
      && (p.pc.Asking? ==> p.pc.target < |c.reps| && LowerDown(c, p.pc.target))
  }

  function Candidate(m: Msg): nat {
    match m
    case InitView(_, to) => to
    case InitReply(sender, _, _) => sender
    case NewView(primary, _) => primary
  }

  ghost predicate MsgOk<C>(c: Cluster<C>, m: Msg) {
    Candidate(m) < |c.reps| && LowerDown(c, Candidate(m))
  }

  ghost predicate ElectionOk<C>(c: Cluster<C>) {
    && (forall r :: 0 <= r < |c.reps| ==> RepOk(c, r, c.reps[r]))
    && (forall m :: m in c.msgs ==> MsgOk(c, m))
  }

  /** Nothing that was down comes up again. */
  ghost predicate Shrinks<C>(c: Cluster<C>, d: Cluster<C>) {
    |d.reps| == |c.reps| && forall j :: 0 <= j < |c.reps| && d.reps[j].live ==> c.reps[j].live
  }

  lemma StillOk<C>(c: Cluster<C>, d: Cluster<C>, r: nat, p: Replica<C>, q: Replica<C>)
    requires Shrinks(c, d) && RepOk(c, r, p)
    requires q == p.(log := q.log)
    ensures RepOk(d, r, q)
  {}

  /** A change of one replica, and possibly one new message. */
  lemma ChangeIsOk<C>(c: Cluster<C>, r: nat, q: Replica<C>)
    requires ElectionOk(c) && r < |c.reps| && (q.live ==> c.reps[r].live) && RepOk(c, r, q)
    ensures ElectionOk(Set(c, r, q))
    ensures forall k {:trigger LowerDown(c, k)} {:trigger LowerDown(Set(c, r, q), k)} ::
              LowerDown(c, k) ==> LowerDown(Set(c, r, q), k)
  {
    var d := Set(c, r, q);
    assert Shrinks(c, d);
    forall k | 0 <= k < |d.reps| ensures RepOk(d, k, d.reps[k]) {
      StillOk(c, d, k, if k == r then q else c.reps[k], d.reps[k]);
    }
    forall m | m in d.msgs ensures MsgOk(d, m) {
      assert MsgOk(c, m);
    }
  }

  lemma PostIsOk<C>(c: Cluster<C>, m: Msg)
    requires ElectionOk(c) && MsgOk(c, m)
    ensures ElectionOk(Post(c, m))
  {
    var d := Post(c, m);
    forall k | 0 <= k < |d.reps| ensures RepOk(d, k, d.reps[k]) {
      assert RepOk(c, k, c.reps[k]);
    }
    forall x | x in d.msgs ensures MsgOk(d, x) {
      assert x == m || MsgOk(c, x);
    }
  }

  lemma RecordsAreFree<C>(c: Cluster<C>, acked: seq<C>, aborted: set<nat>)
    requires ElectionOk(c)
    ensures ElectionOk(c.(acked := acked)) && ElectionOk(c.(aborted := aborted))
  {
    var d, e := c.(acked := acked), c.(aborted := aborted);
    forall k | 0 <= k < |c.reps| ensures RepOk(d, k, c.reps[k]) && RepOk(e, k, c.reps[k]) {
      assert RepOk(c, k, c.reps[k]);
    }
    forall x | x in c.msgs ensures MsgOk(d, x) && MsgOk(e, x) {
      assert MsgOk(c, x);
    }
  }

  lemma PromoteIsOk<C>(c: Cluster<C>, r: nat)
    requires ElectionOk(c) && Up(c, r) && LowerDown(c, r)
    ensures ElectionOk(Promote(c, r))
  {
    assert RepOk(c, r, c.reps[r]);
    ChangeIsOk(c, r, c.reps[r].(local := Promoted(r), pc := Announcing(0)));
  }

  lemma ProbeIsOk<C>(c: Cluster<C>, r: nat)
    requires ElectionOk(c) && Up(c, r) && c.reps[r].pc.Scanning?
    ensures ElectionOk(ProbeStep(c, r, c.reps[r].pc.next))
  {
    var p, i := c.reps[r], c.reps[r].pc.next;
    assert RepOk(c, r, p);
    if i >= |c.reps| || (i > r && Up(c, i)) {
      PromoteIsOk(c, r);
    } else if i == r || !Up(c, i) {
      ChangeIsOk(c, r, p.(pc := Scanning(i + 1)));
    } else {
      assert LowerDown(c, i);
      ChangeIsOk(c, r, p.(pc := Asking(i)));
      PostIsOk(Set(c, r, p.(pc := Asking(i))), InitView(r, i));
    }
  }

  lemma AnnouncedIsOk<C>(c: Cluster<C>, r: nat, i: nat)
    requires ElectionOk(c) && r < |c.reps| && LowerDown(c, r)
    ensures ElectionOk(Announced(c, r, i))
  {
    if i != r && Up(c, i) {
      PostIsOk(c, NewView(r, i));
    }
  }

  lemma HandlerGoesOn<C>(c: Cluster<C>, r: nat, h: Option<Handler>)
    requires ElectionOk(c) && Up(c, r) && c.reps[r].handler.Some?
    ensures ElectionOk(Set(c, r, c.reps[r].(handler := h)))
    ensures LowerDown(c, r) && LowerDown(Set(c, r, c.reps[r].(handler := h)), r)
  {
    assert RepOk(c, r, c.reps[r]);
    ChangeIsOk(c, r, c.reps[r].(handler := h));
  }

  lemma HandlerIsOk<C>(c: Cluster<C>, r: nat, h: Handler)
    requires ElectionOk(c) && Up(c, r) && c.reps[r].handler == Some(h)
    ensures ElectionOk(HandlerStep(c, r, h))
  {
    if h.next < |c.reps| {
      var next := Some(Handler(h.asker, h.next + 1));
      HandlerGoesOn(c, r, next);
      AnnouncedIsOk(Set(c, r, c.reps[r].(handler := next)), r, h.next);
    } else {
      HandlerGoesOn(c, r, None);
      PostIsOk(Set(c, r, c.reps[r].(handler := None)), InitReply(r, h.asker, true));
    }
  }

  lemma InitIsOk<C>(c: Cluster<C>, r: nat, asker: nat)
    requires ElectionOk(c) && Up(c, r) && InitView(asker, r) in c.msgs
    ensures ElectionOk(InitStep(c, r, asker))
  {
    var p := c.reps[r];
    assert RepOk(c, r, p) && MsgOk(c, InitView(asker, r));
    if p.local.isLeader {
      PostIsOk(c, InitReply(r, asker, false));
    } else {
      ChangeIsOk(c, r, p.(local := Promoted(r), handler := Some(Handler(asker, 0))));
    }
  }

  lemma ExecGoesOn<C>(c: Cluster<C>, r: nat, x: Option<Exec<C>>, log: seq<C>)
    requires ElectionOk(c) && Up(c, r) && c.reps[r].exec.Some?
    requires x.Some? ==> x.value.next <= |c.reps|
    ensures ElectionOk(Set(c, r, c.reps[r].(exec := x, log := log)))
  {
    assert RepOk(c, r, c.reps[r]);
    ChangeIsOk(c, r, c.reps[r].(exec := x, log := log));
  }

  lemma LogGrows<C>(c: Cluster<C>, r: nat, log: seq<C>)
    requires ElectionOk(c) && r < |c.reps|
    ensures ElectionOk(Set(c, r, c.reps[r].(log := log)))
  {
    assert RepOk(c, r, c.reps[r]);
    ChangeIsOk(c, r, c.reps[r].(log := log));
  }

  lemma PassIsOk<C>(c: Cluster<C>, r: nat)
    requires ElectionOk(c) && Up(c, r) && c.reps[r].exec.Some?
    ensures ElectionOk(PassStep(c, r, c.reps[r].exec.value))
  {
    var p := c.reps[r];
    var x := p.exec.value;
    if x.next >= |c.reps| {
      ExecGoesOn(c, r, None, p.log + [x.cmd]);
      RecordsAreFree(Set(c, r, p.(exec := None, log := p.log + [x.cmd])), c.acked + [x.cmd], c.aborted);
    } else {
      var next := Some(Exec(x.cmd, x.next + 1));
      ExecGoesOn(c, r, next, p.log);
      var sent := Set(c, r, p.(exec := next));
      assert sent == Set(c, r, p.(exec := next, log := p.log));
      if x.next != r && Up(c, x.next) {
        LogGrows(sent, x.next, c.reps[x.next].log + [x.cmd]);
      }
    }
  }

  lemma AnnounceIsOk<C>(c: Cluster<C>, r: nat)
    requires ElectionOk(c) && Up(c, r) && c.reps[r].pc.Announcing?
    ensures ElectionOk(AnnounceStep(c, r, c.reps[r].pc.next))
  {
    var p, i := c.reps[r], c.reps[r].pc.next;
    assert RepOk(c, r, p);
    if i < |c.reps| {
      ChangeIsOk(c, r, p.(pc := Announcing(i + 1)));
      AnnouncedIsOk(Set(c, r, p.(pc := Announcing(i + 1))), r, i);
    } else {
      ChangeIsOk(c, r, p.(pc := Idle));
    }
  }

  lemma BeginIsOk<C>(c: Cluster<C>, r: nat)
    requires ElectionOk(c) && Up(c, r)
    ensures ElectionOk(Step(c, BeginChange(r)))
  {
    var p := c.reps[r];
    assert RepOk(c, r, p);
    ChangeIsOk(c, r, p.(pc := Scanning(0)));
    ChangeIsOk(c, r, p.(live := false));
    RecordsAreFree(Set(c, r, p.(live := false)), c.acked, c.aborted + {r});
  }

  /** Steps that change only the acting replica's own state. */
  lemma OwnStepIsOk<C>(c: Cluster<C>, a: Action<C>)
    requires ElectionOk(c) && Up(c, a.r)
    requires a.Crash? || a.NoticeDown? || a.TakeReply? || a.TakeView? || a.Submit?
    ensures ElectionOk(Step(c, a))
  {
    var r, p := a.r, c.reps[a.r];
    assert RepOk(c, r, p);
    match a
    case Crash(_) => ChangeIsOk(c, r, p.(live := false));
    case NoticeDown(_) => ChangeIsOk(c, r, p.(local := p.local.(mode := Manager)));
    case TakeReply(_, ok) =>
      if p.pc.Asking? { ChangeIsOk(c, r, p.(local := Answered(p.local, p.pc.target, ok), pc := Idle)); }
    case TakeView(_, primary) =>
      if NewView(primary, r) in c.msgs {
        assert MsgOk(c, NewView(primary, r));
        ChangeIsOk(c, r, p.(local := Following(p.local, primary)));
      }
    case Submit(_, cmd) => if p.local.isLeader { ChangeIsOk(c, r, p.(exec := Some(Exec(cmd, 0)))); }
  }

  lemma StepKeepsElection<C>(c: Cluster<C>, a: Action<C>)
    requires ElectionOk(c)
    ensures ElectionOk(Step(c, a))
  {
    if Up(c, a.r) {
      var r, p := a.r, c.reps[a.r];
      match a
      case BeginChange(_) => BeginIsOk(c, r);
      case Probe(_) => if p.pc.Scanning? { ProbeIsOk(c, r); }
      case Announce(_) => if p.pc.Announcing? { AnnounceIsOk(c, r); }
      case TakeInit(_, asker) => if InitView(asker, r) in c.msgs { InitIsOk(c, r, asker); }
      case HandlerAnnounce(_) => if p.handler.Some? { HandlerIsOk(c, r, p.handler.value); }
      case PassOn(_) => if p.exec.Some? { PassIsOk(c, r); }
      case _ => OwnStepIsOk(c, a);
    }
  }

  lemma StartIsOk<C>(n: nat)
    ensures ElectionOk(Start<C>(n))
  {}

  lemma {:induction false} RunKeepsElection<C>(c: Cluster<C>, actions: seq<Action<C>>)
    requires ElectionOk(c)
    ensures ElectionOk(Run(c, actions))
    decreases actions
  {
    if actions != [] {
      StepKeepsElection(c, actions[0]);
      RunKeepsElection(Step(c, actions[0]), actions[1..]);
    }
  }

  predicate Leads<C>(c: Cluster<C>, r: int) {
    Up(c, r) && c.reps[r].local.isLeader
  }

  /** The primary that a live replica names, if it is live too. */
  function LivePrimary<C>(c: Cluster<C>, r: int): Option<nat> {
    if Up(c, r) && c.reps[r].local.view.Some? && Up(c, c.reps[r].local.view.value) then c.reps[r].local.view else None
  }

  /** On every run: a live leader means that all lower ranks have crashed, so there is at
      most one live leader. */
  lemma OneLiveLeader<C>(n: nat, actions: seq<Action<C>>, r: nat, q: nat)
    ensures var c := Run(Start(n), actions);
            Leads(c, r) && Up(c, q) ==> r <= q && (Leads(c, q) ==> q == r)
  {
    StartIsOk<C>(n);
    RunKeepsElection(Start(n), actions);
    var c := Run(Start(n), actions);
    if Leads(c, r) && Up(c, q) {
      assert RepOk(c, r, c.reps[r]) && RepOk(c, q, c.reps[q]);
    }
  }

  /** On every run: two live replicas whose primaries are live name the same one. */
  lemma LivePrimariesAgree<C>(n: nat, actions: seq<Action<C>>, r: nat, q: nat)
    ensures var c := Run(Start(n), actions);
            LivePrimary(c, r).Some? && LivePrimary(c, q).Some? ==> LivePrimary(c, r) == LivePrimary(c, q)
  {
    StartIsOk<C>(n);
    RunKeepsElection(Start(n), actions);
    var c := Run(Start(n), actions);
    if LivePrimary(c, r).Some? && LivePrimary(c, q).Some? {
      assert RepOk(c, r, c.reps[r]) && RepOk(c, q, c.reps[q]);
    }
  }
}
