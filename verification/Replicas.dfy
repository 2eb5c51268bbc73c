/**
 The replica's own code, with its loops and fields, against the steps of the transition
 system, and two short runs that show what can go wrong.
 */
module Replicas {
  import opened Text
  import opened Replication
  import opened ReplicatedLogs

  /** The minimum of the own rank and all reachable ranks. */
  predicate IsNewRank(live: seq<bool>, self: nat, rank: nat)
    requires self < |live|
  {
    rank <= self && (rank == self || live[rank]) && forall j :: 0 <= j < rank ==> !live[j]
  }

  /** How a view change begins: Stopped when the assertion that the leader is down fails. */
  datatype Outcome = Stopped | Leads | Asks(target: nat)

  class ReplicaState {
    const self: nat
    var isLeader: bool
    var view: Option<nat>
    var mode: Mode

    function State(): Local
      reads this
    {
      Local(isLeader, view, mode)
    }

    constructor (self: nat)
      ensures State() == BOOT && this.self == self
    {
      this.self := self;
      isLeader := false;
      view := None;
      mode := Active;
    }

    method IsLeaderDown(live: seq<bool>) returns (down: bool)
      ensures down <==> PrimaryDown(live, State())
    {
      if isLeader {
        return false;
      }
      if view.None? {
        return true;
      }
      return !(view.value < |live| && live[view.value]);
    }

    /** The loop leaves at the first other replica that answers, and still finds the minimum. */
    method GetNewLeaderRank(live: seq<bool>) returns (rank: nat)
      requires self < |live|
      ensures IsNewRank(live, self, rank)
    {
      rank := self;
      for i := 0 to |live|
        invariant rank == self
        invariant forall j :: 0 <= j < i && j != self ==> !live[j]
      {
        if i != self && live[i] {
          if i < rank {
            rank := i;
          }
          break;
        }
      }
    }

    /** The part of a view change before the call to the new leader. */
    method NotifyNewLeader(live: seq<bool>) returns (outcome: Outcome)
      requires self < |live|
      modifies this
      ensures outcome.Stopped? <==> !PrimaryDown(live, old(State()))
      ensures outcome.Leads? ==> IsNewRank(live, self, self) && State() == Promoted(self)
      ensures outcome.Asks? ==> IsNewRank(live, self, outcome.target) && outcome.target < self
      ensures !outcome.Leads? ==> State() == old(State())
    {
      var down := IsLeaderDown(live);
      if !down {
        return Stopped;
      }
      var rank := GetNewLeaderRank(live);
      if rank == self {
        isLeader := true;
        view := Some(rank);
        mode := Active;
        return Leads;
      }
      return Asks(rank);
    }

    /** The part after the call: a replica that is refused follows the one that refused it. */
    method OnInitReply(target: nat, succeed: bool)
      modifies this
      ensures State() == Answered(old(State()), target, succeed)
      ensures mode == Active && (!succeed ==> !isLeader && view == Some(target))
      ensures succeed ==> isLeader == old(isLeader) && view == old(view)
    {
      if !succeed {
        isLeader := false;
        view := Some(target);
      }
      mode := Active;
    }

    method OnInitView() returns (succeed: bool)
      modifies this
      ensures succeed == !old(isLeader)
      ensures State() == if succeed then Promoted(self) else old(State())
    {
      if isLeader {
        return false;
      }
      isLeader := true;
      view := Some(self);
      mode := Active;
      return true;
    }

    method OnNewView(primary: nat)
      modifies this
      ensures State() == Following(old(State()), primary)
      ensures !isLeader && view == Some(primary) && mode == old(mode)
    {
      isLeader := false;
      view := Some(primary);
    }
  }

  /** The leader's loop over the ranks, then its own store. */
  method ReplicateCommand<C>(live: seq<bool>, self: nat, logs: array<seq<C>>, cmd: C)
    requires self < |live| == logs.Length
    modifies logs
    ensures forall i :: 0 <= i < logs.Length ==>
              logs[i] == if i == self || live[i] then old(logs[i]) + [cmd] else old(logs[i])
  {
    for i := 0 to logs.Length
      invariant forall j :: 0 <= j < i ==>
                  logs[j] == if j != self && live[j] then old(logs[j]) + [cmd] else old(logs[j])
      invariant forall j :: i <= j < logs.Length ==> logs[j] == old(logs[j])
    {
      if i != self && live[i] {
        logs[i] := logs[i] + [cmd];
      }
    }
    logs[self] := logs[self] + [cmd];
  }

  // ---------------------------------------------------------------- the steps do the same

  function Repeat<C>(a: Action<C>, k: nat): seq<Action<C>> {
    if k == 0 then [] else [a] + Repeat(a, k - 1)
  }

  lemma RepeatStep<C>(c: Cluster<C>, a: Action<C>, k: nat)
    requires k > 0
    ensures Run(c, Repeat(a, k)) == Run(Step(c, a), Repeat(a, k - 1))
  {}

  lemma {:induction false} NoMoreProbes<C>(c: Cluster<C>, r: nat, k: nat)
    requires Up(c, r) && !c.reps[r].pc.Scanning?
    ensures Run(c, Repeat(Probe(r), k)) == c
  {
    if k > 0 {
      RepeatStep(c, Probe(r), k);
      NoMoreProbes(c, r, k - 1);
    }
  }

  /** While nothing crashes, the probes find the rank the loop finds: the replica leads, or
      asks that rank to lead. */
  lemma {:induction false} ProbesFindRank<C>(c: Cluster<C>, r: nat, k: nat, rank: nat)
    requires Up(c, r) && c.reps[r].pc.Scanning? && c.reps[r].pc.next <= |c.reps| < k + c.reps[r].pc.next
    requires forall j :: 0 <= j < c.reps[r].pc.next && j != r ==> !c.reps[j].live
    requires IsNewRank(Lives(c), r, rank)
    ensures var d := Run(c, Repeat(Probe(r), k));
            && Lives(d) == Lives(c)
            && (rank == r ==> d.reps[r].local == Promoted(r))
            && (rank != r ==> d.reps[r].pc == Asking(rank) && InitView(r, rank) in d.msgs
                              && d.reps[r].local == c.reps[r].local)
    decreases k
  {
    var i, d := c.reps[r].pc.next, Step(c, Probe(r));
    RepeatStep(c, Probe(r), k);
    assert d == ProbeStep(c, r, i);
    assert Lives(d) == Lives(c);
    if i < |c.reps| && (i == r || !Up(c, i)) {
      ProbesFindRank(d, r, k - 1, rank);
    } else {
      if i < |c.reps| { assert Lives(c)[i]; }
      if rank != r { assert Lives(c)[rank]; }
      NoMoreProbes(d, r, k - 1);
    }
  }

  lemma {:induction false} NothingToPass<C>(c: Cluster<C>, r: nat, k: nat)
    requires Up(c, r) && c.reps[r].exec.None?
    ensures Run(c, Repeat(PassOn(r), k)) == c
  {
    if k > 0 {
      RepeatStep(c, PassOn(r), k);
      NothingToPass(c, r, k - 1);
    }
  }

  /** While nothing crashes, the steps give every live replica the command, as the loop does,
      and then acknowledge it. */
  lemma {:induction false} PassingReachesAll<C>(c: Cluster<C>, r: nat, k: nat)
    requires Busy(c, r) && c.reps[r].exec.value.next <= |c.reps| < k + c.reps[r].exec.value.next
    ensures var d, x := Run(c, Repeat(PassOn(r), k)), c.reps[r].exec.value;
            && |d.reps| == |c.reps| && d.acked == c.acked + [x.cmd]
            && forall i :: 0 <= i < |c.reps| ==>
                 d.reps[i].log == if i == r || (i >= x.next && c.reps[i].live) then c.reps[i].log + [x.cmd]
                                  else c.reps[i].log
    decreases k
  {
    var x, d := c.reps[r].exec.value, Step(c, PassOn(r));
    RepeatStep(c, PassOn(r), k);
    assert d == PassStep(c, r, x);
    if x.next < |c.reps| {
      PassingReachesAll(d, r, k - 1);
    } else {
      NothingToPass(d, r, k - 1);
    }
  }

  // ---------------------------------------------------------------- the assertion at a view change

  /** A replica about to change the view has no live leader in sight. */
  ghost predicate ManagersSeeNone<C(!new)>(c: Cluster<C>) {
    forall r :: Up(c, r) && c.reps[r].local.mode.Manager? ==> LeaderDown(c, c.reps[r].local)
  }

  /** A new view reaches a replica that is about to change the view itself. */
  predicate Surprises<C>(c: Cluster<C>, a: Action<C>) {
    && a.TakeView? && Up(c, a.r) && NewView(a.primary, a.r) in c.msgs && !c.reps[a.r].pc.Scanning?
    && c.reps[a.r].local.mode.Manager? && Up(c, a.primary)
  }

  lemma OthersKeepLocal<C(!new)>(c: Cluster<C>, a: Action<C>)
    ensures var d := Step(c, a);
            && |d.reps| == |c.reps|
            && (forall r :: Up(d, r) ==> Up(c, r) && (r != a.r ==> d.reps[r].local == c.reps[r].local))
            && (d.aborted != c.aborted ==> a.BeginChange? && Up(c, a.r) && c.reps[a.r].local.mode.Manager?
                                           && !LeaderDown(c, c.reps[a.r].local))
  {}

  lemma OwnLocal<C>(c: Cluster<C>, a: Action<C>)
    requires Up(c, a.r) && Up(Step(c, a), a.r)
    ensures var l := Step(c, a).reps[a.r].local;
            l.mode.Manager? ==>
              || l == c.reps[a.r].local
              || (l == c.reps[a.r].local.(mode := Manager) && LeaderDown(c, l))
              || (a.TakeView? && NewView(a.primary, a.r) in c.msgs && !c.reps[a.r].pc.Scanning?
                  && c.reps[a.r].local.mode.Manager? && l == Following(c.reps[a.r].local, a.primary))
  {}

  lemma StillDown<C>(c: Cluster<C>, d: Cluster<C>, l: Local)
    requires LeaderDown(c, l) && forall r :: Up(d, r) ==> Up(c, r)
    ensures LeaderDown(d, l)
  {
    forall i | 0 <= i < |Lives(d)| && Lives(d)[i] ensures i < |c.reps| && Lives(c)[i] {
      assert Up(d, i);
    }
  }

  lemma QuietStepKeepsNone<C(!new)>(c: Cluster<C>, a: Action<C>)
    requires ManagersSeeNone(c) && !Surprises(c, a)
    ensures ManagersSeeNone(Step(c, a))
    ensures Step(c, a).aborted == c.aborted
  {
    var d := Step(c, a);
    OthersKeepLocal(c, a);
    forall r | Up(d, r) && d.reps[r].local.mode.Manager? ensures LeaderDown(d, d.reps[r].local) {
      if r == a.r {
        OwnLocal(c, a);
      }
      StillDown(c, d, d.reps[r].local);
    }
  }

  /** The assertion can come to fail exactly when a new view of a live primary reaches a
      replica in the middle of starting its own; the replica stops when it goes on. */
  lemma AssertionFailsIff<C(!new)>(c: Cluster<C>, a: Action<C>)
    requires ManagersSeeNone(c)
    ensures ManagersSeeNone(Step(c, a)) <==> !Surprises(c, a)
    ensures Surprises(c, a) && c.reps[a.r].pc.Idle? ==> a.r in Step(Step(c, a), BeginChange(a.r)).aborted
  {
    if Surprises(c, a) {
      var d := Step(c, a);
      assert d == Set(c, a.r, c.reps[a.r].(local := Following(c.reps[a.r].local, a.primary)));
      assert Up(d, a.r) && Up(d, a.primary) && d.reps[a.r].local.mode.Manager?;
      BeginStops(d, a.r);
    } else {
      QuietStepKeepsNone(c, a);
    }
  }

  /** A whole view change at a replica while nothing crashes, up to the call of the new leader:
      the replica stops, leads or asks just as NotifyNewLeader does with the same replicas in
      reach. */
  lemma ViewChangeIsNotify<C>(c: Cluster<C>, r: nat, rank: nat)
    requires Up(c, r) && c.reps[r].pc.Idle? && c.reps[r].local.mode.Manager? && IsNewRank(Lives(c), r, rank)
    ensures var d := Run(c, [BeginChange(r)] + Repeat(Probe(r), |c.reps| + 1));
            var down := PrimaryDown(Lives(c), c.reps[r].local);
            && |d.reps| == |c.reps|
            && (!down ==> r in d.aborted && !Up(d, r))
            && (down && rank == r ==> d.reps[r].local == Promoted(r))
            && (down && rank != r ==> d.reps[r].pc == Asking(rank) && d.reps[r].local == c.reps[r].local)
  {
    var k, d := |c.reps| + 1, Step(c, BeginChange(r));
    var probes: seq<Action<C>> := Repeat(Probe(r), k);
    assert ([BeginChange(r)] + probes)[1..] == probes;
    if PrimaryDown(Lives(c), c.reps[r].local) {
      assert Lives(d) == Lives(c);
      ProbesFindRank(d, r, k, rank);
    } else {
      DeadDoNothing(d, r, Probe(r), k);
    }
  }

  lemma {:induction false} DeadDoNothing<C>(c: Cluster<C>, r: nat, a: Action<C>, k: nat)
    requires !Up(c, r) && a.r == r
    ensures Run(c, Repeat(a, k)) == c
  {
    if k > 0 {
      RepeatStep(c, a, k);
      DeadDoNothing(c, r, a, k - 1);
    }
  }

  lemma BeginStops<C>(c: Cluster<C>, r: nat)
    requires Up(c, r) && c.reps[r].local.mode.Manager? && !LeaderDown(c, c.reps[r].local)
    ensures c.reps[r].pc.Idle? ==> r in Step(c, BeginChange(r)).aborted
  {}

  ghost predicate NeverSurprised<C(!new)>(c: Cluster<C>, actions: seq<Action<C>>)
    decreases actions
  {
    actions != [] ==> !Surprises(c, actions[0]) && NeverSurprised(Step(c, actions[0]), actions[1..])
  }

  lemma {:induction false} NobodyAborts<C(!new)>(c: Cluster<C>, actions: seq<Action<C>>)
    requires ManagersSeeNone(c) && NeverSurprised(c, actions)
    ensures Run(c, actions).aborted == c.aborted
    decreases actions
  {
    if actions != [] {
      QuietStepKeepsNone(c, actions[0]);
      NobodyAborts(Step(c, actions[0]), actions[1..]);
    }
  }

  // ---------------------------------------------------------------- two short runs

  function Two(a: Replica<int>, b: Replica<int>, msgs: set<Msg>): Cluster<int> {
    Cluster([a, b], msgs, [], {})
  }

  const FRESH: Replica<int> := Replica(true, BOOT, Idle, None, None, [])
  const MANAGER: Replica<int> := FRESH.(local := Local(false, None, Manager))
  const LEADER: Replica<int> := FRESH.(local := Promoted(0))

  lemma BothNotice()
    ensures Step(Two(FRESH, FRESH, {}), NoticeDown(0)) == Two(MANAGER, FRESH, {})
    ensures Step(Two(MANAGER, FRESH, {}), NoticeDown(1)) == Two(MANAGER, MANAGER, {})
  {}

  lemma FirstPromotesItself(b: Replica<int>)
    requires b.live
    ensures Step(Two(MANAGER, b, {}), BeginChange(0)) == Two(MANAGER.(pc := Scanning(0)), b, {})
    ensures Step(Two(MANAGER.(pc := Scanning(0)), b, {}), Probe(0)) == Two(MANAGER.(pc := Scanning(1)), b, {})
    ensures Step(Two(MANAGER.(pc := Scanning(1)), b, {}), Probe(0)) == Two(LEADER.(pc := Announcing(0)), b, {})
  {}

  lemma FirstAnnounces(b: Replica<int>)
    requires b.live
    ensures Step(Two(LEADER.(pc := Announcing(0)), b, {}), Announce(0)) == Two(LEADER.(pc := Announcing(1)), b, {})
    ensures Step(Two(LEADER.(pc := Announcing(1)), b, {}), Announce(0))
         == Two(LEADER.(pc := Announcing(2)), b, {NewView(0, 1)})
  {}

  lemma SecondStops()
    ensures var c := Two(LEADER.(pc := Announcing(2)), MANAGER, {NewView(0, 1)});
            Step(Step(c, TakeView(1, 0)), BeginChange(1)).aborted == {1}
  {}

  lemma RunFirst<C>(c: Cluster<C>, a: Action<C>, rest: seq<Action<C>>)
    ensures Run(c, [a] + rest) == Run(Step(c, a), rest)
  {}

  const TO_LEADER: seq<Action<int>> := [BeginChange(0), Probe(0), Probe(0)]

  lemma ReachesLeader(b: Replica<int>, rest: seq<Action<int>>)
    requires b.live
    ensures Run(Two(MANAGER, b, {}), TO_LEADER + rest) == Run(Two(LEADER.(pc := Announcing(0)), b, {}), rest)
  {
    FirstPromotesItself(b);
    RunFirst(Two(MANAGER, b, {}), BeginChange(0), [Probe(0)] + ([Probe(0)] + rest));
    RunFirst(Two(MANAGER.(pc := Scanning(0)), b, {}), Probe(0), [Probe(0)] + rest);
    RunFirst(Two(MANAGER.(pc := Scanning(1)), b, {}), Probe(0), rest);
    assert TO_LEADER + rest == [BeginChange(0)] + ([Probe(0)] + ([Probe(0)] + rest));
  }

  /** Two replicas start, the first promotes itself, and its announcement stops the second
      although nothing has crashed. */
  lemma StartUpAborts()
    ensures Run(Start<int>(2), [NoticeDown(0)] + ([NoticeDown(1)] + (TO_LEADER +
              ([Announce(0)] + ([Announce(0)] + ([TakeView(1, 0)] + [BeginChange(1)])))))).aborted == {1}
  {
    var last: seq<Action<int>> := [BeginChange(1)];
    var taken := [TakeView(1, 0)] + last;
    var tail := [Announce(0)] + ([Announce(0)] + taken);
    assert Start<int>(2) == Two(FRESH, FRESH, {});
    BothNotice();
    RunFirst(Two(FRESH, FRESH, {}), NoticeDown(0), [NoticeDown(1)] + (TO_LEADER + tail));
    RunFirst(Two(MANAGER, FRESH, {}), NoticeDown(1), TO_LEADER + tail);
    ReachesLeader(MANAGER, tail);
    FirstAnnounces(MANAGER);
    RunFirst(Two(LEADER.(pc := Announcing(0)), MANAGER, {}), Announce(0), [Announce(0)] + taken);
    RunFirst(Two(LEADER.(pc := Announcing(1)), MANAGER, {}), Announce(0), taken);
    var c := Two(LEADER.(pc := Announcing(2)), MANAGER, {NewView(0, 1)});
    RunFirst(c, TakeView(1, 0), last);
    RunFirst(Step(c, TakeView(1, 0)), BeginChange(1), []);
    assert [BeginChange(1)] + [] == last;
    SecondStops();
  }

  /** A leader that crashes after the first backup leaves unequal logs behind. */
  lemma CutShortLeavesUnequal<C>(c: Cluster<C>, cmd: C)
    requires Up(c, 0) && Up(c, 1) && Up(c, 2) && c.reps[0].local.isLeader && c.reps[0].exec.None?
    requires !c.reps[0].pc.Scanning? && c.reps[1].log == c.reps[2].log
    ensures var d := Step(Step(Step(Step(c, Submit(0, cmd)), PassOn(0)), PassOn(0)), Crash(0));
            Up(d, 1) && Up(d, 2) && d.reps[1].log == d.reps[2].log + [cmd] && d.acked == c.acked
  {}
}
