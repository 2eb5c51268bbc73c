/**
 What an election comes to: who is refused follows, who is told follows, and once a new
 leader has announced itself and been heard, all live replicas agree on it.
 */
module Settling {
  import opened Text
  import opened Replication
  import opened Replicas

  // ---------------------------------------------------------------- a replica that asked

  /** The answer to a request to lead. Refused, the asker follows the one that refused; heard, it
      is left as it was; either way it is done with its view change. */
  lemma ReplyIsObeyed<C>(c: Cluster<C>, r: nat, ok: bool)
    requires Up(c, r) && c.reps[r].pc.Asking? && InitReply(c.reps[r].pc.target, r, ok) in c.msgs
    ensures var target, p, d := c.reps[r].pc.target, c.reps[r], Step(c, TakeReply(r, ok));
            && d.reps == c.reps[r := p.(local := d.reps[r].local, pc := Idle)] && d.msgs == c.msgs
            && d.reps[r].local.mode == Active
            && (!ok ==> !d.reps[r].local.isLeader && d.reps[r].local.view == Some(target))
            && (ok ==> d.reps[r].local.isLeader == p.local.isLeader && d.reps[r].local.view == p.local.view)
  {}

  /** The replica is at rest with this primary in sight, or leads itself. */
  ghost predicate Rests<C>(c: Cluster<C>, r: nat, primary: nat) {
    && r < |c.reps| && Up(c, primary)
    && (Up(c, r) ==>
          && c.reps[r].local.mode.Active? && !c.reps[r].pc.Scanning? && !c.reps[r].pc.Asking?
          && (c.reps[r].local.isLeader || c.reps[r].local.view == Some(primary)))
  }

  /** Refused by a live replica, the asker does not take the leader for down. */
  lemma RefusedAskerRests<C>(c: Cluster<C>, r: nat)
    requires Up(c, r) && c.reps[r].pc.Asking? && InitReply(c.reps[r].pc.target, r, false) in c.msgs
    requires Up(c, c.reps[r].pc.target)
    ensures Rests(Step(c, TakeReply(r, false)), r, c.reps[r].pc.target)
  {}

  lemma RestsMeansNotDown<C>(c: Cluster<C>, r: nat, primary: nat)
    requires Rests(c, r, primary) && Up(c, r)
    ensures !LeaderDown(c, c.reps[r].local) && Step(c, NoticeDown(r)) == c
  {
    assert Lives(c)[primary];
  }

  /** The step lets the replica follow nobody else. */
  predicate KeepsFaith<C>(a: Action<C>, r: nat, primary: nat) {
    a.TakeView? && a.r == r ==> a.primary == primary
  }

  lemma StepKeepsRest<C>(c: Cluster<C>, a: Action<C>, r: nat, primary: nat)
    requires Rests(c, r, primary) && KeepsFaith(a, r, primary) && Up(Step(c, a), primary)
    ensures Rests(Step(c, a), r, primary)
  {
    if Up(c, r) {
      RestsMeansNotDown(c, r, primary);
    }
  }

  lemma NobodyRises<C>(c: Cluster<C>, a: Action<C>, r: nat)
    requires Up(Step(c, a), r)
    ensures Up(c, r)
  {}

  lemma {:induction false} NobodyRisesOnRuns<C>(c: Cluster<C>, actions: seq<Action<C>>, r: nat)
    requires Up(Run(c, actions), r)
    ensures Up(c, r)
    decreases actions
  {
    if actions != [] {
      NobodyRisesOnRuns(Step(c, actions[0]), actions[1..], r);
      NobodyRises(c, actions[0], r);
    }
  }

  lemma {:induction false} RestLasts<C>(c: Cluster<C>, actions: seq<Action<C>>, r: nat, primary: nat)
    requires Rests(c, r, primary) && Up(Run(c, actions), primary)
    requires forall i :: 0 <= i < |actions| ==> KeepsFaith(actions[i], r, primary)
    ensures Rests(Run(c, actions), r, primary)
    decreases actions
  {
    if actions != [] {
      NobodyRisesOnRuns(Step(c, actions[0]), actions[1..], primary);
      StepKeepsRest(c, actions[0], r, primary);
      RestLasts(Step(c, actions[0]), actions[1..], r, primary);
    }
  }

  /** So as long as the refuser lives, and whatever else happens, the refused replica notices no
      missing leader, unless it hears a new view of somebody else. */
  lemma RefusedAskerStaysQuiet<C>(c: Cluster<C>, r: nat, actions: seq<Action<C>>)
    requires Up(c, r) && c.reps[r].pc.Asking? && InitReply(c.reps[r].pc.target, r, false) in c.msgs
    requires Up(Run(Step(c, TakeReply(r, false)), actions), c.reps[r].pc.target)
    requires forall i :: 0 <= i < |actions| ==> KeepsFaith(actions[i], r, c.reps[r].pc.target)
    ensures var d := Run(Step(c, TakeReply(r, false)), actions);
            Up(d, r) ==> !LeaderDown(d, d.reps[r].local) && Step(d, NoticeDown(r)) == d
  {
    var first, target := Step(c, TakeReply(r, false)), c.reps[r].pc.target;
    NobodyRisesOnRuns(first, actions, target);
    NobodyRises(c, TakeReply(r, false), target);
    RefusedAskerRests(c, r);
    RestLasts(first, actions, r, target);
    var d := Run(first, actions);
    if Up(d, r) {
      RestsMeansNotDown(d, r, target);
    }
  }

  // ---------------------------------------------------------------- single steps

  /** A crash stops the replica for good and touches nothing else. */
  lemma CrashStops<C>(c: Cluster<C>, r: nat, actions: seq<Action<C>>)
    requires Up(c, r)
    ensures Step(c, Crash(r)) == c.(reps := c.reps[r := c.reps[r].(live := false)])
    ensures !Up(Run(Step(c, Crash(r)), actions), r)
  {
    if Up(Run(Step(c, Crash(r)), actions), r) {
      NobodyRisesOnRuns(Step(c, Crash(r)), actions, r);
    }
  }

  /** A replica starts to change the view exactly when it is idle and active, does not lead, and
      its primary is unset or crashed. */
  lemma NoticesIff<C>(c: Cluster<C>, r: nat)
    requires Up(c, r)
    ensures var p, d := c.reps[r], Step(c, NoticeDown(r));
            && (d != c <==> && p.pc.Idle? && p.local.mode.Active? && !p.local.isLeader
                            && (p.local.view.Some? ==> !Up(c, p.local.view.value)))
            && (d != c ==> d == Set(c, r, p.(local := Local(false, p.local.view, Manager))))
  {
    var l := c.reps[r].local;
    if l.view.Some? && l.view.value < |c.reps| { assert Lives(c)[l.view.value] == c.reps[l.view.value].live; }
    assert LeaderDown(c, l) <==> !l.isLeader && (l.view.Some? ==> !Up(c, l.view.value));
    if l.mode.Active? { assert c.reps[r].(local := l.(mode := Manager)) != c.reps[r]; }
  }

  /** Asked to lead, a leader refuses; any other replica leads and begins to announce it. */
  lemma AskedToLead<C>(c: Cluster<C>, r: nat, asker: nat)
    requires Up(c, r) && InitView(asker, r) in c.msgs && c.reps[r].handler.None? && !c.reps[r].pc.Scanning?
    ensures var p, d := c.reps[r], Step(c, TakeInit(r, asker));
            && (p.local.isLeader ==> d.reps == c.reps && d.msgs == c.msgs + {InitReply(r, asker, false)})
            && (!p.local.isLeader ==>
                  && d.msgs == c.msgs
                  && d.reps == c.reps[r := p.(local := Local(true, Some(r), Active),
                                              handler := Some(Handler(asker, 0)))])
  {}

  /** Told of a new view, a replica follows it, and leads no more. */
  lemma NewViewIsFollowed<C>(c: Cluster<C>, r: nat, primary: nat)
    requires Up(c, r) && NewView(primary, r) in c.msgs && !c.reps[r].pc.Scanning?
    ensures var p, d := c.reps[r], Step(c, TakeView(r, primary));
            d == c.(reps := c.reps[r := p.(local := Local(false, Some(primary), p.local.mode))])
  {}

  /** A leader that is not passing on a command takes any. */
  lemma LeaderTakesCommand<C>(c: Cluster<C>, r: nat, cmd: C)
    requires Up(c, r) && c.reps[r].local.isLeader && c.reps[r].exec.None? && !c.reps[r].pc.Scanning?
    ensures Step(c, Submit(r, cmd)) == c.(reps := c.reps[r := c.reps[r].(exec := Some(Exec(cmd, 0)))])
  {}

  // ---------------------------------------------------------------- announcing

  /** The message is a new view of r for one of the live replicas from next on. */
  predicate Announces<C>(c: Cluster<C>, m: Msg, r: nat, next: nat) {
    m.NewView? && m.primary == r && m.to != r && next <= m.to && Up(c, m.to)
  }

  lemma {:induction false} NoMoreAnnouncing<C>(c: Cluster<C>, r: nat, k: nat)
    requires Up(c, r) && !c.reps[r].pc.Announcing?
    ensures Run(c, Repeat(Announce(r), k)) == c
  {
    if k > 0 {
      RepeatStep(c, Announce(r), k);
      NoMoreAnnouncing(c, r, k - 1);
    }
  }

  /** While nothing crashes, a replica that leads after a search announces itself to every other
      live replica, and is then idle. */
  lemma {:induction false} AnnouncingReachesAll<C(!new)>(c: Cluster<C>, r: nat, k: nat)
    requires Up(c, r) && c.reps[r].pc.Announcing? && c.reps[r].pc.next <= |c.reps| < k + c.reps[r].pc.next
    ensures var d := Run(c, Repeat(Announce(r), k));
            && d.reps == c.reps[r := c.reps[r].(pc := Idle)] && d.acked == c.acked && d.aborted == c.aborted
            && forall m :: m in d.msgs <==> m in c.msgs || Announces(c, m, r, c.reps[r].pc.next)
    decreases k
  {
    var i, d := c.reps[r].pc.next, Step(c, Announce(r));
    RepeatStep(c, Announce(r), k);
    assert d == AnnounceStep(c, r, i);
    if i < |c.reps| {
      assert forall m :: Announces(c, m, r, i)
                         <==> Announces(d, m, r, i + 1) || (m == NewView(r, i) && i != r && Up(c, i));
      AnnouncingReachesAll(d, r, k - 1);
    } else {
      NoMoreAnnouncing(d, r, k - 1);
    }
  }

  lemma {:induction false} NoMoreServing<C>(c: Cluster<C>, r: nat, k: nat)
    requires Up(c, r) && c.reps[r].handler.None?
    ensures Run(c, Repeat(HandlerAnnounce(r), k)) == c
  {
    if k > 0 {
      RepeatStep(c, HandlerAnnounce(r), k);
      NoMoreServing(c, r, k - 1);
    }
  }

  /** And so does a replica that was asked to lead, before it tells who asked. */
  lemma {:induction false} ServingReachesAll<C(!new)>(c: Cluster<C>, r: nat, k: nat)
    requires Up(c, r) && c.reps[r].handler.Some?
    requires c.reps[r].handler.value.next <= |c.reps| < k + c.reps[r].handler.value.next
    ensures var d, h := Run(c, Repeat(HandlerAnnounce(r), k)), c.reps[r].handler.value;
            && d.reps == c.reps[r := c.reps[r].(handler := None)] && d.acked == c.acked && d.aborted == c.aborted
            && forall m :: m in d.msgs
                           <==> m in c.msgs || Announces(c, m, r, h.next) || m == InitReply(r, h.asker, true)
    decreases k
  {
    var h, d := c.reps[r].handler.value, Step(c, HandlerAnnounce(r));
    RepeatStep(c, HandlerAnnounce(r), k);
    assert d == HandlerStep(c, r, h);
    if h.next < |c.reps| {
      assert forall m :: Announces(c, m, r, h.next)
                         <==> Announces(d, m, r, h.next + 1)
                              || (m == NewView(r, h.next) && h.next != r && Up(c, h.next));
      ServingReachesAll(d, r, k - 1);
    } else {
      NoMoreServing(d, r, k - 1);
    }
  }

  // ---------------------------------------------------------------- all agree

  /** Every replica but r hears the new view of r. */
  function Hearing<C>(r: nat, n: nat): seq<Action<C>> {
    if n == 0 then [] else Hearing(r, n - 1) + (if n - 1 == r then [] else [TakeView(n - 1, r)])
  }

  lemma {:induction false} RunConcat<C>(c: Cluster<C>, a: seq<Action<C>>, b: seq<Action<C>>)
    ensures Run(c, a + b) == Run(Run(c, a), b)
    decreases a
  {
    if a == [] {
      assert a + b == b;
    } else {
      assert (a + b)[0] == a[0] && (a + b)[1..] == a[1..] + b;
      RunConcat(Step(c, a[0]), a[1..], b);
    }
  }

  /** The replica after hearing the new view of r. */
  function Heard<C>(p: Replica<C>, r: nat): Replica<C> {
    if p.live then p.(local := Local(false, Some(r), p.local.mode)) else p
  }

  lemma LastHearing<C>(c: Cluster<C>, r: nat, n: nat)
    requires n > 0
    ensures var d := Run(c, Hearing(r, n - 1));
            Run(c, Hearing(r, n)) == if n - 1 == r then d else Step(d, TakeView(n - 1, r))
  {
    if n - 1 == r {
      assert Hearing<C>(r, n - 1) + [] == Hearing<C>(r, n - 1);
    } else {
      var d := Run(c, Hearing(r, n - 1));
      var last: seq<Action<C>> := [TakeView(n - 1, r)];
      RunConcat(c, Hearing(r, n - 1), last);
      assert Run(d, last) == Run(Step(d, TakeView(n - 1, r)), []);
    }
  }

  lemma HearOne<C>(d: Cluster<C>, r: nat, i: nat)
    requires i < |d.reps| && (Up(d, i) ==> NewView(r, i) in d.msgs && !d.reps[i].pc.Scanning?)
    ensures var e := Step(d, TakeView(i, r));
            e.msgs == d.msgs && e.reps == d.reps[i := Heard(d.reps[i], r)]
  {
    if Up(d, i) {
      NewViewIsFollowed(d, i, r);
    }
  }

  /** The first n replicas but r have heard, and nothing else has changed. */
  ghost predicate HeardUpTo<C>(c: Cluster<C>, d: Cluster<C>, r: nat, n: nat) {
    && |d.reps| == |c.reps| && d.msgs == c.msgs
    && forall i :: 0 <= i < |c.reps| ==> d.reps[i] == if i < n && i != r then Heard(c.reps[i], r) else c.reps[i]
  }

  lemma OneMoreHeard<C>(c: Cluster<C>, d: Cluster<C>, e: Cluster<C>, r: nat, k: nat)
    requires HeardUpTo(c, d, r, k) && k < |c.reps| && e.msgs == d.msgs
    requires e.reps == if k == r then d.reps else d.reps[k := Heard(d.reps[k], r)]
    ensures HeardUpTo(c, e, r, k + 1)
  {}

  lemma {:induction false} HearingSpreads<C>(c: Cluster<C>, r: nat, n: nat)
    requires n <= |c.reps|
    requires forall i :: 0 <= i < n && i != r && Up(c, i) ==> NewView(r, i) in c.msgs && !c.reps[i].pc.Scanning?
    ensures HeardUpTo(c, Run(c, Hearing(r, n)), r, n)
  {
    if n > 0 {
      var d, e := Run(c, Hearing(r, n - 1)), Run(c, Hearing(r, n));
      HearingSpreads(c, r, n - 1);
      LastHearing(c, r, n);
      assert d.reps[n - 1] == c.reps[n - 1];
      if n - 1 != r {
        HearOne(d, r, n - 1);
      }
      OneMoreHeard(c, d, e, r, n - 1);
    }
  }

  /** An election that nothing cuts short: the replica that its search made leader announces
      itself, the others hear it, and then it alone leads and is the primary of all that live. */
  lemma ElectionSettles<C(!new)>(c: Cluster<C>, r: nat)
    requires Up(c, r) && c.reps[r].pc == Announcing(0) && c.reps[r].local == Promoted(r)
    requires forall i :: 0 <= i < |c.reps| && i != r && Up(c, i) ==> !c.reps[i].pc.Scanning?
    ensures var d := Run(c, Repeat(Announce(r), |c.reps| + 1) + Hearing(r, |c.reps|));
            && |d.reps| == |c.reps|
            && forall i :: 0 <= i < |c.reps| ==>
                 && d.reps[i].live == c.reps[i].live && d.reps[i].log == c.reps[i].log
                 && (Up(d, i) ==> d.reps[i].local.view == Some(r) && (d.reps[i].local.isLeader <==> i == r))
  {
    var mid := Run(c, Repeat(Announce(r), |c.reps| + 1));
    AnnouncingReachesAll(c, r, |c.reps| + 1);
    forall i | 0 <= i < |mid.reps| && i != r && Up(mid, i)
      ensures NewView(r, i) in mid.msgs && !mid.reps[i].pc.Scanning?
    {
      assert Announces(c, NewView(r, i), r, 0);
    }
    HearingSpreads(mid, r, |mid.reps|);
    RunConcat(c, Repeat(Announce(r), |c.reps| + 1), Hearing(r, |c.reps|));
  }
}
