/**
 What survives a crash of the leader: the logs of the live replicas stay ordered by rank,
 so the lowest live rank, which is the next leader, has every command any survivor has.
 */
module ReplicatedLogs {
  import opened Text
  import opened Replication

  /** a is a subsequence of b. */
  ghost predicate Sub<C(!new)>(a: seq<C>, b: seq<C>)
    decreases |a| + |b|
  {
    || a == []
    || (b != [] && Sub(a, b[..|b| - 1]))
    || (b != [] && a[|a| - 1] == b[|b| - 1] && Sub(a[..|a| - 1], b[..|b| - 1]))
  }

  lemma SubGrows<C(!new)>(a: seq<C>, b: seq<C>, x: C)
    requires Sub(a, b)
    ensures Sub(a, b + [x]) && Sub(a + [x], b + [x])
  {}

  lemma {:induction false} SubMembers<C(!new)>(a: seq<C>, b: seq<C>, x: C)
    requires Sub(a, b) && x in a
    ensures x in b
    decreases |a| + |b|
  {
    var last := a[|a| - 1];
    if Sub(a, b[..|b| - 1]) {
      SubMembers(a, b[..|b| - 1], x);
    } else if x != last {
      assert a == a[..|a| - 1] + [last];
      SubMembers(a[..|a| - 1], b[..|b| - 1], x);
    }
  }

  // ---------------------------------------------------------------- the invariant

  /** The replica is passing on a command. */
  predicate Busy<C>(c: Cluster<C>, e: int) {
    Up(c, e) && c.reps[e].exec.Some?
  }

  /** Replica r has already been given the command that e passes on. */
  predicate Given<C>(c: Cluster<C>, e: int, r: int)
    requires Busy(c, e)
  {
    r != e && r < c.reps[e].exec.value.next
  }

  /** The log of r without the command that e is passing on. */
  function Bare<C>(c: Cluster<C>, e: int, r: int): seq<C>
    requires Busy(c, e) && 0 <= r < |c.reps|
  {
    var log := c.reps[r].log;
    if Given(c, e, r) && log != [] then log[..|log| - 1] else log
  }

  /** The log of r with the command it is itself passing on. */
  function Effective<C>(c: Cluster<C>, r: int): seq<C>
    requires 0 <= r < |c.reps|
  {
    var p := c.reps[r];
    if p.exec.Some? then p.log + [p.exec.value.cmd] else p.log
  }

  ghost predicate EndsWith<C>(log: seq<C>, cmd: C) {
    log != [] && log[|log| - 1] == cmd
  }

  ghost predicate Resting<C(!new)>(c: Cluster<C>) {
    && (forall a, b :: Up(c, a) && Up(c, b) && a < b ==> Sub(c.reps[b].log, c.reps[a].log))
    && (forall r :: Up(c, r) ==> Sub(c.acked, c.reps[r].log))
  }

  ghost predicate GivenEnds<C(!new)>(c: Cluster<C>, e: int)
    requires Busy(c, e)
  {
    forall r :: Up(c, r) && Given(c, e, r) ==> EndsWith(c.reps[r].log, c.reps[e].exec.value.cmd)
  }

  ghost predicate Passing<C(!new)>(c: Cluster<C>, e: int)
    requires Busy(c, e)
  {
    && GivenEnds(c, e)
    && (forall a, b :: Up(c, a) && Up(c, b) && a < b ==> Sub(Bare(c, e, b), Bare(c, e, a)))
    && (forall r :: Up(c, r) ==> Sub(c.acked, Bare(c, e, r)))
  }

  ghost predicate LogsOk<C(!new)>(c: Cluster<C>) {
    && ElectionOk(c)
    && (forall e :: Busy(c, e) ==> Passing(c, e))
    && ((forall e :: !Busy(c, e)) ==> Resting(c))
  }

  /** Only the lowest live rank is busy. */
  lemma OneBusy<C(!new)>(c: Cluster<C>, e: int, r: int)
    requires ElectionOk(c) && Busy(c, e) && Up(c, r)
    ensures e <= r && (Busy(c, r) ==> r == e)
  {}

  // ---------------------------------------------------------------- the steps

  /** At most fewer replicas are live. */
  ghost predicate Fewer<C(!new)>(c: Cluster<C>, d: Cluster<C>) {
    && |d.reps| == |c.reps| && d.acked == c.acked
    && forall j :: Up(d, j) ==>
         Up(c, j) && d.reps[j].log == c.reps[j].log && d.reps[j].exec == c.reps[j].exec
  }

  /** Only submitting and passing on touch the logs. */
  lemma OthersLeaveLogs<C(!new)>(c: Cluster<C>, a: Action<C>)
    requires !a.Submit? && !a.PassOn?
    ensures Fewer(c, Step(c, a))
  {}

  lemma Interrupted<C(!new)>(c: Cluster<C>, e: int, d: Cluster<C>)
    requires ElectionOk(c) && Busy(c, e) && Passing(c, e) && Fewer(c, d) && !Up(d, e)
    ensures Resting(d)
  {
    var cmd := c.reps[e].exec.value.cmd;
    forall r | Up(d, r)
      ensures c.reps[r].log == if Given(c, e, r) then Bare(c, e, r) + [cmd] else Bare(c, e, r)
      ensures Sub(c.acked, c.reps[r].log)
    {
      if Given(c, e, r) { SubGrows(c.acked, Bare(c, e, r), cmd); }
    }
    forall a, b | Up(d, a) && Up(d, b) && a < b ensures Sub(d.reps[b].log, d.reps[a].log) {
      SubGrows(Bare(c, e, b), Bare(c, e, a), cmd);
      assert a != e && (Given(c, e, b) ==> Given(c, e, a));
    }
  }

  lemma FewerKeepsLogs<C(!new)>(c: Cluster<C>, d: Cluster<C>)
    requires LogsOk(c) && Fewer(c, d) && ElectionOk(d)
    ensures LogsOk(d)
  {
    forall e | Busy(d, e) ensures Passing(d, e) {
      assert Busy(c, e) && Passing(c, e);
      assert forall r :: Up(d, r) ==> Up(c, r) && Bare(d, e, r) == Bare(c, e, r);
    }
    if (forall e :: !Busy(d, e)) && exists e :: Busy(c, e) {
      var e :| Busy(c, e);
      assert !Busy(d, e);
      assert !Up(d, e);
      Interrupted(c, e, d);
    }
  }

  lemma SubmitKeepsLogs<C(!new)>(c: Cluster<C>, r: nat, cmd: C)
    requires LogsOk(c) && Up(c, r) && c.reps[r].local.isLeader && c.reps[r].exec.None?
    requires ElectionOk(Set(c, r, c.reps[r].(exec := Some(Exec(cmd, 0)))))
    ensures LogsOk(Set(c, r, c.reps[r].(exec := Some(Exec(cmd, 0)))))
  {
    var d := Set(c, r, c.reps[r].(exec := Some(Exec(cmd, 0))));
    assert RepOk(c, r, c.reps[r]);
    forall e ensures !Busy(c, e) {
      if Busy(c, e) { OneBusy(c, e, r); }
    }
    assert Resting(c) && Busy(d, r);
    forall e | Busy(d, e) ensures Passing(d, e) {
      assert e == r || Busy(c, e);
    }
  }

  /** The last part of a command: every live replica now has it, and nobody is busy. */
  lemma Finished<C(!new)>(c: Cluster<C>, r: nat)
    requires LogsOk(c) && Busy(c, r) && c.reps[r].exec.value.next >= |c.reps|
    ensures var x := c.reps[r].exec.value;
            var d := PassStep(c, r, x);
            && (forall e :: !Busy(d, e))
            && (forall j :: Up(d, j) ==> Up(c, j) && d.reps[j].log == Bare(c, r, j) + [x.cmd])
  {
    var x := c.reps[r].exec.value;
    var d := PassStep(c, r, x);
    assert Passing(c, r);
    forall e ensures !Busy(d, e) {
      if Busy(d, e) { OneBusy(c, r, e); }
    }
    forall j | Up(d, j) ensures Up(c, j) && d.reps[j].log == Bare(c, r, j) + [x.cmd] {
      assert j == r || Given(c, r, j);
    }
  }

  lemma FinishKeepsLogs<C(!new)>(c: Cluster<C>, r: nat)
    requires LogsOk(c) && Busy(c, r) && c.reps[r].exec.value.next >= |c.reps|
    requires ElectionOk(PassStep(c, r, c.reps[r].exec.value))
    ensures LogsOk(PassStep(c, r, c.reps[r].exec.value))
  {
    var x := c.reps[r].exec.value;
    var d := PassStep(c, r, x);
    assert Passing(c, r);
    Finished(c, r);
    forall j | Up(d, j) ensures Sub(d.acked, d.reps[j].log) {
      SubGrows(c.acked, Bare(c, r, j), x.cmd);
    }
    forall a, b | Up(d, a) && Up(d, b) && a < b ensures Sub(d.reps[b].log, d.reps[a].log) {
      SubGrows(Bare(c, r, b), Bare(c, r, a), x.cmd);
    }
  }

  /** One more backup gets the command, or is skipped: without it the logs are as before. */
  lemma GivenOneMore<C(!new)>(c: Cluster<C>, r: nat)
    requires Busy(c, r) && c.reps[r].exec.value.next < |c.reps|
    ensures var x := c.reps[r].exec.value;
            var d := PassStep(c, r, x);
            && Busy(d, r) && d.reps[r].exec.value == Exec(x.cmd, x.next + 1)
            && (forall j :: Up(d, j) ==> Up(c, j) && Bare(d, r, j) == Bare(c, r, j))
  {}

  lemma GiveKeepsLogs<C(!new)>(c: Cluster<C>, r: nat)
    requires LogsOk(c) && Busy(c, r) && c.reps[r].exec.value.next < |c.reps|
    requires ElectionOk(PassStep(c, r, c.reps[r].exec.value))
    ensures LogsOk(PassStep(c, r, c.reps[r].exec.value))
  {
    var d := PassStep(c, r, c.reps[r].exec.value);
    assert Passing(c, r);
    GivenOneMore(c, r);
    forall e | Busy(d, e) ensures Passing(d, e) {
      OneBusy(d, r, e);
    }
  }

  lemma StepKeepsLogs<C(!new)>(c: Cluster<C>, a: Action<C>)
    requires LogsOk(c)
    ensures LogsOk(Step(c, a))
  {
    StepKeepsElection(c, a);
    if !a.Submit? && !a.PassOn? {
      OthersLeaveLogs(c, a);
      FewerKeepsLogs(c, Step(c, a));
    } else if Up(c, a.r) && a.Submit? && Step(c, a) != c {
      SubmitKeepsLogs(c, a.r, a.cmd);
    } else if Busy(c, a.r) && a.PassOn? {
      if c.reps[a.r].exec.value.next >= |c.reps| {
        FinishKeepsLogs(c, a.r);
      } else {
        GiveKeepsLogs(c, a.r);
      }
    }
  }

  lemma {:induction false} RunKeepsLogs<C(!new)>(c: Cluster<C>, actions: seq<Action<C>>)
    requires LogsOk(c)
    ensures LogsOk(Run(c, actions))
    decreases actions
  {
    if actions != [] {
      StepKeepsLogs(c, actions[0]);
      RunKeepsLogs(Step(c, actions[0]), actions[1..]);
    }
  }

  lemma StartHasLogs<C(!new)>(n: nat)
    ensures LogsOk(Start<C>(n))
  {}

  /** In a state of the invariant, the log of a higher rank is a subsequence of that of a
      lower rank, the command it is passing on included. */
  lemma HigherIsSub<C(!new)>(c: Cluster<C>, a: nat, b: nat)
    requires LogsOk(c) && Up(c, a) && Up(c, b) && a < b
    ensures Sub(c.reps[b].log, Effective(c, a))
  {
    if e :| Busy(c, e) {
      OneBusy(c, e, a);
      OneBusy(c, e, b);
      assert Passing(c, e);
      SubGrows(Bare(c, e, b), Bare(c, e, a), c.reps[e].exec.value.cmd);
      assert a == e || c.reps[a].exec.None?;
    } else {
      assert Resting(c);
      assert c.reps[a].exec.None? by { assert !Busy(c, a); }
    }
  }

  lemma AckedIsKept<C(!new)>(c: Cluster<C>, r: nat)
    requires LogsOk(c) && Up(c, r)
    ensures Sub(c.acked, c.reps[r].log)
  {}

  /** On every run, with any number of crashes: live logs are ordered by rank, and every live
      replica has all acknowledged commands, in their order. */
  lemma LogsAreOrdered<C(!new)>(n: nat, actions: seq<Action<C>>, a: nat, b: nat)
    requires Up(Run(Start(n), actions), a) && Up(Run(Start(n), actions), b) && a < b
    ensures var c := Run(Start(n), actions);
            Sub(c.reps[b].log, Effective(c, a)) && Sub(c.acked, c.reps[a].log) && Sub(c.acked, c.reps[b].log)
  {
    StartHasLogs<C>(n);
    RunKeepsLogs(Start(n), actions);
    HigherIsSub(Run(Start(n), actions), a, b);
    AckedIsKept(Run(Start(n), actions), a);
    AckedIsKept(Run(Start(n), actions), b);
  }

  /** So a live leader has run, or is passing on, every command any live replica has run,
      and has run every acknowledged one. */
  lemma LeaderHasEverything<C(!new)>(n: nat, actions: seq<Action<C>>, leader: nat, r: nat, cmd: C)
    requires Up(Run(Start(n), actions), leader) && Run(Start(n), actions).reps[leader].local.isLeader
    requires Up(Run(Start(n), actions), r)
    ensures var c := Run(Start(n), actions);
            && (cmd in c.reps[r].log ==> cmd in Effective(c, leader))
            && (cmd in c.acked ==> cmd in c.reps[leader].log)
  {
    var c := Run(Start(n), actions);
    OneLiveLeader(n, actions, leader, r);
    StartHasLogs<C>(n);
    RunKeepsLogs(Start(n), actions);
    AckedIsKept(c, leader);
    if cmd in c.acked { SubMembers(c.acked, c.reps[leader].log, cmd); }
    if cmd in c.reps[r].log && r != leader {
      HigherIsSub(c, leader, r);
      SubMembers(c.reps[r].log, Effective(c, leader), cmd);
    }
  }

  // ---------------------------------------------------------------- equal logs

  /** All live logs are equal, apart from a command on its way. */
  ghost predicate Level<C(!new)>(c: Cluster<C>) {
    && (forall e, i, j :: Busy(c, e) && Up(c, i) && Up(c, j) ==> Bare(c, e, i) == Bare(c, e, j))
    && ((forall e :: !Busy(c, e)) ==>
          forall i, j :: Up(c, i) && Up(c, j) ==> c.reps[i].log == c.reps[j].log)
  }

  /** Of the live replicas below e, one has the command that e passes on and another not. */
  ghost predicate Halfway<C(!new)>(c: Cluster<C>, e: int)
    requires Busy(c, e)
  {
    exists i, j :: Up(c, i) && Up(c, j) && j != e && Given(c, e, i) && !Given(c, e, j)
  }

  /** The step takes the busy replica down with its command halfway. */
  ghost predicate CutsShort<C(!new)>(c: Cluster<C>, a: Action<C>) {
    Busy(c, a.r) && !Up(Step(c, a), a.r) && Halfway(c, a.r)
  }

  lemma SameLogIff<C(!new)>(c: Cluster<C>, e: nat, i: nat, j: nat)
    requires Busy(c, e) && GivenEnds(c, e) && Up(c, i) && Up(c, j) && Bare(c, e, i) == Bare(c, e, j)
    ensures c.reps[i].log == c.reps[j].log <==> Given(c, e, i) == Given(c, e, j)
  {}

  lemma BusyGoesDown<C(!new)>(c: Cluster<C>, e: nat, d: Cluster<C>)
    requires ElectionOk(c) && Busy(c, e) && GivenEnds(c, e) && Level(c) && !Up(d, e)
    requires Fewer(c, d) && forall j :: Up(c, j) && j != e ==> Up(d, j)
    ensures Level(d) <==> !Halfway(c, e)
  {
    forall k ensures !Busy(d, k) {
      if Busy(d, k) { OneBusy(c, e, k); }
    }
    forall i, j | Up(d, i) && Up(d, j)
      ensures d.reps[i].log == d.reps[j].log <==> Given(c, e, i) == Given(c, e, j)
    {
      SameLogIff(c, e, i, j);
    }
  }

  lemma CommandsKeepUp<C(!new)>(c: Cluster<C>, a: Action<C>)
    requires (a.Submit? || a.PassOn?) && Up(c, a.r)
    ensures Up(Step(c, a), a.r)
  {}

  lemma OthersStayUp<C(!new)>(c: Cluster<C>, a: Action<C>)
    requires !a.Submit? && !a.PassOn?
    ensures forall j :: Up(c, j) && j != a.r ==> Up(Step(c, a), j)
  {}

  lemma FewerKeepsLevel<C(!new)>(c: Cluster<C>, d: Cluster<C>)
    requires Level(c) && Fewer(c, d) && forall e :: Busy(c, e) ==> Up(d, e)
    ensures Level(d)
  {
    forall e, i, j | Busy(d, e) && Up(d, i) && Up(d, j) ensures Bare(d, e, i) == Bare(d, e, j) {
      assert Busy(c, e) && Bare(d, e, i) == Bare(c, e, i) && Bare(d, e, j) == Bare(c, e, j);
    }
    if forall e :: !Busy(d, e) {
      forall e ensures !Busy(c, e) {
        if Busy(c, e) { assert Busy(d, e); }
      }
    }
  }

  lemma PassOnKeepsLevel<C(!new)>(c: Cluster<C>, r: nat)
    requires LogsOk(c) && Level(c) && Busy(c, r)
    requires ElectionOk(PassStep(c, r, c.reps[r].exec.value))
    ensures Level(PassStep(c, r, c.reps[r].exec.value))
  {
    var d := PassStep(c, r, c.reps[r].exec.value);
    if c.reps[r].exec.value.next >= |c.reps| {
      Finished(c, r);
    } else {
      GivenOneMore(c, r);
      forall e | Busy(d, e) ensures e == r { OneBusy(d, r, e); }
    }
  }

  lemma SubmitKeepsLevel<C(!new)>(c: Cluster<C>, r: nat, cmd: C)
    requires LogsOk(c) && Level(c) && Up(c, r) && c.reps[r].local.isLeader && c.reps[r].exec.None?
    ensures Level(Set(c, r, c.reps[r].(exec := Some(Exec(cmd, 0)))))
  {
    var d := Set(c, r, c.reps[r].(exec := Some(Exec(cmd, 0))));
    assert RepOk(c, r, c.reps[r]) && Busy(d, r);
    forall e ensures !Busy(c, e) {
      if Busy(c, e) { OneBusy(c, e, r); }
    }
    forall e | Busy(d, e) ensures e == r { assert e == r || Busy(c, e); }
  }

  /** Equal logs stay equal exactly when no crash cuts a command short. */
  lemma StepKeepsLevelIff<C(!new)>(c: Cluster<C>, a: Action<C>)
    requires LogsOk(c) && Level(c)
    ensures Level(Step(c, a)) <==> !CutsShort(c, a)
  {
    StepKeepsElection(c, a);
    if !a.Submit? && !a.PassOn? {
      OthersLeaveLogs(c, a);
      OthersStayUp(c, a);
      if Busy(c, a.r) && !Up(Step(c, a), a.r) {
        assert Passing(c, a.r);
        BusyGoesDown(c, a.r, Step(c, a));
      } else {
        FewerKeepsLevel(c, Step(c, a));
      }
    } else if Up(c, a.r) {
      CommandsKeepUp(c, a);
      if a.Submit? && Step(c, a) != c {
        SubmitKeepsLevel(c, a.r, a.cmd);
      } else if a.PassOn? && Busy(c, a.r) {
        PassOnKeepsLevel(c, a.r);
      }
    }
  }

  /** No crash of the run cuts a command short. */
  ghost predicate NeverCut<C(!new)>(c: Cluster<C>, actions: seq<Action<C>>)
    decreases actions
  {
    actions != [] ==> !CutsShort(c, actions[0]) && NeverCut(Step(c, actions[0]), actions[1..])
  }

  lemma {:induction false} RunKeepsLevel<C(!new)>(c: Cluster<C>, actions: seq<Action<C>>)
    requires LogsOk(c) && Level(c) && NeverCut(c, actions)
    ensures Level(Run(c, actions)) && LogsOk(Run(c, actions))
    decreases actions
  {
    if actions != [] {
      StepKeepsLogs(c, actions[0]);
      StepKeepsLevelIff(c, actions[0]);
      RunKeepsLevel(Step(c, actions[0]), actions[1..]);
    }
  }
}
