/**
 That the barrier lets clients go: while no lock is granted twice somebody can always go on,
 and clients that have all arrived all leave.
 */
module BarrierProgress {
  import Service
  import opened Barrier

  // ---------------------------------------------------------------- leaving

  /** The event is delivered and the client wakes up. */
  function Leaving(i: nat): seq<(nat, Action)> {
    [(i, Deliver), (i, Wake)]
  }

  /** The client after it has woken up. */
  function Left(p: Peer): Peer
    requires Pending(p) == 1
  {
    p.(pc := Outside, events := 0, passed := false, left := p.left + 1)
  }

  /** A waiting client with a wake-up on its way can leave at once, whatever the others do, even
      when the server has stopped. */
  lemma PendingLeaves(v: Service.Variant, b: Bar, i: nat)
    requires i < |b.peers| && b.peers[i].pc.Waiting? && Pending(b.peers[i]) == 1
    ensures Run(v, b, Leaving(i)) == b.(peers := b.peers[i := Left(b.peers[i])])
  {
    var b1 := Step(v, b, i, Deliver);
    assert b1.peers[i] == b.peers[i].(events := 0, passed := true);
    RunOne(v, b, Leaving(i), b1);
    assert Leaving(i)[1..] == [(i, Wake)];
    RunOne(v, b1, [(i, Wake)], Step(v, b1, i, Wake));
  }

  function AllLeaving(k: nat): seq<(nat, Action)> {
    if k == 0 then [] else AllLeaving(k - 1) + Leaving(k - 1)
  }

  lemma {:induction false} SomeLeave(v: Service.Variant, b: Bar, k: nat)
    requires k <= |b.peers| && AllWait(b.peers) && forall i :: 0 <= i < k ==> Pending(b.peers[i]) == 1
    ensures var d := Run(v, b, AllLeaving(k));
            && d == b.(peers := d.peers) && |d.peers| == |b.peers|
            && forall i :: 0 <= i < |b.peers| ==> d.peers[i] == if i < k then Left(b.peers[i]) else b.peers[i]
  {
    if k > 0 {
      SomeLeave(v, b, k - 1);
      RunConcat(v, b, AllLeaving(k - 1), Leaving(k - 1));
      PendingLeaves(v, Run(v, b, AllLeaving(k - 1)), k - 1);
    }
  }

  /** While no lock is granted twice: clients that all wait in the same round can all leave, each
      once, and come again. */
  lemma RoundEnds(v: Service.Variant, n: nat, acts: seq<(nat, Action)>)
    requires n > 0 && FairRun(v, n, acts)
    requires AllWait(Run(v, Start(n), acts).peers) && SameRound(Run(v, Start(n), acts).peers)
    ensures var b, d := Run(v, Start(n), acts), Run(v, Start(n), acts + AllLeaving(n));
            && |b.peers| == n && |d.peers| == n
            && forall i :: 0 <= i < n ==> d.peers[i].pc.Outside? && d.peers[i].left == b.peers[i].left + 1
                                          && d.peers[i].left == d.peers[i].entered
  {
    var b := Run(v, Start(n), acts);
    WaitersAreWoken(v, n, acts);
    SomeLeave(v, b, n);
    RunConcat(v, Start(n), acts, AllLeaving(n));
    var h := FairRunIsOk(v, n, acts);
    forall i | 0 <= i < n ensures b.peers[i].entered == b.peers[i].left + 1 {
      assert PeerOk(Ideal(b, h).peers[i], b.rounds);
    }
  }

  // ---------------------------------------------------------------- going on

  predicate CanGoOn(v: Service.Variant, b: Bar, i: nat) {
    exists a: Action :: Step(v, b, i, a) != b
  }

  lemma WorkerGoesOn(v: Service.Variant, b: Bar, i: nat)
    requires i < |b.peers| && !b.lock.stopped && InSection(b.peers[i].pc)
    ensures CanGoOn(v, b, i)
  {
    var p := b.peers[i];
    var a := if p.pc.Holding? then ReadCount else if p.pc.Counted? then WriteCount else if p.pc.Wrote? then Check
             else if p.pc.Clearing? then Clear else if p.pc.Touching? then Touch else Release;
    var d := Step(v, b, i, a);
    assert |d.peers| == |b.peers| && d.peers[i].pc != p.pc by {
      if p.pc.Releasing? {
        GiverWaits(v, b, i);
      }
    }
  }

  lemma GiverWaits(v: Service.Variant, b: Bar, i: nat)
    requires i < |b.peers| && b.peers[i].pc.Releasing?
    ensures var d := GiveBack(v, b, i);
            |d.peers| == |b.peers| && !d.peers[i].pc.Releasing?
  {}

  lemma AskerGoesOn(v: Service.Variant, b: Bar, i: nat)
    requires i < |b.peers| && !b.lock.stopped && b.peers[i].pc.Asking?
    ensures CanGoOn(v, b, i)
  {
    var d := Step(v, b, i, Acquire);
    assert d.lock.stopped || !d.peers[i].pc.Asking?;
  }

  lemma WokenGoesOn(v: Service.Variant, b: Bar, i: nat)
    requires i < |b.peers| && b.peers[i].pc.Waiting? && Pending(b.peers[i]) > 0
    ensures CanGoOn(v, b, i)
  {
    var a := if b.peers[i].events > 0 then Deliver else Wake;
    assert Step(v, b, i, a).peers[i] != b.peers[i];
  }

  /** While no lock is granted twice, clients that have all come to the barrier are never stuck:
      some step of one of them is possible. */
  lemma NeverStuck(v: Service.Variant, n: nat, acts: seq<(nat, Action)>) returns (i: nat)
    requires n > 0 && FairRun(v, n, acts)
    requires forall j :: 0 <= j < |Run(v, Start(n), acts).peers| ==>
               !Run(v, Start(n), acts).peers[j].pc.Unregistered? && !Run(v, Start(n), acts).peers[j].pc.Outside?
    ensures i < n && CanGoOn(v, Run(v, Start(n), acts), i)
  {
    var b := Run(v, Start(n), acts);
    var h := FairRunIsOk(v, n, acts);
    var ideal := Ideal(b, h);
    assert HolderOk(ideal) && ideal.peers == b.peers;
    if h.Some? {
      i := h.value;
      WorkerGoesOn(v, b, i);
    } else if j :| 0 <= j < n && b.peers[j].pc.Asking? {
      i := j;
      AskerGoesOn(v, b, i);
    } else {
      assert ideal.lock.queue == [];
      assert AllWait(b.peers);
      WaitersAreWoken(v, n, acts);
      i :| 0 <= i < n && Pending(b.peers[i]) == 1;
      WokenGoesOn(v, b, i);
    }
  }
}
