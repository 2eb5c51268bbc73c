/**
 What the barrier promises on every run over either lock, double grants included: nobody
 leaves early and no wake-up is lost. A lost arrival can only strand the clients.
 */
module BarrierSafety {
  import opened Text
  import Service
  import opened Barrier

  // ---------------------------------------------------------------- the invariant

  /** The text is a numeral of at most k, or empty for nothing. */
  ghost predicate UpTo(text: string, k: nat) {
    exists m: nat :: m <= k && text == CountText(m)
  }

  /** The client has found, or will find, that it is the last. */
  predicate Finishes(pc: Pc, n: nat) {
    pc.Clearing? || pc.Touching? || (pc.Wrote? && pc.text == ToString(n))
  }

  /** What a client carries is no more than the arrivals make it, and who finishes is right. */
  ghost predicate TextOk(pc: Pc, count: string, here: nat, n: nat) {
    && (pc.Counted? ==> UpTo(pc.text, here + 1))
    && (Finishes(pc, n) ==> here == n)
    && (pc.Touching? ==> count == "")
  }

  ghost predicate TextsOk(b: Bar) {
    && UpTo(b.count, Here(b))
    && (forall i :: 0 <= i < |b.peers| ==> TextOk(b.peers[i].pc, b.count, Here(b), |b.peers|))
    && (forall i, j :: 0 <= i < j < |b.peers| ==>
          !Finishes(b.peers[i].pc, |b.peers|) || !Finishes(b.peers[j].pc, |b.peers|))
  }

  /** Who is in the queue of the lock waits for it, and is there once. */
  predicate QueueOk(b: Bar) {
    && (forall k :: k in b.lock.queue ==> k < |b.peers| && b.peers[k].pc.Queued?)
    && (forall j, k :: 0 <= j < k < |b.lock.queue| ==> b.lock.queue[j] != b.lock.queue[k])
  }

  ghost predicate Safe(b: Bar) {
    PeersOk(b) && QueueOk(b) && TextsOk(b)
  }

  // ---------------------------------------------------------------- every step keeps it

  /** A step that neither enters nor writes the count. */
  lemma QuietStep(b: Bar, i: nat, p: Peer, d: Bar)
    requires Safe(b) && i < |b.peers| && PeerOk(p, b.rounds) && p.entered == b.peers[i].entered
    requires d.peers == b.peers[i := p] && d.rounds == b.rounds && d.count == b.count
    requires TextOk(p.pc, b.count, Here(b), |b.peers|)
    requires Finishes(p.pc, |b.peers|) ==> Finishes(b.peers[i].pc, |b.peers|)
    ensures PeersOk(d) && TextsOk(d) && Here(d) == Here(b)
  {
    PutKeepsPeers(b, i, p, d);
    PutKeepsHere(b, i, p, d);
  }

  lemma QuietKeepsQueue(b: Bar, i: nat, p: Peer, d: Bar)
    requires QueueOk(b) && i < |b.peers| && d.peers == b.peers[i := p] && d.lock == b.lock
    requires b.peers[i].pc.Queued? ==> p.pc.Queued?
    ensures QueueOk(d)
  {}

  lemma FreeStepIsSafe(v: Service.Variant, b: Bar, i: nat, a: Action)
    requires Safe(b) && i < |b.peers| && (a.Register? || a.Call? || a.Deliver? || a.Wake?)
    ensures Safe(Step(v, b, i, a))
  {
    var d := Step(v, b, i, a);
    assert PeerOk(b.peers[i], b.rounds);
    if d != b {
      QuietStep(b, i, d.peers[i], d);
      QuietKeepsQueue(b, i, d.peers[i], d);
    }
  }

  lemma AskIsSafe(b: Bar, i: nat)
    requires Safe(b) && i < |b.peers| && b.peers[i].pc.Asking? && !b.lock.stopped
    ensures Safe(AskFor(b, i))
  {
    var d := AskFor(b, i);
    assert PeerOk(b.peers[i], b.rounds);
    if !d.lock.stopped {
      QuietStep(b, i, d.peers[i], d);
      assert i !in b.lock.queue;
      forall k | k in d.lock.queue ensures k < |d.peers| && d.peers[k].pc.Queued? {
        assert k in b.lock.queue || (k == i && b.lock.owner.Some?);
      }
    }
  }

  lemma ReturnIsSafe(v: Service.Variant, b: Bar, i: nat)
    requires Safe(b) && i < |b.peers| && b.peers[i].pc.Releasing? && b.lock.queue == []
    ensures Safe(GiveBack(v, b, i))
  {
    var d := GiveBack(v, b, i);
    assert PeerOk(b.peers[i], b.rounds);
    QuietStep(b, i, d.peers[i], d);
  }

  lemma PassIsSafe(v: Service.Variant, b: Bar, i: nat)
    requires Safe(b) && i < |b.peers| && b.peers[i].pc.Releasing? && b.lock.queue != []
    ensures Safe(GiveBack(v, b, i))
  {
    var d, mid, k := GiveBack(v, b, i), Put(b, i, b.peers[i].(pc := Waiting)), b.lock.queue[0];
    assert k in b.lock.queue && PeerOk(b.peers[k], b.rounds) && PeerOk(b.peers[i], b.rounds);
    assert Safe(mid) by {
      QuietStep(b, i, mid.peers[i], mid);
      QuietKeepsQueue(b, i, mid.peers[i], mid);
    }
    assert PeersOk(d) && TextsOk(d) by { QuietStep(mid, k, d.peers[k], d); }
    PassKeepsQueue(b, d, i, k);
  }

  lemma PassKeepsQueue(b: Bar, d: Bar, i: nat, k: nat)
    requires QueueOk(b) && i < |b.peers| && b.peers[i].pc.Releasing?
    requires b.lock.queue != [] && k == b.lock.queue[0] && k < |b.peers| && k != i
    requires d.peers == b.peers[i := b.peers[i].(pc := Waiting)][k := b.peers[k].(pc := Holding)]
    requires d.lock.queue == b.lock.queue[1..]
    ensures QueueOk(d)
  {
    forall j | j in d.lock.queue ensures j < |d.peers| && d.peers[j].pc.Queued? {
      assert b.lock.queue == [k] + d.lock.queue && j in b.lock.queue;
    }
  }

  lemma ReadIsSafe(v: Service.Variant, b: Bar, i: nat)
    requires Safe(b) && i < |b.peers| && b.peers[i].pc.Holding?
    ensures Safe(Step(v, b, i, ReadCount))
  {
    var d := Step(v, b, i, ReadCount);
    assert PeerOk(b.peers[i], b.rounds);
    if d != b {
      var m: nat :| m <= Here(b) && b.count == CountText(m);
      NextOf(m);
      assert NextText(b.count) == CountText(m + 1);
      QuietStep(b, i, d.peers[i], d);
      QuietKeepsQueue(b, i, d.peers[i], d);
    }
  }

  /** Who has not entered leaves room for an arrival. */
  lemma RoomLeft(b: Bar, i: nat)
    requires PeersOk(b) && i < |b.peers| && !InRound(b.peers[i].pc)
    ensures Here(b) < |b.peers|
  {
    assert PeerOk(b.peers[i], b.rounds);
    FullIff(b.peers, b.rounds + 1);
  }

  lemma WrittenText(text: string, here: nat, n: nat)
    requires UpTo(text, here) && here <= n && text == ToString(n) && n > 0
    ensures here == n
  {
    var m: nat :| m <= here && text == CountText(m);
    NumeralsDiffer(m, n);
    ParseToString(n);
  }

  lemma WriteIsSafe(v: Service.Variant, b: Bar, i: nat)
    requires Safe(b) && i < |b.peers| && b.peers[i].pc.Counted?
    ensures Safe(Step(v, b, i, WriteCount))
  {
    var d, text, n := Step(v, b, i, WriteCount), b.peers[i].pc.text, |b.peers|;
    if d != b {
      RoomLeft(b, i);
      EnterHere(b, i, d.peers[i], d);
      QuietKeepsQueue(b, i, d.peers[i], d);
      if text == ToString(n) { WrittenText(text, Here(d), n); }
      forall j | 0 <= j < n ensures TextOk(d.peers[j].pc, d.count, Here(d), n) {
        assert TextOk(b.peers[j].pc, b.count, Here(b), n);
      }
    }
  }

  lemma CheckIsSafe(v: Service.Variant, b: Bar, i: nat)
    requires Safe(b) && i < |b.peers| && b.peers[i].pc.Wrote?
    ensures Safe(Step(v, b, i, Check))
  {
    var d := Step(v, b, i, Check);
    assert PeerOk(b.peers[i], b.rounds);
    if d != b {
      QuietStep(b, i, d.peers[i], d);
      QuietKeepsQueue(b, i, d.peers[i], d);
    }
  }

  lemma ClearIsSafe(v: Service.Variant, b: Bar, i: nat)
    requires Safe(b) && i < |b.peers| && b.peers[i].pc.Clearing?
    ensures Safe(Step(v, b, i, Clear))
  {
    var d, n := Step(v, b, i, Clear), |b.peers|;
    assert PeerOk(b.peers[i], b.rounds);
    if d != b {
      PutKeepsPeers(b, i, d.peers[i], d);
      PutKeepsHere(b, i, d.peers[i], d);
      QuietKeepsQueue(b, i, d.peers[i], d);
      assert d.count == CountText(0);
      forall j | 0 <= j < n ensures TextOk(d.peers[j].pc, d.count, Here(d), n) {
        assert TextOk(b.peers[j].pc, b.count, Here(b), n);
      }
    }
  }

  lemma TouchIsSafe(v: Service.Variant, b: Bar, i: nat)
    requires Safe(b) && i < |b.peers| && b.peers[i].pc.Touching?
    ensures Safe(Step(v, b, i, Touch))
  {
    var d, n := Step(v, b, i, Touch), |b.peers|;
    if d != b {
      assert Here(b) == n && b.count == "";
      FullIff(b.peers, b.rounds + 1);
      TouchTellsAll(b, i, d);
      assert d.count == CountText(0);
      forall j | 0 <= j < n
        ensures d.peers[j].pc == (if j == i then Releasing else b.peers[j].pc)
        ensures TextOk(d.peers[j].pc, d.count, Here(d), n) && !Finishes(d.peers[j].pc, n)
      {
        assert PeerOk(b.peers[j], b.rounds);
        if j != i {
          assert Finishes(b.peers[i].pc, n) && !Finishes(b.peers[j].pc, n);
        }
      }
    }
  }

  /** Every step over either lock keeps it. */
  lemma StepIsSafe(v: Service.Variant, b: Bar, i: nat, a: Action)
    requires Safe(b)
    ensures Safe(Step(v, b, i, a)) && |Step(v, b, i, a).peers| == |b.peers|
  {
    if i < |b.peers| && !(b.lock.stopped && !a.Deliver? && !a.Wake?) {
      match a
      case Acquire => if b.peers[i].pc.Asking? { AskIsSafe(b, i); }
      case Release =>
        if b.peers[i].pc.Releasing? {
          if b.lock.queue == [] { ReturnIsSafe(v, b, i); } else { PassIsSafe(v, b, i); }
        }
      case ReadCount => if b.peers[i].pc.Holding? { ReadIsSafe(v, b, i); }
      case WriteCount => if b.peers[i].pc.Counted? { WriteIsSafe(v, b, i); }
      case Check => if b.peers[i].pc.Wrote? { CheckIsSafe(v, b, i); }
      case Clear => if b.peers[i].pc.Clearing? { ClearIsSafe(v, b, i); }
      case Touch => if b.peers[i].pc.Touching? { TouchIsSafe(v, b, i); }
      case _ => FreeStepIsSafe(v, b, i, a);
    }
  }

  lemma {:induction false} RunIsSafe(v: Service.Variant, b: Bar, acts: seq<(nat, Action)>)
    requires Safe(b)
    ensures Safe(Run(v, b, acts)) && |Run(v, b, acts).peers| == |b.peers|
    decreases acts
  {
    if acts != [] {
      var next := Step(v, b, acts[0].0, acts[0].1);
      StepIsSafe(v, b, acts[0].0, acts[0].1);
      RunIsSafe(v, next, acts[1..]);
      RunFirst(v, b, acts, next);
    }
  }

  lemma StartIsSafe(n: nat)
    requires n > 0
    ensures Safe(Start(n))
  {
    StartIsOk(n);
    assert Start(n).count == CountText(0);
  }

  // ---------------------------------------------------------------- what the barrier promises

  /** On every run over either lock: nobody has left more rounds than anybody has entered, and
      at most one wake-up is on its way to a client, so no two merge in its flag. The file holds
      a numeral of at most the number of arrivals of the current round. */
  lemma NobodyLeavesEarly(v: Service.Variant, n: nat, acts: seq<(nat, Action)>, i: nat, j: nat)
    requires i < n && j < n
    ensures var b := Run(v, Start(n), acts);
            |b.peers| == n
            && b.peers[i].left <= b.rounds <= b.peers[j].entered
            && b.peers[i].entered <= b.rounds + 1
            && Pending(b.peers[i]) <= 1
            && UpTo(b.count, Here(b))
  {
    StartIsSafe(n);
    RunIsSafe(v, Start(n), acts);
    var b := Run(v, Start(n), acts);
    assert PeerOk(b.peers[i], b.rounds) && PeerOk(b.peers[j], b.rounds);
  }

  /** On every run over either lock, while all wait: a wake-up is on its way exactly to those who
      have not entered the current round; they are all stranded exactly when all have entered it. */
  lemma StrandedIff(v: Service.Variant, n: nat, acts: seq<(nat, Action)>, i: nat)
    requires i < n && AllWait(Run(v, Start(n), acts).peers)
    ensures var b := Run(v, Start(n), acts);
            |b.peers| == n
            && (Pending(b.peers[i]) == 1 <==> b.peers[i].entered == b.rounds)
            && (Stranded(b) <==> Here(b) == n)
  {
    StartIsSafe(n);
    RunIsSafe(v, Start(n), acts);
    var b := Run(v, Start(n), acts);
    forall j | 0 <= j < n
      ensures Pending(b.peers[j]) == (if b.peers[j].entered == b.rounds then 1 else 0)
      ensures b.rounds <= b.peers[j].entered <= b.rounds + 1
    {
      PendingIff(b, j);
      assert PeerOk(b.peers[j], b.rounds);
    }
    FullIff(b.peers, b.rounds + 1);
  }

  // ---------------------------------------------------------------- a double grant

  /** All wait and no wake-up is on its way. */
  predicate Stranded(b: Bar) {
    AllWait(b.peers) && forall i :: 0 <= i < |b.peers| ==> Pending(b.peers[i]) == 0
  }

  /** Stranded clients stay so, whatever happens. */
  lemma {:induction false} StrandedForever(v: Service.Variant, b: Bar, acts: seq<(nat, Action)>)
    requires Stranded(b)
    ensures Run(v, b, acts) == b
    decreases acts
  {
    if acts != [] {
      var i := acts[0].0;
      assert i < |b.peers| ==> b.peers[i].pc.Waiting? && Pending(b.peers[i]) == 0;
      StrandedForever(v, b, acts[1..]);
    }
  }

  /** Three clients come to the barrier. */
  const ALL_ASK: seq<(nat, Action)> :=
    [(0, Register), (1, Register), (2, Register), (0, Call), (1, Call), (2, Call)]

  /** The second waits for the lock that the first holds, and gets it when the first has counted
      itself; the third is then told that it has the lock as well. */
  const BOTH_HAVE: seq<(nat, Action)> :=
    [(0, Acquire), (1, Acquire), (0, ReadCount), (0, WriteCount), (0, Check), (0, Release), (2, Acquire)]

  /** Both read the count before either writes it. */
  const BOTH_COUNT: seq<(nat, Action)> :=
    [(1, ReadCount), (2, ReadCount), (1, WriteCount), (2, WriteCount), (1, Check), (2, Check),
     (1, Release), (2, Release)]

  function At(pc: Pc, entered: nat): Peer {
    Peer(pc, false, 0, entered, 0)
  }

  function Three(p: Peer, q: Peer, r: Peer, count: string, owner: Option<nat>, queue: seq<nat>): Bar {
    Bar([p, q, r], count, L.SharedLock(owner, queue, false), 0)
  }

  lemma RunThen(v: Service.Variant, b: Bar, a: seq<(nat, Action)>, mid: Bar,
                rest: seq<(nat, Action)>, post: Bar)
    requires Run(v, b, a) == mid && Run(v, mid, rest) == post
    ensures Run(v, b, a + rest) == post
  {
    RunConcat(v, b, a, rest);
  }

  const ASKING := Three(At(Asking, 0), At(Asking, 0), At(Asking, 0), "", None, [])

  lemma AllAsk(v: Service.Variant)
    ensures Run(v, Start(3), ALL_ASK) == ASKING
  {
    var b1 := Three(At(Outside, 0), At(Unregistered, 0), At(Unregistered, 0), "", None, []);
    var b2 := Three(At(Outside, 0), At(Outside, 0), At(Unregistered, 0), "", None, []);
    var b3 := Three(At(Outside, 0), At(Outside, 0), At(Outside, 0), "", None, []);
    var b4 := Three(At(Asking, 0), At(Outside, 0), At(Outside, 0), "", None, []);
    var b5 := Three(At(Asking, 0), At(Asking, 0), At(Outside, 0), "", None, []);
    RunOne(v, Start(3), ALL_ASK, b1);
    RunOne(v, b1, ALL_ASK[1..], b2);
    RunOne(v, b2, ALL_ASK[2..], b3);
    RunOne(v, b3, ALL_ASK[3..], b4);
    RunOne(v, b4, ALL_ASK[4..], b5);
    RunOne(v, b5, ALL_ASK[5..], ASKING);
  }

  const DOUBLE := Three(At(Waiting, 1), At(Holding, 0), At(Holding, 0), ToString(1), Some(2), [])

  lemma BothHave()
    ensures Run(Service.AsWritten, ASKING, BOTH_HAVE) == DOUBLE
  {
    var v := Service.AsWritten;
    var b1 := Three(At(Holding, 0), At(Asking, 0), At(Asking, 0), "", Some(0), []);
    var b2 := Three(At(Holding, 0), At(Queued, 0), At(Asking, 0), "", Some(0), [1]);
    var b3 := Three(At(Counted(ToString(1)), 0), At(Queued, 0), At(Asking, 0), "", Some(0), [1]);
    var b4 := Three(At(Wrote(ToString(1)), 1), At(Queued, 0), At(Asking, 0), ToString(1), Some(0), [1]);
    var b5 := Three(At(Releasing, 1), At(Queued, 0), At(Asking, 0), ToString(1), Some(0), [1]);
    var b6 := Three(At(Waiting, 1), At(Holding, 0), At(Asking, 0), ToString(1), None, []);
    NextOf(0);
    NumeralsDiffer(1, 3);
    RunOne(v, ASKING, BOTH_HAVE, b1);
    RunOne(v, b1, BOTH_HAVE[1..], b2);
    RunOne(v, b2, BOTH_HAVE[2..], b3);
    RunOne(v, b3, BOTH_HAVE[3..], b4);
    RunOne(v, b4, BOTH_HAVE[4..], b5);
    RunOne(v, b5, BOTH_HAVE[5..], b6);
    RunOne(v, b6, BOTH_HAVE[6..], DOUBLE);
  }

  const STRANDED := Three(At(Waiting, 1), At(Waiting, 1), At(Waiting, 1), ToString(2), None, [])

  lemma BothCount()
    ensures Run(Service.AsWritten, DOUBLE, BOTH_COUNT) == STRANDED
  {
    var v, one, two := Service.AsWritten, ToString(1), ToString(2);
    var b1 := Three(At(Waiting, 1), At(Counted(two), 0), At(Holding, 0), one, Some(2), []);
    var b2 := Three(At(Waiting, 1), At(Counted(two), 0), At(Counted(two), 0), one, Some(2), []);
    var b3 := Three(At(Waiting, 1), At(Wrote(two), 1), At(Counted(two), 0), two, Some(2), []);
    var b4 := Three(At(Waiting, 1), At(Wrote(two), 1), At(Wrote(two), 1), two, Some(2), []);
    var b5 := Three(At(Waiting, 1), At(Releasing, 1), At(Wrote(two), 1), two, Some(2), []);
    var b6 := Three(At(Waiting, 1), At(Releasing, 1), At(Releasing, 1), two, Some(2), []);
    var b7 := Three(At(Waiting, 1), At(Waiting, 1), At(Releasing, 1), two, None, []);
    NextOf(1);
    NumeralsDiffer(2, 3);
    RunOne(v, DOUBLE, BOTH_COUNT, b1);
    RunOne(v, b1, BOTH_COUNT[1..], b2);
    RunOne(v, b2, BOTH_COUNT[2..], b3);
    RunOne(v, b3, BOTH_COUNT[3..], b4);
    RunOne(v, b4, BOTH_COUNT[4..], b5);
    RunOne(v, b5, BOTH_COUNT[5..], b6);
    RunOne(v, b6, BOTH_COUNT[6..], b7);
    RunOne(v, b7, BOTH_COUNT[7..], STRANDED);
  }

  lemma StrandedReached()
    ensures Run(Service.AsWritten, Start(3), ALL_ASK + BOTH_HAVE + BOTH_COUNT) == STRANDED
  {
    AllAsk(Service.AsWritten);
    BothHave();
    RunThen(Service.AsWritten, Start(3), ALL_ASK, ASKING, BOTH_HAVE, DOUBLE);
    BothCount();
    RunThen(Service.AsWritten, Start(3), ALL_ASK + BOTH_HAVE, DOUBLE, BOTH_COUNT, STRANDED);
  }

  lemma StrandedIsStranded()
    ensures Stranded(STRANDED) && STRANDED.count == ToString(2) && STRANDED.rounds == 0
    ensures forall i :: 0 <= i < 3 ==> STRANDED.peers[i].entered == 1
  {}

  /** As written, three clients can arrive at a barrier for three and all be stranded: each has
      entered once, the file says two, and nobody ever leaves. */
  lemma BarrierStrands(acts: seq<(nat, Action)>)
    ensures var b := Run(Service.AsWritten, Start(3), (ALL_ASK + BOTH_HAVE + BOTH_COUNT) + acts);
            && Stranded(b) && b.count == ToString(2) && b.rounds == 0 && |b.peers| == 3
            && forall i :: 0 <= i < 3 ==> b.peers[i].entered == 1
  {
    StrandedReached();
    StrandedIsStranded();
    StrandedForever(Service.AsWritten, STRANDED, acts);
    RunThen(Service.AsWritten, Start(3), ALL_ASK + BOTH_HAVE + BOTH_COUNT, STRANDED, acts, STRANDED);
  }
}
