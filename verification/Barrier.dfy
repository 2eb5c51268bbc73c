/**
 The double barrier: clients count their arrivals in a shared file under a lock; the last
 one clears the file and touches another, which sends every client a wake-up event.

 The lock is the service's, as written or with the repaired release. Over the repaired lock
 the count in the file is exact and somebody is woken on every run; over the lock as written
 they are so until an acquire finds the lock free while a client that was handed it is at
 work.

 `entered` and `left` of a client and `rounds` of the barrier count what has happened; the
 program does not store them.
 */
module Barrier {
  import opened Text
  import L = SharedLock
  import Service

  /** Where a client is in `sync`. Counted carries the text it has computed and not yet
      written, Wrote the text it has written and not yet compared. */
  datatype Pc =
    | Unregistered | Outside | Asking | Queued | Holding | Counted(text: string) | Wrote(text: string)
    | Clearing | Touching | Releasing | Waiting

  datatype Peer = Peer(pc: Pc, passed: bool, events: nat, entered: nat, left: nat)

  /** The barrier is for as many clients as there are peers. */
  datatype Bar = Bar(peers: seq<Peer>, count: string, lock: L.SharedLock<nat>, rounds: nat)

  datatype Action =
    | Register | Call | Acquire | ReadCount | WriteCount | Check | Clear | Touch | Release | Deliver | Wake

  function Start(n: nat): Bar {
    Bar(seq(n, _ => Peer(Unregistered, false, 0, 0, 0)), "", L.SharedLock(None, [], false), 0)
  }

  function Put(b: Bar, i: nat, p: Peer): Bar
    requires i < |b.peers|
  {
    b.(peers := b.peers[i := p])
  }

  /** One more than the number in the file; an empty file counts as zero. */
  function NextText(count: string): string {
    if count == "" then "1" else ToString(Parse(count) + 1)
  }

  function Notified(p: Peer): Peer {
    if p.pc.Unregistered? then p else p.(events := p.events + 1)
  }

  /** The event goes to every client that has registered, the writer included. */
  function Touched(b: Bar): Bar {
    b.(peers := seq(|b.peers|, i requires 0 <= i < |b.peers| => Notified(b.peers[i])), rounds := b.rounds + 1)
  }

  /** A client asks for the lock: it has it at once, or waits for it, or the server stops. */
  function AskFor(b: Bar, i: nat): Bar
    requires i < |b.peers|
  {
    var lock := L.AskFor(b.lock, i);
    if lock.stopped then b.(lock := lock)
    else Put(b, i, b.peers[i].(pc := if b.lock.owner.None? then Holding else Queued)).(lock := lock)
  }

  /** A client gives the lock back and waits; the next in line is told that it has it. */
  function GiveBack(v: Service.Variant, b: Bar, i: nat): Bar
    requires i < |b.peers|
  {
    var d := Put(b, i, b.peers[i].(pc := Waiting)).(lock := L.GiveBack(v, b.lock));
    if b.lock.queue == [] || b.lock.queue[0] >= |b.peers| then d
    else Put(d, b.lock.queue[0], d.peers[b.lock.queue[0]].(pc := Holding))
  }

  /** A step of client i; one that is not possible now changes nothing. A server that has
      stopped answers nobody. */
  function Step(v: Service.Variant, b: Bar, i: nat, a: Action): Bar {
    if i >= |b.peers| || (b.lock.stopped && !a.Deliver? && !a.Wake?) then b
    else
      var p := b.peers[i];
      match a
      case Register => if p.pc.Unregistered? then Put(b, i, p.(pc := Outside)) else b
      case Call => if p.pc.Outside? then Put(b, i, p.(pc := Asking)) else b
      case Acquire => if p.pc.Asking? then AskFor(b, i) else b
      case ReadCount => if p.pc.Holding? then Put(b, i, p.(pc := Counted(NextText(b.count)))) else b
      case WriteCount =>
        if p.pc.Counted? then
          Put(b, i, p.(pc := Wrote(p.pc.text), entered := p.entered + 1)).(count := p.pc.text)
        else b
      case Check =>
        if p.pc.Wrote? then
          Put(b, i, p.(pc := if p.pc.text == ToString(|b.peers|) then Clearing else Releasing))
        else b
      case Clear => if p.pc.Clearing? then Put(b, i, p.(pc := Touching)).(count := "") else b
      case Touch => if p.pc.Touching? then Touched(Put(b, i, p.(pc := Releasing))) else b
      case Release => if p.pc.Releasing? then GiveBack(v, b, i) else b
      case Deliver => if p.events > 0 then Put(b, i, p.(events := p.events - 1, passed := true)) else b
      case Wake =>
        if p.pc.Waiting? && p.passed then Put(b, i, p.(pc := Outside, passed := false, left := p.left + 1)) else b
  }

  function Run(v: Service.Variant, b: Bar, acts: seq<(nat, Action)>): Bar
    decreases acts
  {
    if acts == [] then b else Run(v, Step(v, b, acts[0].0, acts[0].1), acts[1..])
  }

  lemma {:induction false} RunConcat(v: Service.Variant, b: Bar, x: seq<(nat, Action)>, y: seq<(nat, Action)>)
    ensures Run(v, b, x + y) == Run(v, Run(v, b, x), y)
    decreases x
  {
    if x == [] {
      assert x + y == y;
    } else {
      assert (x + y)[0] == x[0] && (x + y)[1..] == x[1..] + y;
      RunConcat(v, Step(v, b, x[0].0, x[0].1), x[1..], y);
    }
  }

  // ---------------------------------------------------------------- the invariant

  /** How many have entered exactly this often. */
  function Arrived(peers: seq<Peer>, times: nat): (k: nat)
    ensures k <= |peers|
  {
    if peers == [] then 0
    else Arrived(peers[..|peers| - 1], times) + (if peers[|peers| - 1].entered == times then 1 else 0)
  }

  /** Arrivals of the current round. */
  function Here(b: Bar): nat {
    Arrived(b.peers, b.rounds + 1)
  }

  function Pending(p: Peer): nat {
    p.events + (if p.passed then 1 else 0)
  }

  /** Has entered and not yet left. */
  predicate InRound(pc: Pc) {
    pc.Wrote? || pc.Clearing? || pc.Touching? || pc.Releasing? || pc.Waiting?
  }

  predicate InSection(pc: Pc) {
    !pc.Unregistered? && !pc.Outside? && !pc.Asking? && !pc.Queued? && !pc.Waiting?
  }

  /** A client has entered in every completed round and at most once more, and a wake-up is
      on its way to it for each completed round it has not left. */
  predicate PeerOk(p: Peer, rounds: nat) {
    && rounds <= p.entered <= rounds + 1
    && p.entered == p.left + (if InRound(p.pc) then 1 else 0)
    && p.left + Pending(p) == rounds
    && (p.pc.Unregistered? ==> p.entered == 0)
  }

  function CountText(k: nat): string {
    if k == 0 then "" else ToString(k)
  }

  /** What the count file holds while its lock is free or its holder is at pc. */
  predicate CountOk(count: string, here: nat, n: nat, pc: Pc) {
    match pc
    case Counted(text) => here < n && count == CountText(here) && text == ToString(here + 1)
    case Wrote(text) => here > 0 && count == text == ToString(here)
    case Clearing => here == n
    case Touching => here == n && count == ""
    case _ => here < n && count == CountText(here)
  }

  function HolderPc(b: Bar): Pc {
    if b.lock.owner.Some? && b.lock.owner.value < |b.peers| then b.peers[b.lock.owner.value].pc else Waiting
  }

  predicate PeersOk(b: Bar) {
    && |b.peers| > 0
    && (forall i :: 0 <= i < |b.peers| ==> PeerOk(b.peers[i], b.rounds))
  }

  /** The server runs; the owner, and nobody else, is between acquire and release; who waits
      for the lock is in its queue once; nobody waits for a free lock. */
  predicate HolderOk(b: Bar) {
    && !b.lock.stopped
    && (forall i :: 0 <= i < |b.peers| ==> (InSection(b.peers[i].pc) <==> b.lock.owner == Some(i)))
    && (b.lock.owner.Some? ==> b.lock.owner.value < |b.peers|)
    && (forall i :: 0 <= i < |b.peers| ==> (b.peers[i].pc.Queued? <==> i in b.lock.queue))
    && (forall k :: k in b.lock.queue ==> k < |b.peers|)
    && (forall j, k :: 0 <= j < k < |b.lock.queue| ==> b.lock.queue[j] != b.lock.queue[k])
    && (b.lock.queue != [] ==> b.lock.owner.Some?)
  }

  predicate Inv(b: Bar) {
    PeersOk(b) && HolderOk(b) && CountOk(b.count, Here(b), |b.peers|, HolderPc(b))
  }

  lemma {:induction false} ArrivedSame(a: seq<Peer>, b: seq<Peer>, times: nat)
    requires |a| == |b| && forall i :: 0 <= i < |a| ==> (a[i].entered == times <==> b[i].entered == times)
    ensures Arrived(a, times) == Arrived(b, times)
  {
    if a != [] {
      ArrivedSame(a[..|a| - 1], b[..|b| - 1], times);
    }
  }

  lemma {:induction false} ArrivedOneMore(a: seq<Peer>, i: nat, p: Peer, times: nat)
    requires i < |a| && a[i].entered != times && p.entered == times
    ensures Arrived(a[i := p], times) == Arrived(a, times) + 1
  {
    var front := a[..|a| - 1];
    if i == |a| - 1 {
      assert a[i := p][..|a| - 1] == front;
    } else {
      assert a[i := p][..|a| - 1] == front[i := p];
      ArrivedOneMore(front, i, p, times);
    }
  }

  lemma {:induction false} FullIff(a: seq<Peer>, times: nat)
    ensures Arrived(a, times) == |a| <==> forall i :: 0 <= i < |a| ==> a[i].entered == times
  {
    if a != [] {
      var front, last := a[..|a| - 1], a[|a| - 1];
      FullIff(front, times);
      if Arrived(a, times) == |a| {
        forall i | 0 <= i < |a| ensures a[i].entered == times {
          if i < |front| { assert front[i].entered == times; }
        }
      } else if last.entered == times {
        var i :| 0 <= i < |front| && front[i].entered != times;
        assert a[i].entered != times;
      }
    }
  }

  lemma {:induction false} NobodyArrived(a: seq<Peer>, times: nat)
    requires forall i :: 0 <= i < |a| ==> a[i].entered != times
    ensures Arrived(a, times) == 0
  {
    if a != [] {
      NobodyArrived(a[..|a| - 1], times);
    }
  }

  lemma NumeralsDiffer(a: nat, b: nat)
    ensures ToString(a) == ToString(b) <==> a == b
  {
    ParseToString(a);
    ParseToString(b);
  }

  lemma NextOf(k: nat)
    ensures NextText(CountText(k)) == ToString(k + 1)
  {
    ParseToString(k);
    assert ToString(1) == "1";
  }

  // ---------------------------------------------------------------- every step keeps it

  lemma PutKeepsPeers(b: Bar, i: nat, p: Peer, d: Bar)
    requires PeersOk(b) && i < |b.peers| && PeerOk(p, b.rounds)
    requires d.peers == b.peers[i := p] && d.rounds == b.rounds
    ensures PeersOk(d)
  {}

  /** The client keeps its place relative to the lock. */
  lemma PutKeepsHolder(b: Bar, i: nat, p: Peer, d: Bar)
    requires HolderOk(b) && i < |b.peers| && d.peers == b.peers[i := p] && d.lock == b.lock
    requires InSection(p.pc) <==> InSection(b.peers[i].pc)
    requires p.pc.Queued? <==> b.peers[i].pc.Queued?
    ensures HolderOk(d)
  {}

  lemma PutKeepsHere(b: Bar, i: nat, p: Peer, d: Bar)
    requires i < |b.peers| && p.entered == b.peers[i].entered
    requires d.peers == b.peers[i := p] && d.rounds == b.rounds
    ensures Here(d) == Here(b)
  {
    ArrivedSame(b.peers, d.peers, b.rounds + 1);
  }

  /** A step that does not enter and leaves the lock alone: what is left to show is that the
      count file fits. */
  lemma PlainStep(b: Bar, i: nat, p: Peer, d: Bar)
    requires Inv(b) && i < |b.peers| && PeerOk(p, b.rounds) && p.entered == b.peers[i].entered
    requires InSection(p.pc) <==> InSection(b.peers[i].pc)
    requires p.pc.Queued? <==> b.peers[i].pc.Queued?
    requires d.peers == b.peers[i := p] && d.rounds == b.rounds && d.lock == b.lock
    requires CountOk(d.count, Here(b), |b.peers|, HolderPc(d))
    ensures Inv(d)
  {
    PutKeepsPeers(b, i, p, d);
    PutKeepsHolder(b, i, p, d);
    PutKeepsHere(b, i, p, d);
  }

  lemma EnterHere(b: Bar, i: nat, q: Peer, d: Bar)
    requires PeersOk(b) && i < |b.peers| && !InRound(b.peers[i].pc) && d.rounds == b.rounds
    requires d.peers == b.peers[i := q] && q.entered == b.peers[i].entered + 1
    requires q.left == b.peers[i].left && Pending(q) == Pending(b.peers[i]) && InRound(q.pc) && !q.pc.Unregistered?
    ensures Here(d) == Here(b) + 1 && PeersOk(d)
  {
    assert PeerOk(b.peers[i], b.rounds);
    ArrivedOneMore(b.peers, i, q, b.rounds + 1);
    PutKeepsPeers(b, i, q, d);
  }

  lemma EnterStep(v: Service.Variant, b: Bar, i: nat)
    requires Inv(b) && i < |b.peers| && b.peers[i].pc.Counted?
    ensures Inv(Step(v, b, i, WriteCount))
  {
    var p, d := b.peers[i], Step(v, b, i, WriteCount);
    assert b.lock.owner == Some(i);
    EnterHere(b, i, d.peers[i], d);
    PutKeepsHolder(b, i, d.peers[i], d);
    assert HolderPc(d) == Wrote(p.pc.text) && HolderPc(b) == p.pc;
  }

  lemma TouchedPeer(p: Peer, rounds: nat)
    requires PeerOk(p, rounds) && p.entered == rounds + 1
    ensures PeerOk(Notified(p), rounds + 1)
    ensures p.pc.Touching? ==> PeerOk(Notified(p.(pc := Releasing)), rounds + 1)
  {}

  /** The last arrival turns the round: everybody has entered, so everybody is told. */
  lemma TouchTellsAll(b: Bar, i: nat, d: Bar)
    requires PeersOk(b) && i < |b.peers| && b.peers[i].pc.Touching?
    requires forall j :: 0 <= j < |b.peers| ==> b.peers[j].entered == b.rounds + 1
    requires d == Touched(Put(b, i, b.peers[i].(pc := Releasing)))
    ensures PeersOk(d) && Here(d) == 0
  {
    forall j | 0 <= j < |d.peers|
      ensures PeerOk(d.peers[j], d.rounds) && d.peers[j].entered == d.rounds
    {
      TouchedPeer(b.peers[j], b.rounds);
    }
    NobodyArrived(d.peers, d.rounds + 1);
  }

  lemma TouchKeepsHolder(b: Bar, i: nat, d: Bar)
    requires HolderOk(b) && i < |b.peers| && b.peers[i].pc.Touching?
    requires d == Touched(Put(b, i, b.peers[i].(pc := Releasing)))
    ensures HolderOk(d)
  {
    forall j | 0 <= j < |d.peers|
      ensures InSection(d.peers[j].pc) <==> b.lock.owner == Some(j)
      ensures d.peers[j].pc.Queued? <==> j in b.lock.queue
    {
      assert d.peers[j].pc == if j == i then Releasing else b.peers[j].pc;
    }
  }

  lemma TouchStep(v: Service.Variant, b: Bar, i: nat)
    requires Inv(b) && i < |b.peers| && b.peers[i].pc.Touching?
    ensures Inv(Step(v, b, i, Touch))
  {
    var d := Step(v, b, i, Touch);
    OwnerIs(b, i);
    assert forall j :: 0 <= j < |b.peers| ==> b.peers[j].entered == b.rounds + 1 by { FullIff(b.peers, b.rounds + 1); }
    TouchTellsAll(b, i, d);
    TouchKeepsHolder(b, i, d);
    assert HolderPc(d) == Releasing;
  }

  lemma FreeStep(v: Service.Variant, b: Bar, i: nat, a: Action)
    requires Inv(b) && i < |b.peers| && (a.Register? || a.Call? || a.Deliver? || a.Wake?)
    ensures Inv(Step(v, b, i, a))
  {
    var p, d := b.peers[i], Step(v, b, i, a);
    assert PeerOk(p, b.rounds) && (InSection(p.pc) <==> b.lock.owner == Some(i));
    if d != b {
      PlainStep(b, i, d.peers[i], d);
    }
  }

  lemma OwnerIs(b: Bar, i: nat)
    requires Inv(b) && i < |b.peers| && InSection(b.peers[i].pc)
    ensures b.lock.owner == Some(i) && HolderPc(b) == b.peers[i].pc && !b.lock.stopped && PeerOk(b.peers[i], b.rounds)
  {}

  lemma ReadStep(v: Service.Variant, b: Bar, i: nat)
    requires Inv(b) && i < |b.peers| && b.peers[i].pc.Holding?
    ensures Inv(Step(v, b, i, ReadCount))
  {
    var d := Step(v, b, i, ReadCount);
    OwnerIs(b, i);
    NextOf(Here(b));
    PlainStep(b, i, d.peers[i], d);
  }

  lemma CheckStep(v: Service.Variant, b: Bar, i: nat)
    requires Inv(b) && i < |b.peers| && b.peers[i].pc.Wrote?
    ensures Inv(Step(v, b, i, Check))
  {
    var d := Step(v, b, i, Check);
    OwnerIs(b, i);
    NumeralsDiffer(Here(b), |b.peers|);
    PlainStep(b, i, d.peers[i], d);
  }

  lemma ClearStep(v: Service.Variant, b: Bar, i: nat)
    requires Inv(b) && i < |b.peers| && b.peers[i].pc.Clearing?
    ensures Inv(Step(v, b, i, Clear))
  {
    var d := Step(v, b, i, Clear);
    OwnerIs(b, i);
    PlainStep(b, i, d.peers[i], d);
  }

  lemma AskStep(b: Bar, i: nat)
    requires Inv(b) && i < |b.peers| && b.peers[i].pc.Asking?
    ensures Inv(AskFor(b, i))
  {
    var d := AskFor(b, i);
    assert PeerOk(b.peers[i], b.rounds);
    assert b.lock.owner != Some(i) && i !in b.lock.queue;
    PutKeepsPeers(b, i, d.peers[i], d);
    PutKeepsHere(b, i, d.peers[i], d);
    if b.lock.owner.Some? {
      assert HolderPc(d) == HolderPc(b);
    }
  }

  /** Nobody waits for the lock. */
  lemma ReturnStep(b: Bar, i: nat)
    requires Inv(b) && i < |b.peers| && b.peers[i].pc.Releasing? && b.lock.queue == []
    ensures Inv(GiveBack(Service.Intended, b, i))
  {
    var d := GiveBack(Service.Intended, b, i);
    assert PeerOk(b.peers[i], b.rounds) && b.lock.owner == Some(i);
    PutKeepsPeers(b, i, d.peers[i], d);
    PutKeepsHere(b, i, d.peers[i], d);
  }

  /** The next in line has the lock. */
  lemma PassStep(b: Bar, i: nat)
    requires Inv(b) && i < |b.peers| && b.peers[i].pc.Releasing? && b.lock.queue != []
    ensures Inv(GiveBack(Service.Intended, b, i))
  {
    var d, k := GiveBack(Service.Intended, b, i), b.lock.queue[0];
    var mid := Put(b, i, b.peers[i].(pc := Waiting));
    assert k in b.lock.queue && PeerOk(b.peers[i], b.rounds) && PeerOk(b.peers[k], b.rounds);
    assert b.lock.owner == Some(i) && k != i;
    assert PeersOk(d) && Here(d) == Here(b) by {
      PutKeepsPeers(b, i, mid.peers[i], mid);
      PutKeepsHere(b, i, mid.peers[i], mid);
      PutKeepsPeers(mid, k, d.peers[k], d);
      PutKeepsHere(mid, k, d.peers[k], d);
    }
    assert HolderOk(d) by { PassKeepsHolder(b, d, i, k); }
    assert HolderPc(b) == Releasing && HolderPc(d) == Holding;
  }

  lemma PassKeepsHolder(b: Bar, d: Bar, i: nat, k: nat)
    requires HolderOk(b) && i < |b.peers| && b.lock.owner == Some(i)
    requires b.lock.queue != [] && k == b.lock.queue[0] && k < |b.peers| && k != i
    requires d.peers == b.peers[i := b.peers[i].(pc := Waiting)][k := b.peers[k].(pc := Holding)]
    requires d.lock == b.lock.(owner := Some(k), queue := b.lock.queue[1..])
    ensures HolderOk(d)
  {
    forall j | 0 <= j < |d.peers| ensures d.peers[j].pc.Queued? <==> j in d.lock.queue {
      assert b.lock.queue == [k] + d.lock.queue;
      assert k !in d.lock.queue;
    }
    forall j | j in d.lock.queue ensures j < |d.peers| {
      assert j in b.lock.queue;
    }
  }

  /** Over the repaired lock every step keeps the invariant. */
  lemma StepKeepsInv(b: Bar, i: nat, a: Action)
    requires Inv(b)
    ensures Inv(Step(Service.Intended, b, i, a)) && |Step(Service.Intended, b, i, a).peers| == |b.peers|
  {
    if i < |b.peers| {
      match a
      case WriteCount => if b.peers[i].pc.Counted? { EnterStep(Service.Intended, b, i); }
      case Touch => if b.peers[i].pc.Touching? { TouchStep(Service.Intended, b, i); }
      case Acquire => if b.peers[i].pc.Asking? { AskStep(b, i); }
      case Release =>
        if b.peers[i].pc.Releasing? {
          if b.lock.queue == [] { ReturnStep(b, i); } else { PassStep(b, i); }
        }
      case Register => FreeStep(Service.Intended, b, i, a);
      case Call => FreeStep(Service.Intended, b, i, a);
      case Deliver => FreeStep(Service.Intended, b, i, a);
      case Wake => FreeStep(Service.Intended, b, i, a);
      case ReadCount => if b.peers[i].pc.Holding? { ReadStep(Service.Intended, b, i); }
      case Check => if b.peers[i].pc.Wrote? { CheckStep(Service.Intended, b, i); }
      case Clear => if b.peers[i].pc.Clearing? { ClearStep(Service.Intended, b, i); }
    }
  }

  lemma {:induction false} RunKeepsInv(b: Bar, acts: seq<(nat, Action)>)
    requires Inv(b)
    ensures Inv(Run(Service.Intended, b, acts)) && |Run(Service.Intended, b, acts).peers| == |b.peers|
    decreases acts
  {
    if acts != [] {
      var next := Step(Service.Intended, b, acts[0].0, acts[0].1);
      StepKeepsInv(b, acts[0].0, acts[0].1);
      RunKeepsInv(next, acts[1..]);
      RunFirst(Service.Intended, b, acts, next);
    }
  }

  lemma RunFirst(v: Service.Variant, b: Bar, acts: seq<(nat, Action)>, next: Bar)
    requires acts != [] && next == Step(v, b, acts[0].0, acts[0].1)
    ensures Run(v, b, acts) == Run(v, next, acts[1..])
  {}

  lemma StartIsOk(n: nat)
    requires n > 0
    ensures Inv(Start(n))
  {
    NobodyArrived(Start(n).peers, 1);
  }

  // ---------------------------------------------------------------- the lock as written

  /** The barrier if the stored owner were h. */
  function Ideal(b: Bar, h: Option<nat>): Bar {
    b.(lock := b.lock.(owner := h))
  }

  /** All is well if h, who may not be the stored owner, is taken for the owner: as written, a
      client that was handed the lock is not stored. */
  predicate InvBut(b: Bar, h: Option<nat>) {
    Inv(Ideal(b, h)) && (b.lock.owner.Some? ==> b.lock.owner == h)
  }

  predicate SectionEmpty(b: Bar) {
    forall j :: 0 <= j < |b.peers| ==> !InSection(b.peers[j].pc)
  }

  /** An acquire finds the stored lock free while somebody works under it. */
  predicate Doubles(b: Bar, i: nat, a: Action) {
    a.Acquire? && i < |b.peers| && b.peers[i].pc.Asking? && b.lock.owner.None? && !SectionEmpty(b)
  }

  ghost predicate SameButOwner(d: Bar, g: Bar) {
    Ideal(d, g.lock.owner) == g && (d.lock.owner.Some? ==> d.lock.owner == g.lock.owner)
  }

  lemma AskIsIdeal(b: Bar, h: Option<nat>, i: nat)
    requires InvBut(b, h) && i < |b.peers| && b.peers[i].pc.Asking? && !Doubles(b, i, Acquire)
    ensures SameButOwner(AskFor(b, i), AskFor(Ideal(b, h), i))
  {
    OwnerIsInSection(b, h);
  }

  lemma GiveBackIsIdeal(b: Bar, h: Option<nat>, i: nat)
    requires InvBut(b, h) && i < |b.peers|
    ensures SameButOwner(GiveBack(Service.AsWritten, b, i), GiveBack(Service.Intended, Ideal(b, h), i))
  {}

  lemma OtherStepIsIdeal(b: Bar, h: Option<nat>, i: nat, a: Action)
    requires InvBut(b, h) && !a.Acquire? && !a.Release?
    ensures Ideal(Step(Service.AsWritten, b, i, a), h) == Step(Service.Intended, Ideal(b, h), i, a)
    ensures Step(Service.AsWritten, b, i, a).lock == b.lock
  {}

  /** Any other step does what the repaired lock does if h is the owner. */
  lemma StepIsIdeal(b: Bar, h: Option<nat>, i: nat, a: Action)
    requires InvBut(b, h) && !Doubles(b, i, a)
    ensures SameButOwner(Step(Service.AsWritten, b, i, a), Step(Service.Intended, Ideal(b, h), i, a))
  {
    if a.Acquire? {
      if i < |b.peers| && b.peers[i].pc.Asking? { AskIsIdeal(b, h, i); }
    } else if a.Release? {
      if i < |b.peers| && b.peers[i].pc.Releasing? { GiveBackIsIdeal(b, h, i); }
    } else {
      OtherStepIsIdeal(b, h, i, a);
    }
  }

  lemma OwnerIsInSection(b: Bar, h: Option<nat>)
    requires InvBut(b, h)
    ensures SectionEmpty(b) <==> h.None?
  {
    if h.Some? {
      assert InSection(Ideal(b, h).peers[h.value].pc);
      assert InSection(b.peers[h.value].pc);
    }
  }

  /** Two clients work under the lock, or the server has stopped. */
  lemma DoublingBreaks(b: Bar, h: Option<nat>, i: nat)
    requires InvBut(b, h) && Doubles(b, i, Acquire)
    ensures var d := Step(Service.AsWritten, b, i, Acquire);
            d.lock.stopped
            || (exists j, k :: 0 <= j < k < |d.peers| && InSection(d.peers[j].pc) && InSection(d.peers[k].pc))
  {
    var d := Step(Service.AsWritten, b, i, Acquire);
    var j :| 0 <= j < |b.peers| && InSection(b.peers[j].pc);
    assert j != i && d.peers[j] == b.peers[j];
    if !d.lock.stopped {
      assert InSection(d.peers[i].pc) && InSection(d.peers[j].pc);
      assert if i < j then 0 <= i < j else 0 <= j < i;
    }
  }

  /** As written, a step keeps the barrier well exactly when it is no such acquire. */
  lemma WrittenStepKeepsInvIff(b: Bar, h: Option<nat>, i: nat, a: Action)
    requires InvBut(b, h)
    ensures (exists g :: InvBut(Step(Service.AsWritten, b, i, a), g)) <==> !Doubles(b, i, a)
  {
    var d := Step(Service.AsWritten, b, i, a);
    if Doubles(b, i, a) {
      DoublingBreaks(b, h, i);
      forall g ensures !InvBut(d, g) {
        OneInSection(d, g);
      }
    } else {
      var g := Step(Service.Intended, Ideal(b, h), i, a);
      StepIsIdeal(b, h, i, a);
      StepKeepsInv(Ideal(b, h), i, a);
      assert InvBut(d, g.lock.owner);
    }
  }

  lemma OneInSection(b: Bar, g: Option<nat>)
    ensures InvBut(b, g) ==>
              !b.lock.stopped
              && !(exists j, k :: 0 <= j < k < |b.peers| && InSection(b.peers[j].pc) && InSection(b.peers[k].pc))
  {
    var d := Ideal(b, g);
    if InvBut(b, g) {
      assert forall j :: 0 <= j < |d.peers| ==> (InSection(d.peers[j].pc) <==> d.lock.owner == Some(j));
    }
  }

  /** On the run as written no acquire finds the lock free while somebody works under it. */
  ghost predicate NeverDoubles(b: Bar, acts: seq<(nat, Action)>)
    decreases acts
  {
    acts != [] ==>
      !Doubles(b, acts[0].0, acts[0].1)
      && NeverDoubles(Step(Service.AsWritten, b, acts[0].0, acts[0].1), acts[1..])
  }

  lemma {:induction false} WrittenRunKeepsInv(b: Bar, h: Option<nat>, acts: seq<(nat, Action)>) returns (g: Option<nat>)
    requires InvBut(b, h) && NeverDoubles(b, acts)
    ensures InvBut(Run(Service.AsWritten, b, acts), g) && |Run(Service.AsWritten, b, acts).peers| == |b.peers|
    decreases acts
  {
    if acts == [] {
      g := h;
    } else {
      var next := Step(Service.AsWritten, b, acts[0].0, acts[0].1);
      var ideal := Step(Service.Intended, Ideal(b, h), acts[0].0, acts[0].1);
      StepIsIdeal(b, h, acts[0].0, acts[0].1);
      StepKeepsInv(Ideal(b, h), acts[0].0, acts[0].1);
      g := WrittenRunKeepsInv(next, ideal.lock.owner, acts[1..]);
      RunFirst(Service.AsWritten, b, acts, next);
    }
  }

  /** The run is over the repaired lock, or over the lock as written without a double grant. */
  ghost predicate FairRun(v: Service.Variant, n: nat, acts: seq<(nat, Action)>) {
    v.Intended? || NeverDoubles(Start(n), acts)
  }

  lemma FairRunIsOk(v: Service.Variant, n: nat, acts: seq<(nat, Action)>) returns (h: Option<nat>)
    requires n > 0 && FairRun(v, n, acts)
    ensures InvBut(Run(v, Start(n), acts), h) && |Run(v, Start(n), acts).peers| == n
    ensures v.Intended? ==> h == Run(v, Start(n), acts).lock.owner
  {
    StartIsOk(n);
    if v.Intended? {
      RunKeepsInv(Start(n), acts);
      h := Run(v, Start(n), acts).lock.owner;
      assert Ideal(Run(v, Start(n), acts), h) == Run(v, Start(n), acts);
    } else {
      assert Ideal(Start(n), None) == Start(n);
      h := WrittenRunKeepsInv(Start(n), None, acts);
    }
  }

  // ---------------------------------------------------------------- while no lock is granted twice

  lemma CountIsOk(b: Bar)
    requires CountOk(b.count, Here(b), |b.peers|, HolderPc(b)) && b.lock.owner.None?
    ensures b.count == CountText(Here(b)) && Here(b) < |b.peers|
  {}

  lemma CountIsKept(b: Bar, h: Option<nat>)
    requires InvBut(b, h)
    ensures SectionEmpty(b) ==> b.count == CountText(Here(b)) && Here(b) < |b.peers|
    ensures h.None? ==> SectionEmpty(b)
  {
    OwnerIsInSection(b, h);
    if h.None? {
      assert Here(Ideal(b, h)) == Here(b);
      CountIsOk(Ideal(b, h));
    }
  }

  /** On every such run the file holds the number of arrivals of the current round whenever
      nobody works under the lock. */
  lemma CountIsExact(v: Service.Variant, n: nat, acts: seq<(nat, Action)>)
    requires n > 0 && FairRun(v, n, acts)
    ensures var b := Run(v, Start(n), acts);
            && (SectionEmpty(b) ==> b.count == CountText(Here(b)) && Here(b) < n)
            && (v.Intended? && b.lock.owner.None? ==> SectionEmpty(b))
  {
    var h := FairRunIsOk(v, n, acts);
    CountIsKept(Run(v, Start(n), acts), h);
  }

  predicate AllWait(peers: seq<Peer>) {
    forall i :: 0 <= i < |peers| ==> peers[i].pc.Waiting?
  }

  lemma FreeWhileAllWait(b: Bar)
    requires Inv(b) && AllWait(b.peers)
    ensures b.lock.owner.None? && Here(b) < |b.peers|
  {}

  lemma PendingIff(b: Bar, i: nat)
    requires PeersOk(b) && AllWait(b.peers) && i < |b.peers|
    ensures Pending(b.peers[i]) == if b.peers[i].entered == b.rounds then 1 else 0
  {
    assert PeerOk(b.peers[i], b.rounds);
  }

  /** While all clients wait: somebody has not entered the current round, and so has a wake-up
      on its way; all have exactly when all have entered equally often. */
  lemma SomebodyIsWoken(b: Bar)
    requires Inv(b) && AllWait(b.peers)
    ensures exists i :: 0 <= i < |b.peers| && Pending(b.peers[i]) == 1
    ensures (forall i :: 0 <= i < |b.peers| ==> Pending(b.peers[i]) == 1)
       <==> SameRound(b.peers)
  {
    FreeWhileAllWait(b);
    FullIff(b.peers, b.rounds + 1);
    var i :| 0 <= i < |b.peers| && b.peers[i].entered != b.rounds + 1;
    forall j | 0 <= j < |b.peers|
      ensures Pending(b.peers[j]) == (if b.peers[j].entered == b.rounds then 1 else 0)
      ensures b.rounds <= b.peers[j].entered <= b.rounds + 1
    {
      PendingIff(b, j);
      assert PeerOk(b.peers[j], b.rounds);
    }
    assert Pending(b.peers[i]) == 1;
  }

  /** All have entered equally often. */
  predicate SameRound(peers: seq<Peer>) {
    forall i, j :: 0 <= i < |peers| && 0 <= j < |peers| ==> peers[i].entered == peers[j].entered
  }

  /** On every such run: when all clients wait, a wake-up is on its way to somebody, and one is
      on its way to everybody exactly when all wait in the same round. */
  lemma WaitersAreWoken(v: Service.Variant, n: nat, acts: seq<(nat, Action)>)
    requires n > 0 && FairRun(v, n, acts) && AllWait(Run(v, Start(n), acts).peers)
    ensures var peers := Run(v, Start(n), acts).peers;
            && |peers| == n
            && (exists i :: 0 <= i < n && Pending(peers[i]) == 1)
            && ((forall i :: 0 <= i < n ==> Pending(peers[i]) == 1) <==> SameRound(peers))
  {
    var h := FairRunIsOk(v, n, acts);
    SomebodyIsWoken(Ideal(Run(v, Start(n), acts), h));
  }

  // ---------------------------------------------------------------- the locked part of sync

  lemma RunOne(v: Service.Variant, b: Bar, acts: seq<(nat, Action)>, next: Bar)
    requires acts != [] && Step(v, b, acts[0].0, acts[0].1) == next
    ensures Run(v, b, acts) == Run(v, next, acts[1..])
  {}

  /** The count file after an arrival, and whether the arrival was the last. */
  function Arrival(count: string, num: nat): (string, bool) {
    if NextText(count) == ToString(num) then ("", true) else (NextText(count), false)
  }

  class SharedFiles {
    var count: string
    var touches: nat

    constructor ()
      ensures count == "" && touches == 0
    {
      count, touches := "", 0;
    }

    /** What a client does with the two files while it holds the lock. */
    method Arrive(num: nat) returns (last: bool)
      modifies this
      ensures (count, last) == Arrival(old(count), num)
      ensures touches == old(touches) + (if last then 1 else 0)
    {
      var numInBar := count;
      if numInBar == "" {
        numInBar := "1";
      } else {
        numInBar := ToString(Parse(numInBar) + 1);
      }
      count := numInBar;
      last := numInBar == ToString(num);
      if last {
        count := "";
        touches := touches + 1;
      }
    }
  }

  /** An arrival counts one up, and the one that makes the number full empties the file. */
  lemma ArrivalCounts(k: nat, num: nat)
    ensures Arrival(CountText(k), num) == if k + 1 == num then ("", true) else (CountText(k + 1), false)
  {
    NextOf(k);
    NumeralsDiffer(k + 1, num);
  }

  /** The steps between taking and releasing the lock. */
  function Section(i: nat): seq<(nat, Action)> {
    [(i, ReadCount), (i, WriteCount), (i, Check), (i, Clear), (i, Touch)]
  }

  lemma CheckedAndCleared(v: Service.Variant, b: Bar, i: nat, text: string)
    requires i < |b.peers| && b.peers[i].pc == Wrote(text) && b.count == text && !b.lock.stopped
    ensures var d := Step(v, Step(v, Step(v, b, i, Check), i, Clear), i, Touch);
            var last := text == ToString(|b.peers|);
            && d.count == (if last then "" else text) && d.rounds == b.rounds + (if last then 1 else 0)
            && |d.peers| == |b.peers| && d.peers[i].pc == Releasing
  {
    var b1 := Step(v, b, i, Check);
    var b2 := Step(v, b1, i, Clear);
    if text == ToString(|b.peers|) {
      assert b1.peers[i].pc == Clearing && b2.peers[i].pc == Touching && |b2.peers| == |b.peers|;
    } else {
      assert b1.peers[i].pc == Releasing && b2 == b1;
    }
  }

  /** Done in a row, they are an arrival. */
  lemma SectionIsArrival(v: Service.Variant, b: Bar, i: nat)
    requires i < |b.peers| && b.peers[i].pc.Holding? && !b.lock.stopped
    ensures var d := Run(v, b, Section(i));
            && d.count == Arrival(b.count, |b.peers|).0
            && d.rounds == b.rounds + (if Arrival(b.count, |b.peers|).1 then 1 else 0)
            && |d.peers| == |b.peers| && d.peers[i].pc == Releasing
  {
    var acts := Section(i);
    var b1 := Step(v, b, i, ReadCount);
    var b2 := Step(v, b1, i, WriteCount);
    var b3 := Step(v, b2, i, Check);
    var b4 := Step(v, b3, i, Clear);
    var b5 := Step(v, b4, i, Touch);
    assert Run(v, b, acts) == b5 by {
      RunOne(v, b, acts, b1);
      RunOne(v, b1, acts[1..], b2);
      RunOne(v, b2, acts[2..], b3);
      RunOne(v, b3, acts[3..], b4);
      RunOne(v, b4, acts[4..], b5);
    }
    CheckedAndCleared(v, b2, i, NextText(b.count));
  }
}
