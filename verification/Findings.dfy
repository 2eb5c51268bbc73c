/**
 Where the program as written misses its intent: the general case, and a run of requests
 from the start that reaches it.
 */
module Findings {
  import opened Text
  import opened Database
  import opened DirectoryTree
  import opened Handles
  import opened Service
  import opened LockSafety
  import opened Requests
  import opened Disconnecting
  import Ephemerals
  import Hanging
  import LiveHandles
  import Losses

  // ---------------------------------------------------------------- release to a waiter

  /** As written, a hand-over leaves the lock free in the store and tells the waiter that it
      holds it. */
  lemma HandOverLeavesFree(srv: Srv, s: Session, h: FileHandler, xid: Xid, w: Waiter)
    requires Known(srv, s) && Known(srv, w.session) && Live(srv.db, h.file, h.inst)
    requires h.file in srv.queues && srv.queues[h.file] == [w] && w.xid != NO_REPLY
    ensures var r := Release(AsWritten, srv, s, h, xid, true);
            && Reply(w.session, w.xid, Value(true)) in r.out && r.srv.clients == srv.clients
            && h.file in GetSet(r.srv.held, srv.clients[w.session]) && h.file !in r.srv.queues
            && Live(r.srv.db, h.file, h.inst) && Owner(r.srv.db, h.file) == NO_OWNER
  {}

  lemma FreeIsGranted(srv: Srv, s: Session, h: FileHandler, xid: Xid, c: Client)
    requires Known(srv, s) && xid != NO_REPLY && h.file !in srv.queues
    requires Live(srv.db, h.file, h.inst) && Owner(srv.db, h.file) == NO_OWNER
    requires h.file in GetSet(srv.held, c)
    ensures var r := Acquire(srv, s, h, xid, true);
            && Reply(s, xid, Value(true)) in r.out
            && h.file in GetSet(r.srv.held, srv.clients[s]) && h.file in GetSet(r.srv.held, c)
  {}

  /** So the next client that asks is told the same. */
  lemma HandOverGrantsTwice(srv: Srv, s: Session, t: Session, h: FileHandler, xid: Xid, xid': Xid, w: Waiter)
    requires Known(srv, s) && Known(srv, t) && Known(srv, w.session) && Live(srv.db, h.file, h.inst)
    requires h.file in srv.queues && srv.queues[h.file] == [w] && w.xid != NO_REPLY && xid' != NO_REPLY
    ensures var r := Release(AsWritten, srv, s, h, xid, true);
            var r' := Acquire(r.srv, t, h, xid', true);
            && Reply(w.session, w.xid, Value(true)) in r.out && Reply(t, xid', Value(true)) in r'.out
            && h.file in GetSet(r'.srv.held, srv.clients[w.session])
            && h.file in GetSet(r'.srv.held, srv.clients[t])
  {
    HandOverLeavesFree(srv, s, h, xid, w);
    FreeIsGranted(Release(AsWritten, srv, s, h, xid, true).srv, t, h, xid', srv.clients[w.session]);
  }

  // ---------------------------------------------------------------- stale handles

  /** An acquire through a handle of an earlier instance of a free file is left waiting, and
      the next acquire through a good handle stops the server: its assertion that nobody
      waits for a free lock fails. */
  lemma StaleAcquireAborts(srv: Srv, s: Session, t: Session, stale: FileHandler, h: FileHandler, xid: Xid, xid': Xid)
    requires Known(srv, s) && Known(srv, t) && stale.file == h.file && stale.inst != h.inst
    requires Live(srv.db, h.file, h.inst) && Owner(srv.db, h.file) == NO_OWNER
    ensures var r := Acquire(srv, s, stale, xid, true);
            r.end == Returned && r.out == [] && Acquire(r.srv, t, h, xid', true).end == Aborted
  {}

  // ---------------------------------------------------------------- strangers

  /** A session that has used a handle but never introduced itself stops the server when it
      is lost. */
  lemma LostStrangerAborts(v: Variant, srv: Srv, s: Session, up: bool)
    requires !Known(srv, s) && Get(srv.tables.bySession, s) != []
    ensures Disconnect(v, srv, s, up).end == Aborted
  {}

  // ---------------------------------------------------------------- runs that get there

  /** The run is served to its end and leads there. */
  predicate Leads(v: Variant, srv: Srv, ops: seq<Op>, post: Srv) {
    RunOps(v, srv, ops).end == Returned && RunOps(v, srv, ops).srv == post
  }

  lemma {:induction false} LeadsOn(v: Variant, srv: Srv, ops: seq<Op>, mid: Srv, rest: seq<Op>)
    requires Leads(v, srv, ops, mid)
    ensures RunOps(v, srv, ops + rest).end == RunOps(v, mid, rest).end
    ensures RunOps(v, srv, ops + rest).srv == RunOps(v, mid, rest).srv
    decreases ops
  {
    if ops == [] {
      assert ops + rest == rest;
    } else {
      assert (ops + rest)[0] == ops[0] && (ops + rest)[1..] == ops[1..] + rest;
      LeadsOn(v, Step(v, srv, ops[0]).srv, ops[1..], mid, rest);
    }
  }

  lemma LeadsOne(v: Variant, srv: Srv, op: Op)
    requires Step(v, srv, op).end == Returned
    ensures Leads(v, srv, [op], Step(v, srv, op).srv)
  {
    assert [op][1..] == [];
  }

  /** One more request. */
  lemma EndsWith(v: Variant, srv: Srv, ops: seq<Op>, mid: Srv, op: Op)
    requires Leads(v, srv, ops, mid)
    ensures RunOps(v, srv, ops + [op]).end == Step(v, mid, op).end
    ensures RunOps(v, srv, ops + [op]).srv == Step(v, mid, op).srv
  {
    assert [op][1..] == [];
    LeadsOn(v, srv, ops, mid, [op]);
  }

  lemma EndsAs(v: Variant, srv: Srv, ops: seq<Op>, mid: Srv, op: Op, end: Ending)
    requires Leads(v, srv, ops, mid) && Step(v, mid, op).end == end
    ensures RunOps(v, srv, ops + [op]).end == end
  {
    EndsWith(v, srv, ops, mid, op);
  }

  lemma LeadsTo(v: Variant, srv: Srv, ops: seq<Op>, mid: Srv, op: Op, post: Srv)
    requires Leads(v, srv, ops, mid) && Step(v, mid, op).end == Returned && Step(v, mid, op).srv == post
    ensures Leads(v, srv, ops + [op], post)
  {
    EndsWith(v, srv, ops, mid, op);
  }

  const HANDLE := FileHandler(Magic("/f", 1, false), 0, "/f", 1, false)

  function ModeOf(ephemeral: bool): nat {
    if ephemeral then CREATE_FILE + EPHEMERAL else CREATE_FILE
  }

  /** Two clients; bob creates "/f", ann opens it and takes its lock, and bob waits for it. */
  function Setup(ephemeral: bool): seq<Op> {
    [StartOp(1, "ann", 1, true), StartOp(2, "bob", 2, true), OpenOp(2, "/f", ModeOf(ephemeral), 0, 3, true),
     OpenOp(1, "/f", 0, 0, 4, true), AcquireOp(1, HANDLE, 5, true), AcquireOp(2, HANDLE, 6, true)]
  }

  const TWO_CLIENTS := START.(clients := map[1 := "ann", 2 := "bob"])

  function OneOpen(ephemeral: bool): Srv {
    TWO_CLIENTS.(db := Db(map["/f" := NewNode(1, false)], 1), tables := Add(NO_TABLES, 2, HANDLE),
                 eph := if ephemeral then map["bob" := {"/f"}] else map[])
  }

  function BothOpen(ephemeral: bool): Srv {
    OneOpen(ephemeral).(tables := Add(Add(NO_TABLES, 2, HANDLE), 1, HANDLE))
  }

  function OneHolds(ephemeral: bool): Srv {
    BothOpen(ephemeral).(db := Db(map["/f" := NewNode(1, false).(owner := "ann", lockGen := 1)], 1),
                         held := map["ann" := {"/f"}])
  }

  function OneWaits(ephemeral: bool): Srv {
    OneHolds(ephemeral).(queues := map["/f" := [Waiter(2, 6)]])
  }

  lemma SessionsStart(v: Variant, ephemeral: bool)
    ensures Leads(v, START, Setup(ephemeral)[..2], TWO_CLIENTS)
  {
    var a, b := Setup(ephemeral)[0], Setup(ephemeral)[1];
    assert Setup(ephemeral)[..2] == [a] + [b];
    LeadsOne(v, START, a);
    LeadsOn(v, START, [a], Step(v, START, a).srv, [b]);
    LeadsOne(v, Step(v, START, a).srv, b);
  }

  lemma FirstIsCreated(mode: nat, xid: Xid)
    requires NameOk("/f") && Has(mode, CREATE_FILE) && !Has(mode, CREATE_DIRECTORY)
    ensures var created := TWO_CLIENTS.(db := Db(map["/f" := NewNode(1, false)], 1));
            FileOpen(TWO_CLIENTS, 2, "/f", mode, 0, xid, true)
            == Entered(created, 2, "/f", mode, Has(mode, EPHEMERAL), 0, 1, xid)
  {
    assert ParentName("/f") == "/";
  }

  lemma FirstIsEntered(ephemeral: bool, xid: Xid)
    ensures var created := TWO_CLIENTS.(db := Db(map["/f" := NewNode(1, false)], 1));
            Entered(created, 2, "/f", ModeOf(ephemeral), Has(ModeOf(ephemeral), EPHEMERAL), 0, 1, xid).srv
            == OneOpen(ephemeral)
  {
    var none: map<Client, set<string>> := map[];
    assert GetSet(none, "bob") + {"/f"} == {"/f"};
  }

  lemma FirstOpens(v: Variant, ephemeral: bool)
    ensures Leads(v, TWO_CLIENTS, [Setup(ephemeral)[2]], OneOpen(ephemeral))
  {
    FirstIsCreated(ModeOf(ephemeral), 3);
    FirstIsEntered(ephemeral, 3);
    LeadsOne(v, TWO_CLIENTS, Setup(ephemeral)[2]);
  }

  lemma SecondOpens(v: Variant, ephemeral: bool)
    ensures Leads(v, OneOpen(ephemeral), [Setup(ephemeral)[3]], BothOpen(ephemeral))
  {
    LeadsOne(v, OneOpen(ephemeral), Setup(ephemeral)[3]);
  }

  lemma BothKnown(ephemeral: bool)
    ensures Find(BothOpen(ephemeral).tables, 1, HANDLE) == (BothOpen(ephemeral).tables, Fd(1, HANDLE))
    ensures Find(BothOpen(ephemeral).tables, 2, HANDLE) == (BothOpen(ephemeral).tables, Fd(0, HANDLE))
    ensures Get(BothOpen(ephemeral).tables.bySession, 2) == [Fd(0, HANDLE)]
  {}

  lemma FirstAcquires(v: Variant, ephemeral: bool)
    ensures Leads(v, BothOpen(ephemeral), [Setup(ephemeral)[4]], OneHolds(ephemeral))
  {
    BothKnown(ephemeral);
    LeadsOne(v, BothOpen(ephemeral), Setup(ephemeral)[4]);
    var none: map<Client, set<string>> := map[];
    assert GetSet(none, "ann") + {"/f"} == {"/f"};
    assert Locked(BothOpen(ephemeral).db, "/f", "ann").fs == OneHolds(ephemeral).db.fs;
  }

  lemma SecondAcquires(v: Variant, ephemeral: bool)
    ensures Leads(v, OneHolds(ephemeral), [Setup(ephemeral)[5]], OneWaits(ephemeral))
  {
    BothKnown(ephemeral);
    LeadsOne(v, OneHolds(ephemeral), Setup(ephemeral)[5]);
    var none: map<string, seq<Waiter>> := map[];
    assert Get(none, "/f") + [Waiter(2, 6)] == [Waiter(2, 6)];
  }

  lemma BothOpenReached(v: Variant, ephemeral: bool)
    ensures Leads(v, START, Setup(ephemeral)[..4], BothOpen(ephemeral))
  {
    var ops := Setup(ephemeral);
    SessionsStart(v, ephemeral);
    FirstOpens(v, ephemeral);
    LeadsOn(v, START, ops[..2], TWO_CLIENTS, [ops[2]]);
    assert ops[..2] + [ops[2]] == ops[..3];
    SecondOpens(v, ephemeral);
    LeadsOn(v, START, ops[..3], OneOpen(ephemeral), [ops[3]]);
    assert ops[..3] + [ops[3]] == ops[..4];
  }

  lemma OneWaitsReached(v: Variant, ephemeral: bool)
    ensures Leads(v, START, Setup(ephemeral), OneWaits(ephemeral))
  {
    var ops := Setup(ephemeral);
    BothOpenReached(v, ephemeral);
    FirstAcquires(v, ephemeral);
    LeadsOn(v, START, ops[..4], BothOpen(ephemeral), [ops[4]]);
    assert ops[..4] + [ops[4]] == ops[..5];
    SecondAcquires(v, ephemeral);
    LeadsOn(v, START, ops[..5], OneHolds(ephemeral), [ops[5]]);
    assert ops[..5] + [ops[5]] == ops;
  }

  /** A run of the program as written after which two clients have been told that they hold
      the lock of "/f", and the server counts both as holders. */
  lemma TwoHoldersReached()
    ensures var r := RunOps(AsWritten, START, Setup(false));
            var r' := Release(AsWritten, r.srv, 1, HANDLE, 7, true);
            var r'' := Acquire(r'.srv, 1, HANDLE, 8, true);
            && Reply(2, 6, Value(true)) in r'.out && Reply(1, 8, Value(true)) in r''.out
            && "/f" in GetSet(r''.srv.held, "ann") && "/f" in GetSet(r''.srv.held, "bob")
  {
    OneWaitsReached(AsWritten, false);
    HandOverGrantsTwice(OneWaits(false), 1, 1, HANDLE, 7, 8, Waiter(2, 6));
  }

  /** A third client, cyd, opens the file while bob waits. */
  const THIRD_COMES := [StartOp(3, "cyd", 7, true), OpenOp(3, "/f", 0, 0, 8, true)]

  const THIRD_OPEN := OneWaits(false).(clients := map[1 := "ann", 2 := "bob", 3 := "cyd"],
                                       tables := Add(BothOpen(false).tables, 3, HANDLE))

  const THIRD_NAMED := OneWaits(false).(clients := map[1 := "ann", 2 := "bob", 3 := "cyd"])

  lemma ThirdIsNamed(v: Variant)
    ensures Leads(v, OneWaits(false), [THIRD_COMES[0]], THIRD_NAMED)
  {
    LeadsOne(v, OneWaits(false), THIRD_COMES[0]);
  }

  lemma ThirdOpens(v: Variant)
    ensures Leads(v, THIRD_NAMED, [THIRD_COMES[1]], THIRD_OPEN)
  {
    LeadsOne(v, THIRD_NAMED, THIRD_COMES[1]);
  }

  lemma ThirdComes(v: Variant)
    ensures Leads(v, START, Setup(false) + THIRD_COMES, THIRD_OPEN)
  {
    OneWaitsReached(v, false);
    ThirdIsNamed(v);
    ThirdOpens(v);
    LeadsOn(v, OneWaits(false), [THIRD_COMES[0]], THIRD_NAMED, [THIRD_COMES[1]]);
    assert THIRD_COMES == [THIRD_COMES[0]] + [THIRD_COMES[1]];
    LeadsOn(v, START, Setup(false), OneWaits(false), THIRD_COMES);
  }

  lemma ThirdIsListed()
    ensures Known(THIRD_OPEN, 3) && Get(THIRD_OPEN.tables.bySession, 3) == [Fd(2, HANDLE)]
  {}

  lemma CloseHangs(xid: Xid)
    ensures Step(AsWritten, THIRD_OPEN, CloseOp(3, HANDLE, xid, true)).end == Hung
  {
    ThirdIsListed();
    Hanging.CloseHangsIff(THIRD_OPEN, 3, HANDLE, xid, true);
  }

  lemma FirstCloseHangs(v: Variant, srv: Srv, s: Session, fd: Fd, up: bool)
    requires Get(srv.tables.bySession, s) == [fd] && Step(v, srv, CloseOp(s, fd.h, NO_REPLY, up)).end == Hung
    ensures Step(v, srv, DisconnectOp(s, up)).end == Hung
  {}

  lemma DisconnectHangs()
    ensures Step(AsWritten, THIRD_OPEN, DisconnectOp(3, true)).end == Hung
  {
    ThirdIsListed();
    CloseHangs(NO_REPLY);
    FirstCloseHangs(AsWritten, THIRD_OPEN, 3, Fd(2, HANDLE), true);
  }

  /** The server never ends serving cyd's close. */
  lemma HangReached()
    ensures RunOps(AsWritten, START, Setup(false) + THIRD_COMES + [CloseOp(3, HANDLE, 9, true)]).end == Hung
  {
    ThirdComes(AsWritten);
    CloseHangs(9);
    EndsAs(AsWritten, START, Setup(false) + THIRD_COMES, THIRD_OPEN, CloseOp(3, HANDLE, 9, true), Hung);
  }

  /** Nor does it when cyd is lost. */
  lemma LossHangReached()
    ensures RunOps(AsWritten, START, Setup(false) + THIRD_COMES + [DisconnectOp(3, true)]).end == Hung
  {
    ThirdComes(AsWritten);
    DisconnectHangs();
    EndsAs(AsWritten, START, Setup(false) + THIRD_COMES, THIRD_OPEN, DisconnectOp(3, true), Hung);
  }

  /** Cyd waits behind bob. */
  const TWO_WAIT := THIRD_OPEN.(queues := map["/f" := [Waiter(2, 6), Waiter(3, 9)]])

  lemma ThirdWaits()
    ensures Step(AsWritten, THIRD_OPEN, AcquireOp(3, HANDLE, 9, true)).end == Returned
    ensures Step(AsWritten, THIRD_OPEN, AcquireOp(3, HANDLE, 9, true)).srv == TWO_WAIT
  {
    ThirdIsListed();
    assert Find(THIRD_OPEN.tables, 3, HANDLE).0 == THIRD_OPEN.tables;
    assert [Waiter(2, 6)] + [Waiter(3, 9)] == [Waiter(2, 6), Waiter(3, 9)];
  }

  lemma SecondIsListed()
    ensures Find(TWO_WAIT.tables, 2, HANDLE) == (TWO_WAIT.tables, Fd(0, HANDLE))
    ensures Known(TWO_WAIT, 2) && Known(TWO_WAIT, 1) && !IsEphemeral(TWO_WAIT, 2, "/f")
    ensures !Hanging.Frees(TWO_WAIT, 2, HANDLE, true) && Live(TWO_WAIT.db, "/f", 1)
  {}

  lemma SecondLeaves()
    ensures FileClose(AsWritten, TWO_WAIT, 2, HANDLE, 10, true).srv.tables == Drop(TWO_WAIT.tables, 2, Fd(0, HANDLE))
  {
    var fd := Fd(0, HANDLE);
    SecondIsListed();
    assert Found(TWO_WAIT, 2, HANDLE) == TWO_WAIT;
    assert Reclaim(AsWritten, TWO_WAIT, 2, HANDLE, true) == Done(TWO_WAIT, []);
    assert LetGo(AsWritten, TWO_WAIT, 2, fd, 10, true).srv == Forget(AsWritten, TWO_WAIT, 2, fd).srv;
  }

  lemma SecondHasNone()
    ensures Get(Drop(TWO_WAIT.tables, 2, Fd(0, HANDLE)).bySession, 2) == []
  {
    assert Get(TWO_WAIT.tables.bySession, 2) == [Fd(0, HANDLE)];
    assert [Fd(0, HANDLE)][..0] == [];
    assert Without([Fd(0, HANDLE)], Fd(0, HANDLE)) == [];
  }

  lemma TwoWaitReached()
    ensures Leads(AsWritten, START, Setup(false) + THIRD_COMES + [AcquireOp(3, HANDLE, 9, true)], TWO_WAIT)
  {
    ThirdComes(AsWritten);
    ThirdWaits();
    LeadsTo(AsWritten, START, Setup(false) + THIRD_COMES, THIRD_OPEN, AcquireOp(3, HANDLE, 9, true), TWO_WAIT);
  }

  /** After bob's close. */
  function SecondClosed(): Srv {
    FileClose(AsWritten, TWO_WAIT, 2, HANDLE, 10, true).srv
  }

  lemma SecondCloseEnds()
    ensures Step(AsWritten, TWO_WAIT, CloseOp(2, HANDLE, 10, true)).end == Returned
  {
    SecondIsListed();
    Hanging.ClosedWaiterStays(TWO_WAIT, 2, HANDLE, 10, true);
  }

  /** A run in which bob closes the file while he and cyd wait. */
  lemma ClosedWaiterReached()
    ensures Leads(AsWritten, START, Setup(false) + THIRD_COMES + [AcquireOp(3, HANDLE, 9, true)]
                                    + [CloseOp(2, HANDLE, 10, true)], SecondClosed())
  {
    TwoWaitReached();
    SecondCloseEnds();
    LeadsTo(AsWritten, START, Setup(false) + THIRD_COMES + [AcquireOp(3, HANDLE, 9, true)], TWO_WAIT,
            CloseOp(2, HANDLE, 10, true), SecondClosed());
  }

  /** When ann then releases the lock, bob, who has no handle left, is told that he holds it. */
  lemma ClosedWaiterHolds()
    ensures Get(SecondClosed().tables.bySession, 2) == []
    ensures var r := Release(AsWritten, SecondClosed(), 1, HANDLE, 11, true);
            r.end == Returned && Reply(2, 6, Value(true)) in r.out && "/f" in GetSet(r.srv.held, "bob")
  {
    SecondLeaves();
    SecondHasNone();
    SecondIsListed();
    Hanging.ClosedWaiterIsGranted(TWO_WAIT, 2, HANDLE, 10, true, 1, HANDLE, 11);
  }

  // A waiter that has closed its handle and is then lost leaves its entry behind.

  /** What is left when bob is lost as well. */
  function SecondGone(): Srv {
    SecondClosed().(clients := SecondClosed().clients - {2})
  }

  lemma NoHandlesNothingClosed(v: Variant, srv: Srv, s: Session, up: bool)
    requires Get(srv.tables.bySession, s) == []
    ensures Step(v, srv, DisconnectOp(s, up)).end == Returned
    ensures Step(v, srv, DisconnectOp(s, up)).srv == srv.(clients := srv.clients - {s})
  {}

  lemma SecondClosedIs()
    ensures var srv := SecondClosed();
            && srv.clients == TWO_WAIT.clients && srv.held == TWO_WAIT.held && srv.db == TWO_WAIT.db
            && srv.queues == TWO_WAIT.queues && srv.tables == Drop(TWO_WAIT.tables, 2, Fd(0, HANDLE))
  {
    SecondLeaves();
    SecondIsListed();
    Hanging.ClosedWaiterStays(TWO_WAIT, 2, HANDLE, 10, true);
    ForgetShape(AsWritten, TWO_WAIT, 2, Fd(0, HANDLE));
  }

  lemma FirstIsListed()
    ensures Get(Drop(TWO_WAIT.tables, 2, Fd(0, HANDLE)).bySession, 1) == [Fd(1, HANDLE)]
  {
    assert Get(TWO_WAIT.tables.bySession, 1) == [Fd(1, HANDLE)];
  }

  /** A run in which bob, who waits, closes the file and is lost. */
  lemma SecondGoneReached()
    ensures Leads(AsWritten, START, Setup(false) + THIRD_COMES + [AcquireOp(3, HANDLE, 9, true)]
                                    + [CloseOp(2, HANDLE, 10, true)] + [DisconnectOp(2, true)], SecondGone())
  {
    ClosedWaiterReached();
    assert Get(SecondClosed().tables.bySession, 2) == [] by { ClosedWaiterHolds(); }
    NoHandlesNothingClosed(AsWritten, SecondClosed(), 2, true);
    LeadsTo(AsWritten, START, Setup(false) + THIRD_COMES + [AcquireOp(3, HANDLE, 9, true)]
                              + [CloseOp(2, HANDLE, 10, true)], SecondClosed(), DisconnectOp(2, true), SecondGone());
  }

  lemma SecondGoneIs()
    ensures var srv := SecondGone();
            && Known(srv, 1) && !HeadKnown(srv, "/f") && Get(srv.tables.bySession, 1) == [Fd(1, HANDLE)]
            && Hanging.Frees(srv, 1, HANDLE, true)
  {
    SecondClosedIs();
    FirstIsListed();
    assert SecondGone().queues["/f"][0] == Waiter(2, 6);
  }

  /** The loss of ann, who holds the lock, then stops the server. */
  lemma GoneWaiterReached()
    ensures RunOps(AsWritten, START, Setup(false) + THIRD_COMES + [AcquireOp(3, HANDLE, 9, true)]
                                     + [CloseOp(2, HANDLE, 10, true)] + [DisconnectOp(2, true)]
                                     + [DisconnectOp(1, true)]).end == Aborted
  {
    SecondGoneReached();
    GoneWaiterStops();
    EndsAs(AsWritten, START, Setup(false) + THIRD_COMES + [AcquireOp(3, HANDLE, 9, true)]
                             + [CloseOp(2, HANDLE, 10, true)] + [DisconnectOp(2, true)],
           SecondGone(), DisconnectOp(1, true), Aborted);
  }

  lemma GoneWaiterStops()
    ensures Step(AsWritten, SecondGone(), DisconnectOp(1, true)).end == Aborted
  {
    SecondGoneIs();
    Losses.LostHolderAborts(SecondGone(), 1);
  }

  // ---------------------------------------------------------------- a delete while somebody waits

  const HANDED_ON := TWO_WAIT.(db := Db(map["/f" := NewNode(1, false).(lockGen := 1)], 1),
                               queues := map["/f" := [Waiter(3, 9)]], held := map["bob" := {"/f"}])

  lemma FirstHandsOn()
    ensures Step(AsWritten, TWO_WAIT, ReleaseOp(1, HANDLE, 10, true)).end == Returned
    ensures Step(AsWritten, TWO_WAIT, ReleaseOp(1, HANDLE, 10, true)).srv == HANDED_ON
  {
    var srv := TWO_WAIT;
    assert Find(srv.tables, 1, HANDLE).0 == srv.tables;
    assert Unlocked(srv.db, "/f").fs == HANDED_ON.db.fs;
    assert srv.queues["/f"][1..] == [Waiter(3, 9)];
    var freed: map<Client, set<string>> := PutSet(srv.held, "ann", GetSet(srv.held, "ann") - {"/f"});
    assert GetSet(srv.held, "ann") - {"/f"} == {} && freed == map[];
    assert GetSet(freed, "bob") + {"/f"} == {"/f"};
  }

  lemma DroppedUnanswered()
    ensures var r := Step(AsWritten, HANDED_ON, DeleteOp(1, HANDLE, 11, true));
            && r.end == Returned && "/f" !in r.srv.queues && r.moves == []
            && forall o :: o in r.out && o.Reply? ==> o.session == 1
  {
    assert ParentName("/f") == "/";
    Hanging.DeleteDropsWaitersIff(HANDED_ON, 1, HANDLE, 11, true);
  }

  /** Bob and cyd wait. Ann releases, so bob has the lock and the store does not know; ann
      deletes the file, and cyd, who still waits, is dropped and never answered. */
  lemma DroppedWaiterReached()
    ensures Leads(AsWritten, START, Setup(false) + THIRD_COMES + [AcquireOp(3, HANDLE, 9, true)]
                                    + [ReleaseOp(1, HANDLE, 10, true)], HANDED_ON)
    ensures Get(HANDED_ON.queues, "/f") == [Waiter(3, 9)]
    ensures var r := Step(AsWritten, HANDED_ON, DeleteOp(1, HANDLE, 11, true));
            && r.end == Returned && "/f" !in r.srv.queues && r.moves == []
            && forall o :: o in r.out && o.Reply? ==> o.session == 1
  {
    TwoWaitReached();
    FirstHandsOn();
    LeadsTo(AsWritten, START, Setup(false) + THIRD_COMES + [AcquireOp(3, HANDLE, 9, true)], TWO_WAIT,
            ReleaseOp(1, HANDLE, 10, true), HANDED_ON);
    DroppedUnanswered();
  }

  const ONE_LOST := OneWaits(true).(clients := map[1 := "ann"])

  /** A close of an ephemeral node that cannot be deleted leaves everything as it was. */
  lemma FailedDeleteIsNothing(v: Variant, srv: Srv, s: Session, fd: Fd, up: bool)
    requires Known(srv, s) && IsEphemeral(srv, s, fd.h.file) && Find(srv.tables, s, fd.h) == (srv.tables, fd)
    requires fd.h.file !in GetSet(srv.held, srv.clients[s]) && !CanDelete(srv.db, fd.h.file, fd.h.inst)
    ensures var r := FileClose(v, srv, s, fd.h, NO_REPLY, up);
            r.end == Returned && r.srv == srv
  {
    assert Found(srv, s, fd.h) == srv;
    assert Reclaim(v, srv, s, fd.h, up) == Done(srv, []);
    assert FileDelete(srv, s, fd.h, NO_REPLY, up).srv == srv;
  }

  lemma IdleCloseAll(v: Variant, srv: Srv, s: Session, fd: Fd, up: bool)
    requires var r := FileClose(v, srv, s, fd.h, NO_REPLY, up); r.end == Returned && r.srv == srv
    ensures CloseAll(v, srv, s, [fd], up).end == Returned && CloseAll(v, srv, s, [fd], up).srv == srv
  {
    assert [fd][1..] == [];
    assert CloseAll(v, srv, s, [], up) == Done(srv, []);
  }

  lemma IdleCloseThenGone(v: Variant, srv: Srv, s: Session, fd: Fd, up: bool)
    requires Get(srv.tables.bySession, s) == [fd]
    requires var r := FileClose(v, srv, s, fd.h, NO_REPLY, up); r.end == Returned && r.srv == srv
    ensures Step(v, srv, DisconnectOp(s, up)).end == Returned
    ensures Step(v, srv, DisconnectOp(s, up)).srv == srv.(clients := srv.clients - {s})
  {
    IdleCloseAll(v, srv, s, fd, up);
  }

  /** Bob waits for the lock of his own ephemeral node and is lost: the node cannot be deleted,
      and his entry stays. */
  lemma LostWaiterStays(v: Variant)
    ensures Step(v, OneWaits(true), DisconnectOp(2, true)).end == Returned
    ensures Step(v, OneWaits(true), DisconnectOp(2, true)).srv == ONE_LOST
  {
    BothKnown(true);
    FailedDeleteIsNothing(v, OneWaits(true), 2, Fd(0, HANDLE), true);
    IdleCloseThenGone(v, OneWaits(true), 2, Fd(0, HANDLE), true);
    assert OneWaits(true).clients - {2} == ONE_LOST.clients;
  }

  lemma LostWaiterStops(v: Variant)
    ensures Step(v, ONE_LOST, ReleaseOp(1, HANDLE, 7, true)).end == Aborted
  {
    Hanging.ReleaseReturnsIff(v, ONE_LOST, 1, HANDLE, 7, true);
  }

  /** The loss is served to its end. */
  lemma OneLostReached(v: Variant)
    ensures Leads(v, START, Setup(true) + [DisconnectOp(2, true)], ONE_LOST)
  {
    OneWaitsReached(v, true);
    LostWaiterStays(v);
    LeadsTo(v, START, Setup(true), OneWaits(true), DisconnectOp(2, true), ONE_LOST);
  }

  /** Ann's release then stops the server, even with the repairs: the next in line is nobody. */
  lemma LostWaiterReached(v: Variant)
    ensures RunOps(v, START, Setup(true) + [DisconnectOp(2, true)] + [ReleaseOp(1, HANDLE, 7, true)]).end == Aborted
  {
    OneLostReached(v);
    LostWaiterStops(v);
    EndsAs(v, START, Setup(true) + [DisconnectOp(2, true)], ONE_LOST, ReleaseOp(1, HANDLE, 7, true), Aborted);
  }

  const LATER_HANDLE := FileHandler(Magic("/f", 2, false), 0, "/f", 2, false)

  /** The file is deleted and created again. */
  function Recreate(): seq<Op> {
    [DeleteOp(1, HANDLE, 5, true), OpenOp(1, "/f", CREATE_FILE, 0, 6, true)]
  }

  /** Bob acquires through his old handle and is left waiting. Ann's acquire through the new
      handle then stops the server, even with the repairs. */
  lemma StaleAcquireReached(v: Variant)
    ensures RunOps(v, START, Setup(false)[..4] + Recreate() + [AcquireOp(2, HANDLE, 7, true)]).end == Returned
    ensures RunOps(v, START, Setup(false)[..4] + Recreate() + [AcquireOp(2, HANDLE, 7, true)]
                             + [AcquireOp(1, LATER_HANDLE, 8, true)]).end == Aborted
  {
    var before := Setup(false)[..4] + Recreate();
    var stale, good := AcquireOp(2, HANDLE, 7, true), AcquireOp(1, LATER_HANDLE, 8, true);
    var srv := Recreated(v, false);
    RecreatedReached(v, false);
    StaleAcquireAborts(srv, 2, 1, HANDLE, LATER_HANDLE, 7, 8);
    EndsWith(v, START, before, srv, stale);
    EndsWith(v, START, before + [stale], Step(v, srv, stale).srv, good);
  }

  function Recreated(v: Variant, ephemeral: bool): Srv {
    RunOps(v, BothOpen(ephemeral), Recreate()).srv
  }

  /** The second file is plain, and can be deleted; the mark of an ephemeral first one is still there. */
  ghost predicate IsRecreated(srv: Srv, ephemeral: bool) {
    && srv.clients == TWO_CLIENTS.clients && srv.held == map[]
    && srv.eph == BothOpen(ephemeral).eph
    && CanDelete(srv.db, "/f", 2) && ParentPresent(srv.db, "/f")
  }

  lemma RecreatedReached(v: Variant, ephemeral: bool)
    ensures Leads(v, START, Setup(ephemeral)[..4] + Recreate(), Recreated(v, ephemeral))
    ensures IsRecreated(Recreated(v, ephemeral), ephemeral)
  {
    var ops := Recreate();
    var deleted := Step(v, BothOpen(ephemeral), ops[0]).srv;
    IsDeleted(v, ephemeral);
    IsCreated(v, deleted, ephemeral);
    LeadsOne(v, BothOpen(ephemeral), ops[0]);
    LeadsOne(v, deleted, ops[1]);
    LeadsOn(v, BothOpen(ephemeral), [ops[0]], deleted, [ops[1]]);
    assert ops == [ops[0]] + [ops[1]];
    BothOpenReached(v, ephemeral);
    LeadsOn(v, START, Setup(ephemeral)[..4], BothOpen(ephemeral), ops);
  }

  lemma IsDeleted(v: Variant, ephemeral: bool)
    ensures var r, srv := Step(v, BothOpen(ephemeral), Recreate()[0]), BothOpen(ephemeral);
            && r.end == Returned && r.srv.clients == srv.clients && r.srv.held == srv.held && r.srv.eph == srv.eph
            && r.srv.db.fs == map[] && r.srv.db.maxInst == 1
  {
    BothKnown(ephemeral);
    assert ParentName("/f") == "/";
  }

  lemma IsCreated(v: Variant, srv: Srv, ephemeral: bool)
    requires srv.clients == TWO_CLIENTS.clients && srv.held == map[] && srv.eph == BothOpen(ephemeral).eph
    requires srv.db.fs == map[] && srv.db.maxInst == 1
    ensures Step(v, srv, Recreate()[1]).end == Returned && IsRecreated(Step(v, srv, Recreate()[1]).srv, ephemeral)
  {
    assert ParentName("/f") == "/";
  }

  lemma PlainOpenKeeps(v: Variant, srv: Srv)
    requires IsRecreated(srv, true)
    ensures Step(v, srv, OpenOp(2, "/f", 0, 0, 7, true)).end == Returned
    ensures IsRecreated(Step(v, srv, OpenOp(2, "/f", 0, 0, 7, true)).srv, true)
  {}

  lemma MarkedIsDeleted(v: Variant, srv: Srv)
    requires IsRecreated(srv, true)
    ensures "/f" !in Step(v, srv, CloseOp(2, LATER_HANDLE, 8, true)).srv.db.fs
  {
    Ephemerals.CloseDeletesEphemeral(v, srv, 2, LATER_HANDLE, 8);
  }

  /** Bob created an ephemeral file and ann deleted it; the server still has bob's mark. Ann
      creates a plain file of that name. Bob opens and closes it, and ann's file is gone. */
  lemma PlainFileDeletedReached(v: Variant)
    ensures "/f" in Recreated(v, true).db.fs
    ensures "/f" !in RunOps(v, START, Setup(true)[..4] + Recreate() + [OpenOp(2, "/f", 0, 0, 7, true)]
                                     + [CloseOp(2, LATER_HANDLE, 8, true)]).srv.db.fs
  {
    var before, open := Setup(true)[..4] + Recreate(), OpenOp(2, "/f", 0, 0, 7, true);
    var srv := Recreated(v, true);
    RecreatedReached(v, true);
    PlainOpenKeeps(v, srv);
    MarkedIsDeleted(v, Step(v, srv, open).srv);
    LeadsTo(v, START, before, srv, open, Step(v, srv, open).srv);
    EndsWith(v, START, before + [open], Step(v, srv, open).srv, CloseOp(2, LATER_HANDLE, 8, true));
  }

  // ---------------------------------------------------------------- a node that goes under its holder

  /** As written, the close of a session that was handed the lock of its ephemeral node gives up
      and deletes the node, whoever owns it by then. */
  lemma HeldNodeGoes(srv: Srv, s: Session, h: FileHandler, xid: Xid)
    requires Known(srv, s) && IsEphemeral(srv, s, h.file) && h.file in GetSet(srv.held, srv.clients[s])
    requires Live(srv.db, h.file, h.inst) && !srv.db.fs[h.file].isDir && ParentPresent(srv.db, h.file)
    requires h.file !in srv.queues
    ensures var r := Step(AsWritten, srv, CloseOp(s, h, xid, true));
            && r.end == Returned && h.file !in r.srv.db.fs
            && forall c :: c != srv.clients[s] ==> GetSet(r.srv.held, c) == GetSet(srv.held, c)
  {
    var first, fd := Reclaim(AsWritten, Found(srv, s, h), s, h, true), Find(srv.tables, s, h).1;
    assert first.end == Returned by { Hanging.ReclaimReturnsIff(AsWritten, srv, s, h, true); }
    assert Known(first.srv, s) && IsEphemeral(first.srv, s, h.file) && first.srv.clients == srv.clients by {
      LiveHandles.ReclaimTables(AsWritten, srv, s, h, true);
    }
    ReclaimedAlone(srv, s, h);
    LetGoIsServed(first.srv, s, fd, xid);
    ServedInTwo(srv, s, h, xid);
    Ephemerals.CloseRemovesIff(AsWritten, srv, s, h, xid, true, h.file);
  }

  lemma LetGoIsServed(srv: Srv, s: Session, fd: Fd, xid: Xid)
    requires Known(srv, s) && IsEphemeral(srv, s, fd.h.file) && ParentPresent(srv.db, fd.h.file)
    ensures var r := LetGo(AsWritten, srv, s, fd, xid, true);
            r.end == Returned && r.srv.held == srv.held
  {
    DeleteShape(srv, s, fd.h, NO_REPLY, true);
    assert FileDelete(srv, s, fd.h, NO_REPLY, true).end == Returned;
  }

  lemma ServedInTwo(srv: Srv, s: Session, h: FileHandler, xid: Xid)
    requires Known(srv, s)
    ensures var first := Reclaim(AsWritten, Found(srv, s, h), s, h, true);
            var r := Step(AsWritten, srv, CloseOp(s, h, xid, true));
            var second := LetGo(AsWritten, first.srv, s, Find(srv.tables, s, h).1, xid, true);
            first.end == Returned && second.end == Returned ==> r.end == Returned && r.srv == second.srv
  {}

  lemma ReclaimedAlone(srv: Srv, s: Session, h: FileHandler)
    requires Known(srv, s) && h.file in GetSet(srv.held, srv.clients[s]) && h.file !in srv.queues
    requires Live(srv.db, h.file, h.inst) && ParentPresent(srv.db, h.file)
    ensures var mid := Reclaim(AsWritten, Found(srv, s, h), s, h, true).srv;
            ParentPresent(mid.db, h.file)
            && forall c :: c != srv.clients[s] ==> GetSet(mid.held, c) == GetSet(srv.held, c)
  {}

  const HANDED := OneWaits(true).(db := Db(map["/f" := NewNode(1, false).(lockGen := 1)], 1),
                                  queues := map[], held := map["bob" := {"/f"}])
  const BOTH_TOLD := HANDED.(db := Db(map["/f" := NewNode(1, false).(owner := "ann", lockGen := 2)], 1),
                             held := map["bob" := {"/f"}, "ann" := {"/f"}])

  lemma FirstHandsOver()
    ensures Step(AsWritten, OneWaits(true), ReleaseOp(1, HANDLE, 7, true)).end == Returned
    ensures Step(AsWritten, OneWaits(true), ReleaseOp(1, HANDLE, 7, true)).srv == HANDED
  {
    BothKnown(true);
    var srv := OneWaits(true);
    assert Unlocked(srv.db, "/f").fs == HANDED.db.fs;
    assert srv.queues["/f"][1..] == [] && Put(srv.queues, "/f", []) == map[];
    var freed: map<Client, set<string>> := PutSet(srv.held, "ann", GetSet(srv.held, "ann") - {"/f"});
    assert GetSet(srv.held, "ann") - {"/f"} == {} && freed == map[];
    assert GetSet(freed, "bob") + {"/f"} == {"/f"};
  }

  lemma FirstIsToldAgain()
    ensures Step(AsWritten, HANDED, AcquireOp(1, HANDLE, 8, true)).end == Returned
    ensures Step(AsWritten, HANDED, AcquireOp(1, HANDLE, 8, true)).srv == BOTH_TOLD
  {
    BothKnown(true);
    assert Locked(HANDED.db, "/f", "ann").fs == BOTH_TOLD.db.fs;
    assert GetSet(HANDED.held, "ann") + {"/f"} == {"/f"};
  }

  lemma BothToldReached()
    ensures Leads(AsWritten, START, Setup(true) + [ReleaseOp(1, HANDLE, 7, true)] + [AcquireOp(1, HANDLE, 8, true)],
                  BOTH_TOLD)
  {
    OneWaitsReached(AsWritten, true);
    FirstHandsOver();
    LeadsTo(AsWritten, START, Setup(true), OneWaits(true), ReleaseOp(1, HANDLE, 7, true), HANDED);
    FirstIsToldAgain();
    LeadsTo(AsWritten, START, Setup(true) + [ReleaseOp(1, HANDLE, 7, true)], HANDED, AcquireOp(1, HANDLE, 8, true),
            BOTH_TOLD);
  }

  lemma GoesUnderHolder()
    ensures var r := Step(AsWritten, BOTH_TOLD, CloseOp(2, HANDLE, 9, true));
            r.end == Returned && "/f" !in r.srv.db.fs && "/f" in GetSet(r.srv.held, "ann")
  {
    assert ParentName("/f") == "/";
    HeldNodeGoes(BOTH_TOLD, 2, HANDLE, 9);
  }

  /** Bob's ephemeral file: ann holds its lock and gives it up to bob, then takes it again and is
      its stored owner. Bob closes, and the file goes while ann holds it. */
  lemma HolderLosesNodeReached()
    ensures Owner(BOTH_TOLD.db, "/f") == "ann"
    ensures var r := RunOps(AsWritten, START, Setup(true) + [ReleaseOp(1, HANDLE, 7, true)]
                                              + [AcquireOp(1, HANDLE, 8, true)] + [CloseOp(2, HANDLE, 9, true)]);
            r.end == Returned && "/f" !in r.srv.db.fs && "/f" in GetSet(r.srv.held, "ann")
  {
    BothToldReached();
    GoesUnderHolder();
    EndsWith(AsWritten, START, Setup(true) + [ReleaseOp(1, HANDLE, 7, true)] + [AcquireOp(1, HANDLE, 8, true)],
             BOTH_TOLD, CloseOp(2, HANDLE, 9, true));
  }

  /** One read by a session that has not introduced itself, and its loss: enough to stop the
      server. */
  lemma LostStrangerReached(v: Variant)
    ensures RunOps(v, START, [ReadOp(9, HANDLE, 1, true)] + [DisconnectOp(9, true)]).end == Aborted
  {
    var read := Step(v, START, ReadOp(9, HANDLE, 1, true));
    LeadsOne(v, START, ReadOp(9, HANDLE, 1, true));
    assert Fd(0, HANDLE) in Get(read.srv.tables.bySession, 9);
    LostStrangerAborts(v, read.srv, 9, true);
    EndsWith(v, START, [ReadOp(9, HANDLE, 1, true)], read.srv, DisconnectOp(9, true));
  }

  // ---------------------------------------------------------------- writing to a directory

  const ORPHANING := [Create("/d", true), Create("/d/f", false), Update("/d", 1, ""), Delete("/d", 1)]

  /** Overwriting a directory's content: the directory can then be deleted before its child,
      and deleting the child fails the assertion that its parent exists. */
  lemma OverwrittenDirectoryAborts()
    ensures Apply(Run(EMPTY_DB, ORPHANING), Delete("/d/f", 2)).1 == Aborts
    ensures !HarmlessRun(EMPTY_DB, ORPHANING)
  {
    assert ParentName("/d") == "/";
    assert "/d/f"[2] == '/';
    assert "/d/f"[..2] == "/d";
    assert ParentName("/d/f") == "/d";
    var d1 := Apply(EMPTY_DB, ORPHANING[0]).0;
    var d2 := Apply(d1, ORPHANING[1]).0;
    var d3 := Apply(d2, ORPHANING[2]).0;
    var d4 := Apply(d3, ORPHANING[3]).0;
    assert d2.fs["/d"].content == "|/d/f";
    assert "/d/f" in d4.fs && "/d" !in d4.fs;
    assert ORPHANING[1..][1..] == ORPHANING[2..] && ORPHANING[2..][1..] == [ORPHANING[3]];
    assert Run(d3, [ORPHANING[3]]) == d4;
    assert Run(EMPTY_DB, ORPHANING) == d4;
  }
}
