/**
 Who hears what: a session that is registered for events of a file is told by exactly those
 requests that change the file's lock or content, whoever makes them.
 */
module Events {
  import opened Text
  import opened Database
  import opened StoreEffects
  import opened Handles
  import opened Service
  import opened Effects
  import opened Requests
  import opened Disconnecting
  import LiveHandles
  import opened Hanging
  import opened Clients
  import opened Ephemerals

  // ---------------------------------------------------------------- what a close tells

  /** What the first half of a close tells: the next in line, then the lock listeners. */
  function FreedTells(srv: Srv, s: Session, h: FileHandler, up: bool): seq<Out>
    requires Known(srv, s)
  {
    if Frees(srv, s, h, up) then HeadIsTold(srv, h.file) + News(OfLocks, Get(srv.lockEv, h.file), h.file) else []
  }

  /** The close deletes the node: it is ephemeral for the client and can go. */
  predicate CloseDeletes(v: Variant, srv: Srv, s: Session, h: FileHandler, up: bool)
    requires Known(srv, s)
  {
    && up && IsEphemeral(srv, s, h.file) && Live(srv.db, h.file, h.inst) && CanGo(v, srv, srv.clients[s], h.file)
  }

  function GoneTells(v: Variant, srv: Srv, s: Session, h: FileHandler, up: bool): seq<Out>
    requires Known(srv, s)
  {
    if CloseDeletes(v, srv, s, h, up) then News(OfContent, Get(srv.contentEv, h.file), h.file) + NewsAbove(srv, h.file)
    else []
  }

  lemma ReclaimTells(v: Variant, srv: Srv, s: Session, h: FileHandler, up: bool)
    requires Known(srv, s) && Reclaim(v, Found(srv, s, h), s, h, up).end == Returned
    ensures Reclaim(v, Found(srv, s, h), s, h, up).out == FreedTells(srv, s, h, up)
  {
    var found := Found(srv, s, h);
    ReleaseAnswers(v, found, s, h, NO_REPLY, up);
  }

  lemma NothingFirst(a: seq<Out>, b: seq<Out>)
    ensures [] + a + b == a + b
  {}

  /** A delete on behalf of a close: who is told. */
  lemma InnerDeleteTells(mid: Srv, s: Session, h: FileHandler, up: bool)
    requires Known(mid, s) && FileDelete(mid, s, h, NO_REPLY, up).end == Returned
    ensures FileDelete(mid, s, h, NO_REPLY, up).out
         == if up && CanDelete(mid.db, h.file, h.inst)
            then News(OfContent, Get(mid.contentEv, h.file), h.file) + NewsAbove(mid, h.file) else []
  {
    assert Send(s, NO_REPLY, Value(false)) == [] && Send(s, NO_REPLY, Error(PAXOS_ERROR)) == [];
    if up && IsDeletable(mid.db, h) {
      assert HasRoom(mid.db.fs, h.file) by { DeleteAnswers(mid, s, h, NO_REPLY, up); }
      DeleteTells(mid, s, h, NO_REPLY);
      NothingFirst(News(OfContent, Get(mid.contentEv, h.file), h.file), NewsAbove(mid, h.file));
    } else {
      DeleteAnswers(mid, s, h, NO_REPLY, up);
    }
  }

  lemma LetGoOut(v: Variant, mid: Srv, s: Session, fd: Fd, xid: Xid, up: bool)
    requires Known(mid, s) && LetGo(v, mid, s, fd, xid, up).end == Returned
    ensures IsEphemeral(mid, s, fd.h.file) ==> FileDelete(mid, s, fd.h, NO_REPLY, up).end == Returned
    ensures LetGo(v, mid, s, fd, xid, up).out
         == (if IsEphemeral(mid, s, fd.h.file) then FileDelete(mid, s, fd.h, NO_REPLY, up).out else [])
            + Send(s, xid, Value(true))
  {
    if !IsEphemeral(mid, s, fd.h.file) {
      assert Forget(v, mid, s, fd).out == [];
    }
  }

  lemma LetGoTells(v: Variant, mid: Srv, s: Session, fd: Fd, xid: Xid, up: bool)
    requires Known(mid, s) && LetGo(v, mid, s, fd, xid, up).end == Returned
    ensures LetGo(v, mid, s, fd, xid, up).out
         == (if up && IsEphemeral(mid, s, fd.h.file) && CanDelete(mid.db, fd.h.file, fd.h.inst)
             then News(OfContent, Get(mid.contentEv, fd.h.file), fd.h.file) + NewsAbove(mid, fd.h.file) else [])
            + Send(s, xid, Value(true))
  {
    LetGoOut(v, mid, s, fd, xid, up);
    if IsEphemeral(mid, s, fd.h.file) {
      InnerDeleteTells(mid, s, fd.h, up);
    }
  }

  /** A close that is served: if it gives up the lock, the next in line and the lock listeners are
      told; if it deletes the node, the content listeners of the node and of the directory above;
      then the session is answered true. */
  lemma CloseTells(v: Variant, srv: Srv, s: Session, h: FileHandler, xid: Xid, up: bool)
    requires Known(srv, s) && FileClose(v, srv, s, h, xid, up).end == Returned
    ensures FileClose(v, srv, s, h, xid, up).out
         == FreedTells(srv, s, h, up) + (GoneTells(v, srv, s, h, up) + Send(s, xid, Value(true)))
  {
    var first, fd := Reclaim(v, Found(srv, s, h), s, h, up), Find(srv.tables, s, h).1;
    var mid := first.srv;
    assert first.end == Returned && LetGo(v, mid, s, fd, xid, up).end == Returned
           && FileClose(v, srv, s, h, xid, up).out == first.out + LetGo(v, mid, s, fd, xid, up).out by {
      LiveHandles.CloseIsTwoHalves(v, srv, s, h, xid, up);
    }
    ReclaimTells(v, srv, s, h, up);
    assert Known(mid, s) && IsEphemeral(mid, s, h.file) == IsEphemeral(srv, s, h.file)
           && mid.contentEv == srv.contentEv by {
      LiveHandles.ReclaimTables(v, srv, s, h, up);
    }
    LetGoTells(v, mid, s, fd, xid, up);
    if up {
      DeletableBetween(v, srv, s, h);
    }
  }

  lemma DeletableBetween(v: Variant, srv: Srv, s: Session, h: FileHandler)
    requires Known(srv, s) && Reclaim(v, Found(srv, s, h), s, h, true).end == Returned
    ensures CanDelete(Reclaim(v, Found(srv, s, h), s, h, true).srv.db, h.file, h.inst)
       <==> Live(srv.db, h.file, h.inst) && CanGo(v, srv, srv.clients[s], h.file)
  {
    if Live(srv.db, h.file, h.inst) {
      ReclaimedNode(v, srv, s, h);
    } else {
      LiveHandles.ReclaimStoreAlike(v, Found(srv, s, h), s, h, true);
    }
  }

  // ---------------------------------------------------------------- exactly who hears of what

  /** The lock of the file is granted to who asks now, or given up. */
  predicate MovesLock(srv: Srv, op: Op, f: string) {
    match op
    case AcquireOp(_, h, _, up) => up && h.file == f && IsFree(srv.db, h)
    case TryAcquireOp(_, h, _, up) => up && h.file == f && IsFree(srv.db, h)
    case ReleaseOp(_, h, _, up) => up && h.file == f && IsNode(srv.db, h)
    case CloseOp(s, h, _, up) => Known(srv, s) && h.file == f && Frees(srv, s, h, up)
    case _ => false
  }

  /** The request deletes the node of its handle. */
  predicate Deletes(v: Variant, srv: Srv, op: Op) {
    match op
    case DeleteOp(_, h, _, up) => up && IsDeletable(srv.db, h)
    case CloseOp(s, h, _, up) => Known(srv, s) && CloseDeletes(v, srv, s, h, up)
    case _ => false
  }

  /** The content of the file changes: it is written, it is deleted, or, for a directory, a child
      of it is opened, which includes created, or deleted. */
  predicate ChangesContent(v: Variant, srv: Srv, op: Op, f: string) {
    match op
    case WriteOp(_, h, _, _, up) => up && h.file == f && IsNode(srv.db, h)
    case OpenOp(_, file, mode, _, _, up) =>
      up && !Malformed(file, mode) && CanOpen(srv.db, file, mode) && f != "/" && ParentName(file) == f
    case DeleteOp(_, h, _, _) => Deletes(v, srv, op) && (h.file == f || (f != "/" && ParentName(h.file) == f))
    case CloseOp(_, h, _, _) => Deletes(v, srv, op) && (h.file == f || (f != "/" && ParentName(h.file) == f))
    case _ => false
  }

  predicate Concerns(topic: Topic, v: Variant, srv: Srv, op: Op, f: string) {
    if topic.OfLocks? then MovesLock(srv, op, f) else ChangesContent(v, srv, op, f)
  }

  lemma AboveReach(srv: Srv, file: string, other: Topic, t: Session, f: string)
    ensures Event(other, t, f) in NewsAbove(srv, file)
       <==> other.OfContent? && f != "/" && ParentName(file) == f && t in Get(srv.contentEv, f)
  {
    NewsReach(OfContent, Get(srv.contentEv, ParentName(file)), ParentName(file), other, t, f);
  }

  lemma FileReach(srv: Srv, topic: Topic, file: string, other: Topic, t: Session, f: string)
    ensures Event(other, t, f) in News(topic, Get(Listeners(srv, topic), file), file)
       <==> other == topic && f == file && Subscribed(srv, topic, t, f)
  {
    NewsReach(topic, Get(Listeners(srv, topic), file), file, other, t, f);
  }

  lemma OpenHeardIff(v: Variant, srv: Srv, op: Op, topic: Topic, t: Session, f: string)
    requires op.OpenOp? && Step(v, srv, op).end == Returned
    ensures Event(topic, t, f) in Step(v, srv, op).out
       <==> Concerns(topic, v, srv, op, f) && Subscribed(srv, topic, t, f)
  {
    OpenAnswers(srv, op.s, op.file, op.mode, op.masterSeq, op.xid, op.up);
    if op.up && !Malformed(op.file, op.mode) && CanOpen(srv.db, op.file, op.mode) {
      OpenEffect(srv, op.s, op.file, op.mode, op.masterSeq, op.xid);
      AboveReach(srv, op.file, topic, t, f);
    }
  }

  lemma AcquireHeardIff(v: Variant, srv: Srv, op: Op, topic: Topic, t: Session, f: string)
    requires op.AcquireOp? && Step(v, srv, op).end == Returned
    ensures Event(topic, t, f) in Step(v, srv, op).out
       <==> Concerns(topic, v, srv, op, f) && Subscribed(srv, topic, t, f)
  {
    FileReach(srv, OfLocks, op.h.file, topic, t, f);
    AcquireAnswers(srv, op.s, op.h, op.xid, op.up);
  }

  lemma TryAcquireHeardIff(v: Variant, srv: Srv, op: Op, topic: Topic, t: Session, f: string)
    requires op.TryAcquireOp? && Step(v, srv, op).end == Returned
    ensures Event(topic, t, f) in Step(v, srv, op).out
       <==> Concerns(topic, v, srv, op, f) && Subscribed(srv, topic, t, f)
  {
    FileReach(srv, OfLocks, op.h.file, topic, t, f);
    TryAcquireAnswers(srv, op.s, op.h, op.xid, op.up);
  }

  lemma ReleaseHeardIff(v: Variant, srv: Srv, op: Op, topic: Topic, t: Session, f: string)
    requires op.ReleaseOp? && Step(v, srv, op).end == Returned
    ensures Event(topic, t, f) in Step(v, srv, op).out
       <==> Concerns(topic, v, srv, op, f) && Subscribed(srv, topic, t, f)
  {
    var told := Send(op.s, op.xid, Value(true)) + HeadIsTold(srv, op.h.file);
    assert Event(topic, t, f) !in told;
    FileReach(srv, OfLocks, op.h.file, topic, t, f);
    ReleaseAnswers(v, srv, op.s, op.h, op.xid, op.up);
    if op.up && IsNode(srv.db, op.h) {
      assert Step(v, srv, op).out == told + News(OfLocks, Get(srv.lockEv, op.h.file), op.h.file);
    }
  }

  lemma WriteHeardIff(v: Variant, srv: Srv, op: Op, topic: Topic, t: Session, f: string)
    requires op.WriteOp?
    ensures Event(topic, t, f) in Step(v, srv, op).out
       <==> Concerns(topic, v, srv, op, f) && Subscribed(srv, topic, t, f)
  {
    FileReach(srv, OfContent, op.h.file, topic, t, f);
    WriteAnswers(srv, op.s, op.h, op.content, op.xid, op.up);
  }

  lemma DeleteHeardIff(v: Variant, srv: Srv, op: Op, topic: Topic, t: Session, f: string)
    requires op.DeleteOp? && Step(v, srv, op).end == Returned
    ensures Event(topic, t, f) in Step(v, srv, op).out
       <==> Concerns(topic, v, srv, op, f) && Subscribed(srv, topic, t, f)
  {
    DeleteAnswers(srv, op.s, op.h, op.xid, op.up);
    FileReach(srv, OfContent, op.h.file, topic, t, f);
    AboveReach(srv, op.h.file, topic, t, f);
    if op.up && IsDeletable(srv.db, op.h) {
      DeleteTells(srv, op.s, op.h, op.xid);
    }
  }

  lemma FreedReach(srv: Srv, s: Session, h: FileHandler, up: bool, topic: Topic, t: Session, f: string)
    requires Known(srv, s)
    ensures Event(topic, t, f) in FreedTells(srv, s, h, up)
       <==> topic.OfLocks? && h.file == f && Frees(srv, s, h, up) && Subscribed(srv, topic, t, f)
  {
    FileReach(srv, OfLocks, h.file, topic, t, f);
  }

  lemma GoneReach(v: Variant, srv: Srv, s: Session, h: FileHandler, up: bool, topic: Topic, t: Session, f: string)
    requires Known(srv, s)
    ensures Event(topic, t, f) in GoneTells(v, srv, s, h, up)
       <==> topic.OfContent? && CloseDeletes(v, srv, s, h, up) && (h.file == f || (f != "/" && ParentName(h.file) == f))
            && Subscribed(srv, topic, t, f)
  {
    FileReach(srv, OfContent, h.file, topic, t, f);
    AboveReach(srv, h.file, topic, t, f);
  }

  lemma CloseHeardIff(v: Variant, srv: Srv, op: Op, topic: Topic, t: Session, f: string)
    requires op.CloseOp? && Step(v, srv, op).end == Returned
    ensures Event(topic, t, f) in Step(v, srv, op).out
       <==> Concerns(topic, v, srv, op, f) && Subscribed(srv, topic, t, f)
  {
    CloseTells(v, srv, op.s, op.h, op.xid, op.up);
    FreedReach(srv, op.s, op.h, op.up, topic, t, f);
    GoneReach(v, srv, op.s, op.h, op.up, topic, t, f);
  }

  lemma QuietStepsTellNobody(v: Variant, srv: Srv, op: Op, topic: Topic, t: Session, f: string)
    requires op.ReadOp? || op.StartOp? || op.ReopenOp? || op.LeadOp?
    ensures Event(topic, t, f) !in Step(v, srv, op).out && !Concerns(topic, v, srv, op, f)
  {}

  /** For either variant, on any state: a request that is served tells a session of a file's lock
      or content exactly when the session is registered for that and the request changes it. */
  lemma HeardIff(v: Variant, srv: Srv, op: Op, topic: Topic, t: Session, f: string)
    requires !op.DisconnectOp? && Step(v, srv, op).end == Returned
    ensures Event(topic, t, f) in Step(v, srv, op).out
       <==> Concerns(topic, v, srv, op, f) && Subscribed(srv, topic, t, f)
  {
    if op.OpenOp? {
      OpenHeardIff(v, srv, op, topic, t, f);
    } else if op.AcquireOp? {
      AcquireHeardIff(v, srv, op, topic, t, f);
    } else if op.TryAcquireOp? {
      TryAcquireHeardIff(v, srv, op, topic, t, f);
    } else if op.ReleaseOp? {
      ReleaseHeardIff(v, srv, op, topic, t, f);
    } else if op.WriteOp? {
      WriteHeardIff(v, srv, op, topic, t, f);
    } else if op.DeleteOp? {
      DeleteHeardIff(v, srv, op, topic, t, f);
    } else if op.CloseOp? {
      CloseHeardIff(v, srv, op, topic, t, f);
    } else {
      QuietStepsTellNobody(v, srv, op, topic, t, f);
    }
  }

  /** The close of a lost session concerns the file, while the session t is registered. */
  predicate CloseReaches(topic: Topic, v: Variant, srv: Srv, s: Session, h: FileHandler, up: bool, t: Session,
                         f: string) {
    Concerns(topic, v, srv, CloseOp(s, h, NO_REPLY, up), f) && Subscribed(srv, topic, t, f)
  }

  /** One of the closes, each on what those before it leave, does. */
  predicate LossReaches(topic: Topic, v: Variant, srv: Srv, s: Session, fds: seq<Fd>, up: bool, t: Session, f: string)
    decreases fds
  {
    fds != [] &&
      (CloseReaches(topic, v, srv, s, fds[0].h, up, t, f)
       || LossReaches(topic, v, FileClose(v, srv, s, fds[0].h, NO_REPLY, up).srv, s, fds[1..], up, t, f))
  }

  lemma CloseReachesIff(topic: Topic, v: Variant, srv: Srv, s: Session, h: FileHandler, up: bool, t: Session, f: string)
    requires FileClose(v, srv, s, h, NO_REPLY, up).end == Returned
    ensures Event(topic, t, f) in FileClose(v, srv, s, h, NO_REPLY, up).out
       <==> CloseReaches(topic, v, srv, s, h, up, t, f)
  {
    HeardIff(v, srv, CloseOp(s, h, NO_REPLY, up), topic, t, f);
  }

  lemma ClosesAreThen(v: Variant, srv: Srv, s: Session, fds: seq<Fd>, up: bool)
    requires fds != [] && CloseAll(v, srv, s, fds, up).end == Returned
    ensures var first := FileClose(v, srv, s, fds[0].h, NO_REPLY, up);
            && first.end == Returned
            && CloseAll(v, srv, s, fds, up) == Then(first, CloseAll(v, first.srv, s, fds[1..], up))
  {}

  lemma ThenReturned(first: Res, rest: Res, o: Out)
    requires first.end == Returned && Then(first, rest).end == Returned
    ensures rest.end == Returned && (o in Then(first, rest).out <==> o in first.out || o in rest.out)
  {}

  lemma {:induction false} ClosesHeardIff(v: Variant, srv: Srv, s: Session, fds: seq<Fd>, up: bool,
                                          topic: Topic, t: Session, f: string)
    requires CloseAll(v, srv, s, fds, up).end == Returned
    ensures Event(topic, t, f) in CloseAll(v, srv, s, fds, up).out <==> LossReaches(topic, v, srv, s, fds, up, t, f)
    decreases fds
  {
    if fds != [] {
      var next := FileClose(v, srv, s, fds[0].h, NO_REPLY, up).srv;
      assert FileClose(v, srv, s, fds[0].h, NO_REPLY, up).end == Returned
             && CloseAll(v, next, s, fds[1..], up).end == Returned
             && (Event(topic, t, f) in CloseAll(v, srv, s, fds, up).out
                 <==> Event(topic, t, f) in FileClose(v, srv, s, fds[0].h, NO_REPLY, up).out
                      || Event(topic, t, f) in CloseAll(v, next, s, fds[1..], up).out) by {
        ClosesAreThen(v, srv, s, fds, up);
        ThenReturned(FileClose(v, srv, s, fds[0].h, NO_REPLY, up), CloseAll(v, next, s, fds[1..], up),
                     Event(topic, t, f));
      }
      CloseReachesIff(topic, v, srv, s, fds[0].h, up, t, f);
      ClosesHeardIff(v, next, s, fds[1..], up, topic, t, f);
    }
  }

  /** The loss of a session tells what its closes, one after the other, tell. */
  lemma LossHeardIff(v: Variant, srv: Srv, s: Session, up: bool, topic: Topic, t: Session, f: string)
    requires Disconnect(v, srv, s, up).end == Returned
    ensures Event(topic, t, f) in Disconnect(v, srv, s, up).out
       <==> LossReaches(topic, v, srv, s, Get(srv.tables.bySession, s), up, t, f)
  {
    var fds := Get(srv.tables.bySession, s);
    ClosesHeardIff(v, srv, s, fds, up, topic, t, f);
    assert Disconnect(v, srv, s, up).out == CloseAll(v, srv, s, fds, up).out + [];
  }

  // ---------------------------------------------------------------- a subscriber, however much later

  /** Who opens a file asking for events of its lock, or of its content, is told by every later
      request that changes it, made by anybody, until the subscription ends. */
  lemma SubscriberHears(v: Variant, topic: Topic, srv: Srv, s: Session, file: string, mode: nat, masterSeq: nat,
                        xid: Xid, h: FileHandler, ops: seq<Op>, op: Op)
    requires Known(srv, s) && AsksFor(mode, topic)
    requires Reply(s, xid, Opened(h)) in FileOpen(srv, s, file, mode, masterSeq, xid, true).out
    requires var post := FileOpen(srv, s, file, mode, masterSeq, xid, true).srv;
             && KeepsSubscription(v, post, ops, s, file) && RunOps(v, post, ops).end == Returned
             && !op.DisconnectOp? && Step(v, RunOps(v, post, ops).srv, op).end == Returned
             && Concerns(topic, v, RunOps(v, post, ops).srv, op, file)
    ensures var later := RunOps(v, FileOpen(srv, s, file, mode, masterSeq, xid, true).srv, ops).srv;
            Event(topic, s, file) in Step(v, later, op).out
  {
    var post := FileOpen(srv, s, file, mode, masterSeq, xid, true).srv;
    OpenSubscribes(topic, srv, s, file, mode, masterSeq, xid, h);
    SubscriptionLastsRun(topic, v, post, ops, s, file);
    HeardIff(v, RunOps(v, post, ops).srv, op, topic, s, file);
  }

  /** A grant, seen from its answer: whenever an acquire or a tryAcquire is answered true, every
      lock listener of the file is told with that answer. */
  lemma GrantIsHeard(v: Variant, srv: Srv, op: Op, t: Session)
    requires (op.AcquireOp? || op.TryAcquireOp?) && Reply(op.s, op.xid, Value(true)) in Step(v, srv, op).out
    requires Subscribed(srv, OfLocks, t, op.h.file)
    ensures LockChanged(t, op.h.file) in Step(v, srv, op).out
  {
    match op
    case AcquireOp(s, h, xid, up) => AcquireAnswers(srv, s, h, xid, up);
    case TryAcquireOp(s, h, xid, up) => TryAcquireAnswers(srv, s, h, xid, up);
    HeardIff(v, srv, op, OfLocks, t, op.h.file);
  }

  /** A child, seen from the store: whenever a request other than a lost session makes a node
      appear or disappear, every listener of the directory above it is told by that request. */
  lemma ChildChangeNotifies(v: Variant, srv: Srv, op: Op, file: string, t: Session)
    requires !op.DisconnectOp? && Step(v, srv, op).end == Returned
    requires file in srv.db.fs <==> file !in Step(v, srv, op).srv.db.fs
    requires ParentName(file) != "/" && Subscribed(srv, OfContent, t, ParentName(file))
    ensures ContentModified(t, ParentName(file)) in Step(v, srv, op).out
  {
    ChangedNode(v, srv, op, file);
    HeardIff(v, srv, op, OfContent, t, ParentName(file));
  }

  lemma OpenedNode(v: Variant, srv: Srv, op: Op, file: string)
    requires op.OpenOp? && Step(v, srv, op).end == Returned
    requires file in srv.db.fs <==> file !in Step(v, srv, op).srv.db.fs
    ensures ParentName(file) != "/" ==> ChangesContent(v, srv, op, ParentName(file))
  {
    assert Known(srv, op.s) && op.up && !Malformed(op.file, op.mode) && CanOpen(srv.db, op.file, op.mode) by {
      OpenAnswers(srv, op.s, op.file, op.mode, op.masterSeq, op.xid, op.up);
    }
    var post := Step(v, srv, op).srv.db;
    assert post == if IsCreating(op.mode) then Apply(srv.db, Create(op.file, Has(op.mode, CREATE_DIRECTORY))).0
                   else srv.db by {
      OpenEffect(srv, op.s, op.file, op.mode, op.masterSeq, op.xid);
    }
    if IsCreating(op.mode) {
      CreateSucceedsIff(srv.db, op.file, Has(op.mode, CREATE_DIRECTORY));
      CreateEffect(srv.db, op.file, Has(op.mode, CREATE_DIRECTORY));
      if ParentName(op.file) == "/" { RootHasNoList(srv.db, op.file, Has(op.mode, CREATE_DIRECTORY)); }
    }
  }

  lemma RemovedNode(v: Variant, srv: Srv, op: Op, file: string)
    requires (op.DeleteOp? || op.CloseOp?) && Step(v, srv, op).end == Returned
    requires file in srv.db.fs <==> file !in Step(v, srv, op).srv.db.fs
    ensures ParentName(file) != "/" ==> ChangesContent(v, srv, op, ParentName(file))
  {
    if file in srv.db.fs {
      GoneIff(v, srv, op, file);
    } else if op.DeleteOp? {
      DeleteShape(srv, op.s, op.h, op.xid, op.up);
      DeletedNames(srv.db, op.h.file, op.h.inst);
    } else {
      CloseClosedFor(OfContent, v, srv, op.s, op.h, op.xid, op.up, 0, file);
    }
  }

  lemma ChangedNode(v: Variant, srv: Srv, op: Op, file: string)
    requires !op.DisconnectOp? && Step(v, srv, op).end == Returned
    requires file in srv.db.fs <==> file !in Step(v, srv, op).srv.db.fs
    ensures ParentName(file) != "/" ==> ChangesContent(v, srv, op, ParentName(file))
  {
    if op.OpenOp? {
      OpenedNode(v, srv, op, file);
    } else if op.DeleteOp? || op.CloseOp? {
      RemovedNode(v, srv, op, file);
    } else if op.ReadOp? || op.WriteOp? || op.AcquireOp? || op.TryAcquireOp? || op.ReleaseOp? {
      HandleStepKeepsNames(v, srv, op, file);
    }
  }
}
