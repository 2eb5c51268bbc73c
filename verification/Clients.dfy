/**
 What a client can rely on: the handle it opens works, what it writes is what is read, and
 who asked for events hears of every change.
 */
module Clients {
  import opened Text
  import opened Database
  import opened Handles
  import opened Service
  import opened Effects
  import opened Registrations
  import opened Requests
  import opened Disconnecting
  import opened Runs
  import LiveHandles

  // ---------------------------------------------------------------- open, write, read

  /** An open that answers with a handle went all the way. */
  lemma OpenWentThrough(srv: Srv, s: Session, file: string, mode: nat, masterSeq: nat, xid: Xid, h: FileHandler)
    requires Known(srv, s) && Reply(s, xid, Opened(h)) in FileOpen(srv, s, file, mode, masterSeq, xid, true).out
    ensures var (db, r) := Apply(srv.db, OpenCommand(file, mode));
            && NameOk(file) && r.Number?
            && h == FileHandler(Magic(file, r.inst, Has(mode, WRITE)), masterSeq, file, r.inst, Has(mode, WRITE))
            && FileOpen(srv, s, file, mode, masterSeq, xid, true)
               == Entered(srv.(db := db), s, file, mode, OpenCommand(file, mode).Create? && Has(mode, EPHEMERAL),
                          masterSeq, r.inst, xid)
  {
    var post := FileOpen(srv, s, file, mode, masterSeq, xid, true).srv;
    OnlyEvents(Get(post.contentEv, ParentName(file)), ParentName(file));
  }

  /** A successful open answers with a handle on the live node, and the handle is listed. */
  lemma OpenGivesWorkingHandle(srv: Srv, s: Session, file: string, mode: nat, masterSeq: nat, xid: Xid, h: FileHandler)
    requires Known(srv, s) && Reply(s, xid, Opened(h)) in FileOpen(srv, s, file, mode, masterSeq, xid, true).out
    ensures var post := FileOpen(srv, s, file, mode, masterSeq, xid, true).srv;
            && h.file == file && h.writable == Has(mode, WRITE) && h.masterSeq == masterSeq
            && Live(post.db, file, h.inst)
            && (exists fd :: fd in Get(post.tables.bySession, s) && fd.h == h)
            && (OpenCommand(file, mode).Create? ==> file !in srv.db.fs && h.inst == srv.db.maxInst + 1)
            && (OpenCommand(file, mode).Open? ==> post.db == srv.db)
  {
    OpenWentThrough(srv, s, file, mode, masterSeq, xid, h);
    assert Fd(srv.tables.nextId, h) in Get(Add(srv.tables, s, h).bySession, s);
  }

  /** What was written is what a read through any handle on that instance returns, with the
      checksum of the new content and the next generation. */
  lemma WriteThenRead(srv: Srv, s: Session, h: FileHandler, content: string, xid: Xid,
                      t: Session, g: FileHandler, xid': Xid)
    requires Reply(s, xid, Value(true)) in SetContents(srv, s, h, content, xid, true).out
    requires g.file == h.file && g.inst == h.inst
    ensures Live(srv.db, h.file, h.inst)
    ensures var node := srv.db.fs[h.file];
            GetContentsAndStat(SetContents(srv, s, h, content, xid, true).srv, t, g, xid', true).out
            == Send(t, xid', Data(content, Meta(h.inst, node.contentGen + 1, node.lockGen, HashOf(content),
                                                node.isDir)))
  {}

  // ---------------------------------------------------------------- events

  /** One event for each listener, in order, and nothing else. */
  lemma EventsReachListeners(listeners: seq<Session>, file: string)
    ensures |ContentEvents(listeners, file)| == |listeners| && |LockEvents(listeners, file)| == |listeners|
    ensures forall i :: 0 <= i < |listeners| ==>
              ContentEvents(listeners, file)[i] == ContentModified(listeners[i], file)
              && LockEvents(listeners, file)[i] == LockChanged(listeners[i], file)
  {
    EventsAreNews(listeners, file);
  }

  /** The session is registered for this kind of event of the file. */
  predicate Subscribed(srv: Srv, topic: Topic, s: Session, f: string) {
    s in Get(Listeners(srv, topic), f)
  }

  /** The mode asks for this kind of event. */
  predicate AsksFor(mode: nat, topic: Topic) {
    if topic.OfLocks? then Has(mode, EV_LOCK_CHANGED) else Has(mode, EV_CONTENT_MODIFIED)
  }

  predicate IsEphemeralOf(srv: Srv, x: Session, f: string) {
    x in srv.clients && f in GetSet(srv.eph, srv.clients[x])
  }

  /** The node was there and is not any more. */
  predicate Gone(srv: Srv, post: Srv, f: string) {
    f in srv.db.fs && f !in post.db.fs
  }

  /** The request deletes the node; or the session closes the file, or is lost, and the node is
      not ephemeral for it; or the leader changes. */
  predicate Unsubscribes(v: Variant, srv: Srv, op: Op, s: Session, f: string) {
    || Gone(srv, Step(v, srv, op).srv, f)
    || (op.CloseOp? && op.s == s && op.h.file == f && !IsEphemeralOf(srv, s, f))
    || (op.DisconnectOp? && op.s == s && !IsEphemeralOf(srv, s, f))
    || op.LeadOp?
  }

  lemma OpenSubscribes(topic: Topic, srv: Srv, s: Session, file: string, mode: nat, masterSeq: nat, xid: Xid,
                       h: FileHandler)
    requires Known(srv, s) && AsksFor(mode, topic)
    requires Reply(s, xid, Opened(h)) in FileOpen(srv, s, file, mode, masterSeq, xid, true).out
    ensures Subscribed(FileOpen(srv, s, file, mode, masterSeq, xid, true).srv, topic, s, file)
  {
    OpenWentThrough(srv, s, file, mode, masterSeq, xid, h);
  }

  /** Everybody who has subscribed hears of a write. */
  lemma WriteNotifies(srv: Srv, x: Session, h: FileHandler, content: string, xid: Xid, s: Session)
    requires Live(srv.db, h.file, h.inst) && Subscribed(srv, OfContent, s, h.file)
    ensures ContentModified(s, h.file) in SetContents(srv, x, h, content, xid, true).out
  {
    WriteAnswers(srv, x, h, content, xid, true);
    assert Event(OfContent, s, h.file) in News(OfContent, Get(srv.contentEv, h.file), h.file);
  }

  /** What closing by session x does to the subscription of session s for file f. */
  ghost predicate ClosedFor(topic: Topic, srv: Srv, post: Srv, x: Session, s: Session, f: string, named: bool) {
    && post.clients == srv.clients && (f in post.db.fs ==> f in srv.db.fs)
    && (Subscribed(post, topic, s, f)
        <==> Subscribed(srv, topic, s, f) && !Gone(srv, post, f) && !(x == s && named && !IsEphemeralOf(srv, x, f)))
    && (IsEphemeralOf(post, x, f) ==> IsEphemeralOf(srv, x, f))
    && (IsEphemeralOf(srv, x, f) && !Gone(srv, post, f) ==> IsEphemeralOf(post, x, f))
  }

  lemma DeleteEvents(srv: Srv, x: Session, h: FileHandler, xid: Xid, up: bool)
    requires Known(srv, x)
    ensures var post, ok := FileDelete(srv, x, h, xid, up).srv, up && Apply(srv.db, Delete(h.file, h.inst)).1 == Ok;
            && post.contentEv == (if ok then srv.contentEv - {h.file} else srv.contentEv)
            && post.lockEv == (if ok then srv.lockEv - {h.file} else srv.lockEv)
  {}

  lemma DeleteClosedFor(topic: Topic, srv: Srv, x: Session, h: FileHandler, xid: Xid, up: bool, s: Session, f: string)
    requires Known(srv, x)
    ensures var post := FileDelete(srv, x, h, xid, up).srv;
            && post.clients == srv.clients && (f in post.db.fs ==> f in srv.db.fs)
            && (Subscribed(post, topic, s, f) <==> Subscribed(srv, topic, s, f) && !Gone(srv, post, f))
            && (IsEphemeralOf(post, x, f) ==> IsEphemeralOf(srv, x, f))
            && (IsEphemeralOf(srv, x, f) && !Gone(srv, post, f) ==> IsEphemeralOf(post, x, f))
  {
    DeleteShape(srv, x, h, xid, up);
    DeleteEvents(srv, x, h, xid, up);
    DeletedNames(srv.db, h.file, h.inst);
  }

  lemma ForgetClosedFor(topic: Topic, v: Variant, srv: Srv, x: Session, fd: Fd, s: Session, f: string)
    requires Forget(v, srv, x, fd).end == Returned && !IsEphemeralOf(srv, x, fd.h.file)
    ensures ClosedFor(topic, srv, Forget(v, srv, x, fd).srv, x, s, f, fd.h.file == f)
  {
    ForgetShape(v, srv, x, fd);
  }

  lemma LetGoClosedFor(topic: Topic, v: Variant, srv: Srv, x: Session, fd: Fd, xid: Xid, up: bool,
                       s: Session, f: string)
    requires Known(srv, x) && LetGo(v, srv, x, fd, xid, up).end == Returned
    ensures ClosedFor(topic, srv, LetGo(v, srv, x, fd, xid, up).srv, x, s, f, fd.h.file == f)
  {
    if IsEphemeralOf(srv, x, fd.h.file) {
      DeleteClosedFor(topic, srv, x, fd.h, NO_REPLY, up, s, f);
      assert LetGo(v, srv, x, fd, xid, up).srv == FileDelete(srv, x, fd.h, NO_REPLY, up).srv;
    } else {
      ForgetClosedFor(topic, v, srv, x, fd, s, f);
      assert LetGo(v, srv, x, fd, xid, up).srv == Forget(v, srv, x, fd).srv;
    }
  }

  lemma CloseClosedFor(topic: Topic, v: Variant, srv: Srv, x: Session, h: FileHandler, xid: Xid, up: bool,
                       s: Session, f: string)
    requires FileClose(v, srv, x, h, xid, up).end == Returned
    ensures Known(srv, x) && ClosedFor(topic, srv, FileClose(v, srv, x, h, xid, up).srv, x, s, f, h.file == f)
  {
    var mid, fd := Reclaim(v, Found(srv, x, h), x, h, up).srv, Find(srv.tables, x, h).1;
    LiveHandles.CloseIsTwoHalves(v, srv, x, h, xid, up);
    LiveHandles.ReclaimTables(v, srv, x, h, up);
    LiveHandles.ReclaimStoreAlike(v, Found(srv, x, h), x, h, up);
    LiveHandles.AlikeNames(srv.db, mid.db, f);
    LetGoClosedFor(topic, v, mid, x, fd, xid, up, s, f);
  }

  lemma {:induction false} CloseAllClosedFor(topic: Topic, v: Variant, srv: Srv, x: Session, fds: seq<Fd>, up: bool,
                                             s: Session, f: string)
    requires CloseAll(v, srv, x, fds, up).end == Returned
    ensures ClosedFor(topic, srv, CloseAll(v, srv, x, fds, up).srv, x, s, f, exists fd :: fd in fds && fd.h.file == f)
    decreases fds
  {
    if fds != [] {
      var first, rest := FileClose(v, srv, x, fds[0].h, NO_REPLY, up), fds[1..];
      assert first.end == Returned && CloseAll(v, srv, x, fds, up).srv == CloseAll(v, first.srv, x, rest, up).srv;
      CloseAllClosedFor(topic, v, first.srv, x, rest, up, s, f);
      assert ClosedFor(topic, srv, first.srv, x, s, f, fds[0].h.file == f) by {
        CloseClosedFor(topic, v, srv, x, fds[0].h, NO_REPLY, up, s, f);
      }
      NamedFirstOrLater(fds, f);
      ClosedForTwice(topic, srv, first.srv, CloseAll(v, first.srv, x, rest, up).srv, x, s, f, fds[0].h.file == f,
                     exists fd :: fd in rest && fd.h.file == f);
    }
  }

  lemma NamedFirstOrLater(fds: seq<Fd>, f: string)
    requires fds != []
    ensures (exists fd :: fd in fds && fd.h.file == f)
       <==> fds[0].h.file == f || exists fd :: fd in fds[1..] && fd.h.file == f
  {
    assert fds == [fds[0]] + fds[1..] && fds[0] in fds;
  }

  lemma ClosedForTwice(topic: Topic, srv: Srv, mid: Srv, post: Srv, x: Session, s: Session, f: string, a: bool, b: bool)
    requires ClosedFor(topic, srv, mid, x, s, f, a) && ClosedFor(topic, mid, post, x, s, f, b)
    ensures ClosedFor(topic, srv, post, x, s, f, a || b)
  {}

  lemma HandleStepKeepsNames(v: Variant, srv: Srv, op: Op, f: string)
    requires op.ReadOp? || op.WriteOp? || op.AcquireOp? || op.TryAcquireOp? || op.ReleaseOp?
    ensures f in Step(v, srv, op).srv.db.fs <==> f in srv.db.fs
  {
    if op.WriteOp? {
      LiveHandles.StoreStaysAlike(srv.db, Update(op.h.file, op.h.inst, op.content));
    } else if op.ReleaseOp? {
      if Known(srv, op.s) { LiveHandles.ReleaseStoreAlike(v, srv, op.s, op.h, op.xid, op.up); }
    } else if !op.ReadOp? {
      LiveHandles.LockStoreAlike(srv, op.s, op.h, op.xid, op.up);
    }
    LiveHandles.AlikeNames(srv.db, Step(v, srv, op).srv.db, f);
  }

  lemma HandleStepKeepsEvents(v: Variant, srv: Srv, op: Op)
    requires op.ReadOp? || op.WriteOp? || op.AcquireOp? || op.TryAcquireOp? || op.ReleaseOp?
    ensures Step(v, srv, op).srv.contentEv == srv.contentEv && Step(v, srv, op).srv.lockEv == srv.lockEv
  {
    match op
    case ReleaseOp(x, h, xid, up) => if Known(srv, x) { ReleaseFrame(v, srv, x, h, xid, up); }
    case AcquireOp(x, h, xid, up) => AcquireFrame(srv, x, h, xid, up);
    case TryAcquireOp(x, h, xid, up) => TryAcquireFrame(srv, x, h, xid, up);
    case ReadOp(x, h, xid, up) => ReadFrame(srv, x, h, xid, up);
    case WriteOp(x, h, content, xid, up) => WriteFrame(srv, x, h, content, xid, up);
  }

  lemma OpenKeepsSubscribed(topic: Topic, srv: Srv, op: Op, s: Session, f: string)
    requires op.OpenOp? && Subscribed(srv, topic, s, f)
    ensures Subscribed(Step(Intended, srv, op).srv, topic, s, f)
    ensures f in srv.db.fs ==> f in Step(Intended, srv, op).srv.db.fs
  {}

  lemma DisconnectSubscription(topic: Topic, v: Variant, srv: Srv, x: Session, up: bool, s: Session, f: string)
    requires Disconnect(v, srv, x, up).end == Returned
    ensures var post := Disconnect(v, srv, x, up).srv;
            Subscribed(post, topic, s, f)
            <==> Subscribed(srv, topic, s, f) && !Gone(srv, post, f)
                 && !(x == s && HasHandle(srv.tables, s, f) && !IsEphemeralOf(srv, s, f))
  {
    var fds := Get(srv.tables.bySession, x);
    var closed := CloseAll(v, srv, x, fds, up);
    assert closed.end == Returned && Disconnect(v, srv, x, up).srv == closed.srv.(clients := closed.srv.clients - {x});
    CloseAllClosedFor(topic, v, srv, x, fds, up, s, f);
  }

  lemma EndStepSubscription(topic: Topic, v: Variant, srv: Srv, op: Op, s: Session, f: string)
    requires op.CloseOp? || op.DeleteOp? || op.DisconnectOp?
    requires Subscribed(srv, topic, s, f) && Step(v, srv, op).end == Returned
    ensures !Unsubscribes(v, srv, op, s, f) ==> Subscribed(Step(v, srv, op).srv, topic, s, f)
    ensures HasHandle(srv.tables, s, f) && Subscribed(Step(v, srv, op).srv, topic, s, f) ==>
              !Unsubscribes(v, srv, op, s, f)
  {
    if op.CloseOp? {
      CloseClosedFor(topic, v, srv, op.s, op.h, op.xid, op.up, s, f);
    } else if op.DeleteOp? {
      DeleteClosedFor(topic, srv, op.s, op.h, op.xid, op.up, s, f);
    } else {
      DisconnectSubscription(topic, v, srv, op.s, op.up, s, f);
    }
  }

  lemma OtherStepSubscription(topic: Topic, v: Variant, srv: Srv, op: Op, s: Session, f: string)
    requires !op.CloseOp? && !op.DeleteOp? && !op.DisconnectOp? && !op.LeadOp?
    requires Subscribed(srv, topic, s, f)
    ensures Subscribed(Step(v, srv, op).srv, topic, s, f) && !Gone(srv, Step(v, srv, op).srv, f)
  {
    if op.OpenOp? {
      OpenKeepsSubscribed(topic, srv, op, s, f);
    } else if op.ReadOp? || op.WriteOp? || op.AcquireOp? || op.TryAcquireOp? || op.ReleaseOp? {
      HandleStepKeepsNames(v, srv, op, f);
      HandleStepKeepsEvents(v, srv, op);
    }
  }

  /** A subscription lasts through every request that does not delete the node, close the file
      for the session or change the leader, in either variant. */
  lemma SubscriptionLasts(topic: Topic, v: Variant, srv: Srv, op: Op, s: Session, f: string)
    requires Subscribed(srv, topic, s, f) && !Unsubscribes(v, srv, op, s, f) && Step(v, srv, op).end == Returned
    ensures Subscribed(Step(v, srv, op).srv, topic, s, f)
  {
    if op.CloseOp? || op.DeleteOp? || op.DisconnectOp? {
      EndStepSubscription(topic, v, srv, op, s, f);
    } else {
      OtherStepSubscription(topic, v, srv, op, s, f);
    }
  }

  /** And through no other. */
  lemma SubscriptionLastsIff(topic: Topic, v: Variant, srv: Srv, op: Op, s: Session, f: string)
    requires Consistent(srv) && Subscribed(srv, topic, s, f) && Step(v, srv, op).end == Returned
    ensures Subscribed(Step(v, srv, op).srv, topic, s, f) <==> !Unsubscribes(v, srv, op, s, f)
  {
    if op.CloseOp? || op.DeleteOp? || op.DisconnectOp? {
      EndStepSubscription(topic, v, srv, op, s, f);
    } else if !op.LeadOp? {
      OtherStepSubscription(topic, v, srv, op, s, f);
    }
  }

  ghost predicate KeepsSubscription(v: Variant, srv: Srv, ops: seq<Op>, s: Session, f: string)
    decreases ops
  {
    ops != [] ==>
      !Unsubscribes(v, srv, ops[0], s, f) && KeepsSubscription(v, Step(v, srv, ops[0]).srv, ops[1..], s, f)
  }

  lemma {:induction false} SubscriptionLastsRun(topic: Topic, v: Variant, srv: Srv, ops: seq<Op>, s: Session, f: string)
    requires Subscribed(srv, topic, s, f) && KeepsSubscription(v, srv, ops, s, f) && RunOps(v, srv, ops).end == Returned
    ensures Subscribed(RunOps(v, srv, ops).srv, topic, s, f)
    decreases ops
  {
    if ops != [] {
      SubscriptionLasts(topic, v, srv, ops[0], s, f);
      SubscriptionLastsRun(topic, v, Step(v, srv, ops[0]).srv, ops[1..], s, f);
    }
  }

  /** Who opens a file asking for content events hears of every later write to it, by
      anybody, until one of these happens. */
  lemma SubscriberHearsWrites(v: Variant, srv: Srv, s: Session, file: string, mode: nat, masterSeq: nat, xid: Xid,
                              h: FileHandler, ops: seq<Op>, x: Session, g: FileHandler, content: string, xid': Xid)
    requires Known(srv, s) && Has(mode, EV_CONTENT_MODIFIED)
    requires Reply(s, xid, Opened(h)) in FileOpen(srv, s, file, mode, masterSeq, xid, true).out
    requires KeepsSubscription(v, FileOpen(srv, s, file, mode, masterSeq, xid, true).srv, ops, s, file)
    requires RunOps(v, FileOpen(srv, s, file, mode, masterSeq, xid, true).srv, ops).end == Returned
    requires g.file == file
    requires Live(RunOps(v, FileOpen(srv, s, file, mode, masterSeq, xid, true).srv, ops).srv.db, file, g.inst)
    ensures var later := RunOps(v, FileOpen(srv, s, file, mode, masterSeq, xid, true).srv, ops).srv;
            ContentModified(s, file) in SetContents(later, x, g, content, xid', true).out
  {
    var post := FileOpen(srv, s, file, mode, masterSeq, xid, true).srv;
    OpenSubscribes(OfContent, srv, s, file, mode, masterSeq, xid, h);
    SubscriptionLastsRun(OfContent, v, post, ops, s, file);
    WriteNotifies(RunOps(v, post, ops).srv, x, g, content, xid', s);
  }
}
