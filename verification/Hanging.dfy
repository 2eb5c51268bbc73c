/**
 Closing while others wait, as the program is written: exactly when a close or a lost session
 never ends, and whom a close that ends leaves in the queue.
 */
module Hanging {
  import opened Text
  import opened Database
  import opened DirectoryTree
  import opened Handles
  import opened Service
  import opened Registrations
  import opened LockSafety
  import opened Requests
  import opened Disconnecting
  import LiveHandles

  /** As written, a close treats the lock queue as intended exactly when there is none, or
      it has no entry, or its only entry is the closing session's. */
  lemma CleanupIsRightIff(queues: map<string, seq<Waiter>>, file: string, s: Session)
    ensures ClearedQueue(AsWritten, queues, file, s) == ClearedQueue(Intended, queues, file, s)
       <==> file !in queues || queues[file] == [] || (|queues[file]| == 1 && queues[file][0].session == s)
  {
    if file in queues && queues[file] != [] {
      var q := queues[file];
      var kept := NotOf(q, s);
      if |q| == 1 {
        assert NotOf(q[..0], s) == [];
      } else if q[0].session == s {
        assert q[0] !in kept && q[0] in q;
        assert Get(Put(queues, file, kept), file) == kept;
      }
    }
  }

  // ---------------------------------------------------------------- one close

  /** The close gives up the lock: the client holds it and the handle is up to date. */
  predicate Frees(srv: Srv, s: Session, h: FileHandler, up: bool)
    requires Known(srv, s)
  {
    up && h.file in GetSet(srv.held, srv.clients[s]) && Live(srv.db, h.file, h.inst)
  }

  /** The queue that the cleanup of a close meets: the head is gone if the lock went to it. */
  function Met(srv: Srv, s: Session, h: FileHandler, up: bool): seq<Waiter>
    requires Known(srv, s)
  {
    var q := Get(srv.queues, h.file);
    if Frees(srv, s, h, up) && q != [] then q[1..] else q
  }

  lemma FreedReturnsIff(v: Variant, srv: Srv, s: Session, h: FileHandler, xid: Xid)
    requires Known(srv, s)
    ensures Freed(v, srv, s, h, xid).end == (if HeadKnown(srv, h.file) then Returned else Aborted)
  {}

  /** A release is served to its end exactly when the session is known and, if it frees the
      lock, the head of the queue is known as well: a waiter whose session is gone stops the
      server at the next release, in either variant. */
  lemma ReleaseReturnsIff(v: Variant, srv: Srv, s: Session, h: FileHandler, xid: Xid, up: bool)
    ensures Release(v, srv, s, h, xid, up).end
         == if Known(srv, s) && (up && Live(srv.db, h.file, h.inst) ==> HeadKnown(srv, h.file)) then Returned
            else Aborted
  {
    if Known(srv, s) {
      FreedReturnsIff(v, Found(srv, s, h).(db := Apply(srv.db, Unlock(h.file, h.inst)).0), s, h, xid);
    }
  }

  lemma ReclaimReturnsIff(v: Variant, srv: Srv, s: Session, h: FileHandler, up: bool)
    requires Known(srv, s)
    ensures Reclaim(v, Found(srv, s, h), s, h, up).end
         == if Frees(srv, s, h, up) ==> HeadKnown(srv, h.file) then Returned else Aborted
  {
    ReleaseReturnsIff(v, Found(srv, s, h), s, h, NO_REPLY, up);
  }

  lemma ReleasedQueues(v: Variant, srv: Srv, s: Session, h: FileHandler, up: bool)
    requires Known(srv, s) && HeadKnown(srv, h.file)
    ensures var q := Get(srv.queues, h.file);
            Release(v, srv, s, h, NO_REPLY, up).srv.queues
            == if up && Live(srv.db, h.file, h.inst) && q != [] then Put(srv.queues, h.file, q[1..]) else srv.queues
  {
    var (db, r) := Apply(srv.db, Unlock(h.file, h.inst));
    if up && r == Ok {
      FreedShape(v, Found(srv, s, h).(db := db), s, h, NO_REPLY);
    }
  }

  lemma ReclaimedQueues(v: Variant, srv: Srv, s: Session, h: FileHandler, up: bool)
    requires Known(srv, s) && (Frees(srv, s, h, up) ==> HeadKnown(srv, h.file))
    ensures Reclaim(v, Found(srv, s, h), s, h, up).srv.queues
         == if Frees(srv, s, h, up) && Get(srv.queues, h.file) != [] then Put(srv.queues, h.file, Met(srv, s, h, up))
            else srv.queues
  {
    if Frees(srv, s, h, up) {
      ReleasedQueues(v, Found(srv, s, h), s, h, up);
    }
  }

  lemma ForgetHangsIff(srv: Srv, s: Session, fd: Fd)
    ensures var q := Get(srv.queues, fd.h.file);
            Forget(AsWritten, srv, s, fd).end == if q != [] && q[0].session != s then Hung else Returned
  {}

  lemma LetGoHangsIff(srv: Srv, s: Session, fd: Fd, xid: Xid, up: bool)
    requires Known(srv, s)
    ensures var q := Get(srv.queues, fd.h.file);
            LetGo(AsWritten, srv, s, fd, xid, up).end == Hung
            <==> !IsEphemeral(srv, s, fd.h.file) && q != [] && q[0].session != s
  {
    ForgetHangsIff(srv, s, fd);
    assert FileDelete(srv, s, fd.h, NO_REPLY, up).end != Hung;
  }

  /** As written, a close never ends exactly when the node is not ephemeral for the client and
      another session is first in the queue, not counting a head that the close itself grants
      the lock. */
  lemma CloseHangsIff(srv: Srv, s: Session, h: FileHandler, xid: Xid, up: bool)
    ensures FileClose(AsWritten, srv, s, h, xid, up).end == Hung
       <==> && Known(srv, s) && !IsEphemeral(srv, s, h.file)
            && (Frees(srv, s, h, up) ==> HeadKnown(srv, h.file))
            && Met(srv, s, h, up) != [] && Met(srv, s, h, up)[0].session != s
  {
    if Known(srv, s) {
      ReclaimReturnsIff(AsWritten, srv, s, h, up);
      if Frees(srv, s, h, up) ==> HeadKnown(srv, h.file) {
        var mid := Reclaim(AsWritten, Found(srv, s, h), s, h, up).srv;
        LiveHandles.ReclaimTables(AsWritten, srv, s, h, up);
        ReclaimedQueues(AsWritten, srv, s, h, up);
        LetGoHangsIff(mid, s, Find(srv.tables, s, h).1, xid, up);
      }
    }
  }

  // ---------------------------------------------------------------- who stays in the queue

  /** As written, a session that closes a handle on a node that is not ephemeral for it stays
      in the queue exactly when the queue the cleanup meets has a second entry: the queue is
      then left as it is, and else it goes. */
  lemma StaysQueuedIff(srv: Srv, s: Session, h: FileHandler, xid: Xid, up: bool)
    requires Known(srv, s) && !IsEphemeral(srv, s, h.file)
    requires FileClose(AsWritten, srv, s, h, xid, up).end == Returned
    ensures var q, left := Met(srv, s, h, up), Get(FileClose(AsWritten, srv, s, h, xid, up).srv.queues, h.file);
            left == (if |q| >= 2 then q else []) && (HasEntry(left, s) <==> |q| >= 2)
  {
    var mid, fd := Reclaim(AsWritten, Found(srv, s, h), s, h, up).srv, Find(srv.tables, s, h).1;
    CloseHangsIff(srv, s, h, xid, up);
    ReclaimReturnsIff(AsWritten, srv, s, h, up);
    LiveHandles.CloseIsTwoHalves(AsWritten, srv, s, h, xid, up);
    LiveHandles.ReclaimTables(AsWritten, srv, s, h, up);
    ReclaimedQueues(AsWritten, srv, s, h, up);
    ForgottenQueue(mid, s, fd);
    assert LetGo(AsWritten, mid, s, fd, xid, up).srv.queues == Forget(AsWritten, mid, s, fd).srv.queues;
  }

  lemma ForgottenQueue(srv: Srv, s: Session, fd: Fd)
    requires Forget(AsWritten, srv, s, fd).end == Returned
    ensures var q := Get(srv.queues, fd.h.file);
            && Get(Forget(AsWritten, srv, s, fd).srv.queues, fd.h.file) == (if |q| >= 2 then q else [])
            && (|q| >= 2 ==> HasEntry(q, s))
  {
    ForgetHangsIff(srv, s, fd);
    var q := Get(srv.queues, fd.h.file);
    if |q| >= 2 { assert q[0] in q; }
  }

  /** So a session first in a longer line that closes its handle stays there. */
  lemma ClosedWaiterStays(srv: Srv, s: Session, h: FileHandler, xid: Xid, up: bool)
    requires Known(srv, s) && !IsEphemeral(srv, s, h.file) && !Frees(srv, s, h, up)
    requires var q := Get(srv.queues, h.file); |q| >= 2 && q[0].session == s
    ensures Step(AsWritten, srv, CloseOp(s, h, xid, up)).end == Returned
    ensures var r := FileClose(AsWritten, srv, s, h, xid, up);
            && r.end == Returned && r.srv.queues == srv.queues && r.srv.clients == srv.clients
            && r.srv.db == Reclaim(AsWritten, Found(srv, s, h), s, h, up).srv.db
  {
    var mid, fd := Reclaim(AsWritten, Found(srv, s, h), s, h, up).srv, Find(srv.tables, s, h).1;
    CloseHangsIff(srv, s, h, xid, up);
    ReclaimReturnsIff(AsWritten, srv, s, h, up);
    LiveHandles.ReclaimTables(AsWritten, srv, s, h, up);
    ReclaimedQueues(AsWritten, srv, s, h, up);
    ForgetHangsIff(mid, s, fd);
    ForgetShape(AsWritten, mid, s, fd);
  }

  /** And it is later told that it holds the lock. */
  lemma ClosedWaiterIsGranted(srv: Srv, s: Session, h: FileHandler, xid: Xid, up: bool,
                              t: Session, g: FileHandler, xid': Xid)
    requires Known(srv, s) && Known(srv, t) && !IsEphemeral(srv, s, h.file) && !Frees(srv, s, h, up)
    requires var q := Get(srv.queues, h.file); |q| >= 2 && q[0].session == s && q[0].xid != NO_REPLY
    requires g.file == h.file && Live(srv.db, g.file, g.inst)
    ensures var r := Release(AsWritten, FileClose(AsWritten, srv, s, h, xid, up).srv, t, g, xid', true);
            && r.end == Returned && Reply(s, Get(srv.queues, h.file)[0].xid, Value(true)) in r.out
            && h.file in GetSet(r.srv.held, srv.clients[s])
  {
    var post := FileClose(AsWritten, srv, s, h, xid, up).srv;
    assert post.queues == srv.queues && post.clients == srv.clients
           && post.db == Reclaim(AsWritten, Found(srv, s, h), s, h, up).srv.db by {
      ClosedWaiterStays(srv, s, h, xid, up);
    }
    LiveHandles.ReclaimStoreAlike(AsWritten, Found(srv, s, h), s, h, up);
    HeadIsGranted(post, t, g, xid');
  }

  lemma HeadIsGranted(srv: Srv, t: Session, g: FileHandler, xid: Xid)
    requires Known(srv, t) && Live(srv.db, g.file, g.inst) && Get(srv.queues, g.file) != []
    requires Known(srv, srv.queues[g.file][0].session) && srv.queues[g.file][0].xid != NO_REPLY
    ensures var r, head := Release(AsWritten, srv, t, g, xid, true), srv.queues[g.file][0];
            && r.end == Returned && Reply(head.session, head.xid, Value(true)) in r.out
            && g.file in GetSet(r.srv.held, srv.clients[head.session])
  {}

  /** A delete that works drops those who wait for the file, on any state, without an answer: it
      does so exactly when the node can be deleted, so has no stored owner, while somebody waits. */
  lemma DeleteDropsWaitersIff(srv: Srv, s: Session, h: FileHandler, xid: Xid, up: bool)
    requires FileDelete(srv, s, h, xid, up).end == Returned && Get(srv.queues, h.file) != []
    ensures var r := FileDelete(srv, s, h, xid, up);
            && (Get(r.srv.queues, h.file) != Get(srv.queues, h.file) <==> up && CanDelete(srv.db, h.file, h.inst))
            && (up && CanDelete(srv.db, h.file, h.inst) ==> h.file !in r.srv.queues)
            && r.moves == [] && forall o :: o in r.out && o.Reply? ==> o.session == s && o.xid == xid
  {
    DeleteShape(srv, s, h, xid, up);
    OnlyEvents(Get(srv.contentEv, h.file), h.file);
    OnlyEvents(Get(srv.contentEv, ParentName(h.file)), ParentName(h.file));
  }

  // ---------------------------------------------------------------- a lost session

  /** The closes of a lost session come to a loop that never ends, over this queue: each close
      through a live handle gives up a lock the client holds to the head of the queue, and the
      cleanup then ends at once only if the session itself is first. */
  predicate HangsAt(q: seq<Waiter>, holds: bool, clients: map<Session, Client>, s: Session, client: Client,
                    file: string, inst: nat, fds: seq<Fd>)
    decreases fds
  {
    if fds == [] || q == [] then false
    else if fds[0].h.file != file then HangsAt(q, holds, clients, s, client, file, inst, fds[1..])
    else
      var pops := holds && fds[0].h.inst == inst;
      var met := if pops then q[1..] else q;
      var next := if pops then q[0].session in clients && clients[q[0].session] == client else holds;
      met != [] && (met[0].session != s
                    || (|met| >= 2 && HangsAt(met, next, clients, s, client, file, inst, fds[1..])))
  }

  /** While the client does not hold the lock: exactly when the session has a handle on the file
      and another session is first in its queue. */
  lemma {:induction false} HangsWithoutLockIff(q: seq<Waiter>, clients: map<Session, Client>, s: Session,
                                               client: Client, file: string, inst: nat, fds: seq<Fd>)
    ensures HangsAt(q, false, clients, s, client, file, inst, fds)
       <==> q != [] && q[0].session != s && exists fd :: fd in fds && fd.h.file == file
    decreases fds
  {
    if fds != [] {
      HangsWithoutLockIff(q, clients, s, client, file, inst, fds[1..]);
      assert fds[0] in fds && fds == [fds[0]] + fds[1..];
    }
  }

  predicate HoldsStored(srv: Srv, s: Session, up: bool, f: string)
    requires Known(srv, s)
  {
    up && f in GetSet(srv.held, srv.clients[s]) && f in srv.db.fs
  }

  /** The loop is over the queue of a node that is not ephemeral for the client. */
  predicate HangsOver(srv: Srv, s: Session, fds: seq<Fd>, up: bool, f: string) {
    && Known(srv, s) && !IsEphemeral(srv, s, f)
    && HangsAt(Get(srv.queues, f), HoldsStored(srv, s, up, f), srv.clients, s, srv.clients[s], f, InstOf(srv.db, f),
               fds)
  }

  /** What a close needs not to stop the server. */
  ghost predicate Served(srv: Srv) {
    && TreeInv(srv.db) && QueuesFilled(srv)
    && forall f, w {:trigger w in Get(srv.queues, f)} :: w in Get(srv.queues, f) ==> Known(srv, w.session)
  }

  lemma ServedHeads(srv: Srv, f: string)
    requires Served(srv)
    ensures HeadKnown(srv, f)
  {
    if f in srv.queues { assert srv.queues[f][0] in Get(srv.queues, f); }
  }

  lemma LessIsServed(srv: Srv, post: Srv)
    requires Served(srv) && TreeInv(post.db) && post.clients == srv.clients
    requires FewerWaiters(srv, post) && QueuesFilled(post)
    ensures Served(post)
  {
    forall f, w | w in Get(post.queues, f) ensures Known(post, w.session) {
      assert w in Get(srv.queues, f);
    }
  }

  lemma ReclaimKeepsServed(v: Variant, srv: Srv, s: Session, h: FileHandler, up: bool)
    requires Served(srv) && Known(srv, s)
    ensures var r := Reclaim(v, Found(srv, s, h), s, h, up);
            r.end == Returned && Served(r.srv) && r.srv.clients == srv.clients
  {
    var mid := Reclaim(v, Found(srv, s, h), s, h, up).srv;
    ServedHeads(srv, h.file);
    ReclaimReturnsIff(v, srv, s, h, up);
    ReclaimedQueues(v, srv, s, h, up);
    LiveHandles.ReclaimTables(v, srv, s, h, up);
    assert TreeInv(mid.db) by { if up { ReleasedTree(v, Found(srv, s, h), s, h, NO_REPLY); } }
    LessIsServed(srv, mid);
  }

  lemma ForgetKeepsServed(srv: Srv, s: Session, fd: Fd)
    requires Served(srv) && Forget(AsWritten, srv, s, fd).end == Returned
    ensures Served(Forget(AsWritten, srv, s, fd).srv) && Forget(AsWritten, srv, s, fd).srv.clients == srv.clients
  {
    LessIsServed(srv, Forget(AsWritten, srv, s, fd).srv);
  }

  lemma DeleteKeepsServed(srv: Srv, s: Session, h: FileHandler, up: bool)
    requires Served(srv) && Known(srv, s)
    ensures var r := FileDelete(srv, s, h, NO_REPLY, up);
            r.end == Returned && Served(r.srv) && r.srv.clients == srv.clients
  {
    StepKeepsTree(srv.db, Delete(h.file, h.inst));
    DeleteShape(srv, s, h, NO_REPLY, up);
    LessIsServed(srv, FileDelete(srv, s, h, NO_REPLY, up).srv);
  }

  lemma CloseKeepsServed(srv: Srv, s: Session, h: FileHandler, up: bool)
    requires Served(srv) && Known(srv, s)
    ensures var r := FileClose(AsWritten, srv, s, h, NO_REPLY, up);
            r.end != Aborted && (r.end == Returned ==> Served(r.srv) && r.srv.clients == srv.clients)
  {
    var mid, fd := Reclaim(AsWritten, Found(srv, s, h), s, h, up).srv, Find(srv.tables, s, h).1;
    ReclaimKeepsServed(AsWritten, srv, s, h, up);
    ForgetHangsIff(mid, s, fd);
    if IsEphemeral(mid, s, h.file) {
      DeleteKeepsServed(mid, s, h, up);
    } else if Forget(AsWritten, mid, s, fd).end == Returned {
      ForgetKeepsServed(mid, s, fd);
    }
  }

  /** A close about another file is nothing to one that is not ephemeral. */
  lemma OtherCloseIsNothing(srv: Srv, s: Session, h: FileHandler, up: bool, f: string)
    requires Served(srv) && Known(srv, s) && !IsEphemeral(srv, s, f) && h.file != f
    requires FileClose(AsWritten, srv, s, h, NO_REPLY, up).end == Returned
    ensures SameFor(srv, FileClose(AsWritten, srv, s, h, NO_REPLY, up).srv, s, f)
  {
    var mid, fd := Reclaim(AsWritten, Found(srv, s, h), s, h, up).srv, Find(srv.tables, s, h).1;
    ServedHeads(srv, h.file);
    assert FileClose(AsWritten, srv, s, h, NO_REPLY, up).srv == LetGo(AsWritten, mid, s, fd, NO_REPLY, up).srv by {
      LiveHandles.CloseIsTwoHalves(AsWritten, srv, s, h, NO_REPLY, up);
    }
    assert SameFor(srv, mid, s, f) by {
      ReclaimOnQueue(AsWritten, Found(srv, s, h), s, h, up, f);
      SameNames(AsWritten, srv, s, h, up, f);
    }
    LetGoOthers(mid, s, fd, up, f);
  }

  lemma SameNames(v: Variant, srv: Srv, s: Session, h: FileHandler, up: bool, f: string)
    requires Known(srv, s)
    ensures f in Reclaim(v, Found(srv, s, h), s, h, up).srv.db.fs <==> f in srv.db.fs
  {
    LiveHandles.ReclaimStoreAlike(v, Found(srv, s, h), s, h, up);
    LiveHandles.AlikeNames(srv.db, Reclaim(v, Found(srv, s, h), s, h, up).srv.db, f);
  }

  lemma LetGoOthers(srv: Srv, s: Session, fd: Fd, up: bool, f: string)
    requires Known(srv, s) && fd.h.file != f
    ensures SameFor(srv, LetGo(AsWritten, srv, s, fd, NO_REPLY, up).srv, s, f)
  {
    if IsEphemeral(srv, s, fd.h.file) {
      DeleteLeavesOthers(srv, s, fd.h, up, f);
    } else {
      ForgetLeavesOthers(AsWritten, srv, s, fd, f);
    }
  }

  /** A file stops being ephemeral by being deleted, and its queue goes with it. */
  lemma EphemeralsEndEmpty(srv: Srv, s: Session, h: FileHandler, up: bool, f: string)
    requires Known(srv, s) && IsEphemeral(srv, s, f)
    requires FileClose(AsWritten, srv, s, h, NO_REPLY, up).end == Returned
    ensures var post := FileClose(AsWritten, srv, s, h, NO_REPLY, up).srv;
            post.clients == srv.clients && (f in GetSet(post.eph, srv.clients[s]) || Get(post.queues, f) == [])
  {
    var mid, fd := Reclaim(AsWritten, Found(srv, s, h), s, h, up).srv, Find(srv.tables, s, h).1;
    LiveHandles.CloseIsTwoHalves(AsWritten, srv, s, h, NO_REPLY, up);
    LiveHandles.ReclaimTables(AsWritten, srv, s, h, up);
    DeleteShape(mid, s, h, NO_REPLY, up);
    ForgetShape(AsWritten, mid, s, fd);
  }

  lemma NobodyHangsAt(holds: bool, clients: map<Session, Client>, s: Session, client: Client, file: string, inst: nat,
                      fds: seq<Fd>)
    ensures !HangsAt([], holds, clients, s, client, file, inst, fds)
  {}

  /** What the close of a file that is not ephemeral leaves of its queue and of its lock. */
  lemma PlainCloseLeaves(srv: Srv, s: Session, h: FileHandler, up: bool)
    requires Served(srv) && Known(srv, s) && !IsEphemeral(srv, s, h.file)
    requires FileClose(AsWritten, srv, s, h, NO_REPLY, up).end == Returned
    ensures var post, q := FileClose(AsWritten, srv, s, h, NO_REPLY, up).srv, Get(srv.queues, h.file);
            && post.clients == srv.clients && h.file !in GetSet(post.eph, srv.clients[s])
            && InstOf(post.db, h.file) == InstOf(srv.db, h.file)
            && (HoldsStored(post, s, up, h.file)
                <==> if Frees(srv, s, h, up) then NextHolds(srv, s, q) else HoldsStored(srv, s, up, h.file))
  {
    var mid, fd := Reclaim(AsWritten, Found(srv, s, h), s, h, up).srv, Find(srv.tables, s, h).1;
    ServedHeads(srv, h.file);
    LiveHandles.CloseIsTwoHalves(AsWritten, srv, s, h, NO_REPLY, up);
    LiveHandles.ReclaimTables(AsWritten, srv, s, h, up);
    ForgetShape(AsWritten, mid, s, fd);
    SameNames(AsWritten, srv, s, h, up, h.file);
    if h.file in srv.db.fs {
      ReclaimOnQueue(AsWritten, Found(srv, s, h), s, h, up, h.file);
    }
  }

  /** The definition of HangsAt for a close that ends. */
  lemma HangsAtAgain(q: seq<Waiter>, holds: bool, clients: map<Session, Client>, s: Session, client: Client,
                     file: string, inst: nat, fds: seq<Fd>, met: seq<Waiter>, next: bool, left: seq<Waiter>)
    requires fds != [] && fds[0].h.file == file
    requires holds && fds[0].h.inst == inst && q != [] ==>
               met == q[1..] && next == (q[0].session in clients && clients[q[0].session] == client)
    requires !(holds && fds[0].h.inst == inst) ==> met == q && next == holds
    requires q == [] ==> met == []
    requires (met == [] || met[0].session == s) && left == if |met| >= 2 then met else []
    ensures HangsAt(q, holds, clients, s, client, file, inst, fds)
       <==> HangsAt(left, next, clients, s, client, file, inst, fds[1..])
  {}

  lemma OwnHangStep(srv: Srv, s: Session, fds: seq<Fd>, up: bool)
    requires Served(srv) && Known(srv, s) && fds != [] && !IsEphemeral(srv, s, fds[0].h.file)
    requires FileClose(AsWritten, srv, s, fds[0].h, NO_REPLY, up).end == Returned
    ensures HangsOver(srv, s, fds, up, fds[0].h.file)
       <==> HangsOver(FileClose(AsWritten, srv, s, fds[0].h, NO_REPLY, up).srv, s, fds[1..], up, fds[0].h.file)
  {
    var h, q := fds[0].h, Get(srv.queues, fds[0].h.file);
    var post := FileClose(AsWritten, srv, s, h, NO_REPLY, up).srv;
    CloseHangsIff(srv, s, h, NO_REPLY, up);
    PlainCloseLeaves(srv, s, h, up);
    StaysQueuedIff(srv, s, h, NO_REPLY, up);
    ServedHeads(srv, h.file);
    HangsAtAgain(q, HoldsStored(srv, s, up, h.file), srv.clients, s, srv.clients[s], h.file, InstOf(srv.db, h.file),
                 fds, Met(srv, s, h, up), HoldsStored(post, s, up, h.file), Get(post.queues, h.file));
  }

  lemma OtherHangStep(srv: Srv, s: Session, fds: seq<Fd>, up: bool, f: string)
    requires Served(srv) && Known(srv, s) && fds != [] && !IsEphemeral(srv, s, f) && fds[0].h.file != f
    requires FileClose(AsWritten, srv, s, fds[0].h, NO_REPLY, up).end == Returned
    ensures HangsOver(srv, s, fds, up, f)
       <==> HangsOver(FileClose(AsWritten, srv, s, fds[0].h, NO_REPLY, up).srv, s, fds[1..], up, f)
  {
    OtherCloseIsNothing(srv, s, fds[0].h, up, f);
  }

  /** Whether the loop comes over f is the same before and after one close that ends. */
  lemma HangStep(srv: Srv, s: Session, fds: seq<Fd>, up: bool, f: string)
    requires Served(srv) && Known(srv, s) && fds != []
    requires FileClose(AsWritten, srv, s, fds[0].h, NO_REPLY, up).end == Returned
    ensures HangsOver(srv, s, fds, up, f)
       <==> HangsOver(FileClose(AsWritten, srv, s, fds[0].h, NO_REPLY, up).srv, s, fds[1..], up, f)
  {
    if IsEphemeral(srv, s, f) {
      var post := FileClose(AsWritten, srv, s, fds[0].h, NO_REPLY, up).srv;
      EphemeralsEndEmpty(srv, s, fds[0].h, up, f);
      NobodyHangsAt(HoldsStored(post, s, up, f), post.clients, s, post.clients[s], f, InstOf(post.db, f), fds[1..]);
    } else if fds[0].h.file != f {
      OtherHangStep(srv, s, fds, up, f);
    } else {
      OwnHangStep(srv, s, fds, up);
    }
  }

  lemma {:induction false} CloseAllHangsIff(srv: Srv, s: Session, fds: seq<Fd>, up: bool)
    requires Served(srv) && (fds == [] || Known(srv, s))
    ensures var r := CloseAll(AsWritten, srv, s, fds, up);
            r.end != Aborted && (r.end == Hung <==> exists f :: HangsOver(srv, s, fds, up, f))
    decreases fds
  {
    if fds != [] {
      var h := fds[0].h;
      var first := FileClose(AsWritten, srv, s, h, NO_REPLY, up);
      CloseKeepsServed(srv, s, h, up);
      CloseHangsIff(srv, s, h, NO_REPLY, up);
      if first.end == Returned {
        CloseAllHangsIff(first.srv, s, fds[1..], up);
        forall f ensures HangsOver(srv, s, fds, up, f) <==> HangsOver(first.srv, s, fds[1..], up, f) {
          HangStep(srv, s, fds, up, f);
        }
      } else {
        assert HangsOver(srv, s, fds, up, h.file);
      }
    }
  }

  /** As written, while the tree is intact and every waiter is known: losing a session never ends
      exactly when the closes of its handles come to the loop over some queue; else it is served
      to its end. */
  lemma DisconnectHangsIff(srv: Srv, s: Session, up: bool)
    requires Served(srv) && (Get(srv.tables.bySession, s) == [] || Known(srv, s))
    ensures var r := Disconnect(AsWritten, srv, s, up);
            r.end == if exists f :: HangsOver(srv, s, Get(srv.tables.bySession, s), up, f) then Hung else Returned
  {
    CloseAllHangsIff(srv, s, Get(srv.tables.bySession, s), up);
  }
}
