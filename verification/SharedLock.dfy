/**
 One lock as its clients see it, and that the service behaves so: what an acquire and a
 release do to the stored owner and to the queue of one file.
 */
module SharedLock {
  import opened Text
  import opened Database
  import opened Handles
  import opened Service
  import opened LockSafety

  /** The owner the store knows and the clients in the queue. Stopped: an assertion of the
      server failed. */
  datatype SharedLock<C> = SharedLock(owner: Option<C>, queue: seq<C>, stopped: bool)

  /** A client asks. Nobody may be waiting for a free lock. */
  function AskFor<C>(l: SharedLock<C>, c: C): SharedLock<C> {
    if l.owner.Some? then l.(queue := l.queue + [c])
    else if l.queue == [] then l.(owner := Some(c))
    else l.(stopped := true)
  }

  /** The lock is given back; the head of the queue is told that it has it. As written, the
      store is not told. */
  function GiveBack<C>(v: Variant, l: SharedLock<C>): SharedLock<C> {
    if l.queue == [] then l.(owner := None)
    else l.(owner := if v.Intended? then Some(l.queue[0]) else None, queue := l.queue[1..])
  }

  // ---------------------------------------------------------------- the service is such a lock

  function ClientOf(srv: Srv, s: Session): Client {
    if s in srv.clients then srv.clients[s] else ""
  }

  function ClientsOf(srv: Srv, q: seq<Waiter>): seq<Client> {
    seq(|q|, i requires 0 <= i < |q| => ClientOf(srv, q[i].session))
  }

  /** The lock of a file in a running server. */
  function LockOf(srv: Srv, file: string): SharedLock<Client> {
    SharedLock(if Owner(srv.db, file) == NO_OWNER then None else Some(Owner(srv.db, file)),
               ClientsOf(srv, Get(srv.queues, file)), false)
  }

  lemma AppendedClients(srv: Srv, q: seq<Waiter>, w: Waiter)
    ensures ClientsOf(srv, q + [w]) == ClientsOf(srv, q) + [ClientOf(srv, w.session)]
  {}

  lemma OwnerAfterLock(db: Db, file: string, inst: nat, client: Client)
    requires Live(db, file, inst)
    ensures var (post, r) := Apply(db, Lock(file, inst, client));
            if Owner(db, file) == NO_OWNER then r == Ok && Owner(post, file) == client
            else r == Fails && post == db
  {}

  lemma OwnerAfterUnlock(db: Db, file: string, inst: nat)
    requires Live(db, file, inst)
    ensures Apply(db, Unlock(file, inst)).1 == Ok && Owner(Apply(db, Unlock(file, inst)).0, file) == NO_OWNER
  {}

  lemma DroppedClients(srv: Srv, post: Srv, q: seq<Waiter>)
    requires q != [] && post.clients == srv.clients
    ensures ClientsOf(post, q[1..]) == ClientsOf(srv, q)[1..]
  {}

  lemma TakenLock(found: Srv, s: Session, file: string, db: Db, xid: Xid)
    requires Known(found, s) && xid != NO_REPLY && file !in found.queues
    ensures var r := Taken(found, s, file, db, xid);
            && r.end == Returned && Reply(s, xid, Value(true)) in r.out
            && r.srv.db == db && r.srv.queues == found.queues && r.srv.clients == found.clients
  {}

  lemma FreeIsTaken(srv: Srv, s: Session, h: FileHandler, xid: Xid)
    requires Known(srv, s) && Live(srv.db, h.file, h.inst) && xid != NO_REPLY
    requires srv.clients[s] != NO_OWNER && Owner(srv.db, h.file) == NO_OWNER
    ensures var r := Acquire(srv, s, h, xid, true);
            && r.end == (if h.file in srv.queues then Aborted else Returned)
            && (r.end == Returned ==>
                  && LockOf(r.srv, h.file) == SharedLock(Some(srv.clients[s]), [], false)
                  && Reply(s, xid, Value(true)) in r.out)
            && (r.end == Aborted ==> r.out == [])
  {
    var db := Apply(srv.db, Lock(h.file, h.inst, srv.clients[s])).0;
    OwnerAfterLock(srv.db, h.file, h.inst, srv.clients[s]);
    assert Acquire(srv, s, h, xid, true) == Taken(Found(srv, s, h), s, h.file, db, xid);
    if h.file !in srv.queues {
      TakenLock(Found(srv, s, h), s, h.file, db, xid);
    }
  }

  lemma TakenIsQueued(srv: Srv, s: Session, h: FileHandler, xid: Xid)
    requires Known(srv, s) && Live(srv.db, h.file, h.inst) && Owner(srv.db, h.file) != NO_OWNER
    ensures var r, l := Acquire(srv, s, h, xid, true), LockOf(srv, h.file);
            r.end == Returned && r.out == [] && LockOf(r.srv, h.file) == l.(queue := l.queue + [srv.clients[s]])
  {
    var q := Get(srv.queues, h.file);
    OwnerAfterLock(srv.db, h.file, h.inst, srv.clients[s]);
    var post := Acquire(srv, s, h, xid, true).srv;
    assert Get(post.queues, h.file) == q + [Waiter(s, xid)] && post.db == srv.db && post.clients == srv.clients;
    AppendedClients(srv, q, Waiter(s, xid));
    assert ClientsOf(post, q + [Waiter(s, xid)]) == ClientsOf(srv, q + [Waiter(s, xid)]);
  }

  /** An acquire through a live handle asks for the lock: it is told true at once exactly when
      the lock was free and nobody waited, and it stops the server exactly when it stops the lock. */
  lemma AcquireAsks(srv: Srv, s: Session, h: FileHandler, xid: Xid)
    requires h.file in srv.queues ==> srv.queues[h.file] != []
    requires Known(srv, s) && Live(srv.db, h.file, h.inst) && xid != NO_REPLY && srv.clients[s] != NO_OWNER
    ensures var r, l := Acquire(srv, s, h, xid, true), LockOf(srv, h.file);
            && r.end == (if AskFor(l, srv.clients[s]).stopped then Aborted else Returned)
            && (r.end == Returned ==> LockOf(r.srv, h.file) == AskFor(l, srv.clients[s]))
            && (Reply(s, xid, Value(true)) in r.out <==> l.owner == None && l.queue == [])
  {
    assert LockOf(srv, h.file).queue == [] <==> h.file !in srv.queues;
    if Owner(srv.db, h.file) == NO_OWNER {
      FreeIsTaken(srv, s, h, xid);
    } else {
      TakenIsQueued(srv, s, h, xid);
    }
  }

  lemma HandedOver(v: Variant, freed: Srv, h: FileHandler)
    requires HeadKnown(freed, h.file) && Get(freed.queues, h.file) != []
    requires Live(freed.db, h.file, h.inst) && Owner(freed.db, h.file) == NO_OWNER
    ensures var r, head := HandOver(v, freed, h), freed.queues[h.file][0];
            && r.end == Returned && r.srv.clients == freed.clients
            && Get(r.srv.queues, h.file) == freed.queues[h.file][1..]
            && Owner(r.srv.db, h.file) == (if v.Intended? then freed.clients[head.session] else NO_OWNER)
            && (head.xid != NO_REPLY ==> Reply(head.session, head.xid, Value(true)) in r.out)
  {
    OwnerAfterLock(freed.db, h.file, h.inst, freed.clients[freed.queues[h.file][0].session]);
  }

  lemma FreedLock(v: Variant, srv: Srv, s: Session, h: FileHandler, xid: Xid)
    requires Known(srv, s) && Live(srv.db, h.file, h.inst) && Owner(srv.db, h.file) == NO_OWNER
    requires HeadKnown(srv, h.file) && forall t :: t in srv.clients ==> srv.clients[t] != NO_OWNER
    ensures var r := Freed(v, srv, s, h, xid);
            && r.end == Returned && LockOf(r.srv, h.file) == GiveBack(v, LockOf(srv, h.file))
            && (Get(srv.queues, h.file) != [] ==>
                  var head := srv.queues[h.file][0];
                  head.xid != NO_REPLY ==> Reply(head.session, head.xid, Value(true)) in r.out)
  {
    var mid := srv.(held := PutSet(srv.held, srv.clients[s], GetSet(srv.held, srv.clients[s]) - {h.file}));
    var post := Freed(v, srv, s, h, xid).srv;
    assert post == HandOver(v, mid, h).srv;
    if Get(srv.queues, h.file) != [] {
      HandedOver(v, mid, h);
      DroppedClients(srv, post, srv.queues[h.file]);
    } else {
      assert h.file !in srv.queues;
    }
  }

  /** A release through a live handle gives the lock back, in either variant, and tells the
      head of the queue, if any, that it has it. */
  lemma ReleaseGivesBack(v: Variant, srv: Srv, s: Session, h: FileHandler, xid: Xid)
    requires Known(srv, s) && Live(srv.db, h.file, h.inst) && HeadKnown(srv, h.file)
    requires forall t :: t in srv.clients ==> srv.clients[t] != NO_OWNER
    ensures var r := Release(v, srv, s, h, xid, true);
            && r.end == Returned && LockOf(r.srv, h.file) == GiveBack(v, LockOf(srv, h.file))
            && (Get(srv.queues, h.file) != [] ==>
                  var head := srv.queues[h.file][0];
                  head.xid != NO_REPLY ==> Reply(head.session, head.xid, Value(true)) in r.out)
  {
    var db := Apply(srv.db, Unlock(h.file, h.inst)).0;
    var freed := Found(srv, s, h).(db := db);
    OwnerAfterUnlock(srv.db, h.file, h.inst);
    FreedLock(v, freed, s, h, xid);
    assert ClientsOf(freed, Get(srv.queues, h.file)) == ClientsOf(srv, Get(srv.queues, h.file));
    assert Release(v, srv, s, h, xid, true) == Freed(v, freed, s, h, xid);
  }

  /** Reads and writes are nothing to it. */
  lemma ReadsAndWritesKeepLocks(srv: Srv, s: Session, h: FileHandler, content: string, xid: Xid, up: bool, file: string)
    ensures LockOf(GetContentsAndStat(srv, s, h, xid, up).srv, file) == LockOf(srv, file)
    ensures LockOf(SetContents(srv, s, h, content, xid, up).srv, file) == LockOf(srv, file)
  {}
}
