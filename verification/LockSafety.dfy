/**
 The in-memory held sets mirror the stored lock owners, and only locked files have queues.
 For the program as written this holds exactly as long as no lock is handed to a waiter.
 */
module LockSafety {
  import opened Text
  import opened Database
  import opened Handles
  import opened Service
  import opened Registrations

  /** The locked files and their owners. */
  function LockTable(db: Db): map<string, Client> {
    map f | f in db.fs && db.fs[f].owner != NO_OWNER :: db.fs[f].owner
  }

  /** What c holds is what the lock table says c owns, for every c but the mark for nobody. */
  ghost predicate Mirrors<F(!new), C(!new)>(locks: map<F, C>, held: map<C, set<F>>, nobody: C) {
    forall c, f {:trigger f in GetSet(held, c)} ::
      c != nobody ==> (f in GetSet(held, c) <==> f in locks && locks[f] == c)
  }

  ghost predicate HeldAgrees(srv: Srv) {
    Mirrors(LockTable(srv.db), srv.held, NO_OWNER)
  }

  /** At most one client holds a file. */
  lemma OneHolder(srv: Srv, file: string, c: Client, d: Client)
    requires HeldAgrees(srv) && c != NO_OWNER && d != NO_OWNER
    requires file in GetSet(srv.held, c) && file in GetSet(srv.held, d)
    ensures c == d
  {}

  ghost predicate QueuesLocked(srv: Srv) {
    forall f {:trigger f in srv.queues} :: f in srv.queues ==> f in LockTable(srv.db)
  }

  /** A queue that is kept has an entry. */
  ghost predicate QueuesFilled(srv: Srv) {
    forall f :: f in srv.queues ==> srv.queues[f] != []
  }

  /** Every waiter has introduced itself and has a handle on the file. */
  ghost predicate WaitersOk(srv: Srv) {
    forall f, w {:trigger w in Get(srv.queues, f)} :: w in Get(srv.queues, f) ==>
      Known(srv, w.session) && HasHandle(srv.tables, w.session, f)
  }

  /** No client is named like the mark for nobody. */
  ghost predicate NamesOk(srv: Srv) {
    forall s :: s in srv.clients ==> srv.clients[s] != NO_OWNER
  }

  ghost predicate LocksOk(srv: Srv) {
    HeldAgrees(srv) && QueuesLocked(srv) && QueuesFilled(srv) && NamesOk(srv)
  }

  // ---------------------------------------------------------------- the lock table under commands

  lemma LockTableAfter(db: Db, cmd: Cmd)
    ensures LockTable(Apply(db, cmd).0)
         == match cmd
            case Lock(f, _, c) => if Apply(db, cmd).1 == Ok && c != NO_OWNER then LockTable(db)[f := c]
                                  else LockTable(db)
            case Unlock(f, _) => if Apply(db, cmd).1 == Ok then LockTable(db) - {f} else LockTable(db)
            case _ => LockTable(db)
  {}

  lemma MirrorTake<F(!new), C(!new)>(locks: map<F, C>, held: map<C, set<F>>, nobody: C, f: F, c: C)
    requires Mirrors(locks, held, nobody) && (f in locks ==> locks[f] == c) && c != nobody
    ensures Mirrors(locks[f := c], held[c := GetSet(held, c) + {f}], nobody)
  {
    var held' := held[c := GetSet(held, c) + {f}];
    assert forall x, g :: g in GetSet(held', x) <==> g in GetSet(held, x) || (x == c && g == f);
  }

  /** After f leaves the lock table and c's held set the mirror is whole exactly when nobody
      else owned f. */
  lemma MirrorFreeIff<F(!new), C(!new)>(locks: map<F, C>, held: map<C, set<F>>, nobody: C, f: F, c: C)
    requires Mirrors(locks, held, nobody) && nobody !in locks.Values
    ensures Mirrors(locks - {f}, PutSet(held, c, GetSet(held, c) - {f}), nobody)
       <==> (f in locks ==> locks[f] == c)
  {
    var held' := PutSet(held, c, GetSet(held, c) - {f});
    assert forall x, g :: g in GetSet(held', x) <==> g in GetSet(held, x) && (x != c || g != f);
    if f in locks && locks[f] != c {
      assert locks[f] in locks.Values;
      assert f in GetSet(held, locks[f]) && f in GetSet(held', locks[f]);
    }
  }

  // ---------------------------------------------------------------- acquire

  lemma TakenKeepsLocks(found: Srv, s: Session, h: FileHandler, xid: Xid)
    requires LocksOk(found) && Known(found, s)
    requires Apply(found.db, Lock(h.file, h.inst, found.clients[s])).1 == Ok
    ensures var r := Taken(found, s, h.file, Apply(found.db, Lock(h.file, h.inst, found.clients[s])).0, xid);
            r.end == Returned && LocksOk(r.srv) && (WaitersOk(found) ==> WaitersOk(r.srv))
  {
    var cmd := Lock(h.file, h.inst, found.clients[s]);
    LockTableAfter(found.db, cmd);
    assert h.file !in LockTable(found.db);
    MirrorTake(LockTable(found.db), found.held, NO_OWNER, h.file, found.clients[s]);
  }

  lemma FoundKeepsLocks(srv: Srv, s: Session, h: FileHandler)
    requires LocksOk(srv)
    ensures LocksOk(Found(srv, s, h))
    ensures WaitersOk(srv) ==> WaitersOk(Found(srv, s, h))
    ensures HasHandle(Found(srv, s, h).tables, s, h.file)
  {
    FindHandle(srv.tables, s, h);
  }

  /** An acquire that cannot get the lock leaves only locked files with queues exactly when
      the file is locked; a stale handle on a free file joins a queue that nobody serves. */
  lemma AcquireKeepsLocksIff(srv: Srv, s: Session, h: FileHandler, xid: Xid)
    requires LocksOk(srv) && Known(srv, s)
    ensures var r := Acquire(srv, s, h, xid, true);
            r.end == Returned
            && (LocksOk(r.srv) <==> Live(srv.db, h.file, h.inst) || Owner(srv.db, h.file) != NO_OWNER)
            && (WaitersOk(srv) ==> WaitersOk(r.srv))
  {
    FoundKeepsLocks(srv, s, h);
    var cmd := Lock(h.file, h.inst, srv.clients[s]);
    if Apply(srv.db, cmd).1 == Ok {
      TakenKeepsLocks(Found(srv, s, h), s, h, xid);
    } else {
      var post := Acquire(srv, s, h, xid, true).srv;
      QueuedKeeps(Found(srv, s, h), s, h.file, Waiter(s, xid));
      assert h.file in post.queues;
      assert h.file in LockTable(srv.db) <==> Owner(srv.db, h.file) != NO_OWNER;
    }
  }

  lemma QueuedKeeps(found: Srv, s: Session, file: string, w: Waiter)
    requires LocksOk(found) && Known(found, s) && HasHandle(found.tables, s, file) && w.session == s
    ensures var post := found.(queues := found.queues[file := Get(found.queues, file) + [w]]);
            (LocksOk(post) <==> file in LockTable(found.db)) && (WaitersOk(found) ==> WaitersOk(post))
  {
    var post := found.(queues := found.queues[file := Get(found.queues, file) + [w]]);
    assert file in post.queues;
    if WaitersOk(found) {
      forall f, x | x in Get(post.queues, f) ensures Known(post, x.session) && HasHandle(post.tables, x.session, f) {
        assert x in Get(found.queues, f) || (f == file && x == w);
      }
    }
  }

  // ---------------------------------------------------------------- release

  /** The client the queue's head stands for. */
  function NextClient(srv: Srv, file: string): Option<Client> {
    if file in srv.queues && srv.queues[file] != [] && Known(srv, srv.queues[file][0].session)
    then Some(srv.clients[srv.queues[file][0].session])
    else None
  }

  /** What a release must find for the held sets to stay right. As written: the lock is the
      releaser's, or free, and nobody waits. With the repair, a waiter is fine. */
  predicate ReleaseFits(v: Variant, srv: Srv, client: Client, file: string) {
    var mine := Owner(srv.db, file) == NO_OWNER || Owner(srv.db, file) == client;
    if v.AsWritten? then mine && file !in srv.queues
    else mine || NextClient(srv, file) == Some(Owner(srv.db, file))
  }

  /** The next in line, if any, is still known to the server. */
  predicate HeadKnown(srv: Srv, file: string) {
    file in srv.queues ==> srv.queues[file] != [] && Known(srv, srv.queues[file][0].session)
  }

  /** A release through a live handle returns exactly when the next in line is known, and then
      keeps the held sets right exactly under ReleaseFits. */
  lemma FreedKeepsLocksIff(v: Variant, srv: Srv, s: Session, h: FileHandler, xid: Xid)
    requires LocksOk(srv) && Known(srv, s) && Live(srv.db, h.file, h.inst)
    ensures var r := Freed(v, srv.(db := Apply(srv.db, Unlock(h.file, h.inst)).0), s, h, xid);
            && (r.end == Returned <==> HeadKnown(srv, h.file))
            && (r.end == Returned ==> (HeldAgrees(r.srv) <==> ReleaseFits(v, srv, srv.clients[s], h.file)))
            && (r.end == Returned && v.Intended? && HeldAgrees(r.srv) ==> LocksOk(r.srv))
            && (WaitersOk(srv) ==> HeadKnown(srv, h.file) && WaitersOk(r.srv))
  {
    var client, file := srv.clients[s], h.file;
    var locks := LockTable(srv.db);
    var db1 := Apply(srv.db, Unlock(file, h.inst)).0;
    LockTableAfter(srv.db, Unlock(file, h.inst));
    MirrorFreeIff(locks, srv.held, NO_OWNER, file, client);
    assert file in locks <==> Owner(srv.db, file) != NO_OWNER;
    if file in srv.queues {
      assert srv.queues[file][0] in Get(srv.queues, file);
      if HeadKnown(srv, file) {
        var next := srv.clients[srv.queues[file][0].session];
        LockTableAfter(db1, Lock(file, h.inst, next));
        HandOverMirror(v, locks, srv.held, file, client, next);
        HandOverQueues(srv, Freed(v, srv.(db := db1), s, h, xid).srv, file);
      }
    }
  }

  lemma HandOverMirror(v: Variant, locks: map<string, Client>, held: map<Client, set<string>>,
                       file: string, client: Client, next: Client)
    requires Mirrors(locks, held, NO_OWNER) && NO_OWNER !in locks.Values
    requires client != NO_OWNER && next != NO_OWNER && file in locks
    ensures var freed := PutSet(held, client, GetSet(held, client) - {file});
            var taken := freed[next := GetSet(freed, next) + {file}];
            && !Mirrors(locks - {file}, taken, NO_OWNER)
            && (Mirrors((locks - {file})[file := next], taken, NO_OWNER)
                <==> locks[file] == client || locks[file] == next)
  {
    var freed := PutSet(held, client, GetSet(held, client) - {file});
    var taken := freed[next := GetSet(freed, next) + {file}];
    assert forall x, g :: g in GetSet(taken, x)
             <==> (g in GetSet(held, x) && (x != client || g != file)) || (x == next && g == file);
    assert file in GetSet(taken, next);
    if locks[file] != client && locks[file] != next {
      assert locks[file] in locks.Values;
      assert file in GetSet(held, locks[file]) && file in GetSet(taken, locks[file]);
    }
  }

  /** After the pop: the rest of the queue still waits for a lock that is held. */
  lemma HandOverQueues(srv: Srv, post: Srv, file: string)
    requires LocksOk(srv) && file in srv.queues
    requires post.queues == Put(srv.queues, file, srv.queues[file][1..])
    requires post.clients == srv.clients && post.tables == srv.tables
    ensures NamesOk(post) && QueuesFilled(post)
    ensures LockTable(post.db).Keys == LockTable(srv.db).Keys ==> QueuesLocked(post)
    ensures WaitersOk(srv) ==> WaitersOk(post)
  {
    if WaitersOk(srv) {
      forall f, w | w in Get(post.queues, f)
        ensures Known(post, w.session) && HasHandle(post.tables, w.session, f)
      {
        assert w in Get(srv.queues, f);
      }
    }
  }
}
