/**
 Clients that have one session each and do not ask for a lock they hold or wait for: every
 lock is held by a session with an open handle on the file, so losing the session gives up
 all its locks, if the replica that serves the loss can run commands.
 */
module Ownership {
  import opened Database
  import opened Handles
  import opened Service
  import opened Registrations
  import opened LockSafety
  import opened Requests
  import opened Disconnecting
  import opened Runs
  import opened LiveHandles

  /** The session's client holds the file. */
  predicate Holds(srv: Srv, s: Session, f: string) {
    s in srv.clients && f in GetSet(srv.held, srv.clients[s])
  }

  ghost predicate OneSession<S(!new), C(!new)>(clients: map<S, C>) {
    forall s, t {:trigger clients[s], clients[t]} ::
      s in clients && t in clients && clients[s] == clients[t] ==> s == t
  }

  /** No session waits twice. */
  ghost predicate Distinct(q: seq<Waiter>) {
    forall i, j :: 0 <= i < j < |q| ==> q[i].session != q[j].session
  }

  ghost predicate AllDistinct(queues: map<string, seq<Waiter>>) {
    forall f {:trigger Get(queues, f)} :: Distinct(Get(queues, f))
  }

  ghost predicate HoldersOpen(srv: Srv) {
    forall s, f {:trigger Holds(srv, s, f)} :: Holds(srv, s, f) ==> HasHandle(srv.tables, s, f)
  }

  ghost predicate WaitersProper(srv: Srv) {
    && (forall f, w {:trigger w in Get(srv.queues, f)} :: w in Get(srv.queues, f) ==> !Holds(srv, w.session, f))
    && AllDistinct(srv.queues)
  }

  ghost predicate Proper(srv: Srv) {
    OneSession(srv.clients) && HoldersOpen(srv) && WaitersProper(srv)
  }

  ghost predicate MoreOpen(srv: Srv, post: Srv) {
    forall x, f {:trigger HasHandle(srv.tables, x, f)} ::
      HasHandle(srv.tables, x, f) ==> HasHandle(post.tables, x, f)
  }

  // ---------------------------------------------------------------- the shapes of change

  lemma OnlyHandles(srv: Srv, post: Srv)
    requires Proper(srv) && MoreOpen(srv, post)
    requires post.clients == srv.clients && post.held == srv.held && post.queues == srv.queues
    ensures Proper(post)
  {
    forall s, f | Holds(post, s, f) ensures HasHandle(post.tables, s, f) {
      assert Holds(srv, s, f);
    }
    forall f, w | w in Get(post.queues, f) ensures !Holds(post, w.session, f) {
      assert w in Get(srv.queues, f) && !Holds(srv, w.session, f);
    }
  }

  lemma TakesLock(srv: Srv, post: Srv, s: Session, file: string)
    requires Proper(srv) && s in srv.clients && file !in srv.queues
    requires MoreOpen(srv, post) && HasHandle(post.tables, s, file)
    requires post.clients == srv.clients && post.queues == srv.queues
    requires post.held == srv.held[srv.clients[s] := GetSet(srv.held, srv.clients[s]) + {file}]
    ensures Proper(post)
  {
    forall x, f | Holds(post, x, f) ensures HasHandle(post.tables, x, f) {
      assert Holds(srv, x, f) || (x == s && f == file);
    }
    forall f, w | w in Get(post.queues, f) ensures !Holds(post, w.session, f) {
      assert w in Get(srv.queues, f) && !Holds(srv, w.session, f);
      assert f != file;
    }
  }

  lemma JoinsQueue(srv: Srv, post: Srv, file: string, w: Waiter)
    requires Proper(srv) && MoreOpen(srv, post) && !Holds(srv, w.session, file)
    requires forall x :: x in Get(srv.queues, file) ==> x.session != w.session
    requires post.clients == srv.clients && post.held == srv.held
    requires post.queues == srv.queues[file := Get(srv.queues, file) + [w]]
    ensures Proper(post)
  {
    forall s, f | Holds(post, s, f) ensures HasHandle(post.tables, s, f) {
      assert Holds(srv, s, f);
    }
    forall f, x | x in Get(post.queues, f) ensures !Holds(post, x.session, f) {
      assert Holds(post, x.session, f) <==> Holds(srv, x.session, f);
      assert x in Get(srv.queues, f) || (f == file && x == w);
    }
    forall f ensures Distinct(Get(post.queues, f)) {
      assert Distinct(Get(srv.queues, f));
      if f == file { assert forall i :: 0 <= i < |Get(srv.queues, f)| ==> Get(srv.queues, f)[i] in Get(srv.queues, f); }
    }
  }

  /** The lock leaves session s and, if somebody waits, goes to the head of the queue. */
  lemma PassesLock(srv: Srv, post: Srv, s: Session, file: string, mid: map<Client, set<string>>)
    requires Proper(srv) && s in srv.clients && MoreOpen(srv, post) && post.clients == srv.clients
    requires mid == PutSet(srv.held, srv.clients[s], GetSet(srv.held, srv.clients[s]) - {file})
    requires file !in srv.queues ==> post.held == mid && post.queues == srv.queues
    requires file in srv.queues ==>
               var q := srv.queues[file];
               && q != [] && q[0].session in srv.clients && HasHandle(srv.tables, q[0].session, file)
               && post.held == mid[srv.clients[q[0].session] := GetSet(mid, srv.clients[q[0].session]) + {file}]
               && post.queues == Put(srv.queues, file, q[1..])
    ensures Proper(post)
  {
    forall x, f | Holds(post, x, f) ensures HasHandle(post.tables, x, f) {
      assert Holds(srv, x, f) || (file in srv.queues && f == file && x == srv.queues[file][0].session);
    }
    forall f, w | w in Get(post.queues, f) ensures !Holds(post, w.session, f) {
      assert w in Get(srv.queues, f) && !Holds(srv, w.session, f);
      if f == file {
        var q := srv.queues[file];
        assert Distinct(Get(srv.queues, file));
        var i :| 0 <= i < |q[1..]| && q[1..][i] == w;
        assert q[i + 1] == w && w.session != q[0].session;
      }
    }
    forall f ensures Distinct(Get(post.queues, f)) {
      assert Distinct(Get(srv.queues, f));
    }
  }

  /** Handles and queue entries go, but nobody loses the last handle on a file it holds. */
  lemma LosesHandles(srv: Srv, post: Srv)
    requires Proper(srv) && post.clients == srv.clients && post.held == srv.held
    requires forall x, f {:trigger Holds(srv, x, f)} :: Holds(srv, x, f) ==> HasHandle(post.tables, x, f)
    requires FewerWaiters(srv, post) && AllDistinct(post.queues)
    ensures Proper(post)
  {
    forall s, f | Holds(post, s, f) ensures HasHandle(post.tables, s, f) {
      assert Holds(srv, s, f);
    }
    forall f, w | w in Get(post.queues, f) ensures !Holds(post, w.session, f) {
      assert w in Get(srv.queues, f) && !Holds(srv, w.session, f);
    }
  }

  lemma {:induction false} NotOfDistinct(q: seq<Waiter>, s: Session)
    requires Distinct(q)
    ensures Distinct(NotOf(q, s))
  {
    if q != [] {
      var front, last := q[..|q| - 1], q[|q| - 1];
      NotOfDistinct(front, s);
      forall w | w in NotOf(front, s) ensures w.session != last.session {
        assert w in front;
      }
    }
  }

  // ---------------------------------------------------------------- the requests

  lemma LookupOpensMore(srv: Srv, s: Session, h: FileHandler)
    ensures MoreOpen(srv, Found(srv, s, h)) && HasHandle(Found(srv, s, h).tables, s, h.file)
  {}

  lemma LookedUpProper(srv: Srv, s: Session, h: FileHandler)
    requires Proper(srv)
    ensures Proper(Found(srv, s, h))
  {
    LookupOpensMore(srv, s, h);
    OnlyHandles(srv, Found(srv, s, h));
  }

  lemma StoreIsFree(srv: Srv, db: Db)
    requires Proper(srv)
    ensures Proper(srv.(db := db))
  {
    OnlyHandles(srv, srv.(db := db));
  }

  lemma EnteredProper(srv: Srv, s: Session, file: string, mode: nat, ephemeral: bool, masterSeq: nat,
                      inst: nat, xid: Xid)
    requires Proper(srv) && Known(srv, s)
    ensures Proper(Entered(srv, s, file, mode, ephemeral, masterSeq, inst, xid).srv)
  {
    AddHandle(srv.tables, s, FileHandler(Magic(file, inst, Has(mode, WRITE)), masterSeq, file, inst, Has(mode, WRITE)));
    OnlyHandles(srv, Entered(srv, s, file, mode, ephemeral, masterSeq, inst, xid).srv);
  }

  lemma OpenProper(srv: Srv, s: Session, file: string, mode: nat, masterSeq: nat, xid: Xid, up: bool)
    requires Proper(srv)
    ensures Proper(FileOpen(srv, s, file, mode, masterSeq, xid, up).srv)
  {
    var (db, r) := Apply(srv.db, OpenCommand(file, mode));
    StoreIsFree(srv, db);
    if Known(srv, s) && r.Number? {
      EnteredProper(srv.(db := db), s, file, mode, OpenCommand(file, mode).Create? && Has(mode, EPHEMERAL),
                    masterSeq, r.inst, xid);
    }
  }

  lemma ReopenProper(srv: Srv, s: Session, h: FileHandler, mode: nat, xid: Xid)
    requires Proper(srv)
    ensures Proper(FileReopen(srv, s, h, mode, xid).srv)
  {
    AddHandle(srv.tables, s, h);
    OnlyHandles(srv, FileReopen(srv, s, h, mode, xid).srv);
  }

  lemma WriteProper(srv: Srv, s: Session, h: FileHandler, content: string, xid: Xid, up: bool)
    requires Proper(srv)
    ensures Proper(SetContents(srv, s, h, content, xid, up).srv)
  {
    LookupOpensMore(srv, s, h);
    OnlyHandles(srv, SetContents(srv, s, h, content, xid, up).srv);
  }

  lemma TakenProper(srv: Srv, s: Session, h: FileHandler, db: Db, xid: Xid)
    requires Proper(srv) && Known(srv, s)
    ensures Proper(Taken(Found(srv, s, h), s, h.file, db, xid).srv)
  {
    var found := Found(srv, s, h);
    LookupOpensMore(srv, s, h);
    var post := Taken(found, s, h.file, db, xid).srv;
    if h.file in srv.queues {
      OnlyHandles(srv, post);
    } else {
      TakesLock(srv, post, s, h.file);
    }
  }

  lemma TryAcquireProper(srv: Srv, s: Session, h: FileHandler, xid: Xid, up: bool)
    requires Proper(srv)
    ensures Proper(TryAcquire(srv, s, h, xid, up).srv)
  {
    LookedUpProper(srv, s, h);
    if Known(srv, s) {
      TakenProper(srv, s, h, Apply(srv.db, Lock(h.file, h.inst, srv.clients[s])).0, xid);
    }
  }

  lemma AcquireProper(srv: Srv, s: Session, h: FileHandler, xid: Xid, up: bool)
    requires Proper(srv) && Known(srv, s)
    requires up ==> !Holds(srv, s, h.file) && forall w :: w in Get(srv.queues, h.file) ==> w.session != s
    ensures Proper(Acquire(srv, s, h, xid, up).srv)
  {
    var (db, r) := Apply(srv.db, Lock(h.file, h.inst, srv.clients[s]));
    if !up {
      LookedUpProper(srv, s, h);
    } else if r == Ok {
      TakenProper(srv, s, h, db, xid);
    } else {
      LookupOpensMore(srv, s, h);
      JoinsQueue(srv, Acquire(srv, s, h, xid, true).srv, h.file, Waiter(s, xid));
    }
  }

  lemma FreedProper(srv: Srv, s: Session, h: FileHandler, xid: Xid)
    requires Proper(srv) && QueuesFilled(srv) && WaitersOk(srv) && Known(srv, s)
    ensures Proper(Freed(Intended, srv, s, h, xid).srv)
  {
    var post := Freed(Intended, srv, s, h, xid).srv;
    if h.file in srv.queues {
      assert srv.queues[h.file][0] in Get(srv.queues, h.file);
    }
    PassesLock(srv, post, s, h.file, PutSet(srv.held, srv.clients[s], GetSet(srv.held, srv.clients[s]) - {h.file}));
  }

  lemma ReleaseProper(srv: Srv, s: Session, h: FileHandler, xid: Xid, up: bool)
    requires Proper(srv) && Good(srv) && Known(srv, s)
    ensures Proper(Release(Intended, srv, s, h, xid, up).srv)
  {
    LookedUpProper(srv, s, h);
    FoundIsGood(srv, s, h);
    var found := Found(srv, s, h);
    if up && Apply(srv.db, Unlock(h.file, h.inst)).1 == Ok {
      var db := Apply(srv.db, Unlock(h.file, h.inst)).0;
      StoreIsFree(found, db);
      FreedProper(found.(db := db), s, h, xid);
    }
  }

  /** Nobody holds a file that can be deleted. */
  lemma NobodyHolds(srv: Srv, file: string, inst: nat)
    requires LocksOk(srv) && Apply(srv.db, Delete(file, inst)).1 == Ok
    ensures forall s :: !Holds(srv, s, file)
  {}

  lemma DeleteProper(srv: Srv, s: Session, h: FileHandler, xid: Xid, up: bool)
    requires Proper(srv) && Good(srv) && Known(srv, s)
    ensures Proper(FileDelete(srv, s, h, xid, up).srv)
  {
    LookedUpProper(srv, s, h);
    FoundIsGood(srv, s, h);
    var found := Found(srv, s, h);
    var (db, r) := Apply(srv.db, Delete(h.file, h.inst));
    if up && r == Ok {
      NobodyHolds(found, h.file, h.inst);
      DeleteDropsNoWaiter(found, h.file, h.inst);
      var post := Purged(found.(db := db), s, h.file, xid).srv;
      forall x, f | Holds(found, x, f) ensures HasHandle(post.tables, x, f) {
        assert f != h.file;
        DropFileHandles(found.tables, h.file, x, f);
      }
      LosesHandles(found, post);
    }
  }

  lemma ForgetProper(srv: Srv, s: Session, fd: Fd)
    requires Proper(srv)
    requires Holds(srv, s, fd.h.file) ==>
               exists g :: g in Get(srv.tables.bySession, s) && g != fd && g.h.file == fd.h.file
    ensures Proper(Forget(Intended, srv, s, fd).srv)
  {
    var post := Forget(Intended, srv, s, fd).srv;
    DropHandle(srv.tables, s, fd);
    forall x, f | Holds(srv, x, f) ensures HasHandle(post.tables, x, f) {
      if x == s && f == fd.h.file {
        var g :| g in Get(srv.tables.bySession, s) && g != fd && g.h.file == fd.h.file;
        assert g in Get(post.tables.bySession, s);
      }
    }
    forall f ensures Distinct(Get(post.queues, f)) {
      assert Distinct(Get(srv.queues, f));
      NotOfDistinct(Get(srv.queues, f), s);
    }
    ForgetEffect(srv, s, fd);
    LosesHandles(srv, post);
  }

  lemma SelfWaitFree(srv: Srv, s: Session)
    requires Proper(srv) && Known(srv, s)
    ensures NoSelfWait(srv, srv.clients[s])
  {}

  /** After the first half of a close the session holds the file only through other handles. */
  lemma StillOpen(srv: Srv, s: Session, h: FileHandler)
    requires Proper(srv) && Good(srv) && Known(srv, s) && AllLive(srv.tables, srv.db)
    ensures var mid := Reclaim(Intended, Found(srv, s, h), s, h, true).srv;
            var fd := Find(srv.tables, s, h).1;
            Holds(mid, s, h.file) ==>
              exists g :: g in Get(mid.tables.bySession, s) && g != fd && g.h.file == h.file
  {
    var found := Found(srv, s, h);
    var fd := Find(srv.tables, s, h).1;
    var mid := Reclaim(Intended, found, s, h, true).srv;
    LookedUpProper(srv, s, h);
    FoundIsGood(srv, s, h);
    SelfWaitFree(found, s);
    ReclaimEffect(found, s, h);
    ReclaimFrame(found, s, h, true);
    FindAgain(srv.tables, s, h);
    if Holds(mid, s, h.file) {
      assert !Live(srv.db, h.file, h.inst);
      assert Holds(srv, s, h.file) && HasHandle(srv.tables, s, h.file);
      var g :| g in Get(srv.tables.bySession, s) && g.h.file == h.file;
      assert Live(srv.db, g.h.file, g.h.inst) && g != fd;
      assert g in Get(found.tables.bySession, s);
    }
  }

  lemma LetGoProper(srv: Srv, s: Session, fd: Fd, xid: Xid, up: bool)
    requires Proper(srv) && Good(srv) && Known(srv, s)
    requires Holds(srv, s, fd.h.file) ==>
               exists g :: g in Get(srv.tables.bySession, s) && g != fd && g.h.file == fd.h.file
    ensures Proper(LetGo(Intended, srv, s, fd, xid, up).srv)
  {
    if IsEphemeral(srv, s, fd.h.file) {
      DeleteProper(srv, s, fd.h, NO_REPLY, up);
    } else {
      ForgetProper(srv, s, fd);
    }
  }

  /** A close gives up a lock it names, or was not about one. */
  lemma CloseProper(srv: Srv, s: Session, h: FileHandler, xid: Xid, up: bool)
    requires Proper(srv) && Good(srv) && Known(srv, s) && AllLive(srv.tables, srv.db)
    requires up || !Holds(srv, s, h.file)
    ensures Proper(FileClose(Intended, srv, s, h, xid, up).srv)
  {
    var found := Found(srv, s, h);
    LookedUpProper(srv, s, h);
    FoundIsGood(srv, s, h);
    ReleaseProper(found, s, h, NO_REPLY, up);
    ReclaimIsGood(found, s, h, up);
    if up { StillOpen(srv, s, h); }
    LetGoProper(Reclaim(Intended, found, s, h, up).srv, s, Find(srv.tables, s, h).1, xid, up);
  }

  lemma {:induction false} CloseAllProper(srv: Srv, s: Session, fds: seq<Fd>)
    requires Proper(srv) && Good(srv) && (fds == [] || Known(srv, s)) && AllLive(srv.tables, srv.db)
    requires forall fd :: fd in fds ==> LiveOrPlain(srv, s, fd.h.file, fd.h.inst)
    ensures Proper(CloseAll(Intended, srv, s, fds, true).srv)
    decreases fds
  {
    if fds != [] {
      var h := fds[0].h;
      var post := FileClose(Intended, srv, s, h, NO_REPLY, true).srv;
      assert Proper(post) by { CloseProper(srv, s, h, NO_REPLY, true); }
      assert Good(post) && post.clients == srv.clients
             && FileClose(Intended, srv, s, h, NO_REPLY, true).end == Returned by {
        CloseIsGood(srv, s, h, NO_REPLY, true);
      }
      assert AllLive(post.tables, post.db) by {
        assert fds[0] in fds;
        CloseKeepsLiveIff(Intended, srv, s, h, NO_REPLY, true);
      }
      forall fd | fd in fds[1..] ensures LiveOrPlain(post, s, fd.h.file, fd.h.inst) {
        assert fd in fds;
        CloseKeepsOthersLive(Intended, srv, s, h, true, fd.h.file, fd.h.inst);
      }
      CloseAllProper(post, s, fds[1..]);
    }
  }

  /** While the server does not lead, a close takes no lock from anybody, and handles and queue
      entries only from its session. */
  ghost predicate OnlyLeaves(srv: Srv, post: Srv, s: Session) {
    && post.clients == srv.clients && post.held == srv.held && FewerWaiters(srv, post) && AllDistinct(post.queues)
    && (forall x, f {:trigger HasHandle(srv.tables, x, f)} ::
          x != s && HasHandle(srv.tables, x, f) ==> HasHandle(post.tables, x, f))
  }

  lemma ForgetOnlyLeaves(srv: Srv, s: Session, fd: Fd)
    requires AllDistinct(srv.queues)
    ensures OnlyLeaves(srv, Forget(Intended, srv, s, fd).srv, s)
  {
    var post := Forget(Intended, srv, s, fd).srv;
    ForgetShape(Intended, srv, s, fd);
    ForgetEffect(srv, s, fd);
    DropHandle(srv.tables, s, fd);
    forall f ensures Distinct(Get(post.queues, f)) {
      assert Distinct(Get(srv.queues, f));
      NotOfDistinct(Get(srv.queues, f), s);
    }
  }

  lemma LetGoOnlyLeaves(srv: Srv, s: Session, fd: Fd)
    requires Known(srv, s) && AllDistinct(srv.queues)
    ensures OnlyLeaves(srv, LetGo(Intended, srv, s, fd, NO_REPLY, false).srv, s)
    ensures LetGo(Intended, srv, s, fd, NO_REPLY, false).end == Returned
  {
    if IsEphemeral(srv, s, fd.h.file) {
      LookupOpensMore(srv, s, fd.h);
    } else {
      ForgetOnlyLeaves(srv, s, fd);
    }
  }

  /** Without a leader nothing is reclaimed. */
  lemma NothingReclaimed(srv: Srv, s: Session, h: FileHandler)
    requires Known(srv, s) && AllDistinct(srv.queues)
    ensures OnlyLeaves(srv, Reclaim(Intended, Found(srv, s, h), s, h, false).srv, s)
    ensures Reclaim(Intended, Found(srv, s, h), s, h, false).end == Returned
  {
    LookupOpensMore(srv, s, h);
    LookupOpensMore(Found(srv, s, h), s, h);
  }

  lemma CloseOnlyLeaves(srv: Srv, s: Session, h: FileHandler)
    requires Known(srv, s) && AllDistinct(srv.queues)
    ensures OnlyLeaves(srv, FileClose(Intended, srv, s, h, NO_REPLY, false).srv, s)
    ensures FileClose(Intended, srv, s, h, NO_REPLY, false).end == Returned
  {
    var mid, fd := Reclaim(Intended, Found(srv, s, h), s, h, false).srv, Find(srv.tables, s, h).1;
    NothingReclaimed(srv, s, h);
    LetGoOnlyLeaves(mid, s, fd);
    FewerTwice(srv, mid, LetGo(Intended, mid, s, fd, NO_REPLY, false).srv);
  }

  lemma {:induction false} CloseAllOnlyLeaves(srv: Srv, s: Session, fds: seq<Fd>)
    requires fds == [] || Known(srv, s)
    requires AllDistinct(srv.queues)
    ensures OnlyLeaves(srv, CloseAll(Intended, srv, s, fds, false).srv, s)
    ensures CloseAll(Intended, srv, s, fds, false).end == Returned
    decreases fds
  {
    if fds != [] {
      var post := FileClose(Intended, srv, s, fds[0].h, NO_REPLY, false).srv;
      CloseOnlyLeaves(srv, s, fds[0].h);
      CloseAllOnlyLeaves(post, s, fds[1..]);
      FewerTwice(srv, post, CloseAll(Intended, post, s, fds[1..], false).srv);
    }
  }

  /** The session goes: only what it holds and has open is forgotten with it. */
  lemma ForgottenProper(srv: Srv, closed: Srv, s: Session)
    requires OneSession(srv.clients) && WaitersProper(srv) && WaitersProper(closed) && closed.clients == srv.clients
    requires forall x, f {:trigger Holds(closed, x, f)} ::
               x != s && Holds(closed, x, f) ==> HasHandle(closed.tables, x, f)
    ensures Proper(closed.(clients := closed.clients - {s}))
  {
    var post := closed.(clients := closed.clients - {s});
    forall x, f | Holds(post, x, f) ensures HasHandle(post.tables, x, f) {
      assert Holds(closed, x, f);
    }
    forall f, w | w in Get(post.queues, f) ensures !Holds(post, w.session, f) {
      assert w in Get(closed.queues, f) && !Holds(closed, w.session, f);
    }
  }

  lemma LeavingKeepsWaitersProper(srv: Srv, post: Srv, s: Session)
    requires WaitersProper(srv) && HoldersOpen(srv) && OnlyLeaves(srv, post, s)
    ensures WaitersProper(post)
    ensures forall x, f {:trigger Holds(post, x, f)} :: x != s && Holds(post, x, f) ==> HasHandle(post.tables, x, f)
  {
    forall f, w | w in Get(post.queues, f) ensures !Holds(post, w.session, f) {
      assert w in Get(srv.queues, f) && !Holds(srv, w.session, f);
    }
    forall x, f | x != s && Holds(post, x, f) ensures HasHandle(post.tables, x, f) {
      assert Holds(srv, x, f) && HasHandle(srv.tables, x, f);
    }
  }

  lemma DisconnectProper(srv: Srv, s: Session, up: bool)
    requires Proper(srv) && Good(srv) && AllLive(srv.tables, srv.db)
    requires Get(srv.tables.bySession, s) == [] || Known(srv, s)
    ensures Proper(Disconnect(Intended, srv, s, up).srv)
  {
    var fds := Get(srv.tables.bySession, s);
    var closed := CloseAll(Intended, srv, s, fds, up).srv;
    assert CloseAll(Intended, srv, s, fds, up).end == Returned && closed.clients == srv.clients by {
      CloseAllIsGood(srv, s, fds, up);
    }
    if up {
      forall fd | fd in fds ensures LiveOrPlain(srv, s, fd.h.file, fd.h.inst) {
        assert Live(srv.db, fd.h.file, fd.h.inst);
      }
      CloseAllProper(srv, s, fds);
    } else {
      CloseAllOnlyLeaves(srv, s, fds);
      LeavingKeepsWaitersProper(srv, closed, s);
    }
    ForgottenProper(srv, closed, s);
  }

  lemma StartProper(srv: Srv, s: Session, client: Client, xid: Xid)
    requires Proper(srv) && s !in srv.clients && client !in srv.clients.Values && GetSet(srv.held, client) == {}
    ensures Proper(StartSession(srv, s, client, xid, true).srv)
  {
    var post := srv.(clients := srv.clients[s := client]);
    forall x, f | Holds(post, x, f) ensures Holds(srv, x, f) && HasHandle(post.tables, x, f) {
      assert x != s;
      assert Holds(srv, x, f);
    }
    forall f, w | w in Get(post.queues, f) ensures !Holds(post, w.session, f) {
      assert w in Get(srv.queues, f) && !Holds(srv, w.session, f);
    }
    assert WaitersProper(srv);
  }

  // ---------------------------------------------------------------- careful clients

  /** A client has one session and starts without locks, does not ask for a lock that it holds
      or waits for, and closes no file it holds while the server does not lead. */
  ghost predicate Careful(srv: Srv, op: Op) {
    match op
    case StartOp(s, client, _, up) =>
      up ==> s !in srv.clients && client !in srv.clients.Values && GetSet(srv.held, client) == {}
    case AcquireOp(s, h, _, up) =>
      up ==> !Holds(srv, s, h.file) && forall w :: w in Get(srv.queues, h.file) ==> w.session != s
    case CloseOp(s, h, _, up) => up || !Holds(srv, s, h.file)
    case _ => true
  }

  lemma StepProper(srv: Srv, op: Op)
    requires Proper(srv) && Good(srv) && AllLive(srv.tables, srv.db)
    requires Answerable(srv, op) && Careful(srv, op)
    ensures Proper(Step(Intended, srv, op).srv)
  {
    match op
    case OpenOp(s, file, mode, masterSeq, xid, up) => OpenProper(srv, s, file, mode, masterSeq, xid, up);
    case ReadOp(s, h, _, _) => LookedUpProper(srv, s, h);
    case WriteOp(s, h, content, xid, up) => WriteProper(srv, s, h, content, xid, up);
    case AcquireOp(s, h, xid, up) => AcquireProper(srv, s, h, xid, up);
    case TryAcquireOp(s, h, xid, up) => TryAcquireProper(srv, s, h, xid, up);
    case ReleaseOp(s, h, xid, up) => ReleaseProper(srv, s, h, xid, up);
    case DeleteOp(s, h, xid, up) => DeleteProper(srv, s, h, xid, up);
    case CloseOp(s, h, xid, up) => CloseProper(srv, s, h, xid, up);
    case StartOp(s, client, xid, up) => if up { StartProper(srv, s, client, xid); }
    case ReopenOp(s, h, mode, xid) => ReopenProper(srv, s, h, mode, xid);
    case DisconnectOp(s, up) => DisconnectProper(srv, s, up);
    case LeadOp(_) =>
  }

  ghost predicate CarefulRun(srv: Srv, ops: seq<Op>)
    decreases ops
  {
    ops != [] ==> Careful(srv, ops[0]) && CarefulRun(Step(Intended, srv, ops[0]).srv, ops[1..])
  }

  lemma {:induction false} RunProper(srv: Srv, ops: seq<Op>)
    requires Proper(srv) && Good(srv) && AllLive(srv.tables, srv.db)
    requires LawfulRun(Intended, srv, ops) && AnswerableRun(Intended, srv, ops)
    requires BringsLiveRun(Intended, srv, ops) && CarefulRun(srv, ops)
    ensures Proper(RunOps(Intended, srv, ops).srv)
    decreases ops
  {
    if ops != [] {
      StepIsGoodIff(srv, ops[0]);
      StepKeepsLiveIff(Intended, srv, ops[0]);
      StepProper(srv, ops[0]);
      RunProper(Step(Intended, srv, ops[0]).srv, ops[1..]);
    }
  }

  /** On every run of careful clients that bring live handles: losing a session leaves its
      client no lock, in memory or in the store, exactly when the loss is served by a replica
      that can run commands or there was no lock; whatever becomes of its ephemeral nodes. */
  lemma LostSessionHoldsNothingIff(ops: seq<Op>, s: Session, up: bool)
    requires LawfulRun(Intended, START, ops) && AnswerableRun(Intended, START, ops)
    requires BringsLiveRun(Intended, START, ops) && CarefulRun(START, ops)
    requires Known(RunOps(Intended, START, ops).srv, s)
    ensures var srv := RunOps(Intended, START, ops).srv;
            var post, client := Disconnect(Intended, srv, s, up).srv, srv.clients[s];
            && (GetSet(post.held, client) == {} <==> up || GetSet(srv.held, client) == {})
            && ((forall f :: Owner(post.db, f) != client) <==> up || GetSet(srv.held, client) == {})
  {
    StartIsGood();
    RunIsGood(START, ops);
    RunKeepsLive(Intended, START, ops);
    RunProper(START, ops);
    var srv := RunOps(Intended, START, ops).srv;
    SelfWaitFree(srv, s);
    HeldIsCovered(srv, s);
    DisconnectReleasesIff(srv, s, up);
  }

  lemma HeldIsCovered(srv: Srv, s: Session)
    requires Proper(srv) && Known(srv, s) && AllLive(srv.tables, srv.db)
    ensures Covered(srv, srv.clients[s], Get(srv.tables.bySession, s))
  {
    forall f | f in GetSet(srv.held, srv.clients[s])
      ensures exists fd :: fd in Get(srv.tables.bySession, s) && fd.h.file == f && Live(srv.db, f, fd.h.inst)
    {
      assert Holds(srv, s, f) && HasHandle(srv.tables, s, f);
      var fd :| fd in Get(srv.tables.bySession, s) && fd.h.file == f;
      assert Live(srv.db, fd.h.file, fd.h.inst);
    }
  }
}
