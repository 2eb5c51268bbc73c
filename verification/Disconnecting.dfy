/**
 What a lost session leaves behind: no handle and no listener, provided the deletes it
 triggers succeed; no lock, if the replica that serves the loss can run commands; and exactly
 which queue entries.
 */
module Disconnecting {
  import opened Text
  import opened Database
  import opened Handles
  import opened Service
  import opened Registrations
  import opened LockSafety
  import opened Requests

  function HandlersOf(fds: seq<Fd>): seq<FileHandler> {
    seq(|fds|, i requires 0 <= i < |fds| => fds[i].h)
  }

  function Values(fds: seq<Fd>): multiset<FileHandler> {
    multiset(HandlersOf(fds))
  }

  lemma ValuesConcat(a: seq<Fd>, b: seq<Fd>)
    ensures Values(a + b) == Values(a) + Values(b)
  {
    assert HandlersOf(a + b) == HandlersOf(a) + HandlersOf(b);
  }

  lemma ValuesOne(fd: Fd)
    ensures Values([fd]) == multiset{fd.h}
  {}

  lemma {:induction false} ValuesWithout(fds: seq<Fd>, fd: Fd)
    ensures Values(Without(fds, fd)) <= Values(fds)
    ensures fd in fds ==> Values(Without(fds, fd)) + multiset{fd.h} <= Values(fds)
  {
    if fds != [] {
      var front, last := fds[..|fds| - 1], fds[|fds| - 1];
      assert fds == front + [last];
      ValuesWithout(front, fd);
      ValuesOne(last);
      ValuesConcat(front, [last]);
      ValuesConcat(Without(front, fd), [last]);
    }
  }

  lemma {:induction false} ValuesSubset(a: seq<Fd>, b: seq<Fd>)
    requires NoDup(a) && forall fd :: fd in a ==> fd in b
    ensures Values(a) <= Values(b)
  {
    if a != [] {
      var front, last := a[..|a| - 1], a[|a| - 1];
      assert a == front + [last] && last in b && last !in front;
      ValuesOne(last);
      ValuesConcat(front, [last]);
      ValuesSubset(front, Without(b, last));
      ValuesWithout(b, last);
    }
  }

  lemma ValueIsListed(fds: seq<Fd>, h: FileHandler)
    requires h in Values(fds)
    ensures exists fd :: fd in fds && fd.h == h
  {}

  /** The values of a session's open handles. */
  function OpenValues(srv: Srv, s: Session): multiset<FileHandler> {
    Values(Get(srv.tables.bySession, s))
  }

  /** In this close the node is not ephemeral, or its delete succeeds. */
  predicate CloseDeletes(v: Variant, srv: Srv, s: Session, h: FileHandler, up: bool) {
    Known(srv, s) && IsEphemeral(srv, s, h.file) ==>
      up && Apply(Reclaim(v, Found(srv, s, h), s, h, up).srv.db, Delete(h.file, h.inst)).1 == Ok
  }

  predicate AllCloseDelete(v: Variant, srv: Srv, s: Session, fds: seq<Fd>, up: bool)
    decreases fds
  {
    fds != [] ==>
      && CloseDeletes(v, srv, s, fds[0].h, up)
      && AllCloseDelete(v, FileClose(v, srv, s, fds[0].h, NO_REPLY, up).srv, s, fds[1..], up)
  }

  /** The tables after a close: all handles of a deleted ephemeral node are gone, else the
      one handle. */
  lemma CloseTables(srv: Srv, s: Session, h: FileHandler, xid: Xid, up: bool)
    requires Good(srv) && Known(srv, s) && CloseDeletes(Intended, srv, s, h, up)
    ensures FileClose(Intended, srv, s, h, xid, up).srv.tables
         == if IsEphemeral(srv, s, h.file) then DropFile(Find(srv.tables, s, h).0, h.file)
            else Drop(Find(srv.tables, s, h).0, s, Find(srv.tables, s, h).1)
  {
    var found := Found(srv, s, h);
    FoundIsGood(srv, s, h);
    ReclaimIsGood(found, s, h, up);
    ReclaimFrame(found, s, h, up);
    FindAgain(srv.tables, s, h);
    var mid := Reclaim(Intended, found, s, h, up).srv;
    assert mid.tables == found.tables;
    LetGoTables(mid, s, Find(srv.tables, s, h).1, xid, up);
  }

  lemma ReclaimFrame(found: Srv, s: Session, h: FileHandler, up: bool)
    requires Known(found, s)
    ensures var r := Reclaim(Intended, found, s, h, up).srv;
            r.tables == (if h.file in GetSet(found.held, found.clients[s]) then Find(found.tables, s, h).0
                         else found.tables)
            && r.clients == found.clients && r.eph == found.eph
  {
    ReleaseFrame(Intended, found, s, h, NO_REPLY, up);
  }

  lemma LetGoTables(srv: Srv, s: Session, fd: Fd, xid: Xid, up: bool)
    requires Known(srv, s) && Find(srv.tables, s, fd.h) == (srv.tables, fd)
    requires IsEphemeral(srv, s, fd.h.file) ==>
               up && Apply(srv.db, Delete(fd.h.file, fd.h.inst)).1 == Ok
    ensures LetGo(Intended, srv, s, fd, xid, up).srv.tables
         == if IsEphemeral(srv, s, fd.h.file) then DropFile(srv.tables, fd.h.file)
            else Drop(srv.tables, s, fd)
  {}

  /** A close takes at least one handle of this value away from the session and adds none. */
  lemma CloseTakesValue(srv: Srv, s: Session, h: FileHandler, xid: Xid, up: bool)
    requires Good(srv) && Known(srv, s) && CloseDeletes(Intended, srv, s, h, up)
    ensures OpenValues(FileClose(Intended, srv, s, h, xid, up).srv, s) <= OpenValues(srv, s) - multiset{h}
  {
    CloseTables(srv, s, h, xid, up);
    DropsTakeValue(srv.tables, s, h);
  }

  lemma DropsTakeValue(t: Tables, s: Session, h: FileHandler)
    requires Inverse(t)
    ensures var (tables, fd) := Find(t, s, h);
            && Values(Get(DropFile(tables, h.file).bySession, s)) <= Values(Get(t.bySession, s)) - multiset{h}
            && Values(Get(Drop(tables, s, fd).bySession, s)) <= Values(Get(t.bySession, s)) - multiset{h}
  {
    var (tables, fd) := Find(t, s, h);
    FindKeepsInverse(t, s, h);
    FoundValues(t, s, h);
    var found := Get(tables.bySession, s);
    ValuesWithout(found, fd);
    DropFileMembers(tables, h.file, s);
    ValuesSubset(Get(DropFile(tables, h.file).bySession, s), Without(found, fd));
  }

  lemma FoundValues(t: Tables, s: Session, h: FileHandler)
    ensures Values(Get(Find(t, s, h).0.bySession, s)) - multiset{h} == Values(Get(t.bySession, s)) - multiset{h}
  {
    var fds := Get(t.bySession, s);
    var fd := Fd(t.nextId, h);
    ValuesConcat(fds, [fd]);
    ValuesOne(fd);
    if FirstMatch(fds, h).None? && h in Values(fds) {
      ValueIsListed(fds, h);
    }
  }

  /** Closing every handle listed at the start leaves the session without handles. */
  lemma {:induction false} CloseAllEmpties(srv: Srv, s: Session, fds: seq<Fd>, up: bool)
    requires Good(srv) && (fds == [] || Known(srv, s))
    requires AllCloseDelete(Intended, srv, s, fds, up)
    requires OpenValues(srv, s) <= Values(fds)
    ensures Get(CloseAll(Intended, srv, s, fds, up).srv.tables.bySession, s) == []
    decreases fds
  {
    if fds == [] {
      NoValues(Get(srv.tables.bySession, s));
    } else {
      var post := FileClose(Intended, srv, s, fds[0].h, NO_REPLY, up).srv;
      CloseIsGood(srv, s, fds[0].h, NO_REPLY, up);
      CloseTakesValue(srv, s, fds[0].h, NO_REPLY, up);
      ValuesTail(fds);
      CloseAllEmpties(post, s, fds[1..], up);
    }
  }

  lemma NoValues(fds: seq<Fd>)
    ensures Values(fds) <= multiset{} ==> fds == []
  {
    assert |Values(fds)| == |fds|;
  }

  lemma ValuesTail(fds: seq<Fd>)
    requires fds != []
    ensures Values(fds) == multiset{fds[0].h} + Values(fds[1..])
  {
    assert fds == [fds[0]] + fds[1..];
    ValuesConcat([fds[0]], fds[1..]);
    ValuesOne(fds[0]);
  }

  // ---------------------------------------------------------------- locks of a lost session

  /** Nobody waits for a lock of its own client. */
  ghost predicate NoSelfWait(srv: Srv, client: Client) {
    forall f, w {:trigger w in Get(srv.queues, f)} :: w in Get(srv.queues, f) && f in GetSet(srv.held, client) ==>
      w.session in srv.clients ==> srv.clients[w.session] != client
  }

  /** Every file the client holds is named by a handle of the list that is up to date. */
  ghost predicate Covered(srv: Srv, client: Client, fds: seq<Fd>) {
    forall f {:trigger f in GetSet(srv.held, client)} :: f in GetSet(srv.held, client) ==>
      exists fd :: fd in fds && fd.h.file == f && Live(srv.db, f, fd.h.inst)
  }

  ghost predicate FewerWaiters(srv: Srv, post: Srv) {
    forall f, w {:trigger w in Get(post.queues, f)} :: w in Get(post.queues, f) ==> w in Get(srv.queues, f)
  }

  ghost predicate SameLive(db: Db, post: Db, except: string) {
    forall f, i {:trigger Live(db, f, i)} {:trigger Live(post, f, i)} ::
      f != except ==> (Live(db, f, i) <==> Live(post, f, i))
  }

  lemma FreedEffect(srv: Srv, s: Session, h: FileHandler, xid: Xid)
    requires LocksOk(srv) && WaitersOk(srv) && Known(srv, s) && NoSelfWait(srv, srv.clients[s])
    requires Live(srv.db, h.file, h.inst) && h.file in GetSet(srv.held, srv.clients[s])
    ensures var post := Freed(Intended, srv.(db := Apply(srv.db, Unlock(h.file, h.inst)).0), s, h, xid).srv;
            && GetSet(post.held, srv.clients[s]) == GetSet(srv.held, srv.clients[s]) - {h.file}
            && FewerWaiters(srv, post)
            && SameLive(srv.db, post.db, h.file)
  {
    if h.file in srv.queues {
      assert srv.queues[h.file][0] in Get(srv.queues, h.file);
    }
  }

  lemma ReclaimEffect(srv: Srv, s: Session, h: FileHandler)
    requires Good(srv) && Known(srv, s) && NoSelfWait(srv, srv.clients[s])
    ensures var post := Reclaim(Intended, srv, s, h, true).srv;
            Released(srv, post, srv.clients[s], h) && FewerWaiters(srv, post)
  {
    if h.file in GetSet(srv.held, srv.clients[s]) && Live(srv.db, h.file, h.inst) {
      FoundIsGood(srv, s, h);
      FreedEffect(Found(srv, s, h), s, h, NO_REPLY);
    }
  }

  lemma LetGoEffect(srv: Srv, s: Session, fd: Fd, up: bool)
    requires Known(srv, s)
    ensures var post := LetGo(Intended, srv, s, fd, NO_REPLY, up).srv;
            && post.held == srv.held
            && FewerWaiters(srv, post)
            && SameLive(srv.db, post.db, fd.h.file)
            && (!Live(srv.db, fd.h.file, fd.h.inst) ==> post.db == srv.db)
  {
    DeleteEffect(srv, s, fd.h, up);
    ForgetEffect(srv, s, fd);
  }

  lemma DeleteEffect(srv: Srv, s: Session, h: FileHandler, up: bool)
    requires Known(srv, s)
    ensures var post := FileDelete(srv, s, h, NO_REPLY, up).srv;
            post.held == srv.held && FewerWaiters(srv, post) && SameLive(srv.db, post.db, h.file)
            && (!Live(srv.db, h.file, h.inst) ==> post.db == srv.db)
  {
    DeleteShape(srv, s, h, NO_REPLY, up);
    DeletedLive(srv.db, h.file, h.inst);
  }

  lemma DeletedLive(db: Db, file: string, inst: nat)
    ensures SameLive(db, Apply(db, Delete(file, inst)).0, file)
  {}

  lemma ForgetEffect(srv: Srv, s: Session, fd: Fd)
    ensures var post := Forget(Intended, srv, s, fd).srv;
            post.held == srv.held && FewerWaiters(srv, post) && post.db == srv.db
  {}

  lemma CloseKeepsCover(srv: Srv, s: Session, fds: seq<Fd>)
    requires Good(srv) && Known(srv, s) && fds != []
    requires NoSelfWait(srv, srv.clients[s]) && Covered(srv, srv.clients[s], fds)
    ensures var post := FileClose(Intended, srv, s, fds[0].h, NO_REPLY, true).srv;
            NoSelfWait(post, srv.clients[s]) && Covered(post, srv.clients[s], fds[1..])
  {
    var h := fds[0].h;
    var found := Found(srv, s, h);
    var fd := Find(srv.tables, s, h).1;
    FoundIsGood(srv, s, h);
    ReclaimEffect(found, s, h);
    ReclaimIsGood(found, s, h, true);
    ReclaimFrame(found, s, h, true);
    var mid := Reclaim(Intended, found, s, h, true).srv;
    LetGoEffect(mid, s, fd, true);
    LetGoIsGood(mid, s, fd, NO_REPLY, true);
    var post := LetGo(Intended, mid, s, fd, NO_REPLY, true).srv;
    RestCovers(srv, mid, post, s, fds);
    assert FileClose(Intended, srv, s, h, NO_REPLY, true).srv == post;
  }

  /** What the client still holds was not named by the closed handle, so it lives on and is
      named by another. */
  lemma RestCovers(srv: Srv, mid: Srv, post: Srv, s: Session, fds: seq<Fd>)
    requires Known(srv, s) && fds != []
    requires NoSelfWait(srv, srv.clients[s]) && Covered(srv, srv.clients[s], fds)
    requires Released(srv, mid, srv.clients[s], fds[0].h)
    requires SameLive(mid.db, post.db, fds[0].h.file)
    requires !Live(mid.db, fds[0].h.file, fds[0].h.inst) ==> post.db == mid.db
    requires post.held == mid.held && post.clients == srv.clients
    requires FewerWaiters(srv, mid) && FewerWaiters(mid, post)
    ensures NoSelfWait(post, srv.clients[s]) && Covered(post, srv.clients[s], fds[1..])
  {
    var client, h := srv.clients[s], fds[0].h;
    forall f, w | w in Get(post.queues, f) ensures w in Get(srv.queues, f) {
      assert w in Get(mid.queues, f);
    }
    forall f | f in GetSet(post.held, client)
      ensures exists g :: g in fds[1..] && g.h.file == f && Live(post.db, f, g.h.inst)
    {
      assert f in GetSet(srv.held, client);
      var g :| g in fds && g.h.file == f && Live(srv.db, f, g.h.inst);
      if f == h.file {
        assert !Live(srv.db, h.file, h.inst) && mid.db == srv.db && post.db == srv.db;
      } else {
        assert Live(mid.db, f, g.h.inst) && Live(post.db, f, g.h.inst);
      }
      assert g != fds[0] && fds == [fds[0]] + fds[1..];
    }
  }

  /** The lock named by an up-to-date handle is given up, nothing else. */
  ghost predicate Released(srv: Srv, mid: Srv, client: Client, h: FileHandler) {
    && GetSet(mid.held, client)
       == (if Live(srv.db, h.file, h.inst) then GetSet(srv.held, client) - {h.file}
           else GetSet(srv.held, client))
    && (if Live(srv.db, h.file, h.inst) then SameLive(srv.db, mid.db, h.file) else mid.db == srv.db)
  }

  lemma {:induction false} CloseAllReleases(srv: Srv, s: Session, fds: seq<Fd>)
    requires Good(srv) && Known(srv, s)
    requires NoSelfWait(srv, srv.clients[s]) && Covered(srv, srv.clients[s], fds)
    ensures GetSet(CloseAll(Intended, srv, s, fds, true).srv.held, srv.clients[s]) == {}
    decreases fds
  {
    if fds != [] {
      var post := FileClose(Intended, srv, s, fds[0].h, NO_REPLY, true).srv;
      CloseIsGood(srv, s, fds[0].h, NO_REPLY, true);
      CloseKeepsCover(srv, s, fds);
      CloseAllReleases(post, s, fds[1..]);
    } else {
      assert forall f :: f !in GetSet(srv.held, srv.clients[s]);
    }
  }

  /** After a disconnect whose deletes succeed the session is in no handle table, event list
      or lock queue. */
  lemma DisconnectForgets(srv: Srv, s: Session, up: bool)
    requires Good(srv) && (Get(srv.tables.bySession, s) == [] || Known(srv, s))
    requires AllCloseDelete(Intended, srv, s, Get(srv.tables.bySession, s), up)
    ensures var r := Disconnect(Intended, srv, s, up);
            && r.end == Returned && Good(r.srv)
            && s !in r.srv.clients && Get(r.srv.tables.bySession, s) == []
            && (forall f, e {:trigger e in Get(r.srv.tables.byFile, f)} ::
                  e in Get(r.srv.tables.byFile, f) ==> e.session != s)
            && (forall f {:trigger Get(r.srv.lockEv, f)} :: s !in Get(r.srv.lockEv, f))
            && (forall f {:trigger Get(r.srv.contentEv, f)} :: s !in Get(r.srv.contentEv, f))
            && (forall f, w {:trigger w in Get(r.srv.queues, f)} ::
                  w in Get(r.srv.queues, f) ==> w.session != s)
  {
    var fds := Get(srv.tables.bySession, s);
    CloseAllIsGood(srv, s, fds, up);
    CloseAllEmpties(srv, s, fds, up);
    NoEntryLeft(CloseAll(Intended, srv, s, fds, up).srv, s);
  }

  lemma NoEntryLeft(srv: Srv, s: Session)
    requires Good(srv) && Get(srv.tables.bySession, s) == []
    ensures Good(srv.(clients := srv.clients - {s}))
    ensures forall f, w {:trigger w in Get(srv.queues, f)} :: w in Get(srv.queues, f) ==> w.session != s
    ensures forall f, e {:trigger e in Get(srv.tables.byFile, f)} ::
              e in Get(srv.tables.byFile, f) ==> e.session != s
    ensures forall f {:trigger Get(srv.lockEv, f)} :: s !in Get(srv.lockEv, f)
    ensures forall f {:trigger Get(srv.contentEv, f)} :: s !in Get(srv.contentEv, f)
  {}

  lemma CloseKeepsHeldDown(srv: Srv, s: Session, h: FileHandler)
    requires Good(srv) && Known(srv, s)
    ensures FileClose(Intended, srv, s, h, NO_REPLY, false).srv.held == srv.held
  {
    var found := Found(srv, s, h);
    var mid := Reclaim(Intended, found, s, h, false).srv;
    CloseIsGood(srv, s, h, NO_REPLY, false);
    assert mid.held == srv.held;
    LetGoEffect(mid, s, Find(srv.tables, s, h).1, false);
  }

  /** While the replica that serves the loss cannot run commands no lock is given up. */
  lemma {:induction false} CloseAllKeepsHeldDown(srv: Srv, s: Session, fds: seq<Fd>)
    requires Good(srv) && Known(srv, s)
    ensures CloseAll(Intended, srv, s, fds, false).srv.held == srv.held
    decreases fds
  {
    if fds != [] {
      CloseIsGood(srv, s, fds[0].h, NO_REPLY, false);
      CloseKeepsHeldDown(srv, s, fds[0].h);
      CloseAllKeepsHeldDown(FileClose(Intended, srv, s, fds[0].h, NO_REPLY, false).srv, s, fds[1..]);
    }
  }

  /** If each lock its client held was covered by an up-to-date handle of the session and the
      client did not wait behind itself: a lost session leaves its client no lock, in memory or
      in the store, exactly when the loss is served by a replica that can run commands or there
      was no lock; whatever becomes of the deletes. */
  lemma DisconnectReleasesIff(srv: Srv, s: Session, up: bool)
    requires Good(srv) && Known(srv, s)
    requires NoSelfWait(srv, srv.clients[s])
    requires Covered(srv, srv.clients[s], Get(srv.tables.bySession, s))
    ensures var post, client := Disconnect(Intended, srv, s, up).srv, srv.clients[s];
            && (GetSet(post.held, client) == {} <==> up || GetSet(srv.held, client) == {})
            && ((forall f :: Owner(post.db, f) != client) <==> up || GetSet(srv.held, client) == {})
  {
    var fds := Get(srv.tables.bySession, s);
    var closed := CloseAll(Intended, srv, s, fds, up).srv;
    CloseAllIsGood(srv, s, fds, up);
    if up {
      CloseAllReleases(srv, s, fds);
    } else {
      CloseAllKeepsHeldDown(srv, s, fds);
    }
    HoldsNothingIff(closed, srv.clients[s]);
  }

  lemma HoldsNothingIff(srv: Srv, client: Client)
    requires HeldAgrees(srv) && client != NO_OWNER
    ensures GetSet(srv.held, client) == {} <==> forall f :: Owner(srv.db, f) != client
  {
    if GetSet(srv.held, client) == {} {
      forall f ensures Owner(srv.db, f) != client {
        assert f !in GetSet(srv.held, client);
      }
    } else {
      var f :| f in GetSet(srv.held, client);
      assert Owner(srv.db, f) == client;
    }
  }

  // ---------------------------------------------------------------- queue entries of a lost session

  /** The pop of a close: the client holds the file, the handle is up to date. */
  predicate Pops(srv: Srv, s: Session, h: FileHandler, up: bool, f: string)
    requires Known(srv, s)
  {
    up && f in GetSet(srv.held, srv.clients[s]) && h.file == f && h.inst == InstOf(srv.db, f)
  }

  function NextHolds(srv: Srv, s: Session, q: seq<Waiter>): bool
    requires Known(srv, s)
  {
    q != [] && q[0].session in srv.clients && srv.clients[q[0].session] == srv.clients[s]
  }

  /** What a hand-over does to the queue and the held sets. */
  lemma FreedShape(v: Variant, srv: Srv, s: Session, h: FileHandler, xid: Xid)
    requires Known(srv, s) && HeadKnown(srv, h.file)
    ensures var post := Freed(v, srv, s, h, xid).srv;
            var mid := PutSet(srv.held, srv.clients[s], GetSet(srv.held, srv.clients[s]) - {h.file});
            var q := Get(srv.queues, h.file);
            && Freed(v, srv, s, h, xid).end == Returned
            && post.queues == (if q == [] then srv.queues else Put(srv.queues, h.file, q[1..]))
            && post.held == (if q == [] then mid
                             else var next := srv.clients[q[0].session]; mid[next := GetSet(mid, next) + {h.file}])
            && post.clients == srv.clients && post.eph == srv.eph
  {}

  lemma FreedOnQueue(v: Variant, srv: Srv, s: Session, h: FileHandler, xid: Xid, f: string)
    requires Known(srv, s) && HeadKnown(srv, h.file)
    ensures var post, q := Freed(v, srv, s, h, xid).srv, Get(srv.queues, f);
            && Get(post.queues, f) == (if h.file == f && q != [] then q[1..] else q)
            && (f in GetSet(post.held, srv.clients[s])
                <==> if h.file == f then NextHolds(srv, s, q) else f in GetSet(srv.held, srv.clients[s]))
            && post.clients == srv.clients && post.eph == srv.eph
  {
    FreedShape(v, srv, s, h, xid);
  }

  lemma LocksKeepInst(db: Db, cmd: Cmd, f: string)
    requires cmd.Lock? || cmd.Unlock?
    ensures InstOf(Apply(db, cmd).0, f) == InstOf(db, f)
  {}

  lemma FreedKeepsInst(v: Variant, srv: Srv, s: Session, h: FileHandler, xid: Xid, f: string)
    requires Known(srv, s)
    ensures InstOf(Freed(v, srv, s, h, xid).srv.db, f) == InstOf(srv.db, f)
  {
    FreedDb(v, srv, s, h, xid);
    if NextClient(srv, h.file).Some? {
      LocksKeepInst(srv.db, Lock(h.file, h.inst, NextClient(srv, h.file).value), f);
    }
  }

  lemma ReleaseOnQueue(v: Variant, srv: Srv, s: Session, h: FileHandler, up: bool, f: string)
    requires Known(srv, s) && HeadKnown(srv, h.file) && (h.file == f ==> f in srv.db.fs)
    ensures var mid, q := Release(v, srv, s, h, NO_REPLY, up).srv, Get(srv.queues, f);
            var frees := up && h.file == f && h.inst == InstOf(srv.db, f);
            && Get(mid.queues, f) == (if frees && q != [] then q[1..] else q)
            && (f in GetSet(mid.held, srv.clients[s])
                <==> if frees then NextHolds(srv, s, q) else f in GetSet(srv.held, srv.clients[s]))
            && InstOf(mid.db, f) == InstOf(srv.db, f) && mid.eph == srv.eph && mid.clients == srv.clients
  {
    var (db, r) := Apply(srv.db, Unlock(h.file, h.inst));
    if up && r == Ok {
      var freed := Found(srv, s, h).(db := db);
      LocksKeepInst(srv.db, Unlock(h.file, h.inst), f);
      FreedOnQueue(v, freed, s, h, NO_REPLY, f);
      FreedKeepsInst(v, freed, s, h, NO_REPLY, f);
    }
  }

  lemma ReclaimOnQueue(v: Variant, srv: Srv, s: Session, h: FileHandler, up: bool, f: string)
    requires Known(srv, s) && HeadKnown(srv, h.file) && (h.file == f ==> f in srv.db.fs)
    ensures var mid, q := Reclaim(v, srv, s, h, up).srv, Get(srv.queues, f);
            && Get(mid.queues, f) == (if Pops(srv, s, h, up, f) && q != [] then q[1..] else q)
            && (f in GetSet(mid.held, srv.clients[s])
                <==> if Pops(srv, s, h, up, f) then NextHolds(srv, s, q) else f in GetSet(srv.held, srv.clients[s]))
            && InstOf(mid.db, f) == InstOf(srv.db, f) && mid.eph == srv.eph && mid.clients == srv.clients
  {
    ReleaseOnQueue(v, srv, s, h, up, f);
  }

  lemma DeletedInst(db: Db, file: string, inst: nat, f: string)
    requires f != file
    ensures InstOf(Apply(db, Delete(file, inst)).0, f) == InstOf(db, f)
    ensures f in Apply(db, Delete(file, inst)).0.fs <==> f in db.fs
  {}

  lemma DeletedNames(db: Db, file: string, inst: nat)
    ensures Apply(db, Delete(file, inst)).0.fs.Keys
         == if Apply(db, Delete(file, inst)).1 == Ok then db.fs.Keys - {file} else db.fs.Keys
    ensures Apply(db, Delete(file, inst)).1 == Ok ==> file in db.fs
  {}

  /** Nothing about file f changes for the client of session s. */
  predicate SameFor(srv: Srv, post: Srv, s: Session, f: string)
    requires Known(srv, s)
  {
    && Get(post.queues, f) == Get(srv.queues, f) && post.clients == srv.clients
    && (f in GetSet(post.held, srv.clients[s]) <==> f in GetSet(srv.held, srv.clients[s]))
    && (f in GetSet(post.eph, srv.clients[s]) <==> f in GetSet(srv.eph, srv.clients[s]))
    && InstOf(post.db, f) == InstOf(srv.db, f) && (f in post.db.fs <==> f in srv.db.fs)
  }

  lemma DeleteShape(srv: Srv, s: Session, h: FileHandler, xid: Xid, up: bool)
    requires Known(srv, s)
    ensures var post := FileDelete(srv, s, h, xid, up).srv;
            var ok := up && Apply(srv.db, Delete(h.file, h.inst)).1 == Ok;
            && post.queues == (if ok then srv.queues - {h.file} else srv.queues)
            && post.eph == (if ok then PutSet(srv.eph, srv.clients[s], GetSet(srv.eph, srv.clients[s]) - {h.file})
                            else srv.eph)
            && post.db == (if ok then Apply(srv.db, Delete(h.file, h.inst)).0 else srv.db)
            && post.held == srv.held && post.clients == srv.clients
  {}

  /** A delete of another node, or one that fails, is nothing to f. */
  lemma DeleteLeavesOthers(srv: Srv, s: Session, h: FileHandler, up: bool, f: string)
    requires Known(srv, s) && (h.file != f || Apply(srv.db, Delete(h.file, h.inst)).1 != Ok)
    ensures SameFor(srv, FileDelete(srv, s, h, NO_REPLY, up).srv, s, f)
  {
    var post := FileDelete(srv, s, h, NO_REPLY, up).srv;
    DeleteShape(srv, s, h, NO_REPLY, up);
    if h.file != f {
      DeletedInst(srv.db, h.file, h.inst, f);
    }
  }

  lemma ForgetLeavesOthers(v: Variant, srv: Srv, s: Session, fd: Fd, f: string)
    requires Known(srv, s) && fd.h.file != f
    ensures SameFor(srv, Forget(v, srv, s, fd).srv, s, f)
  {
    OtherQueue(v, srv.queues, fd.h.file, s, f);
  }

  lemma OtherQueue(v: Variant, queues: map<string, seq<Waiter>>, file: string, s: Session, f: string)
    requires f != file
    ensures ClearedQueue(v, queues, file, s).Some? ==>
              Get(ClearedQueue(v, queues, file, s).value, f) == Get(queues, f)
  {}

  /** The second half of a close is nothing to a file that is ephemeral and waited for. */
  lemma LetGoLeavesWaiters(srv: Srv, s: Session, fd: Fd, up: bool, f: string)
    requires QueuesLocked(srv) && Known(srv, s) && IsEphemeral(srv, s, f) && Get(srv.queues, f) != []
    ensures SameFor(srv, LetGo(Intended, srv, s, fd, NO_REPLY, up).srv, s, f)
  {
    assert f in LockTable(srv.db);
    if IsEphemeral(srv, s, fd.h.file) {
      DeleteLeavesOthers(srv, s, fd.h, up, f);
    } else {
      ForgetLeavesOthers(Intended, srv, s, fd, f);
    }
  }

  lemma ReclaimAddsNoWaiter(srv: Srv, s: Session, h: FileHandler, up: bool)
    requires Known(srv, s) && HeadKnown(srv, h.file)
    ensures FewerWaiters(srv, Reclaim(Intended, srv, s, h, up).srv)
  {
    var (db, r) := Apply(srv.db, Unlock(h.file, h.inst));
    if up && r == Ok { FreedShape(Intended, Found(srv, s, h).(db := db), s, h, NO_REPLY); }
  }

  lemma HeadsAreKnown(srv: Srv, f: string)
    requires QueuesFilled(srv) && WaitersOk(srv)
    ensures HeadKnown(srv, f)
  {
    if f in srv.queues { assert srv.queues[f][0] in Get(srv.queues, f); }
  }

  lemma FewerTwice(srv: Srv, mid: Srv, post: Srv)
    requires FewerWaiters(srv, mid) && FewerWaiters(mid, post)
    ensures FewerWaiters(srv, post)
  {
    forall f, w | w in Get(post.queues, f) ensures w in Get(srv.queues, f) {
      assert w in Get(mid.queues, f);
    }
  }

  /** The state between the two halves of a close. */
  function Halfway(srv: Srv, s: Session, h: FileHandler, up: bool): Srv
    requires Known(srv, s)
  {
    Reclaim(Intended, Found(srv, s, h), s, h, up).srv
  }

  lemma HalfwayIsGood(srv: Srv, s: Session, h: FileHandler, xid: Xid, up: bool)
    requires Good(srv) && Known(srv, s)
    ensures Good(Halfway(srv, s, h, up)) && Halfway(srv, s, h, up).clients == srv.clients
    ensures FileClose(Intended, srv, s, h, xid, up).srv
         == LetGo(Intended, Halfway(srv, s, h, up), s, Find(srv.tables, s, h).1, xid, up).srv
  {
    FoundIsGood(srv, s, h);
    ReclaimIsGood(Found(srv, s, h), s, h, up);
    LetGoIsGood(Halfway(srv, s, h, up), s, Find(srv.tables, s, h).1, xid, up);
  }

  lemma CloseAddsNoWaiter(srv: Srv, s: Session, h: FileHandler, up: bool)
    requires Good(srv) && Known(srv, s)
    ensures FewerWaiters(srv, FileClose(Intended, srv, s, h, NO_REPLY, up).srv)
  {
    var mid := Halfway(srv, s, h, up);
    HeadsAreKnown(srv, h.file);
    HalfwayIsGood(srv, s, h, NO_REPLY, up);
    ReclaimAddsNoWaiter(Found(srv, s, h), s, h, up);
    LetGoEffect(mid, s, Find(srv.tables, s, h).1, up);
    FewerTwice(srv, mid, FileClose(Intended, srv, s, h, NO_REPLY, up).srv);
  }

  lemma {:induction false} CloseAllAddsNoWaiter(srv: Srv, s: Session, fds: seq<Fd>, up: bool)
    requires Good(srv) && (fds == [] || Known(srv, s))
    ensures FewerWaiters(srv, CloseAll(Intended, srv, s, fds, up).srv)
    decreases fds
  {
    if fds != [] {
      var post := FileClose(Intended, srv, s, fds[0].h, NO_REPLY, up).srv;
      CloseIsGood(srv, s, fds[0].h, NO_REPLY, up);
      CloseAddsNoWaiter(srv, s, fds[0].h, up);
      CloseAllAddsNoWaiter(post, s, fds[1..], up);
      FewerTwice(srv, post, CloseAll(Intended, post, s, fds[1..], up).srv);
    }
  }

  lemma EmptyStaysEmpty(srv: Srv, post: Srv, f: string)
    requires FewerWaiters(srv, post) && Get(srv.queues, f) == []
    ensures Get(post.queues, f) == []
  {
    EmptyIff(Get(post.queues, f));
  }

  lemma EmptyIff<T(!new)>(q: seq<T>)
    ensures q == [] <==> forall w :: w !in q
  {
    assert q != [] ==> q[0] in q;
  }

  /** The queue of an ephemeral file after one close. */
  ghost predicate ClosedOnce(srv: Srv, post: Srv, s: Session, h: FileHandler, up: bool, f: string)
    requires Known(srv, s)
  {
    var q := Get(srv.queues, f);
    && Get(post.queues, f) == (if Pops(srv, s, h, up, f) && q != [] then q[1..] else q)
    && (Get(post.queues, f) != [] ==>
          && InstOf(post.db, f) == InstOf(srv.db, f) && f in GetSet(post.eph, srv.clients[s])
          && (f in GetSet(post.held, srv.clients[s])
              <==> if Pops(srv, s, h, up, f) then NextHolds(srv, s, q) else f in GetSet(srv.held, srv.clients[s])))
  }

  lemma CloseOnQueue(srv: Srv, s: Session, h: FileHandler, up: bool, f: string)
    requires Good(srv) && Known(srv, s) && IsEphemeral(srv, s, f) && Get(srv.queues, f) != []
    ensures ClosedOnce(srv, FileClose(Intended, srv, s, h, NO_REPLY, up).srv, s, h, up, f)
  {
    var mid, fd := Halfway(srv, s, h, up), Find(srv.tables, s, h).1;
    HeadsAreKnown(srv, h.file);
    assert f in LockTable(srv.db);
    HalfwayIsGood(srv, s, h, NO_REPLY, up);
    ReclaimOnQueue(Intended, Found(srv, s, h), s, h, up, f);
    LetGoOnQueue(srv, mid, s, fd, h, up, f);
  }

  lemma LetGoOnQueue(srv: Srv, mid: Srv, s: Session, fd: Fd, h: FileHandler, up: bool, f: string)
    requires Known(srv, s) && Known(mid, s) && ClosedOnce(srv, mid, s, h, up, f) && mid.clients == srv.clients
    requires QueuesLocked(mid)
    ensures ClosedOnce(srv, LetGo(Intended, mid, s, fd, NO_REPLY, up).srv, s, h, up, f)
  {
    if Get(mid.queues, f) != [] {
      LetGoLeavesWaiters(mid, s, fd, up, f);
    } else {
      LetGoEffect(mid, s, fd, up);
      EmptyStaysEmpty(mid, LetGo(Intended, mid, s, fd, NO_REPLY, up).srv, f);
    }
  }

  /** What the closes leave in the queue of an ephemeral file can be read off before them. */
  lemma {:induction false} CloseAllLeaves(srv: Srv, s: Session, fds: seq<Fd>, up: bool, f: string)
    requires Good(srv) && Known(srv, s) && IsEphemeral(srv, s, f)
    ensures Get(CloseAll(Intended, srv, s, fds, up).srv.queues, f)
         == LeftWaiting(Get(srv.queues, f), up && f in GetSet(srv.held, srv.clients[s]), srv.clients, srv.clients[s],
                        f, InstOf(srv.db, f), fds)
    decreases fds
  {
    if Get(srv.queues, f) == [] {
      CloseAllAddsNoWaiter(srv, s, fds, up);
      EmptyStaysEmpty(srv, CloseAll(Intended, srv, s, fds, up).srv, f);
    } else if fds != [] {
      var h := fds[0].h;
      var post := FileClose(Intended, srv, s, h, NO_REPLY, up).srv;
      CloseAllStep(srv, s, fds, up);
      CloseOnQueue(srv, s, h, up, f);
      if Get(post.queues, f) == [] {
        CloseAllAddsNoWaiter(post, s, fds[1..], up);
        EmptyStaysEmpty(post, CloseAll(Intended, post, s, fds[1..], up).srv, f);
      } else {
        CloseAllLeaves(post, s, fds[1..], up, f);
      }
    }
  }

  /** Closing a handle on a file that is not ephemeral takes the session out of its queue. */
  lemma CloseCancels(srv: Srv, s: Session, h: FileHandler, up: bool)
    requires Good(srv) && Known(srv, s) && !IsEphemeral(srv, s, h.file)
    ensures !HasEntry(Get(FileClose(Intended, srv, s, h, NO_REPLY, up).srv.queues, h.file), s)
  {
    var mid, fd := Halfway(srv, s, h, up), Find(srv.tables, s, h).1;
    HalfwayIsGood(srv, s, h, NO_REPLY, up);
    ReclaimFrame(Found(srv, s, h), s, h, up);
    ForgetCancels(mid, s, fd);
  }

  lemma ForgetCancels(srv: Srv, s: Session, fd: Fd)
    ensures !HasEntry(Get(Forget(Intended, srv, s, fd).srv.queues, fd.h.file), s)
  {}

  lemma ForgetShape(v: Variant, srv: Srv, s: Session, fd: Fd)
    ensures var post := Forget(v, srv, s, fd).srv;
            post.eph == srv.eph && post.held == srv.held && post.clients == srv.clients && post.db == srv.db
  {}

  lemma LetGoKeepsPlain(v: Variant, srv: Srv, s: Session, fd: Fd, xid: Xid, up: bool, f: string)
    requires Known(srv, s) && !IsEphemeral(srv, s, f)
    ensures f !in GetSet(LetGo(v, srv, s, fd, xid, up).srv.eph, srv.clients[s])
  {
    DeleteShape(srv, s, fd.h, NO_REPLY, up);
    ForgetShape(v, srv, s, fd);
  }

  /** What is not ephemeral does not become so by closing. */
  lemma CloseKeepsPlain(srv: Srv, s: Session, h: FileHandler, up: bool, f: string)
    requires Good(srv) && Known(srv, s) && !IsEphemeral(srv, s, f)
    ensures f !in GetSet(FileClose(Intended, srv, s, h, NO_REPLY, up).srv.eph, srv.clients[s])
  {
    HalfwayIsGood(srv, s, h, NO_REPLY, up);
    ReclaimFrame(Found(srv, s, h), s, h, up);
    LetGoKeepsPlain(Intended, Halfway(srv, s, h, up), s, Find(srv.tables, s, h).1, NO_REPLY, up, f);
  }

  lemma AbsentStaysAbsent(srv: Srv, s: Session, fds: seq<Fd>, up: bool, f: string)
    requires Good(srv) && (fds == [] || Known(srv, s)) && !HasEntry(Get(srv.queues, f), s)
    ensures !HasEntry(Get(CloseAll(Intended, srv, s, fds, up).srv.queues, f), s)
  {
    CloseAllAddsNoWaiter(srv, s, fds, up);
    var post := CloseAll(Intended, srv, s, fds, up).srv;
    forall w | w in Get(post.queues, f) ensures w.session != s {
      assert w in Get(srv.queues, f);
    }
  }

  lemma CloseAllStep(srv: Srv, s: Session, fds: seq<Fd>, up: bool)
    requires Good(srv) && Known(srv, s) && fds != []
    ensures var post := FileClose(Intended, srv, s, fds[0].h, NO_REPLY, up).srv;
            && Good(post) && post.clients == srv.clients
            && CloseAll(Intended, srv, s, fds, up).srv == CloseAll(Intended, post, s, fds[1..], up).srv
  {
    CloseIsGood(srv, s, fds[0].h, NO_REPLY, up);
    CloseAllIsGood(FileClose(Intended, srv, s, fds[0].h, NO_REPLY, up).srv, s, fds[1..], up);
  }

  lemma FirstCloseCancels(srv: Srv, s: Session, fds: seq<Fd>, up: bool)
    requires Good(srv) && Known(srv, s) && fds != [] && !IsEphemeral(srv, s, fds[0].h.file)
    ensures !HasEntry(Get(CloseAll(Intended, srv, s, fds, up).srv.queues, fds[0].h.file), s)
  {
    CloseAllStep(srv, s, fds, up);
    CloseCancels(srv, s, fds[0].h, up);
    AbsentStaysAbsent(FileClose(Intended, srv, s, fds[0].h, NO_REPLY, up).srv, s, fds[1..], up, fds[0].h.file);
  }

  lemma StaysPlain(srv: Srv, s: Session, h: FileHandler, up: bool, f: string)
    requires Good(srv) && Known(srv, s) && !IsEphemeral(srv, s, f)
    ensures var post := FileClose(Intended, srv, s, h, NO_REPLY, up).srv;
            Good(post) && Known(post, s) && !IsEphemeral(post, s, f)
  {
    CloseIsGood(srv, s, h, NO_REPLY, up);
    CloseKeepsPlain(srv, s, h, up, f);
  }

  lemma {:induction false} CloseAllCancels(srv: Srv, s: Session, fds: seq<Fd>, up: bool, f: string, k: nat)
    requires Good(srv) && Known(srv, s) && k < |fds| && fds[k].h.file == f && !IsEphemeral(srv, s, f)
    ensures !HasEntry(Get(CloseAll(Intended, srv, s, fds, up).srv.queues, f), s)
    decreases k
  {
    if k == 0 {
      FirstCloseCancels(srv, s, fds, up);
    } else {
      var post, rest := FileClose(Intended, srv, s, fds[0].h, NO_REPLY, up).srv, fds[1..];
      assert Good(post) && Known(post, s) && !IsEphemeral(post, s, f) by {
        StaysPlain(srv, s, fds[0].h, up, f);
      }
      CloseAllCancels(post, s, rest, up, f, k - 1);
      assert CloseAll(Intended, srv, s, fds, up).srv == CloseAll(Intended, post, s, rest, up).srv by {
        CloseAllStep(srv, s, fds, up);
      }
    }
  }

  /** After the closes the session has an entry exactly in the queues that LeftBehind says. */
  lemma EntriesAfterClosesIff(srv: Srv, s: Session, up: bool, f: string)
    requires Good(srv) && Known(srv, s)
    ensures HasEntry(Get(CloseAll(Intended, srv, s, Get(srv.tables.bySession, s), up).srv.queues, f), s)
       <==> IsEphemeral(srv, s, f) && HasEntry(LeftBehind(srv, s, f, up), s)
  {
    var fds := Get(srv.tables.bySession, s);
    if IsEphemeral(srv, s, f) {
      CloseAllLeaves(srv, s, fds, up, f);
    } else if HasHandle(srv.tables, s, f) {
      var k :| 0 <= k < |fds| && fds[k].h.file == f;
      CloseAllCancels(srv, s, fds, up, f, k);
    } else {
      assert !HasEntry(Get(srv.queues, f), s);
      AbsentStaysAbsent(srv, s, fds, up, f);
    }
  }

  lemma ForgottenIsGoodIff(closed: Srv, s: Session)
    requires Good(closed)
    ensures Good(closed.(clients := closed.clients - {s})) <==> !IsWaiting(closed, s)
    ensures Core(closed.(clients := closed.clients - {s}))
  {
    var post := closed.(clients := closed.clients - {s});
    if IsWaiting(closed, s) {
      var f :| HasEntry(Get(closed.queues, f), s);
      var w :| w in Get(closed.queues, f) && w.session == s;
      assert w in Get(post.queues, f) && !Known(post, w.session);
    } else {
      forall f, w | w in Get(post.queues, f)
        ensures Known(post, w.session) && HasHandle(post.tables, w.session, f)
      {
        assert w in Get(closed.queues, f);
        assert HasEntry(Get(closed.queues, f), w.session);
      }
    }
  }

  /** A disconnect is served to its end exactly when the session used no handle or has
      introduced itself. It then keeps the service safe, and leaves it good exactly when no
      entry of the session stays in the queue of a file that is ephemeral for its client. */
  lemma DisconnectIsGoodIff(srv: Srv, s: Session, up: bool)
    requires Good(srv)
    ensures var r := Disconnect(Intended, srv, s, up);
            && (r.end == Returned <==> Get(srv.tables.bySession, s) == [] || Known(srv, s))
            && (r.end == Returned ==> Core(r.srv) && (Good(r.srv) <==> LeavesNoEntry(srv, s, up)))
  {
    var fds := Get(srv.tables.bySession, s);
    if fds == [] || Known(srv, s) {
      var closed := CloseAll(Intended, srv, s, fds, up).srv;
      CloseAllIsGood(srv, s, fds, up);
      ForgottenIsGoodIff(closed, s);
      if Known(srv, s) {
        forall f ensures HasEntry(Get(closed.queues, f), s)
                    <==> IsEphemeral(srv, s, f) && HasEntry(LeftBehind(srv, s, f, up), s)
        {
          EntriesAfterClosesIff(srv, s, up, f);
        }
      } else {
        assert !IsWaiting(srv, s);
      }
    }
  }
}
