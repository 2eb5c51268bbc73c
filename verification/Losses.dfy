/**
 How the loss of a session ends in the program as written, on any state whatever: it depends
 on the store, the lock queues and what its client holds and has ephemeral, and, while its
 files are plain, on each file by itself.
 */
module Losses {
  import opened Database
  import opened Handles
  import opened Service
  import opened LockSafety
  import opened Requests
  import opened Disconnecting
  import LiveHandles
  import opened Hanging

  /** All that the ending of a lost session depends on, beside its handles: the store, the lock
      queues and the files its client holds. */
  datatype Loss = Loss(db: Db, queues: map<string, seq<Waiter>>, holds: set<string>)

  function ClientOf(clients: map<Session, Client>, s: Session): Client {
    if s in clients then clients[s] else ""
  }

  predicate HeadIn(queues: map<string, seq<Waiter>>, clients: map<Session, Client>, file: string) {
    file in queues ==> queues[file] != [] && ClientOf(clients, queues[file][0].session) != ""
  }

  /** The lock is given up: the store has no owner, and the client still holds the file if the
      next in line is a session of its own. */
  function GivenUp(l: Loss, clients: map<Session, Client>, client: Client, h: FileHandler): Loss {
    var q := Get(l.queues, h.file);
    var again := q != [] && ClientOf(clients, q[0].session) == client;
    Loss(Apply(l.db, Unlock(h.file, h.inst)).0,
         if q == [] then l.queues else Put(l.queues, h.file, q[1..]),
         if again then l.holds else l.holds - {h.file})
  }

  /** The cleanup after a close: of an ephemeral node, which may be deleted, or of a queue. */
  function CleanedUp(l: Loss, s: Session, marked: bool, h: FileHandler, up: bool): (Loss, Ending) {
    var q, (db, r) := Get(l.queues, h.file), Apply(l.db, Delete(h.file, h.inst));
    if marked then
      if !up || r == Fails then (l, Returned)
      else if r == Aborts then (l, Aborted)
      else (l.(db := db, queues := l.queues - {h.file}), Returned)
    else if q != [] && q[0].session != s then (l, Hung)
    else (l.(queues := if |q| >= 2 then l.queues else l.queues - {h.file}), Returned)
  }

  /** One close of a lost session. An unknown next in line stops the server. */
  function OneClose(l: Loss, clients: map<Session, Client>, s: Session, eph: set<string>, h: FileHandler, up: bool)
    : (Loss, Ending)
  {
    var gives := up && h.file in l.holds && Live(l.db, h.file, h.inst);
    if gives && !HeadIn(l.queues, clients, h.file) then (l, Aborted)
    else CleanedUp(if gives then GivenUp(l, clients, ClientOf(clients, s), h) else l, s, h.file in eph, h, up)
  }

  function EndOfLoss(l: Loss, clients: map<Session, Client>, s: Session, eph: set<string>, fds: seq<Fd>, up: bool)
    : Ending
    decreases fds
  {
    if fds == [] then Returned
    else
      var (next, end) := OneClose(l, clients, s, eph, fds[0].h, up);
      if end == Returned then EndOfLoss(next, clients, s, eph, fds[1..], up) else end
  }

  function LossOf(srv: Srv, s: Session): Loss {
    Loss(srv.db, srv.queues, GetSet(srv.held, ClientOf(srv.clients, s)))
  }

  /** Files that were ephemeral when the loss began are so still, or are gone for good. */
  ghost predicate GoneOrEphemeral(srv: Srv, s: Session, eph: set<string>) {
    && GetSet(srv.eph, ClientOf(srv.clients, s)) <= eph
    && forall f :: f in eph && f !in GetSet(srv.eph, ClientOf(srv.clients, s)) ==> f !in srv.db.fs && f !in srv.queues
  }

  lemma FreedLoss(srv: Srv, s: Session, h: FileHandler)
    requires Known(srv, s) && HeadKnown(srv, h.file) && Live(srv.db, h.file, h.inst)
    requires h.file in GetSet(srv.held, srv.clients[s])
    ensures LossOf(Release(AsWritten, srv, s, h, NO_REPLY, true).srv, s)
         == GivenUp(LossOf(srv, s), srv.clients, srv.clients[s], h)
  {
    var freed := Found(srv, s, h).(db := Apply(srv.db, Unlock(h.file, h.inst)).0);
    FreedShape(AsWritten, freed, s, h, NO_REPLY);
    FreedDb(AsWritten, freed, s, h, NO_REPLY);
  }

  lemma ReclaimLoss(srv: Srv, s: Session, h: FileHandler, up: bool)
    requires Known(srv, s) && (Frees(srv, s, h, up) ==> HeadKnown(srv, h.file))
    ensures LossOf(Reclaim(AsWritten, Found(srv, s, h), s, h, up).srv, s)
         == if Frees(srv, s, h, up) then GivenUp(LossOf(srv, s), srv.clients, srv.clients[s], h) else LossOf(srv, s)
  {
    LiveHandles.ReclaimTables(AsWritten, srv, s, h, up);
    if Frees(srv, s, h, up) {
      FreedLoss(Found(srv, s, h), s, h);
    }
  }

  /** The result is what this step of the loss says. */
  ghost predicate Follows(srv: Srv, r: Res, s: Session, eph: set<string>, step: (Loss, Ending)) {
    && r.end == step.1
    && (r.end == Returned ==>
          LossOf(r.srv, s) == step.0 && r.srv.clients == srv.clients && GoneOrEphemeral(r.srv, s, eph))
  }

  lemma DeletedLoss(srv: Srv, s: Session, h: FileHandler, eph: set<string>, up: bool)
    requires Known(srv, s) && IsEphemeral(srv, s, h.file) && GoneOrEphemeral(srv, s, eph)
    ensures Follows(srv, FileDelete(srv, s, h, NO_REPLY, up), s, eph, CleanedUp(LossOf(srv, s), s, true, h, up))
  {
    DeleteShape(srv, s, h, NO_REPLY, up);
    DeletedNames(srv.db, h.file, h.inst);
  }

  lemma ForgottenLoss(srv: Srv, s: Session, fd: Fd, eph: set<string>, up: bool)
    requires Known(srv, s) && !IsEphemeral(srv, s, fd.h.file) && GoneOrEphemeral(srv, s, eph)
    ensures Follows(srv, Forget(AsWritten, srv, s, fd), s, eph,
                    CleanedUp(LossOf(srv, s), s, fd.h.file in eph, fd.h, up))
  {
    ForgetHangsIff(srv, s, fd);
    ForgetShape(AsWritten, srv, s, fd);
    if fd.h.file in eph {
      assert fd.h.file !in srv.db.fs && fd.h.file !in srv.queues;
    }
  }

  lemma LetGoLoss(srv: Srv, s: Session, fd: Fd, eph: set<string>, up: bool)
    requires Known(srv, s) && GoneOrEphemeral(srv, s, eph)
    ensures Follows(srv, LetGo(AsWritten, srv, s, fd, NO_REPLY, up), s, eph,
                    CleanedUp(LossOf(srv, s), s, fd.h.file in eph, fd.h, up))
  {
    if IsEphemeral(srv, s, fd.h.file) {
      DeletedLoss(srv, s, fd.h, eph, up);
    } else {
      ForgottenLoss(srv, s, fd, eph, up);
    }
  }

  lemma ReclaimKeepsGone(srv: Srv, s: Session, h: FileHandler, eph: set<string>, up: bool)
    requires Known(srv, s) && (Frees(srv, s, h, up) ==> HeadKnown(srv, h.file)) && GoneOrEphemeral(srv, s, eph)
    ensures var mid := Reclaim(AsWritten, Found(srv, s, h), s, h, up).srv;
            mid.clients == srv.clients && GoneOrEphemeral(mid, s, eph)
  {
    LiveHandles.ReclaimTables(AsWritten, srv, s, h, up);
    ReclaimedNames(srv, s, h, up);
  }

  lemma CloseIsReclaimLetGo(srv: Srv, s: Session, h: FileHandler, up: bool)
    requires Known(srv, s)
    ensures var first := Reclaim(AsWritten, Found(srv, s, h), s, h, up);
            var r := FileClose(AsWritten, srv, s, h, NO_REPLY, up);
            var second := LetGo(AsWritten, first.srv, s, Find(srv.tables, s, h).1, NO_REPLY, up);
            r.end == (if first.end == Returned then second.end else first.end)
            && (first.end == Returned ==> r.srv == second.srv)
  {}

  lemma CloseLoss(srv: Srv, s: Session, h: FileHandler, eph: set<string>, up: bool)
    requires Known(srv, s) && GoneOrEphemeral(srv, s, eph)
    ensures Follows(srv, FileClose(AsWritten, srv, s, h, NO_REPLY, up), s, eph,
                    OneClose(LossOf(srv, s), srv.clients, s, eph, h, up))
  {
    var mid, fd := Reclaim(AsWritten, Found(srv, s, h), s, h, up).srv, Find(srv.tables, s, h).1;
    ReclaimReturnsIff(AsWritten, srv, s, h, up);
    CloseIsReclaimLetGo(srv, s, h, up);
    if Frees(srv, s, h, up) ==> HeadKnown(srv, h.file) {
      ReclaimKeepsGone(srv, s, h, eph, up);
      ReclaimLoss(srv, s, h, up);
      LetGoLoss(mid, s, fd, eph, up);
    }
  }

  lemma ReclaimedNames(srv: Srv, s: Session, h: FileHandler, up: bool)
    requires Known(srv, s) && (Frees(srv, s, h, up) ==> HeadKnown(srv, h.file))
    ensures var mid := Reclaim(AsWritten, Found(srv, s, h), s, h, up).srv;
            (forall f :: f in mid.db.fs ==> f in srv.db.fs) && (forall f :: f in mid.queues ==> f in srv.queues)
  {
    ReclaimedQueues(AsWritten, srv, s, h, up);
    forall f ensures f in Reclaim(AsWritten, Found(srv, s, h), s, h, up).srv.db.fs <==> f in srv.db.fs {
      SameNames(AsWritten, srv, s, h, up, f);
    }
  }

  lemma {:induction false} CloseAllEnds(srv: Srv, s: Session, fds: seq<Fd>, eph: set<string>, up: bool)
    requires Known(srv, s) && GoneOrEphemeral(srv, s, eph)
    ensures CloseAll(AsWritten, srv, s, fds, up).end == EndOfLoss(LossOf(srv, s), srv.clients, s, eph, fds, up)
    decreases fds
  {
    if fds != [] {
      CloseLoss(srv, s, fds[0].h, eph, up);
      var first := FileClose(AsWritten, srv, s, fds[0].h, NO_REPLY, up);
      if first.end == Returned {
        CloseAllEnds(first.srv, s, fds[1..], eph, up);
      }
    }
  }

  /** As written, on any state whatever: how the loss of a session ends. It is read off the
      store, the queues and the client's held and ephemeral files; a session that has used a
      handle and is not known stops the server. */
  lemma DisconnectEnds(srv: Srv, s: Session, up: bool)
    ensures var fds, client := Get(srv.tables.bySession, s), ClientOf(srv.clients, s);
            Disconnect(AsWritten, srv, s, up).end
            == if fds != [] && client == "" then Aborted
               else EndOfLoss(LossOf(srv, s), srv.clients, s, GetSet(srv.eph, client), fds, up)
  {
    var fds := Get(srv.tables.bySession, s);
    if Known(srv, s) {
      CloseAllEnds(srv, s, fds, GetSet(srv.eph, srv.clients[s]), up);
    }
  }

  lemma FirstCloseAborts(l: Loss, clients: map<Session, Client>, s: Session, eph: set<string>, fds: seq<Fd>)
    requires fds != [] && fds[0].h.file in l.holds && Live(l.db, fds[0].h.file, fds[0].h.inst)
    requires !HeadIn(l.queues, clients, fds[0].h.file)
    ensures EndOfLoss(l, clients, s, eph, fds, true) == Aborted
  {}

  lemma StepEnds(srv: Srv, s: Session, up: bool, end: Ending)
    requires Known(srv, s)
    requires EndOfLoss(LossOf(srv, s), srv.clients, s, GetSet(srv.eph, srv.clients[s]),
                       Get(srv.tables.bySession, s), up) == end
    ensures Step(AsWritten, srv, DisconnectOp(s, up)).end == end
  {
    DisconnectEnds(srv, s, up);
  }

  /** In particular, the loss of a session that holds a lock through its first handle, while the
      next in line is gone, stops the server. */
  lemma LostHolderAborts(srv: Srv, s: Session)
    requires Known(srv, s) && Get(srv.tables.bySession, s) != []
    requires var h := Get(srv.tables.bySession, s)[0].h; Frees(srv, s, h, true) && !HeadKnown(srv, h.file)
    ensures Step(AsWritten, srv, DisconnectOp(s, true)).end == Aborted
  {
    FirstCloseAborts(LossOf(srv, s), srv.clients, s, GetSet(srv.eph, srv.clients[s]), Get(srv.tables.bySession, s));
    StepEnds(srv, s, true, Aborted);
  }

  // ---------------------------------------------------------------- file by file

  /** The same loss with the handles of one file only: where in the list it stops, and how. */
  function Scan(l: Loss, clients: map<Session, Client>, s: Session, eph: set<string>, file: string, fds: seq<Fd>,
                up: bool): (nat, Ending)
    decreases fds
  {
    if fds == [] then (0, Returned)
    else
      var (next, end) := if fds[0].h.file == file then OneClose(l, clients, s, eph, fds[0].h, up) else (l, Returned);
      if end != Returned then (0, end)
      else
        var (k, e) := Scan(next, clients, s, eph, file, fds[1..], up);
        (k + 1, e)
  }

  /** Nothing of file f is different. */
  ghost predicate SameFile(l: Loss, m: Loss, f: string) {
    && (f in l.queues <==> f in m.queues) && Get(l.queues, f) == Get(m.queues, f)
    && (f in l.holds <==> f in m.holds)
    && forall i {:trigger Live(l.db, f, i)} {:trigger Live(m.db, f, i)} :: Live(l.db, f, i) <==> Live(m.db, f, i)
  }

  lemma UnlockKeepsLive(db: Db, h: FileHandler, f: string, i: nat)
    ensures Live(Apply(db, Unlock(h.file, h.inst)).0, f, i) <==> Live(db, f, i)
  {}

  lemma OtherFileIsSame(l: Loss, clients: map<Session, Client>, s: Session, eph: set<string>, h: FileHandler, up: bool,
                        f: string)
    requires h.file != f && h.file !in eph
    ensures SameFile(l, OneClose(l, clients, s, eph, h, up).0, f)
  {
    forall i ensures Live(Apply(l.db, Unlock(h.file, h.inst)).0, f, i) <==> Live(l.db, f, i) {
      UnlockKeepsLive(l.db, h, f, i);
    }
  }

  lemma OwnFileStaysSame(l: Loss, m: Loss, clients: map<Session, Client>, s: Session, eph: set<string>,
                         h: FileHandler, up: bool)
    requires SameFile(l, m, h.file) && h.file !in eph
    ensures var (x, e), (y, d) := OneClose(l, clients, s, eph, h, up), OneClose(m, clients, s, eph, h, up);
            e == d && SameFile(x, y, h.file)
  {
    forall i ensures Live(Apply(l.db, Unlock(h.file, h.inst)).0, h.file, i) <==> Live(l.db, h.file, i)
             ensures Live(Apply(m.db, Unlock(h.file, h.inst)).0, h.file, i) <==> Live(m.db, h.file, i)
    {
      UnlockKeepsLive(l.db, h, h.file, i);
      UnlockKeepsLive(m.db, h, h.file, i);
    }
  }

  predicate AllPlain(fds: seq<Fd>, eph: set<string>) {
    forall fd :: fd in fds ==> fd.h.file !in eph
  }

  lemma {:induction false} ScanIsSame(l: Loss, m: Loss, clients: map<Session, Client>, s: Session, eph: set<string>,
                                      f: string, fds: seq<Fd>, up: bool)
    requires SameFile(l, m, f) && AllPlain(fds, eph)
    ensures Scan(l, clients, s, eph, f, fds, up) == Scan(m, clients, s, eph, f, fds, up)
    decreases fds
  {
    if fds != [] {
      assert fds[0] in fds;
      if fds[0].h.file == f {
        OwnFileStaysSame(l, m, clients, s, eph, fds[0].h, up);
        ScanIsSame(OneClose(l, clients, s, eph, fds[0].h, up).0, OneClose(m, clients, s, eph, fds[0].h, up).0,
                   clients, s, eph, f, fds[1..], up);
      } else {
        ScanIsSame(l, m, clients, s, eph, f, fds[1..], up);
      }
    }
  }

  /** File f stops the loss, and no other file does so at an earlier handle. */
  ghost predicate StopsFirst(l: Loss, clients: map<Session, Client>, s: Session, eph: set<string>, f: string,
                             fds: seq<Fd>, up: bool) {
    && Scan(l, clients, s, eph, f, fds, up).1 != Returned
    && forall g :: Scan(l, clients, s, eph, g, fds, up).1 != Returned ==>
                     Scan(l, clients, s, eph, f, fds, up).0 <= Scan(l, clients, s, eph, g, fds, up).0
  }

  /** Plain files do not meddle with each other: the loss is served exactly when it is for each
      file by itself, and else the file that stops at the earliest handle decides how it ends. */
  lemma {:induction false} LossByFile(l: Loss, clients: map<Session, Client>, s: Session, eph: set<string>,
                                      fds: seq<Fd>, up: bool)
    requires AllPlain(fds, eph)
    ensures var end := EndOfLoss(l, clients, s, eph, fds, up);
            && (end == Returned <==> forall f :: Scan(l, clients, s, eph, f, fds, up).1 == Returned)
            && (end != Returned ==>
                  exists f :: StopsFirst(l, clients, s, eph, f, fds, up)
                              && Scan(l, clients, s, eph, f, fds, up).1 == end)
    decreases fds
  {
    if fds != [] {
      var h := fds[0].h;
      var (next, end) := OneClose(l, clients, s, eph, h, up);
      assert fds[0] in fds;
      if end != Returned {
        assert Scan(l, clients, s, eph, h.file, fds, up) == (0, end);
        assert StopsFirst(l, clients, s, eph, h.file, fds, up);
      } else {
        LossByFile(next, clients, s, eph, fds[1..], up);
        forall f ensures var (k, e) := Scan(next, clients, s, eph, f, fds[1..], up);
                         Scan(l, clients, s, eph, f, fds, up) == (k + 1, e)
        {
          ScanStep(l, clients, s, eph, f, fds, up);
        }
        if EndOfLoss(next, clients, s, eph, fds[1..], up) == Returned {
          forall f ensures Scan(l, clients, s, eph, f, fds, up).1 == Returned {
            assert Scan(next, clients, s, eph, f, fds[1..], up).1 == Returned;
          }
        } else {
          var f :| StopsFirst(next, clients, s, eph, f, fds[1..], up)
                   && Scan(next, clients, s, eph, f, fds[1..], up).1 == EndOfLoss(next, clients, s, eph, fds[1..], up);
          assert Scan(l, clients, s, eph, f, fds, up).1 != Returned;
          assert StopsFirst(l, clients, s, eph, f, fds, up);
        }
      }
    }
  }

  lemma ScanStep(l: Loss, clients: map<Session, Client>, s: Session, eph: set<string>, f: string, fds: seq<Fd>,
                 up: bool)
    requires AllPlain(fds, eph) && fds != [] && OneClose(l, clients, s, eph, fds[0].h, up).1 == Returned
    ensures var (k, e) := Scan(OneClose(l, clients, s, eph, fds[0].h, up).0, clients, s, eph, f, fds[1..], up);
            Scan(l, clients, s, eph, f, fds, up) == (k + 1, e)
  {
    assert fds[0] in fds;
    if fds[0].h.file != f {
      OtherFileIsSame(l, clients, s, eph, fds[0].h, up, f);
      ScanIsSame(l, OneClose(l, clients, s, eph, fds[0].h, up).0, clients, s, eph, f, fds[1..], up);
    }
  }

  /** So the loss of a session whose files are all plain ends, as written and on any state, as
      the file that stops first says. */
  lemma DisconnectEndsByFile(srv: Srv, s: Session, up: bool)
    requires Known(srv, s) && AllPlain(Get(srv.tables.bySession, s), GetSet(srv.eph, srv.clients[s]))
    ensures var l, eph, fds := LossOf(srv, s), GetSet(srv.eph, srv.clients[s]), Get(srv.tables.bySession, s);
            var end := Disconnect(AsWritten, srv, s, up).end;
            && (end == Returned <==> forall f :: Scan(l, srv.clients, s, eph, f, fds, up).1 == Returned)
            && (end != Returned ==>
                  exists f :: StopsFirst(l, srv.clients, s, eph, f, fds, up)
                              && Scan(l, srv.clients, s, eph, f, fds, up).1 == end)
  {
    DisconnectEnds(srv, s, up);
    LossByFile(LossOf(srv, s), srv.clients, s, GetSet(srv.eph, srv.clients[s]), Get(srv.tables.bySession, s), up);
  }

  /** A file its client does not hold never stops the server; it hangs it exactly when the session
      has a handle on the file and another session is first in its queue. */
  lemma {:induction false} ScanWithoutLock(l: Loss, clients: map<Session, Client>, s: Session, eph: set<string>,
                                           f: string, fds: seq<Fd>, up: bool)
    requires f !in eph && f !in l.holds
    ensures var q := Get(l.queues, f);
            Scan(l, clients, s, eph, f, fds, up).1
            == if q != [] && q[0].session != s && (exists fd :: fd in fds && fd.h.file == f) then Hung else Returned
    decreases fds
  {
    if fds != [] {
      assert fds == [fds[0]] + fds[1..] && fds[0] in fds;
      var next := if fds[0].h.file == f then OneClose(l, clients, s, eph, fds[0].h, up).0 else l;
      ScanWithoutLock(next, clients, s, eph, f, fds[1..], up);
    }
  }
}
