/**
 The program as written is safe as long as no lock is given up while somebody waits for it:
 exactly then for a release and a close, and on every run of such requests.
 */
module WrittenSafety {
  import opened Database
  import opened Handles
  import opened Service
  import opened Registrations
  import opened LockSafety
  import opened Requests
  import opened Disconnecting
  import opened Runs
  import LiveHandles
  import opened Hanging

  /** The close gives up a lock that somebody waits for. */
  predicate GivesUp(srv: Srv, s: Session, h: FileHandler, up: bool)
    requires Known(srv, s)
  {
    Frees(srv, s, h, up) && h.file in srv.queues
  }

  // ---------------------------------------------------------------- a close

  lemma SameReleaseAlone(srv: Srv, s: Session, h: FileHandler, xid: Xid, up: bool)
    requires up && Live(srv.db, h.file, h.inst) ==> h.file !in srv.queues
    ensures Release(AsWritten, srv, s, h, xid, up) == Release(Intended, srv, s, h, xid, up)
  {}

  lemma ReclaimIsSafe(srv: Srv, s: Session, h: FileHandler, up: bool)
    requires Core(srv) && Known(srv, s) && !GivesUp(srv, s, h, up)
    ensures var r := Reclaim(AsWritten, Found(srv, s, h), s, h, up);
            r.end == Returned ==> Core(r.srv) && r.srv.clients == srv.clients
  {
    FoundIsGood(srv, s, h);
    ReclaimIsGood(Found(srv, s, h), s, h, up);
    if h.file in GetSet(srv.held, srv.clients[s]) {
      SameReleaseAlone(Found(srv, s, h), s, h, NO_REPLY, up);
    }
  }

  lemma ForgetIsSafe(srv: Srv, s: Session, fd: Fd)
    requires Core(srv) && Forget(AsWritten, srv, s, fd).end == Returned
    ensures Core(Forget(AsWritten, srv, s, fd).srv)
  {
    var post := Forget(AsWritten, srv, s, fd).srv;
    ForgetKeeps(AsWritten, srv, s, fd);
    ForgetShape(AsWritten, srv, s, fd);
    assert QueuesLocked(post) && QueuesFilled(post);
  }

  lemma LetGoIsSafe(srv: Srv, s: Session, fd: Fd, xid: Xid, up: bool)
    requires Core(srv) && Known(srv, s) && LetGo(AsWritten, srv, s, fd, xid, up).end == Returned
    ensures Core(LetGo(AsWritten, srv, s, fd, xid, up).srv)
  {
    if IsEphemeral(srv, s, fd.h.file) {
      DeleteIsGood(srv, s, fd.h, NO_REPLY, up);
    } else {
      ForgetIsSafe(srv, s, fd);
    }
  }

  /** The client c counts as a holder of the file and is not its stored owner. */
  predicate Strays(srv: Srv, c: Client, f: string) {
    c != NO_OWNER && f in GetSet(srv.held, c) && Owner(srv.db, f) != c
  }

  lemma StrayIsWrong(srv: Srv, c: Client, f: string)
    requires Strays(srv, c, f)
    ensures !HeldAgrees(srv)
  {}

  lemma GivenUpStrays(srv: Srv, s: Session, h: FileHandler, up: bool)
    requires NamesOk(srv) && Known(srv, s) && GivesUp(srv, s, h, up) && HeadKnown(srv, h.file)
    ensures Strays(Reclaim(AsWritten, Found(srv, s, h), s, h, up).srv, srv.clients[srv.queues[h.file][0].session],
                   h.file)
  {
    var freed := Found(Found(srv, s, h), s, h).(db := Apply(srv.db, Unlock(h.file, h.inst)).0);
    FreedShape(AsWritten, freed, s, h, NO_REPLY);
    FreedDb(AsWritten, freed, s, h, NO_REPLY);
  }

  lemma LetGoKeepsStray(srv: Srv, s: Session, fd: Fd, xid: Xid, up: bool, c: Client, f: string)
    requires Known(srv, s) && Strays(srv, c, f)
    ensures Strays(LetGo(AsWritten, srv, s, fd, xid, up).srv, c, f)
  {
    DeleteShape(srv, s, fd.h, NO_REPLY, up);
    ForgetShape(AsWritten, srv, s, fd);
    DeletedOwner(srv.db, fd.h.file, fd.h.inst, f);
  }

  lemma DeletedOwner(db: Db, file: string, inst: nat, f: string)
    ensures Owner(Apply(db, Delete(file, inst)).0, f) == Owner(db, f)
            || Owner(Apply(db, Delete(file, inst)).0, f) == NO_OWNER
  {}

  /** A close that is served is its two halves, both served. */
  lemma Halves(srv: Srv, s: Session, h: FileHandler, xid: Xid, up: bool)
    requires Known(srv, s) && FileClose(AsWritten, srv, s, h, xid, up).end == Returned
    ensures var first, fd := Reclaim(AsWritten, Found(srv, s, h), s, h, up), Find(srv.tables, s, h).1;
            && first.end == Returned && Known(first.srv, s) && first.srv.clients == srv.clients
            && LetGo(AsWritten, first.srv, s, fd, xid, up).end == Returned
            && FileClose(AsWritten, srv, s, h, xid, up).srv == LetGo(AsWritten, first.srv, s, fd, xid, up).srv
  {
    LiveHandles.CloseIsTwoHalves(AsWritten, srv, s, h, xid, up);
    LiveHandles.ReclaimTables(AsWritten, srv, s, h, up);
  }

  lemma QuietCloseIsSafe(srv: Srv, s: Session, h: FileHandler, xid: Xid, up: bool)
    requires Core(srv) && Known(srv, s) && FileClose(AsWritten, srv, s, h, xid, up).end == Returned
    requires !GivesUp(srv, s, h, up)
    ensures Core(FileClose(AsWritten, srv, s, h, xid, up).srv)
    ensures FileClose(AsWritten, srv, s, h, xid, up).srv.clients == srv.clients
  {
    var mid, fd := Reclaim(AsWritten, Found(srv, s, h), s, h, up).srv, Find(srv.tables, s, h).1;
    Halves(srv, s, h, xid, up);
    ReclaimIsSafe(srv, s, h, up);
    LetGoIsSafe(mid, s, fd, xid, up);
    LetGoKeepsClients(mid, s, fd, xid, up);
  }

  lemma LetGoKeepsClients(srv: Srv, s: Session, fd: Fd, xid: Xid, up: bool)
    requires Known(srv, s)
    ensures LetGo(AsWritten, srv, s, fd, xid, up).srv.clients == srv.clients
  {
    DeleteShape(srv, s, fd.h, NO_REPLY, up);
    ForgetShape(AsWritten, srv, s, fd);
  }

  lemma GivingUpBreaks(srv: Srv, s: Session, h: FileHandler, xid: Xid, up: bool)
    requires NamesOk(srv) && Known(srv, s) && FileClose(AsWritten, srv, s, h, xid, up).end == Returned
    requires GivesUp(srv, s, h, up)
    ensures HeadKnown(srv, h.file)
    ensures Strays(FileClose(AsWritten, srv, s, h, xid, up).srv, srv.clients[srv.queues[h.file][0].session], h.file)
  {
    var mid, fd := Reclaim(AsWritten, Found(srv, s, h), s, h, up).srv, Find(srv.tables, s, h).1;
    Halves(srv, s, h, xid, up);
    ReclaimReturnsIff(AsWritten, srv, s, h, up);
    GivenUpStrays(srv, s, h, up);
    LetGoKeepsStray(mid, s, fd, xid, up, srv.clients[srv.queues[h.file][0].session], h.file);
  }

  /** A close that is served keeps the service safe exactly when it gives up no lock that
      somebody waits for. */
  lemma CloseIsSafeIff(srv: Srv, s: Session, h: FileHandler, xid: Xid, up: bool)
    requires Core(srv) && Known(srv, s) && FileClose(AsWritten, srv, s, h, xid, up).end == Returned
    ensures Core(FileClose(AsWritten, srv, s, h, xid, up).srv) <==> !GivesUp(srv, s, h, up)
  {
    if GivesUp(srv, s, h, up) {
      GivingUpBreaks(srv, s, h, xid, up);
      StrayIsWrong(FileClose(AsWritten, srv, s, h, xid, up).srv, srv.clients[srv.queues[h.file][0].session], h.file);
    } else {
      QuietCloseIsSafe(srv, s, h, xid, up);
    }
  }

  // ---------------------------------------------------------------- a lost session

  /** Some handle of the list is up to date, for a lock of the client that somebody waits for. */
  predicate SomeGivesUp(srv: Srv, s: Session, fds: seq<Fd>, up: bool)
    requires Known(srv, s)
  {
    exists fd :: fd in fds && GivesUp(srv, s, fd.h, up)
  }

  /** What a close that gives up nothing waited for leaves to give up, it found. */
  lemma QuietCloseAddsNone(srv: Srv, s: Session, h: FileHandler, up: bool, g: FileHandler)
    requires Known(srv, s) && FileClose(AsWritten, srv, s, h, NO_REPLY, up).end == Returned && !GivesUp(srv, s, h, up)
    ensures var post := FileClose(AsWritten, srv, s, h, NO_REPLY, up).srv;
            Known(post, s) && (GivesUp(post, s, g, up) ==> GivesUp(srv, s, g, up))
  {
    var mid, fd := Reclaim(AsWritten, Found(srv, s, h), s, h, up).srv, Find(srv.tables, s, h).1;
    Halves(srv, s, h, NO_REPLY, up);
    QuietReclaimShape(srv, s, h, up);
    LetGoShape(mid, s, fd, up, g);
    assert Live(mid.db, g.file, g.inst) <==> Live(srv.db, g.file, g.inst) by {
      LiveHandles.ReclaimStoreAlike(AsWritten, Found(srv, s, h), s, h, up);
    }
  }

  lemma QuietReclaimShape(srv: Srv, s: Session, h: FileHandler, up: bool)
    requires Known(srv, s) && !GivesUp(srv, s, h, up)
    ensures var mid := Reclaim(AsWritten, Found(srv, s, h), s, h, up).srv;
            && mid.queues == srv.queues && mid.clients == srv.clients
            && GetSet(mid.held, srv.clients[s])
               == (if Frees(srv, s, h, up) then GetSet(srv.held, srv.clients[s]) - {h.file}
                   else GetSet(srv.held, srv.clients[s]))
  {
    LiveHandles.ReclaimTables(AsWritten, srv, s, h, up);
    if Frees(srv, s, h, up) {
      var freed := Found(Found(srv, s, h), s, h).(db := Apply(srv.db, Unlock(h.file, h.inst)).0);
      FreedShape(AsWritten, freed, s, h, NO_REPLY);
    }
  }

  lemma LetGoShape(srv: Srv, s: Session, fd: Fd, up: bool, g: FileHandler)
    requires Known(srv, s) && LetGo(AsWritten, srv, s, fd, NO_REPLY, up).end == Returned
    ensures var post := LetGo(AsWritten, srv, s, fd, NO_REPLY, up).srv;
            && post.held == srv.held && post.clients == srv.clients
            && (g.file in post.queues ==> g.file in srv.queues)
            && (Live(post.db, g.file, g.inst) ==> Live(srv.db, g.file, g.inst))
  {
    DeleteShape(srv, s, fd.h, NO_REPLY, up);
    ForgetShape(AsWritten, srv, s, fd);
    DeletedLive(srv.db, fd.h.file, fd.h.inst);
  }

  lemma {:induction false} QuietLossIsSafe(srv: Srv, s: Session, fds: seq<Fd>, up: bool)
    requires Core(srv) && (fds == [] || Known(srv, s)) && CloseAll(AsWritten, srv, s, fds, up).end == Returned
    requires fds != [] ==> !SomeGivesUp(srv, s, fds, up)
    ensures Core(CloseAll(AsWritten, srv, s, fds, up).srv)
    decreases fds
  {
    if fds != [] {
      var first, rest := FileClose(AsWritten, srv, s, fds[0].h, NO_REPLY, up), fds[1..];
      FirstAndRest(srv, s, fds, up);
      assert fds[0] in fds;
      QuietCloseIsSafe(srv, s, fds[0].h, NO_REPLY, up);
      forall fd | fd in rest ensures Known(first.srv, s) && !GivesUp(first.srv, s, fd.h, up) {
        assert fd in fds;
        QuietCloseAddsNone(srv, s, fds[0].h, up, fd.h);
      }
      QuietLossIsSafe(first.srv, s, rest, up);
    }
  }

  lemma FreedKeepsStray(srv: Srv, s: Session, h: FileHandler, c: Client, f: string)
    requires Known(srv, s) && HeadKnown(srv, h.file) && c != srv.clients[s] && Strays(srv, c, f)
    ensures Strays(Freed(AsWritten, srv, s, h, NO_REPLY).srv, c, f)
  {
    FreedShape(AsWritten, srv, s, h, NO_REPLY);
    FreedDb(AsWritten, srv, s, h, NO_REPLY);
  }

  lemma ReclaimKeepsStray(srv: Srv, s: Session, h: FileHandler, up: bool, c: Client, f: string)
    requires Known(srv, s) && c != srv.clients[s] && Strays(srv, c, f)
    requires Reclaim(AsWritten, Found(srv, s, h), s, h, up).end == Returned
    ensures Strays(Reclaim(AsWritten, Found(srv, s, h), s, h, up).srv, c, f)
  {
    ReclaimReturnsIff(AsWritten, srv, s, h, up);
    if Frees(srv, s, h, up) {
      var freed := Found(Found(srv, s, h), s, h).(db := Apply(srv.db, Unlock(h.file, h.inst)).0);
      UnlockedOwner(srv.db, h.file, h.inst, f);
      FreedKeepsStray(freed, s, h, c, f);
      assert Reclaim(AsWritten, Found(srv, s, h), s, h, up).srv == Freed(AsWritten, freed, s, h, NO_REPLY).srv;
    } else {
      NotFreed(srv, s, h, up);
    }
  }

  lemma NotFreed(srv: Srv, s: Session, h: FileHandler, up: bool)
    requires Known(srv, s) && !Frees(srv, s, h, up)
    ensures var mid := Reclaim(AsWritten, Found(srv, s, h), s, h, up).srv;
            mid.db == srv.db && mid.held == srv.held
  {}

  lemma UnlockedOwner(db: Db, file: string, inst: nat, f: string)
    ensures Owner(Apply(db, Unlock(file, inst)).0, f) == Owner(db, f)
            || Owner(Apply(db, Unlock(file, inst)).0, f) == NO_OWNER
  {}

  lemma {:induction false} LossKeepsStray(srv: Srv, s: Session, fds: seq<Fd>, up: bool, c: Client, f: string)
    requires (fds == [] || (Known(srv, s) && c != srv.clients[s])) && Strays(srv, c, f)
    requires CloseAll(AsWritten, srv, s, fds, up).end == Returned
    ensures Strays(CloseAll(AsWritten, srv, s, fds, up).srv, c, f)
    decreases fds
  {
    if fds != [] {
      var h := fds[0].h;
      var first := FileClose(AsWritten, srv, s, h, NO_REPLY, up);
      var mid := Reclaim(AsWritten, Found(srv, s, h), s, h, up).srv;
      FirstAndRest(srv, s, fds, up);
      Halves(srv, s, h, NO_REPLY, up);
      ReclaimKeepsStray(srv, s, h, up, c, f);
      LetGoKeepsStray(mid, s, Find(srv.tables, s, h).1, NO_REPLY, up, c, f);
      LetGoKeepsClients(mid, s, Find(srv.tables, s, h).1, NO_REPLY, up);
      LossKeepsStray(first.srv, s, fds[1..], up, c, f);
    }
  }

  /** The second half of a close adds nobody to a queue and takes nothing from another file. */
  lemma LetGoLeaves(srv: Srv, s: Session, fd: Fd, up: bool, g: FileHandler)
    requires Known(srv, s) && LetGo(AsWritten, srv, s, fd, NO_REPLY, up).end == Returned
    ensures var post := LetGo(AsWritten, srv, s, fd, NO_REPLY, up).srv;
            && FewerWaiters(srv, post)
            && (g.file != fd.h.file ==> Get(post.queues, g.file) == Get(srv.queues, g.file)
                                        && (g.file in srv.queues ==> g.file in post.queues)
                                        && (Live(srv.db, g.file, g.inst) ==> Live(post.db, g.file, g.inst)))
  {
    DeleteShape(srv, s, fd.h, NO_REPLY, up);
    ForgetShape(AsWritten, srv, s, fd);
    DeletedLive(srv.db, fd.h.file, fd.h.inst);
  }

  /** A stale handle of a file that others wait for, and only others, changes nothing of it. */
  lemma StaleLetGoLeaves(srv: Srv, s: Session, fd: Fd, up: bool)
    requires Known(srv, s) && LetGo(AsWritten, srv, s, fd, NO_REPLY, up).end == Returned
    requires !Live(srv.db, fd.h.file, fd.h.inst)
    requires Get(srv.queues, fd.h.file) != [] && Get(srv.queues, fd.h.file)[0].session != s
    ensures var post := LetGo(AsWritten, srv, s, fd, NO_REPLY, up).srv;
            post.queues == srv.queues && post.db == srv.db
  {
    LetGoHangsIff(srv, s, fd, NO_REPLY, up);
    DeleteShape(srv, s, fd.h, NO_REPLY, up);
  }

  lemma QuietCloseKeepsGivesUp(srv: Srv, s: Session, h: FileHandler, up: bool, g: FileHandler)
    requires Known(srv, s) && QueuesFilled(srv) && NoSelfWait(srv, srv.clients[s])
    requires FileClose(AsWritten, srv, s, h, NO_REPLY, up).end == Returned
    requires !GivesUp(srv, s, h, up) && GivesUp(srv, s, g, up)
    ensures var post := FileClose(AsWritten, srv, s, h, NO_REPLY, up).srv;
            Known(post, s) && GivesUp(post, s, g, up)
  {
    var mid, fd := Reclaim(AsWritten, Found(srv, s, h), s, h, up).srv, Find(srv.tables, s, h).1;
    Halves(srv, s, h, NO_REPLY, up);
    QuietReclaimShape(srv, s, h, up);
    LetGoShape(mid, s, fd, up, g);
    LiveHandles.ReclaimStoreAlike(AsWritten, Found(srv, s, h), s, h, up);
    assert Live(mid.db, g.file, g.inst) <==> Live(srv.db, g.file, g.inst);
    assert Live(mid.db, h.file, h.inst) <==> Live(srv.db, h.file, h.inst);
    if g.file == h.file {
      assert srv.queues[h.file][0] in Get(srv.queues, h.file);
      StaleLetGoLeaves(mid, s, fd, up);
    } else {
      LetGoLeaves(mid, s, fd, up, g);
    }
  }

  lemma QuietCloseKeepsNoSelfWait(srv: Srv, s: Session, h: FileHandler, up: bool)
    requires Known(srv, s) && NoSelfWait(srv, srv.clients[s])
    requires FileClose(AsWritten, srv, s, h, NO_REPLY, up).end == Returned && !GivesUp(srv, s, h, up)
    ensures NoSelfWait(FileClose(AsWritten, srv, s, h, NO_REPLY, up).srv, srv.clients[s])
  {
    var mid, fd := Reclaim(AsWritten, Found(srv, s, h), s, h, up).srv, Find(srv.tables, s, h).1;
    Halves(srv, s, h, NO_REPLY, up);
    QuietReclaimShape(srv, s, h, up);
    LetGoShape(mid, s, fd, up, h);
    LetGoLeaves(mid, s, fd, up, h);
    var post := LetGo(AsWritten, mid, s, fd, NO_REPLY, up).srv;
    forall f, w | w in Get(post.queues, f) && f in GetSet(post.held, srv.clients[s]) && w.session in post.clients
      ensures post.clients[w.session] != srv.clients[s]
    {
      assert w in Get(srv.queues, f);
    }
  }

  /** The closes are the first and the rest. */
  lemma FirstAndRest(srv: Srv, s: Session, fds: seq<Fd>, up: bool)
    requires fds != [] && CloseAll(AsWritten, srv, s, fds, up).end == Returned
    ensures var first := FileClose(AsWritten, srv, s, fds[0].h, NO_REPLY, up);
            var rest := CloseAll(AsWritten, first.srv, s, fds[1..], up);
            first.end == Returned && rest.end == Returned && CloseAll(AsWritten, srv, s, fds, up).srv == rest.srv
  {}

  lemma FirstGivesUp(srv: Srv, s: Session, h: FileHandler, up: bool) returns (c: Client)
    requires NamesOk(srv) && Known(srv, s) && NoSelfWait(srv, srv.clients[s]) && GivesUp(srv, s, h, up)
    requires FileClose(AsWritten, srv, s, h, NO_REPLY, up).end == Returned
    ensures var post := FileClose(AsWritten, srv, s, h, NO_REPLY, up).srv;
            Strays(post, c, h.file) && post.clients == srv.clients && c != srv.clients[s]
  {
    GivingUpBreaks(srv, s, h, NO_REPLY, up);
    assert srv.queues[h.file][0] in Get(srv.queues, h.file);
    c := srv.clients[srv.queues[h.file][0].session];
    KnownAfter(srv, s, h, up);
  }

  lemma QuietCloseKeepsFilled(srv: Srv, s: Session, h: FileHandler, up: bool)
    requires Known(srv, s) && QueuesFilled(srv) && !GivesUp(srv, s, h, up)
    requires FileClose(AsWritten, srv, s, h, NO_REPLY, up).end == Returned
    ensures QueuesFilled(FileClose(AsWritten, srv, s, h, NO_REPLY, up).srv)
  {
    var mid, fd := Reclaim(AsWritten, Found(srv, s, h), s, h, up).srv, Find(srv.tables, s, h).1;
    Halves(srv, s, h, NO_REPLY, up);
    QuietReclaimShape(srv, s, h, up);
    LetGoKeepsFilled(mid, s, fd, up);
  }

  lemma LetGoKeepsFilled(srv: Srv, s: Session, fd: Fd, up: bool)
    requires Known(srv, s) && QueuesFilled(srv) && LetGo(AsWritten, srv, s, fd, NO_REPLY, up).end == Returned
    ensures QueuesFilled(LetGo(AsWritten, srv, s, fd, NO_REPLY, up).srv)
  {
    DeleteShape(srv, s, fd.h, NO_REPLY, up);
  }

  /** A quiet first close leaves the rest of the closes where they were. */
  lemma QuietFirst(srv: Srv, s: Session, h: FileHandler, up: bool, g: FileHandler)
    requires NamesOk(srv) && QueuesFilled(srv) && Known(srv, s) && NoSelfWait(srv, srv.clients[s])
    requires FileClose(AsWritten, srv, s, h, NO_REPLY, up).end == Returned
    requires !GivesUp(srv, s, h, up) && GivesUp(srv, s, g, up)
    ensures var post := FileClose(AsWritten, srv, s, h, NO_REPLY, up).srv;
            && post.clients == srv.clients && QueuesFilled(post) && NoSelfWait(post, srv.clients[s])
            && GivesUp(post, s, g, up)
  {
    QuietCloseKeepsGivesUp(srv, s, h, up, g);
    QuietCloseKeepsFilled(srv, s, h, up);
    KnownAfter(srv, s, h, up);
    QuietCloseKeepsNoSelfWait(srv, s, h, up);
  }

  lemma FirstStrays(srv: Srv, s: Session, fds: seq<Fd>, up: bool) returns (c: Client)
    requires NamesOk(srv) && QueuesFilled(srv) && Known(srv, s) && NoSelfWait(srv, srv.clients[s])
    requires fds != [] && GivesUp(srv, s, fds[0].h, up) && CloseAll(AsWritten, srv, s, fds, up).end == Returned
    ensures Strays(CloseAll(AsWritten, srv, s, fds, up).srv, c, fds[0].h.file)
  {
    FirstAndRest(srv, s, fds, up);
    c := FirstGivesUp(srv, s, fds[0].h, up);
    LossKeepsStray(FileClose(AsWritten, srv, s, fds[0].h, NO_REPLY, up).srv, s, fds[1..], up, c, fds[0].h.file);
  }

  lemma {:induction false} LossGivesUp(srv: Srv, s: Session, fds: seq<Fd>, up: bool, k: nat)
    returns (c: Client, f: string)
    requires NamesOk(srv) && QueuesFilled(srv) && Known(srv, s) && NoSelfWait(srv, srv.clients[s])
    requires CloseAll(AsWritten, srv, s, fds, up).end == Returned
    requires k < |fds| && GivesUp(srv, s, fds[k].h, up)
    ensures Strays(CloseAll(AsWritten, srv, s, fds, up).srv, c, f)
    decreases k
  {
    if GivesUp(srv, s, fds[0].h, up) {
      f := fds[0].h.file;
      c := FirstStrays(srv, s, fds, up);
    } else {
      FirstAndRest(srv, s, fds, up);
      QuietFirst(srv, s, fds[0].h, up, fds[k].h);
      c, f := LossGivesUp(FileClose(AsWritten, srv, s, fds[0].h, NO_REPLY, up).srv, s, fds[1..], up, k - 1);
    }
  }

  lemma KnownAfter(srv: Srv, s: Session, h: FileHandler, up: bool)
    requires Known(srv, s) && FileClose(AsWritten, srv, s, h, NO_REPLY, up).end == Returned
    ensures FileClose(AsWritten, srv, s, h, NO_REPLY, up).srv.clients == srv.clients
  {
    Halves(srv, s, h, NO_REPLY, up);
    LetGoKeepsClients(Reclaim(AsWritten, Found(srv, s, h), s, h, up).srv, s, Find(srv.tables, s, h).1, NO_REPLY, up);
  }

  /** Whether the state is safe does not depend on who is still introduced. */
  lemma Forgotten(srv: Srv, s: Session, up: bool)
    requires Disconnect(AsWritten, srv, s, up).end == Returned
    ensures var closed := CloseAll(AsWritten, srv, s, Get(srv.tables.bySession, s), up);
            var post := Disconnect(AsWritten, srv, s, up).srv;
            && closed.end == Returned && (HeldAgrees(post) <==> HeldAgrees(closed.srv))
            && (Core(closed.srv) ==> Core(post))
  {}

  /** The loss of a session whose client does not wait behind itself: if it is served, it keeps
      the service safe exactly when no handle gives up a lock that somebody waits for. */
  lemma LossIsSafeIff(srv: Srv, s: Session, up: bool)
    requires Core(srv) && Known(srv, s) && NoSelfWait(srv, srv.clients[s])
    requires Disconnect(AsWritten, srv, s, up).end == Returned
    ensures Core(Disconnect(AsWritten, srv, s, up).srv) <==> !SomeGivesUp(srv, s, Get(srv.tables.bySession, s), up)
  {
    var fds := Get(srv.tables.bySession, s);
    var closed := CloseAll(AsWritten, srv, s, fds, up);
    Forgotten(srv, s, up);
    if SomeGivesUp(srv, s, fds, up) {
      var fd :| fd in fds && GivesUp(srv, s, fd.h, up);
      var k :| 0 <= k < |fds| && fds[k] == fd;
      var c, f := LossGivesUp(srv, s, fds, up, k);
      StrayIsWrong(closed.srv, c, f);
    } else {
      assert Core(closed.srv) by { QuietLossIsSafe(srv, s, fds, up); }
    }
  }

  // ---------------------------------------------------------------- every request, every run

  /** The request gives up no lock that somebody waits for; a release does not by being lawful. */
  predicate KeepsQueues(srv: Srv, op: Op) {
    match op
    case CloseOp(s, h, _, up) => Known(srv, s) ==> !GivesUp(srv, s, h, up)
    case DisconnectOp(s, up) => Known(srv, s) ==> !SomeGivesUp(srv, s, Get(srv.tables.bySession, s), up)
    case _ => true
  }

  lemma EndStepIsSafe(srv: Srv, op: Op)
    requires Core(srv) && (op.CloseOp? || op.DisconnectOp?) && KeepsQueues(srv, op)
    requires Step(AsWritten, srv, op).end == Returned
    ensures Core(Step(AsWritten, srv, op).srv)
  {
    if op.CloseOp? {
      CloseIsSafeIff(srv, op.s, op.h, op.xid, op.up);
    } else {
      var fds := Get(srv.tables.bySession, op.s);
      Forgotten(srv, op.s, op.up);
      assert fds == [] || Known(srv, op.s);
      QuietLossIsSafe(srv, op.s, fds, op.up);
    }
  }

  lemma SameStep(srv: Srv, op: Op)
    requires !op.CloseOp? && !op.DisconnectOp? && Lawful(AsWritten, srv, op)
    ensures Step(AsWritten, srv, op) == Step(Intended, srv, op) && Lawful(Intended, srv, op)
  {
    if op.ReleaseOp? && Known(srv, op.s) {
      SameReleaseAlone(srv, op.s, op.h, op.xid, op.up);
    }
  }

  /** As written, a lawful request that is served and gives up no lock that somebody waits for
      keeps the service safe. */
  lemma WrittenStepIsSafe(srv: Srv, op: Op)
    requires Core(srv) && Lawful(AsWritten, srv, op) && KeepsQueues(srv, op)
    requires Step(AsWritten, srv, op).end == Returned
    ensures Core(Step(AsWritten, srv, op).srv)
  {
    if op.CloseOp? || op.DisconnectOp? {
      EndStepIsSafe(srv, op);
    } else {
      SameStep(srv, op);
      StepIsSafe(srv, op);
    }
  }

  lemma UnlawfulReleaseBreaks(srv: Srv, op: Op)
    requires Core(srv) && op.ReleaseOp? && !Lawful(AsWritten, srv, op) && Step(AsWritten, srv, op).end == Returned
    ensures !HeldAgrees(Step(AsWritten, srv, op).srv)
  {
    var found := Found(srv, op.s, op.h);
    FoundKeepsLocks(srv, op.s, op.h);
    assert !ReleaseFits(AsWritten, found, srv.clients[op.s], op.h.file);
    FreedKeepsLocksIff(AsWritten, found, op.s, op.h, op.xid);
  }

  /** And no other does: exactly then, for every request but a takeover, if the client of a lost
      session does not wait behind itself. */
  lemma WrittenStepIsSafeIff(srv: Srv, op: Op)
    requires Core(srv) && !op.LeadOp? && Step(AsWritten, srv, op).end == Returned
    requires op.DisconnectOp? && Known(srv, op.s) ==> NoSelfWait(srv, srv.clients[op.s])
    ensures Core(Step(AsWritten, srv, op).srv) <==> Lawful(AsWritten, srv, op) && KeepsQueues(srv, op)
  {
    if op.CloseOp? {
      CloseIsSafeIff(srv, op.s, op.h, op.xid, op.up);
    } else if op.DisconnectOp? {
      if Known(srv, op.s) { LossIsSafeIff(srv, op.s, op.up); } else { EndStepIsSafe(srv, op); }
    } else if Lawful(AsWritten, srv, op) {
      WrittenStepIsSafe(srv, op);
    } else if op.ReleaseOp? {
      UnlawfulReleaseBreaks(srv, op);
    } else {
      StepIsSafeIff(srv, op);
    }
  }

  ghost predicate KeepsQueuesRun(srv: Srv, ops: seq<Op>)
    decreases ops
  {
    ops != [] ==> KeepsQueues(srv, ops[0]) && KeepsQueuesRun(Step(AsWritten, srv, ops[0]).srv, ops[1..])
  }

  lemma {:induction false} WrittenRunIsSafe(srv: Srv, ops: seq<Op>)
    requires Core(srv) && LawfulRun(AsWritten, srv, ops) && KeepsQueuesRun(srv, ops)
    requires RunOps(AsWritten, srv, ops).end == Returned
    ensures Core(RunOps(AsWritten, srv, ops).srv)
    decreases ops
  {
    if ops != [] {
      WrittenStepIsSafe(srv, ops[0]);
      WrittenRunIsSafe(Step(AsWritten, srv, ops[0]).srv, ops[1..]);
    }
  }

  /** As written, on every served run of lawful requests, acquires included, that give up no lock
      somebody waits for: at most one client holds a file, and it is the stored owner. */
  lemma WrittenMutualExclusion(ops: seq<Op>, file: string, c: Client, d: Client)
    requires LawfulRun(AsWritten, START, ops) && KeepsQueuesRun(START, ops)
    requires RunOps(AsWritten, START, ops).end == Returned && c != NO_OWNER && d != NO_OWNER
    ensures var srv := RunOps(AsWritten, START, ops).srv;
            && (file in GetSet(srv.held, c) <==> Owner(srv.db, file) == c)
            && (file in GetSet(srv.held, c) && file in GetSet(srv.held, d) ==> c == d)
            && (file in srv.queues ==> srv.queues[file] != [] && Owner(srv.db, file) != NO_OWNER)
  {
    StartIsGood();
    WrittenRunIsSafe(START, ops);
  }
}
