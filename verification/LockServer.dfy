/**
 The server object: the eight tables are fields that every request updates in place.
 Each method is proved to do what the corresponding function of `Service` says.
 */
module LockServer {
  import opened Text
  import opened Database
  import opened Handles
  import opened Service

  class Server {
    const variant: Variant
    const masterSeq: nat
    const db: ServerDb

    var session2client: map<Session, Client>
    var file2fd: map<string, seq<SessionFd>>
    var session2fd: map<Session, seq<Fd>>
    var nextId: nat
    var file2lockQueue: map<string, seq<Waiter>>
    var client2heldLock: map<Client, set<string>>
    var client2ephemeral: map<Client, set<string>>
    var file2lockChange: map<string, seq<Session>>
    var file2contentChange: map<string, seq<Session>>

    function State(): Srv
      reads this, db
    {
      Srv(db.State(), Tables(file2fd, session2fd, nextId), session2client, file2lockQueue,
          client2heldLock, client2ephemeral, file2lockChange, file2contentChange)
    }

    constructor (variant: Variant, masterSeq: nat, db: ServerDb)
      ensures this.variant == variant && this.masterSeq == masterSeq && this.db == db
      ensures State() == Srv(db.State(), NO_TABLES, map[], map[], map[], map[], map[], map[])
    {
      this.variant, this.masterSeq, this.db := variant, masterSeq, db;
      session2client, file2fd, session2fd, nextId := map[], map[], map[], 0;
      file2lockQueue, client2heldLock, client2ephemeral := map[], map[], map[];
      file2lockChange, file2contentChange := map[], map[];
    }

    /** Walks the session's list; a handle that is not there is entered. */
    method FindFd(s: Session, h: FileHandler) returns (fd: Fd)
      modifies this`file2fd, this`session2fd, this`nextId
      ensures State() == Found(old(State()), s, h)
      ensures fd == Find(old(State()).tables, s, h).1
    {
      var l := Get(session2fd, s);
      var i := 0;
      assert l[0..] == l;
      while i < |l|
        invariant 0 <= i <= |l|
        invariant FirstMatch(l, h) == FirstMatch(l[i..], h)
      {
        var p := l[i].h;
        if p.inst == h.inst && p.magic == h.magic && p.masterSeq == h.masterSeq
           && p.file == h.file && p.writable == h.writable {
          return l[i];
        }
        i := i + 1;
      }
      fd := Enter(s, h);
    }

    /** Puts a new handle object into both tables. */
    method Enter(s: Session, h: FileHandler) returns (fd: Fd)
      modifies this`file2fd, this`session2fd, this`nextId
      ensures State() == old(State()).(tables := Add(old(State()).tables, s, h))
      ensures fd == Fd(old(nextId), h)
    {
      fd := Fd(nextId, h);
      nextId := nextId + 1;
      file2fd := file2fd[h.file := Get(file2fd, h.file) + [SessionFd(s, fd)]];
      session2fd := session2fd[s := Get(session2fd, s) + [fd]];
    }

    method SendLockChangeEvent(file: string) returns (out: seq<Out>)
      ensures out == LockEvents(Get(file2lockChange, file), file)
    {
      out := [];
      if file in file2lockChange {
        var l := file2lockChange[file];
        for i := 0 to |l|
          invariant out == LockEvents(l[..i], file)
        {
          assert l[..i + 1][..i] == l[..i];
          out := out + [LockChanged(l[i], file)];
        }
        assert l[..|l|] == l;
      }
    }

    method SendContentChangeEvent(file: string) returns (out: seq<Out>)
      ensures out == ContentEvents(Get(file2contentChange, file), file)
    {
      out := [];
      if file in file2contentChange {
        var l := file2contentChange[file];
        for i := 0 to |l|
          invariant out == ContentEvents(l[..i], file)
        {
          assert l[..i + 1][..i] == l[..i];
          out := out + [ContentModified(l[i], file)];
        }
        assert l[..|l|] == l;
      }
    }

    method SendParentEvent(file: string) returns (out: seq<Out>)
      ensures out == ParentEvents(State(), file)
    {
      var parent := GetParentName(file);
      out := [];
      if parent != "/" {
        out := SendContentChangeEvent(parent);
      }
    }

    /** The events asked for in the mode. */
    method Register(s: Session, file: string, mode: nat)
      modifies this`file2lockChange, this`file2contentChange
      ensures file2lockChange == if Has(mode, EV_LOCK_CHANGED)
                then old(file2lockChange)[file := Get(old(file2lockChange), file) + [s]]
                else old(file2lockChange)
      ensures file2contentChange == if Has(mode, EV_CONTENT_MODIFIED)
                then old(file2contentChange)[file := Get(old(file2contentChange), file) + [s]]
                else old(file2contentChange)
    {
      if Has(mode, EV_LOCK_CHANGED) {
        file2lockChange := file2lockChange[file := Get(file2lockChange, file) + [s]];
      }
      if Has(mode, EV_CONTENT_MODIFIED) {
        file2contentChange := file2contentChange[file := Get(file2contentChange, file) + [s]];
      }
    }

    method FileOpen(s: Session, file: string, mode: nat, xid: Xid, up: bool)
      returns (out: seq<Out>, end: Ending)
      modifies this, db
      ensures var r := Service.FileOpen(old(State()), s, file, mode, masterSeq, xid, up);
              State() == r.srv && out == r.out && end == r.end
    {
      if s !in session2client || session2client[s] == "" {
        return [], Aborted;
      }
      var client := session2client[s];
      var nameOk := CheckName(file);
      if !nameOk {
        return Send(s, xid, Error(BAD_ARG)), Returned;
      }
      if Has(mode, CREATE_DIRECTORY) && Has(mode, CREATE_FILE) {
        return Send(s, xid, Error(BAD_ARG)), Returned;
      }
      if !up {
        return Send(s, xid, Error(PAXOS_ERROR)), Returned;
      }
      var ok, inst;
      var creates := Has(mode, CREATE_DIRECTORY) || Has(mode, CREATE_FILE);
      if creates {
        ok, inst := db.CheckAndCreate(file, Has(mode, CREATE_DIRECTORY));
      } else {
        ok, inst := db.CheckAndOpen(file);
      }
      if !ok {
        return Send(s, xid, Error(FS_FAIL)), Returned;
      }
      out := EnterOpened(s, file, mode, creates && Has(mode, EPHEMERAL), inst, xid);
      end := Returned;
    }

    method EnterOpened(s: Session, file: string, mode: nat, ephemeral: bool, inst: nat, xid: Xid)
      returns (out: seq<Out>)
      requires Known(State(), s)
      modifies this
      ensures var r := Entered(old(State()), s, file, mode, ephemeral, masterSeq, inst, xid);
              State() == r.srv && out == r.out
    {
      var client := session2client[s];
      if ephemeral {
        client2ephemeral := client2ephemeral[client := GetSet(client2ephemeral, client) + {file}];
      }
      var writable := Has(mode, WRITE);
      var h := FileHandler(Magic(file, inst, writable), masterSeq, file, inst, writable);
      var fd := Enter(s, h);
      Register(s, file, mode);
      var events := SendParentEvent(file);
      out := Send(s, xid, Opened(h)) + events;
    }

    method GetContentsAndStat(s: Session, h: FileHandler, xid: Xid, up: bool)
      returns (out: seq<Out>, end: Ending)
      modifies this
      ensures var r := Service.GetContentsAndStat(old(State()), s, h, xid, up);
              State() == r.srv && out == r.out && end == r.end
    {
      var fd := FindFd(s, h);
      if !up {
        return Send(s, xid, Error(PAXOS_ERROR)), Returned;
      }
      var r := db.CheckAndRead(fd.h.file, fd.h.inst);
      if r == Fails {
        return Send(s, xid, Error(FS_FAIL)), Returned;
      }
      return Send(s, xid, Data(r.content, r.meta)), Returned;
    }

    method SetContents(s: Session, h: FileHandler, content: string, xid: Xid, up: bool)
      returns (out: seq<Out>, end: Ending)
      modifies this, db
      ensures var r := Service.SetContents(old(State()), s, h, content, xid, up);
              State() == r.srv && out == r.out && end == r.end
    {
      var fd := FindFd(s, h);
      if !up {
        return Send(s, xid, Error(PAXOS_ERROR)), Returned;
      }
      var r := db.CheckAndUpdate(fd.h.file, fd.h.inst, content);
      if r != Ok {
        return Send(s, xid, Error(FS_FAIL)), Returned;
      }
      var events := SendContentChangeEvent(fd.h.file);
      return Send(s, xid, Value(true)) + events, Returned;
    }

    method Acquire(s: Session, h: FileHandler, xid: Xid, up: bool)
      returns (out: seq<Out>, end: Ending)
      modifies this, db
      ensures var r := Service.Acquire(old(State()), s, h, xid, up);
              State() == r.srv && out == r.out && end == r.end
    {
      if s !in session2client || session2client[s] == "" {
        return [], Aborted;
      }
      var client := session2client[s];
      var fd := FindFd(s, h);
      if !up {
        return Send(s, xid, Error(PAXOS_ERROR)), Returned;
      }
      var r := db.TestAndSetLockOwner(fd.h.file, fd.h.inst, client);
      if r == Ok {
        if fd.h.file in file2lockQueue {
          return [], Aborted;
        }
        client2heldLock := client2heldLock[client := GetSet(client2heldLock, client) + {fd.h.file}];
        var events := SendLockChangeEvent(fd.h.file);
        return Send(s, xid, Value(true)) + events, Returned;
      }
      file2lockQueue := file2lockQueue[fd.h.file := Get(file2lockQueue, fd.h.file) + [Waiter(s, xid)]];
      return [], Returned;
    }

    method TryAcquire(s: Session, h: FileHandler, xid: Xid, up: bool)
      returns (out: seq<Out>, end: Ending)
      modifies this, db
      ensures var r := Service.TryAcquire(old(State()), s, h, xid, up);
              State() == r.srv && out == r.out && end == r.end
    {
      if s !in session2client || session2client[s] == "" {
        return [], Aborted;
      }
      var client := session2client[s];
      var fd := FindFd(s, h);
      if !up {
        return Send(s, xid, Error(PAXOS_ERROR)), Returned;
      }
      var r := db.TestAndSetLockOwner(fd.h.file, fd.h.inst, client);
      if r == Ok {
        if fd.h.file in file2lockQueue {
          return [], Aborted;
        }
        client2heldLock := client2heldLock[client := GetSet(client2heldLock, client) + {fd.h.file}];
        var events := SendLockChangeEvent(fd.h.file);
        return Send(s, xid, Value(true)) + events, Returned;
      }
      return Send(s, xid, Value(false)), Returned;
    }

    method Release(s: Session, h: FileHandler, xid: Xid, up: bool)
      returns (out: seq<Out>, end: Ending)
      modifies this, db
      ensures var r := Service.Release(variant, old(State()), s, h, xid, up);
              State() == r.srv && out == r.out && end == r.end
    {
      if s !in session2client || session2client[s] == "" {
        return [], Aborted;
      }
      var fd := FindFd(s, h);
      if !up {
        return Send(s, xid, Error(PAXOS_ERROR)), Returned;
      }
      var r := db.ResetLockOwner(fd.h.file, fd.h.inst);
      if r != Ok {
        return Send(s, xid, Error(FS_FAIL)), Returned;
      }
      out, end := AfterReset(s, fd.h, xid);
    }

    method AfterReset(s: Session, h: FileHandler, xid: Xid) returns (out: seq<Out>, end: Ending)
      requires Known(State(), s)
      modifies this, db
      ensures var r := Freed(variant, old(State()), s, h, xid);
              State() == r.srv && out == r.out && end == r.end
    {
      var client := session2client[s];
      client2heldLock := PutSet(client2heldLock, client, GetSet(client2heldLock, client) - {h.file});
      out := Send(s, xid, Value(true));
      var handed;
      handed, end := HandOverLock(h);
      out := out + handed;
      if end == Returned {
        var events := SendLockChangeEvent(h.file);
        out := out + events;
      }
    }

    /** Pops the first waiter and answers its acquire. */
    method HandOverLock(h: FileHandler) returns (out: seq<Out>, end: Ending)
      modifies this, db
      ensures var r := HandOver(variant, old(State()), h);
              State() == r.srv && out == r.out && end == r.end
    {
      var file := h.file;
      if file !in file2lockQueue {
        return [], Returned;
      }
      if file2lockQueue[file] == [] {
        return [], Aborted;
      }
      var acquireRpc := file2lockQueue[file][0];
      var rest := file2lockQueue[file][1..];
      file2lockQueue := file2lockQueue[file := rest];
      if acquireRpc.session !in session2client || session2client[acquireRpc.session] == "" {
        return [], Aborted;
      }
      var waiting := session2client[acquireRpc.session];
      if variant.Intended? {
        var _ := db.TestAndSetLockOwner(file, h.inst, waiting);
      }
      client2heldLock := client2heldLock[waiting := GetSet(client2heldLock, waiting) + {file}];
      if rest == [] {
        file2lockQueue := file2lockQueue - {file};
      }
      return Send(acquireRpc.session, acquireRpc.xid, Value(true)), Returned;
    }

    /** The handles of the file leave the lists of all sessions, one by one. */
    method DropHandlesOf(file: string)
      modifies this`file2fd, this`session2fd
      ensures State() == old(State()).(tables := DropFile(old(State()).tables, file))
    {
      var l := Get(file2fd, file);
      for i := 0 to |l|
        invariant file2fd == old(file2fd)
        invariant session2fd == Strip(old(session2fd), l[..i])
      {
        assert l[..i + 1][..i] == l[..i];
        session2fd := Put(session2fd, l[i].session, Without(Get(session2fd, l[i].session), l[i].fd));
      }
      assert l[..|l|] == l;
      file2fd := file2fd - {file};
    }

    method FileDelete(s: Session, h: FileHandler, xid: Xid, up: bool)
      returns (out: seq<Out>, end: Ending)
      modifies this, db
      ensures var r := Service.FileDelete(old(State()), s, h, xid, up);
              State() == r.srv && out == r.out && end == r.end
    {
      if s !in session2client || session2client[s] == "" {
        return [], Aborted;
      }
      var fd := FindFd(s, h);
      var file := fd.h.file;
      if !up {
        return Send(s, xid, Error(PAXOS_ERROR)), Returned;
      }
      var r := db.CheckAndDelete(file, fd.h.inst);
      if r == Aborts {
        return [], Aborted;
      }
      if r != Ok {
        return Send(s, xid, Value(false)), Returned;
      }
      out := Purge(s, file, xid);
      end := Returned;
    }

    method Purge(s: Session, file: string, xid: Xid) returns (out: seq<Out>)
      requires Known(State(), s)
      modifies this
      ensures var r := Purged(old(State()), s, file, xid);
              State() == r.srv && out == r.out
    {
      var client := session2client[s];
      DropHandlesOf(file);
      file2lockQueue := file2lockQueue - {file};
      client2ephemeral := PutSet(client2ephemeral, client, GetSet(client2ephemeral, client) - {file});
      var own := SendContentChangeEvent(file);
      var above := SendParentEvent(file);
      file2contentChange := file2contentChange - {file};
      file2lockChange := file2lockChange - {file};
      out := Send(s, xid, Value(true)) + own + above;
    }

    /** Whether the cleanup loop of a close ends; if so the queues are cleaned up. */
    method ClearLockQueue(file: string, s: Session) returns (ends: bool)
      modifies this`file2lockQueue
      ensures ends <==> ClearedQueue(variant, old(file2lockQueue), file, s).Some?
      ensures file2lockQueue == if ends then ClearedQueue(variant, old(file2lockQueue), file, s).value
                                else old(file2lockQueue)
    {
      if file !in file2lockQueue {
        return true;
      }
      var queue := file2lockQueue[file];
      if variant.Intended? {
        var kept := [];
        for i := 0 to |queue|
          invariant kept == NotOf(queue[..i], s)
        {
          assert queue[..i + 1][..i] == queue[..i];
          if queue[i].session != s {
            kept := kept + [queue[i]];
          }
        }
        assert queue[..|queue|] == queue;
        file2lockQueue := Put(file2lockQueue, file, kept);
        return true;
      }
      // The loop of the program stays on the first entry.
      if queue != [] && queue[0].session != s {
        return false;
      }
      if queue != [] {
        queue := queue[1..];
      }
      if queue == [] {
        file2lockQueue := file2lockQueue - {file};
      }
      return true;
    }

    method Unregister(file: string, s: Session)
      modifies this`file2lockChange, this`file2contentChange
      ensures file2lockChange == Put(old(file2lockChange), file, Without(Get(old(file2lockChange), file), s))
      ensures file2contentChange == Put(old(file2contentChange), file, Without(Get(old(file2contentChange), file), s))
    {
      if file in file2lockChange {
        file2lockChange := file2lockChange[file := Without(file2lockChange[file], s)];
        if file2lockChange[file] == [] {
          file2lockChange := file2lockChange - {file};
        }
      }
      if file in file2contentChange {
        file2contentChange := file2contentChange[file := Without(file2contentChange[file], s)];
        if file2contentChange[file] == [] {
          file2contentChange := file2contentChange - {file};
        }
      }
    }

    method Forget(s: Session, fd: Fd) returns (end: Ending)
      modifies this
      ensures var r := Service.Forget(variant, old(State()), s, fd);
              State() == r.srv && end == r.end && r.out == []
    {
      var file := fd.h.file;
      file2fd := Put(file2fd, file, Without(Get(file2fd, file), SessionFd(s, fd)));
      session2fd := Put(session2fd, s, Without(Get(session2fd, s), fd));
      var ends := ClearLockQueue(file, s);
      if !ends {
        return Hung;
      }
      Unregister(file, s);
      return Returned;
    }

    method FileClose(s: Session, h: FileHandler, xid: Xid, up: bool)
      returns (out: seq<Out>, end: Ending)
      modifies this, db
      ensures var r := Service.FileClose(variant, old(State()), s, h, xid, up);
              State() == r.srv && out == r.out && end == r.end
    {
      if s !in session2client || session2client[s] == "" {
        return [], Aborted;
      }
      var client := session2client[s];
      var fd := FindFd(s, h);
      out, end := [], Returned;
      if client in client2heldLock && fd.h.file in client2heldLock[client] {
        out, end := Release(s, fd.h, NO_REPLY, up);
        if end != Returned {
          return;
        }
      }
      var rest;
      rest, end := CloseRest(s, fd, xid, up);
      out := out + rest;
    }

    /** An ephemeral node is deleted, any other handle dropped. */
    method CloseRest(s: Session, fd: Fd, xid: Xid, up: bool) returns (out: seq<Out>, end: Ending)
      modifies this, db
      ensures var r := LetGo(variant, old(State()), s, fd, xid, up);
              State() == r.srv && out == r.out && end == r.end
    {
      out := [];
      if s in session2client && session2client[s] in client2ephemeral
         && fd.h.file in client2ephemeral[session2client[s]] {
        out, end := FileDelete(s, fd.h, NO_REPLY, up);
      } else {
        end := Forget(s, fd);
      }
      if end == Returned {
        out := out + Send(s, xid, Value(true));
      }
    }

    method StartSession(s: Session, client: Client, xid: Xid, up: bool)
      returns (out: seq<Out>, end: Ending)
      modifies this`session2client
      ensures var r := Service.StartSession(old(State()), s, client, xid, up);
              State() == r.srv && out == r.out && end == r.end
    {
      if !up {
        return Send(s, xid, Value(false)), Returned;
      }
      session2client := session2client[s := client];
      return Send(s, xid, Value(true)), Returned;
    }

    method FileReopen(s: Session, h: FileHandler, mode: nat, xid: Xid)
      returns (out: seq<Out>, end: Ending)
      modifies this
      ensures var r := Service.FileReopen(old(State()), s, h, mode, xid);
              State() == r.srv && out == r.out && end == r.end
    {
      var fd := Enter(s, h);
      Register(s, h.file, mode);
      var client := if s in session2client then session2client[s] else "";
      if Has(mode, EPHEMERAL) {
        client2ephemeral := client2ephemeral[client := GetSet(client2ephemeral, client) + {h.file}];
      }
      return Send(s, xid, Value(true)), Returned;
    }

    method CloseHandles(s: Session, handles: seq<Fd>, up: bool)
      returns (out: seq<Out>, end: Ending)
      modifies this, db
      ensures var r := CloseAll(variant, old(State()), s, handles, up);
              State() == r.srv && out == r.out && end == r.end
    {
      ghost var all := CloseAll(variant, State(), s, handles, up);
      out, end := [], Returned;
      assert handles[0..] == handles;
      for i := 0 to |handles|
        invariant IsRest(all, out, CloseAll(variant, State(), s, handles[i..], up))
        invariant end == Returned
      {
        var sent;
        CloseAllStep(variant, State(), s, handles, i, up, all, out);
        sent, end := FileClose(s, handles[i].h, NO_REPLY, up);
        out := out + sent;
        if end != Returned {
          return;
        }
      }
    }

    method Disconnect(s: Session, up: bool) returns (out: seq<Out>, end: Ending)
      modifies this, db
      ensures var r := Service.Disconnect(variant, old(State()), s, up);
              State() == r.srv && out == r.out && end == r.end
    {
      out, end := CloseHandles(s, Get(session2fd, s), up);
      if end == Returned {
        session2client := session2client - {s};
      }
    }

    /** After a leader change only the held sets are rebuilt, from the stored owners; the
        store delivers every row twice. */
    method InitializeLeader() returns (ghost rows: seq<(string, string)>)
      modifies this
      ensures ListedTwice(rows, db.State())
      ensures State() == Service.InitializeLeader(old(State()), rows)
    {
      session2client, file2fd, session2fd := map[], map[], map[];
      file2lockQueue, client2heldLock, client2ephemeral := map[], map[], map[];
      file2lockChange, file2contentChange := map[], map[];
      var first := db.GetStates();
      var second := db.GetStates();
      rows := first + second;
      RebuildHeld(first + second);
    }

    method RebuildHeld(list: seq<(string, string)>)
      requires client2heldLock == map[]
      modifies this`client2heldLock
      ensures client2heldLock == HeldFrom(list)
    {
      for i := 0 to |list|
        invariant client2heldLock == HeldFrom(list[..i])
      {
        assert list[..i + 1][..i] == list[..i];
        var (file, owner) := list[i];
        client2heldLock := client2heldLock[owner := GetSet(client2heldLock, owner) + {file}];
      }
      assert list[..|list|] == list;
    }
  }

  lemma CloseAllStep(v: Variant, srv: Srv, s: Session, handles: seq<Fd>, i: nat, up: bool,
                     all: Res, sent: seq<Out>)
    requires i < |handles| && IsRest(all, sent, CloseAll(v, srv, s, handles[i..], up))
    ensures var first := Service.FileClose(v, srv, s, handles[i].h, NO_REPLY, up);
            IsRest(all, sent + first.out,
                   if first.end == Returned then CloseAll(v, first.srv, s, handles[i + 1..], up)
                   else first.(out := []))
  {
    assert handles[i..][1..] == handles[i + 1..] && handles[i..][0] == handles[i];
    var first := Service.FileClose(v, srv, s, handles[i].h, NO_REPLY, up);
    AfterFirst(all, sent, first, if first.end == Returned then CloseAll(v, first.srv, s, handles[i + 1..], up)
                                 else first.(out := []));
  }

  lemma AfterFirst(all: Res, sent: seq<Out>, first: Res, rest: Res)
    requires first.end != Returned ==> rest == first.(out := [])
    requires IsRest(all, sent, if first.end == Returned then Then(first, rest) else first)
    ensures IsRest(all, sent + first.out, rest)
  {}

  /** all is what was sent so far followed by the rest. */
  ghost predicate IsRest(all: Res, sent: seq<Out>, rest: Res) {
    all.srv == rest.srv && all.end == rest.end && all.out == sent + rest.out
  }
}
