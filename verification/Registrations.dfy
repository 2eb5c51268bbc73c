/**
 Who is registered for a file: a session in an event list, or waiting in a lock queue,
 always has an open handle on that file.
 */
module Registrations {
  import opened Text
  import opened Database
  import opened Handles
  import opened Service

  /** The session has an open handle on the file. */
  predicate HasHandle(t: Tables, s: Session, file: string) {
    exists fd :: fd in Get(t.bySession, s) && fd.h.file == file
  }

  ghost predicate Listed(t: Tables, m: map<string, seq<Session>>) {
    forall f, s {:trigger s in Get(m, f)} :: s in Get(m, f) ==> HasHandle(t, s, f)
  }

  /** The tables are inverse and every listener has a handle on what it listens to. */
  ghost predicate Consistent(srv: Srv) {
    Inverse(srv.tables) && Listed(srv.tables, srv.lockEv) && Listed(srv.tables, srv.contentEv)
  }

  /** Nobody loses a handle, except possibly session s on the file. */
  ghost predicate KeepsHandles(t: Tables, r: Tables, s: Session, file: string) {
    forall x, f {:trigger HasHandle(t, x, f)} {:trigger HasHandle(r, x, f)} ::
      HasHandle(t, x, f) && (x != s || f != file) ==> HasHandle(r, x, f)
  }

  lemma AddHandle(t: Tables, s: Session, h: FileHandler)
    ensures HasHandle(Add(t, s, h), s, h.file)
    ensures forall x, f {:trigger HasHandle(t, x, f)} {:trigger HasHandle(Add(t, s, h), x, f)} ::
              HasHandle(t, x, f) ==> HasHandle(Add(t, s, h), x, f)
  {}

  lemma FindHandle(t: Tables, s: Session, h: FileHandler)
    ensures HasHandle(Find(t, s, h).0, s, h.file)
    ensures forall x, f {:trigger HasHandle(t, x, f)} {:trigger HasHandle(Find(t, s, h).0, x, f)} ::
              HasHandle(t, x, f) ==> HasHandle(Find(t, s, h).0, x, f)
  {}

  lemma DropHandle(t: Tables, s: Session, fd: Fd)
    ensures KeepsHandles(t, Drop(t, s, fd), s, fd.h.file)
  {}

  lemma DropFileHandles(t: Tables, file: string, x: Session, f: string)
    requires Inverse(t) && HasHandle(t, x, f) && f != file
    ensures HasHandle(DropFile(t, file), x, f)
  {
    var g :| g in Get(t.bySession, x) && g.h.file == f;
    DropFileMembers(t, file, x);
    assert g in Get(DropFile(t, file).bySession, x);
  }

  // ---------------------------------------------------------------- each step keeps it

  lemma FoundKeeps(srv: Srv, s: Session, h: FileHandler)
    requires Consistent(srv)
    ensures Consistent(Found(srv, s, h))
  {
    FindKeepsInverse(srv.tables, s, h);
    FindHandle(srv.tables, s, h);
  }

  lemma ListedAfterAdd(t: Tables, s: Session, h: FileHandler, m: map<string, seq<Session>>)
    requires Listed(t, m)
    ensures Listed(Add(t, s, h), m)
    ensures Listed(Add(t, s, h), m[h.file := Get(m, h.file) + [s]])
  {
    AddHandle(t, s, h);
    var m' := m[h.file := Get(m, h.file) + [s]];
    forall f, x | x in Get(m', f) ensures HasHandle(Add(t, s, h), x, f) {
      assert x in Get(m, f) || (f == h.file && x == s);
    }
  }

  lemma RegisteredKeeps(srv: Srv, s: Session, h: FileHandler, mode: nat)
    requires Consistent(srv)
    ensures Consistent(Registered(srv, s, h, mode))
  {
    AddKeepsInverse(srv.tables, s, h);
    ListedAfterAdd(srv.tables, s, h, srv.lockEv);
    ListedAfterAdd(srv.tables, s, h, srv.contentEv);
  }

  lemma ListedAfterDrop(t: Tables, s: Session, fd: Fd, m: map<string, seq<Session>>)
    requires Listed(t, m)
    ensures Listed(Drop(t, s, fd), Put(m, fd.h.file, Without(Get(m, fd.h.file), s)))
  {
    DropHandle(t, s, fd);
    var m' := Put(m, fd.h.file, Without(Get(m, fd.h.file), s));
    forall f, x | x in Get(m', f) ensures HasHandle(Drop(t, s, fd), x, f) {
      assert x in Get(m, f) && (f != fd.h.file || x != s);
    }
  }

  lemma ForgetKeeps(v: Variant, srv: Srv, s: Session, fd: Fd)
    requires Consistent(srv) && Forget(v, srv, s, fd).end == Returned
    ensures Consistent(Forget(v, srv, s, fd).srv)
  {
    DropKeepsInverse(srv.tables, s, fd);
    ListedAfterDrop(srv.tables, s, fd, srv.lockEv);
    ListedAfterDrop(srv.tables, s, fd, srv.contentEv);
  }

  lemma ListedAfterDropFile(t: Tables, file: string, m: map<string, seq<Session>>)
    requires Inverse(t) && Listed(t, m)
    ensures Listed(DropFile(t, file), m - {file})
  {
    forall f, x | x in Get(m - {file}, f) ensures HasHandle(DropFile(t, file), x, f) {
      assert x in Get(m, f) && f != file;
      DropFileHandles(t, file, x, f);
    }
  }

  lemma PurgedKeeps(srv: Srv, s: Session, file: string, xid: Xid)
    requires Consistent(srv) && Known(srv, s)
    ensures Consistent(Purged(srv, s, file, xid).srv)
  {
    DropFileKeepsInverse(srv.tables, file);
    ListedAfterDropFile(srv.tables, file, srv.lockEv);
    ListedAfterDropFile(srv.tables, file, srv.contentEv);
  }

  lemma HandOverFrame(v: Variant, srv: Srv, h: FileHandler)
    ensures var r := HandOver(v, srv, h).srv;
            && r.tables == srv.tables && r.clients == srv.clients && r.eph == srv.eph
            && r.lockEv == srv.lockEv && r.contentEv == srv.contentEv
  {}

  lemma FreedFrame(v: Variant, srv: Srv, s: Session, h: FileHandler, xid: Xid)
    requires Known(srv, s)
    ensures var r := Freed(v, srv, s, h, xid).srv;
            && r.tables == srv.tables && r.clients == srv.clients && r.eph == srv.eph
            && r.lockEv == srv.lockEv && r.contentEv == srv.contentEv
  {
    var client := srv.clients[s];
    HandOverFrame(v, srv.(held := PutSet(srv.held, client, GetSet(srv.held, client) - {h.file})), h);
  }

  /** Releasing a lock leaves handles and listeners alone, apart from the lookup. */
  lemma ReleaseFrame(v: Variant, srv: Srv, s: Session, h: FileHandler, xid: Xid, up: bool)
    requires Known(srv, s)
    ensures var r := Release(v, srv, s, h, xid, up).srv;
            && r.tables == Found(srv, s, h).tables
            && r.lockEv == srv.lockEv && r.contentEv == srv.contentEv
            && r.clients == srv.clients && r.eph == srv.eph
  {
    var found := Found(srv, s, h);
    FreedFrame(v, found.(db := Apply(srv.db, Unlock(h.file, h.inst)).0), s, h, xid);
  }

  lemma ReleaseKeeps(v: Variant, srv: Srv, s: Session, h: FileHandler, xid: Xid, up: bool)
    requires Consistent(srv)
    ensures Consistent(Release(v, srv, s, h, xid, up).srv)
  {
    FoundKeeps(srv, s, h);
    if Known(srv, s) {
      ReleaseFrame(v, srv, s, h, xid, up);
    }
  }

  lemma DeleteKeeps(srv: Srv, s: Session, h: FileHandler, xid: Xid, up: bool)
    requires Consistent(srv)
    ensures Consistent(FileDelete(srv, s, h, xid, up).srv)
  {
    FoundKeeps(srv, s, h);
    if Known(srv, s) {
      var found := Found(srv, s, h);
      var db := Apply(srv.db, Delete(h.file, h.inst)).0;
      PurgedKeeps(found.(db := db), s, h.file, xid);
    }
  }

  lemma CloseKeeps(v: Variant, srv: Srv, s: Session, h: FileHandler, xid: Xid, up: bool)
    requires Consistent(srv) && FileClose(v, srv, s, h, xid, up).end == Returned
    ensures Consistent(FileClose(v, srv, s, h, xid, up).srv)
  {
    var found := Found(srv, s, h);
    var fd := Find(srv.tables, s, h).1;
    FoundKeeps(srv, s, h);
    ReleaseKeeps(v, found, s, h, NO_REPLY, up);
    LetGoKeeps(v, Reclaim(v, found, s, h, up).srv, s, fd, xid, up);
  }

  lemma LetGoKeeps(v: Variant, srv: Srv, s: Session, fd: Fd, xid: Xid, up: bool)
    requires Consistent(srv) && LetGo(v, srv, s, fd, xid, up).end == Returned
    ensures Consistent(LetGo(v, srv, s, fd, xid, up).srv)
  {
    DeleteKeeps(srv, s, fd.h, NO_REPLY, up);
    if Forget(v, srv, s, fd).end == Returned {
      ForgetKeeps(v, srv, s, fd);
    }
  }

  lemma {:induction false} CloseAllKeeps(v: Variant, srv: Srv, s: Session, fds: seq<Fd>, up: bool)
    requires Consistent(srv) && CloseAll(v, srv, s, fds, up).end == Returned
    ensures Consistent(CloseAll(v, srv, s, fds, up).srv)
    decreases fds
  {
    if fds != [] {
      var first := FileClose(v, srv, s, fds[0].h, NO_REPLY, up);
      assert first.end == Returned;
      CloseKeeps(v, srv, s, fds[0].h, NO_REPLY, up);
      CloseAllKeeps(v, first.srv, s, fds[1..], up);
    }
  }

  lemma {:induction false} OnlyEvents(listeners: seq<Session>, file: string)
    ensures forall o :: o in ContentEvents(listeners, file) ==> o.ContentModified?
  {
    if listeners != [] {
      OnlyEvents(listeners[..|listeners| - 1], file);
    }
  }
}
