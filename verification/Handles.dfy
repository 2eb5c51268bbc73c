/**
 The two handle tables of the server: handles by file and handles by session.

 A handle object has an identity (its address in the program, a number here) and a value.
 Lists that become empty are erased from their map.
 */
module Handles {
  import opened Text
  import opened Database

  type Session = nat

  datatype FileHandler = FileHandler(magic: Hash, masterSeq: nat, file: string, inst: nat,
                                     writable: bool)

  datatype Fd = Fd(id: nat, h: FileHandler)

  datatype SessionFd = SessionFd(session: Session, fd: Fd)

  datatype Tables = Tables(byFile: map<string, seq<SessionFd>>, bySession: map<Session, seq<Fd>>,
                           nextId: nat)

  const NO_TABLES := Tables(map[], map[], 0)

  function Get<K, V>(m: map<K, seq<V>>, k: K): seq<V> {
    if k in m then m[k] else []
  }

  function Put<K, V>(m: map<K, seq<V>>, k: K, v: seq<V>): map<K, seq<V>> {
    if v == [] then m - {k} else m[k := v]
  }

  ghost predicate NoDup<T(!new)>(s: seq<T>) {
    forall i, j :: 0 <= i < j < |s| ==> s[i] != s[j]
  }

  /** The two tables are inverse to each other: each handle is listed once under its
      session and once, with that session, under its file; empty lists are not kept. */
  ghost predicate Inverse(t: Tables) {
    Trimmed(t) && Linked(t) && Identified(t) && Once(t)
  }

  ghost predicate Trimmed(t: Tables) {
    && (forall f :: f in t.byFile ==> t.byFile[f] != [])
    && (forall s :: s in t.bySession ==> t.bySession[s] != [])
  }

  ghost predicate Linked(t: Tables) {
    && (forall f, e {:trigger e in Get(t.byFile, f)} :: e in Get(t.byFile, f) ==>
          e.fd.h.file == f && e.fd in Get(t.bySession, e.session))
    && (forall s, fd {:trigger fd in Get(t.bySession, s)} :: fd in Get(t.bySession, s) ==>
          SessionFd(s, fd) in Get(t.byFile, fd.h.file))
  }

  /** Every listed handle has its own identity, below the next one to be given out. */
  ghost predicate Identified(t: Tables) {
    && (forall s, fd {:trigger fd in Get(t.bySession, s)} :: fd in Get(t.bySession, s) ==>
          fd.id < t.nextId)
    && (forall s, s', fd, fd' {:trigger fd in Get(t.bySession, s), fd' in Get(t.bySession, s')} ::
          fd in Get(t.bySession, s) && fd' in Get(t.bySession, s') && fd.id == fd'.id ==>
          s == s' && fd == fd')
  }

  /** No list has a handle twice. */
  ghost predicate Once(t: Tables) {
    && (forall s {:trigger Get(t.bySession, s)} :: NoDup(Get(t.bySession, s)))
    && (forall f {:trigger Get(t.byFile, f)} :: NoDup(Get(t.byFile, f)))
  }

  function Add(t: Tables, s: Session, h: FileHandler): Tables {
    var fd := Fd(t.nextId, h);
    Tables(t.byFile[h.file := Get(t.byFile, h.file) + [SessionFd(s, fd)]],
           t.bySession[s := Get(t.bySession, s) + [fd]],
           t.nextId + 1)
  }

  function Drop(t: Tables, s: Session, fd: Fd): Tables {
    t.(byFile := Put(t.byFile, fd.h.file, Without(Get(t.byFile, fd.h.file), SessionFd(s, fd))),
       bySession := Put(t.bySession, s, Without(Get(t.bySession, s), fd)))
  }

  /** Takes each listed handle out of its session's list. */
  function Strip(bySession: map<Session, seq<Fd>>, gone: seq<SessionFd>): map<Session, seq<Fd>> {
    if gone == [] then bySession
    else
      var m := Strip(bySession, gone[..|gone| - 1]);
      var e := gone[|gone| - 1];
      Put(m, e.session, Without(Get(m, e.session), e.fd))
  }

  /** All handles listed under the file are gone, whatever session they belong to. */
  function DropFile(t: Tables, file: string): Tables {
    t.(byFile := t.byFile - {file}, bySession := Strip(t.bySession, Get(t.byFile, file)))
  }

  /** The first handle of a list with this value. */
  function FirstMatch(fds: seq<Fd>, h: FileHandler): (r: Option<Fd>)
    ensures r.Some? ==> r.value in fds && r.value.h == h
    ensures r.None? ==> forall fd :: fd in fds ==> fd.h != h
  {
    if fds == [] then None
    else if fds[0].h == h then Some(fds[0])
    else FirstMatch(fds[1..], h)
  }

  /** The lookup at the start of every request: an unknown handle is taken on trust and
      entered into both tables, so the lookup never comes back empty. */
  function Find(t: Tables, s: Session, h: FileHandler): (r: (Tables, Fd))
    ensures r.1.h == h
    ensures r.1 in Get(r.0.bySession, s)
  {
    match FirstMatch(Get(t.bySession, s), h)
    case Some(fd) => (t, fd)
    case None => (Add(t, s, h), Fd(t.nextId, h))
  }

  /** Looking the same handle up again changes nothing. */
  lemma FindAgain(t: Tables, s: Session, h: FileHandler)
    ensures Find(Find(t, s, h).0, s, h) == Find(t, s, h)
  {}

  lemma {:induction false} FirstOf(fds: seq<Fd>, h: FileHandler, i: nat)
    requires i < |fds| && fds[i].h == h && forall j :: 0 <= j < i ==> fds[j].h != h
    ensures FirstMatch(fds, h) == Some(fds[i])
  {
    if i > 0 {
      FirstOf(fds[1..], h, i - 1);
    }
  }

  /** A handle that is listed is found where it stands first, and nothing changes. */
  lemma FindTakesFirst(t: Tables, s: Session, h: FileHandler, i: nat)
    requires i < |Get(t.bySession, s)| && Get(t.bySession, s)[i].h == h
    requires forall j :: 0 <= j < i ==> Get(t.bySession, s)[j].h != h
    ensures Find(t, s, h) == (t, Get(t.bySession, s)[i])
  {
    FirstOf(Get(t.bySession, s), h, i);
  }

  /** A handle that is not listed is put at the end of both its lists, and of no other. */
  lemma FindEntersUnknown(t: Tables, s: Session, h: FileHandler)
    requires forall fd :: fd in Get(t.bySession, s) ==> fd.h != h
    ensures var (r, fd) := Find(t, s, h);
            && fd.h == h && fd.id == t.nextId && r.nextId == t.nextId + 1
            && AddedTo(t.bySession, r.bySession, s, fd) && AddedTo(t.byFile, r.byFile, h.file, SessionFd(s, fd))
  {}

  /** Opening always enters a handle, at the end of both its lists. */
  lemma AddAppends(t: Tables, s: Session, h: FileHandler)
    ensures var r, fd := Add(t, s, h), Fd(t.nextId, h);
            && r.nextId == t.nextId + 1
            && AddedTo(t.bySession, r.bySession, s, fd) && AddedTo(t.byFile, r.byFile, h.file, SessionFd(s, fd))
  {}

  /** Closing takes exactly the one handle from both its lists. */
  lemma DropRemoves(t: Tables, s: Session, fd: Fd)
    ensures var r := Drop(t, s, fd);
            && r.nextId == t.nextId
            && RemovedFrom(t.bySession, r.bySession, s, fd)
            && RemovedFrom(t.byFile, r.byFile, fd.h.file, SessionFd(s, fd))
  {}

  // ---------------------------------------------------------------- the tables stay inverse

  lemma {:induction false} WithoutNoDup<T(!new)>(s: seq<T>, x: T)
    requires NoDup(s)
    ensures NoDup(Without(s, x))
  {
    if s != [] {
      WithoutNoDup(s[..|s| - 1], x);
      var kept := Without(s[..|s| - 1], x);
      assert s[|s| - 1] !in s[..|s| - 1];
      NoDupAppend(kept, s[|s| - 1]);
    }
  }

  lemma NoDupAppend<T(!new)>(s: seq<T>, x: T)
    requires NoDup(s) && x !in s
    ensures NoDup(s + [x])
  {}

  ghost predicate AddedTo<K(!new), V>(m: map<K, seq<V>>, r: map<K, seq<V>>, k: K, v: V) {
    && Get(r, k) == Get(m, k) + [v]
    && (forall x {:trigger Get(r, x)} :: x != k ==> Get(r, x) == Get(m, x))
  }

  lemma AddKeepsInverse(t: Tables, s: Session, h: FileHandler)
    requires Inverse(t)
    ensures Inverse(Add(t, s, h))
  {
    AddKeepsLinked(t, s, h);
    AddKeepsIdentity(t, s, h);
  }

  lemma AddKeepsLinked(t: Tables, s: Session, h: FileHandler)
    requires Linked(t)
    ensures Linked(Add(t, s, h))
  {
    var r := Add(t, s, h);
    var fd := Fd(t.nextId, h);
    assert AddedTo(t.bySession, r.bySession, s, fd);
    assert AddedTo(t.byFile, r.byFile, h.file, SessionFd(s, fd));
  }

  lemma AddKeepsIdentity(t: Tables, s: Session, h: FileHandler)
    requires Linked(t) && Identified(t) && Once(t)
    ensures Identified(Add(t, s, h)) && Once(Add(t, s, h))
  {
    var r := Add(t, s, h);
    var fd := Fd(t.nextId, h);
    assert fd !in Get(t.bySession, s);
    assert SessionFd(s, fd) !in Get(t.byFile, h.file);
    NoDupAppend(Get(t.bySession, s), fd);
    NoDupAppend(Get(t.byFile, h.file), SessionFd(s, fd));
    assert AddedTo(t.bySession, r.bySession, s, fd);
    assert AddedTo(t.byFile, r.byFile, h.file, SessionFd(s, fd));
  }

  ghost predicate RemovedFrom<K(!new), V(!new)>(m: map<K, seq<V>>, r: map<K, seq<V>>, k: K, v: V) {
    && Get(r, k) == Without(Get(m, k), v)
    && (forall x {:trigger Get(r, x)} :: x != k ==> Get(r, x) == Get(m, x))
  }

  lemma DropKeepsInverse(t: Tables, s: Session, fd: Fd)
    requires Inverse(t)
    ensures Inverse(Drop(t, s, fd))
  {
    var r := Drop(t, s, fd);
    assert RemovedFrom(t.bySession, r.bySession, s, fd);
    assert RemovedFrom(t.byFile, r.byFile, fd.h.file, SessionFd(s, fd));
    DropKeepsLinked(t, r, s, fd);
    WithoutNoDup(Get(t.bySession, s), fd);
    WithoutNoDup(Get(t.byFile, fd.h.file), SessionFd(s, fd));
  }

  lemma DropKeepsLinked(t: Tables, r: Tables, s: Session, fd: Fd)
    requires Linked(t)
    requires RemovedFrom(t.bySession, r.bySession, s, fd)
    requires RemovedFrom(t.byFile, r.byFile, fd.h.file, SessionFd(s, fd))
    ensures Linked(r)
  {}

  lemma {:induction false} StripMembers(m: map<Session, seq<Fd>>, gone: seq<SessionFd>, s: Session)
    requires forall x :: x in m ==> m[x] != []
    requires NoDup(Get(m, s))
    ensures forall x :: x in Strip(m, gone) ==> Strip(m, gone)[x] != []
    ensures NoDup(Get(Strip(m, gone), s))
    ensures forall fd :: fd in Get(Strip(m, gone), s) <==> fd in Get(m, s) && SessionFd(s, fd) !in gone
  {
    if gone != [] {
      var front, e := gone[..|gone| - 1], gone[|gone| - 1];
      StripMembers(m, front, s);
      WithoutNoDup(Get(Strip(m, front), s), e.fd);
      assert gone == front + [e];
    }
  }

  /** Deleting a file leaves each session exactly its handles on other files. */
  lemma DropFileMembers(t: Tables, file: string, s: Session)
    requires Inverse(t)
    ensures forall fd :: fd in Get(DropFile(t, file).bySession, s)
                    <==> fd in Get(t.bySession, s) && fd.h.file != file
    ensures forall f :: Get(DropFile(t, file).byFile, f) == if f == file then [] else Get(t.byFile, f)
    ensures NoDup(Get(DropFile(t, file).bySession, s))
    ensures Trimmed(DropFile(t, file))
  {
    StripMembers(t.bySession, Get(t.byFile, file), s);
  }

  lemma DropFileKeepsInverse(t: Tables, file: string)
    requires Inverse(t)
    ensures Inverse(DropFile(t, file))
  {
    var r := DropFile(t, file);
    forall s {:trigger Get(r.bySession, s)}
      ensures forall fd :: fd in Get(r.bySession, s) <==> fd in Get(t.bySession, s) && fd.h.file != file
      ensures NoDup(Get(r.bySession, s)) && Trimmed(r)
    {
      DropFileMembers(t, file, s);
    }
    DropFileMembers(t, file, 0);
    assert forall f {:trigger Get(r.byFile, f)} :: Get(r.byFile, f) == if f == file then [] else Get(t.byFile, f);
  }

  lemma FindKeepsInverse(t: Tables, s: Session, h: FileHandler)
    requires Inverse(t)
    ensures Inverse(Find(t, s, h).0)
    ensures SessionFd(s, Find(t, s, h).1) in Get(Find(t, s, h).0.byFile, h.file)
  {
    AddKeepsInverse(t, s, h);
  }
}
