/**
 What each request answers, whom it tells and what it leaves in the tables, stated on the
 tables and the output themselves.
 */
module Effects {
  import opened Numbers
  import opened Text
  import opened Database
  import opened StoreEffects
  import opened Handles
  import opened Service

  // ---------------------------------------------------------------- replies and events

  /** A request asks for an answer unless its number is the one reserved for internal calls. */
  lemma SendIsReply(s: Session, xid: Xid, ret: Ret)
    ensures Send(s, xid, ret) == if xid == 0xFFFF_FFFF then [] else [Reply(s, xid, ret)]
  {}

  /** What a registered session can hear of a file. */
  datatype Topic = OfLocks | OfContent

  function Listeners(srv: Srv, topic: Topic): map<string, seq<Session>> {
    if topic.OfLocks? then srv.lockEv else srv.contentEv
  }

  function Event(topic: Topic, s: Session, file: string): Out {
    if topic.OfLocks? then LockChanged(s, file) else ContentModified(s, file)
  }

  /** One event for each registered session of a list, in order. */
  function News(topic: Topic, listeners: seq<Session>, file: string): (out: seq<Out>)
    ensures |out| == |listeners| && forall i :: 0 <= i < |out| ==> out[i] == Event(topic, listeners[i], file)
    ensures forall s :: s in listeners ==> Event(topic, s, file) in out
  {
    var out := seq(|listeners|, i requires 0 <= i < |listeners| => Event(topic, listeners[i], file));
    assert forall i :: 0 <= i < |listeners| ==> out[i] == Event(topic, listeners[i], file);
    out
  }

  /** Who hears news, and of what. */
  lemma NewsReach(topic: Topic, listeners: seq<Session>, file: string, other: Topic, s: Session, f: string)
    ensures Event(other, s, f) in News(topic, listeners, file) <==> other == topic && f == file && s in listeners
  {
    if Event(other, s, f) in News(topic, listeners, file) {
      var i :| 0 <= i < |listeners| && News(topic, listeners, file)[i] == Event(other, s, f);
      assert News(topic, listeners, file)[i] == Event(topic, listeners[i], file);
    }
  }

  /** The news for the directory above a file; the root has no listeners. */
  function NewsAbove(srv: Srv, file: string): seq<Out> {
    if ParentName(file) == "/" then [] else News(OfContent, Get(srv.contentEv, ParentName(file)), ParentName(file))
  }

  lemma {:induction false} EventsAreNews(listeners: seq<Session>, file: string)
    ensures LockEvents(listeners, file) == News(OfLocks, listeners, file)
    ensures ContentEvents(listeners, file) == News(OfContent, listeners, file)
  {
    if listeners != [] {
      var front, last := listeners[..|listeners| - 1], listeners[|listeners| - 1];
      EventsAreNews(front, file);
      assert News(OfLocks, listeners, file) == News(OfLocks, front, file) + [LockChanged(last, file)];
      assert News(OfContent, listeners, file) == News(OfContent, front, file) + [ContentModified(last, file)];
    }
  }

  lemma ParentEventsAreNews(srv: Srv, file: string)
    ensures ParentEvents(srv, file) == NewsAbove(srv, file)
  {
    EventsAreNews(Get(srv.contentEv, ParentName(file)), ParentName(file));
  }

  // ---------------------------------------------------------------- flags

  lemma TwiceAsWide(high: nat, bit: nat, flag: nat)
    ensures high * (2 * flag) + bit * flag == (high * 2 + bit) * flag
  {}

  /** A flag is a binary digit of the mode, whatever the other digits are. */
  lemma FlagIsBinaryDigit(high: nat, bit: nat, low: nat, flag: nat)
    requires bit < 2 && low < flag
    ensures Has(high * (2 * flag) + bit * flag + low, flag) <==> bit == 1
  {
    TwiceAsWide(high, bit, flag);
    Quotient(high * (2 * flag) + bit * flag + low, flag, high * 2 + bit, low);
  }

  // ---------------------------------------------------------------- open

  predicate IsCreating(mode: nat) {
    Has(mode, CREATE_DIRECTORY) || Has(mode, CREATE_FILE)
  }

  /** The name is illegal or both a file and a directory are asked for. */
  predicate Malformed(file: string, mode: nat) {
    !NameOk(file) || (Has(mode, CREATE_DIRECTORY) && Has(mode, CREATE_FILE))
  }

  /** A creating open needs a new name and room for it, any other one a stored node. */
  predicate CanOpen(db: Db, file: string, mode: nat) {
    if IsCreating(mode) then file !in db.fs && HasRoom(db.fs, file) else file in db.fs
  }

  /** An open stops the server exactly when the session has no client name, and else is answered
      with a handle exactly when it is well-formed, commands run, and the node is or can be there. */
  lemma OpenAnswers(srv: Srv, s: Session, file: string, mode: nat, masterSeq: nat, xid: Xid, up: bool)
    ensures var r := FileOpen(srv, s, file, mode, masterSeq, xid, up);
            var known := s in srv.clients && srv.clients[s] != "";
            && r.end == (if known then Returned else Aborted) && r.moves == []
            && (!known ==> r.out == [] && r.srv == srv)
            && (known && Malformed(file, mode) ==> r.srv == srv && r.out == Send(s, xid, Error(BAD_ARG)))
            && (known && !Malformed(file, mode) && !up ==> r.srv == srv && r.out == Send(s, xid, Error(PAXOS_ERROR)))
            && (known && !Malformed(file, mode) && up && !CanOpen(srv.db, file, mode) ==>
                  r.srv == srv && r.out == Send(s, xid, Error(FS_FAIL)))
  {}

  /** The handle a served open returns. */
  function HandleOf(srv: Srv, file: string, mode: nat, masterSeq: nat): FileHandler
    requires CanOpen(srv.db, file, mode)
  {
    var inst := if IsCreating(mode) then srv.db.maxInst + 1 else srv.db.fs[file].inst;
    var w := Has(mode, WRITE);
    FileHandler(HashOf(file + ToString(inst) + (if w then "1" else "0")), masterSeq, file, inst, w)
  }

  lemma MagicOf(file: string, inst: nat, w: bool)
    ensures Magic(file, inst, w) == HashOf(file + ToString(inst) + (if w then "1" else "0"))
  {
    assert ToString(1) == "1" && ToString(0) == "0";
  }

  lemma ParentDiffers(file: string)
    requires NameOk(file)
    ensures ParentName(file) != file
  {
    ParentOfName(file);
  }

  /** A served open is the entering of its handle. */
  lemma OpenIsEntered(srv: Srv, s: Session, file: string, mode: nat, masterSeq: nat, xid: Xid)
    requires Known(srv, s) && !Malformed(file, mode) && CanOpen(srv.db, file, mode)
    ensures var cmd := if IsCreating(mode) then Create(file, Has(mode, CREATE_DIRECTORY)) else Open(file);
            FileOpen(srv, s, file, mode, masterSeq, xid, true)
            == Entered(srv.(db := Apply(srv.db, cmd).0), s, file, mode, IsCreating(mode) && Has(mode, EPHEMERAL),
                       masterSeq, if IsCreating(mode) then srv.db.maxInst + 1 else srv.db.fs[file].inst, xid)
  {}

  lemma EnteredEffect(srv: Srv, s: Session, file: string, mode: nat, ephemeral: bool, masterSeq: nat, inst: nat,
                      xid: Xid)
    requires Known(srv, s) && ParentName(file) != file
    ensures var w := Has(mode, WRITE);
            var h := FileHandler(HashOf(file + ToString(inst) + (if w then "1" else "0")), masterSeq, file, inst, w);
            var r := Entered(srv, s, file, mode, ephemeral, masterSeq, inst, xid);
            && r.end == Returned && r.out == Send(s, xid, Opened(h)) + NewsAbove(srv, file)
            && r.srv.tables == Add(srv.tables, s, h) && r.srv.db == srv.db
            && r.srv.clients == srv.clients && r.srv.queues == srv.queues && r.srv.held == srv.held
  {
    MagicOf(file, inst, Has(mode, WRITE));
    ParentEventsAreNews(Entered(srv, s, file, mode, ephemeral, masterSeq, inst, xid).srv, file);
  }

  lemma EnteredRegisters(srv: Srv, s: Session, file: string, mode: nat, ephemeral: bool, masterSeq: nat, inst: nat,
                         xid: Xid, f: string, c: Client)
    requires Known(srv, s)
    ensures var post := Entered(srv, s, file, mode, ephemeral, masterSeq, inst, xid).srv;
            && Get(post.lockEv, f)
               == Get(srv.lockEv, f) + (if f == file && Has(mode, EV_LOCK_CHANGED) then [s] else [])
            && Get(post.contentEv, f)
               == Get(srv.contentEv, f) + (if f == file && Has(mode, EV_CONTENT_MODIFIED) then [s] else [])
            && GetSet(post.eph, c)
               == GetSet(srv.eph, c) + (if c == srv.clients[s] && ephemeral then {file} else {})
  {}

  /** A served open: the reply with the handle, then one event for each listener of the directory
      above; the handle is entered. */
  lemma OpenEffect(srv: Srv, s: Session, file: string, mode: nat, masterSeq: nat, xid: Xid)
    requires Known(srv, s) && !Malformed(file, mode) && CanOpen(srv.db, file, mode)
    ensures var h, r := HandleOf(srv, file, mode, masterSeq), FileOpen(srv, s, file, mode, masterSeq, xid, true);
            && r.end == Returned && r.out == Send(s, xid, Opened(h)) + NewsAbove(srv, file)
            && r.srv.tables == Add(srv.tables, s, h)
            && r.srv.db == (if IsCreating(mode) then Apply(srv.db, Create(file, Has(mode, CREATE_DIRECTORY))).0
                            else srv.db)
            && r.srv.clients == srv.clients && r.srv.queues == srv.queues && r.srv.held == srv.held
  {
    var cmd := if IsCreating(mode) then Create(file, Has(mode, CREATE_DIRECTORY)) else Open(file);
    OpenIsEntered(srv, s, file, mode, masterSeq, xid);
    ParentDiffers(file);
    EnteredEffect(srv.(db := Apply(srv.db, cmd).0), s, file, mode, IsCreating(mode) && Has(mode, EPHEMERAL), masterSeq,
                  if IsCreating(mode) then srv.db.maxInst + 1 else srv.db.fs[file].inst, xid);
  }

  /** The session joins the lists its mode asks for, and a node it creates as ephemeral counts as
      its client's; nothing else is registered. */
  lemma OpenRegisters(srv: Srv, s: Session, file: string, mode: nat, masterSeq: nat, xid: Xid, f: string, c: Client)
    requires Known(srv, s) && !Malformed(file, mode) && CanOpen(srv.db, file, mode)
    ensures var post := FileOpen(srv, s, file, mode, masterSeq, xid, true).srv;
            && Get(post.lockEv, f)
               == Get(srv.lockEv, f) + (if f == file && Has(mode, EV_LOCK_CHANGED) then [s] else [])
            && Get(post.contentEv, f)
               == Get(srv.contentEv, f) + (if f == file && Has(mode, EV_CONTENT_MODIFIED) then [s] else [])
            && GetSet(post.eph, c)
               == GetSet(srv.eph, c)
                  + (if c == srv.clients[s] && IsCreating(mode) && Has(mode, EPHEMERAL) then {file} else {})
  {
    var cmd := if IsCreating(mode) then Create(file, Has(mode, CREATE_DIRECTORY)) else Open(file);
    OpenIsEntered(srv, s, file, mode, masterSeq, xid);
    EnteredRegisters(srv.(db := Apply(srv.db, cmd).0), s, file, mode, IsCreating(mode) && Has(mode, EPHEMERAL),
                     masterSeq, if IsCreating(mode) then srv.db.maxInst + 1 else srv.db.fs[file].inst, xid, f, c);
  }

  // ---------------------------------------------------------------- read and write

  predicate IsNode(db: Db, h: FileHandler) {
    h.file in db.fs && db.fs[h.file].inst == h.inst
  }

  lemma ReadAnswers(srv: Srv, s: Session, h: FileHandler, xid: Xid, up: bool)
    ensures var r := GetContentsAndStat(srv, s, h, xid, up);
            && r.end == Returned && r.moves == [] && r.srv == Found(srv, s, h)
            && r.out == Send(s, xid,
                 if !up then Error(PAXOS_ERROR)
                 else if !IsNode(srv.db, h) then Error(FS_FAIL)
                 else
                   var n := srv.db.fs[h.file];
                   Data(n.content, Meta(n.inst, n.contentGen, n.lockGen, n.checksum, n.isDir)))
  {}

  /** A write that works is answered, then each content listener of the file is told. */
  lemma WriteAnswers(srv: Srv, s: Session, h: FileHandler, content: string, xid: Xid, up: bool)
    ensures var r, works := SetContents(srv, s, h, content, xid, up), up && IsNode(srv.db, h);
            && r.end == Returned && r.moves == []
            && r.srv == Found(srv, s, h).(db := if works then Apply(srv.db, Update(h.file, h.inst, content)).0
                                                else srv.db)
            && r.out == (if !up then Send(s, xid, Error(PAXOS_ERROR))
                         else if !works then Send(s, xid, Error(FS_FAIL))
                         else Send(s, xid, Value(true)) + News(OfContent, Get(srv.contentEv, h.file), h.file))
  {
    EventsAreNews(Get(srv.contentEv, h.file), h.file);
  }

  // ---------------------------------------------------------------- locks

  predicate IsFree(db: Db, h: FileHandler) {
    IsNode(db, h) && db.fs[h.file].owner == NO_OWNER
  }

  /** The lock goes to the session's client: it is told, then each lock listener of the file. */
  ghost predicate Grants(srv: Srv, s: Session, h: FileHandler, xid: Xid, r: Res)
    requires Known(srv, s)
  {
    && r.end == Returned && r.moves == []
    && r.out == Send(s, xid, Value(true)) + News(OfLocks, Get(srv.lockEv, h.file), h.file)
    && r.srv.db == Apply(srv.db, Lock(h.file, h.inst, srv.clients[s])).0
    && (forall c :: GetSet(r.srv.held, c) == GetSet(srv.held, c) + (if c == srv.clients[s] then {h.file} else {}))
    && r.srv == Found(srv, s, h).(db := r.srv.db, held := r.srv.held)
  }

  lemma AcquireQueues(srv: Srv, s: Session, h: FileHandler, xid: Xid)
    requires Known(srv, s) && !IsFree(srv.db, h)
    ensures var r := Acquire(srv, s, h, xid, true);
            && r.end == Returned && r.out == [] && r.moves == [Asked(h.file, Waiter(s, xid))]
            && r.srv == Found(srv, s, h).(queues := r.srv.queues)
            && forall f :: Get(r.srv.queues, f) == Get(srv.queues, f) + (if f == h.file then [Waiter(s, xid)] else [])
  {}

  /** An acquire: granted when the lock is free, else put at the end of the queue unanswered. It
      stops the server exactly when the session has no name, or somebody waits for a free lock. */
  lemma AcquireAnswers(srv: Srv, s: Session, h: FileHandler, xid: Xid, up: bool)
    ensures var r := Acquire(srv, s, h, xid, up);
            var known := s in srv.clients && srv.clients[s] != "";
            && (r.end != Returned <==> !known || (up && IsFree(srv.db, h) && h.file in srv.queues))
            && (r.end != Returned ==> r.end == Aborted && r.out == [])
            && (known && !up ==>
                  r.srv == Found(srv, s, h) && r.out == Send(s, xid, Error(PAXOS_ERROR)) && r.moves == [])
            && (known && up && IsFree(srv.db, h) && h.file !in srv.queues ==> Grants(srv, s, h, xid, r))
            && (known && up && !IsFree(srv.db, h) ==>
                  && r.out == [] && r.moves == [Asked(h.file, Waiter(s, xid))]
                  && r.srv == Found(srv, s, h).(queues := r.srv.queues)
                  && forall f :: Get(r.srv.queues, f)
                                 == Get(srv.queues, f) + (if f == h.file then [Waiter(s, xid)] else []))
  {
    if s in srv.clients && srv.clients[s] != "" && !IsFree(srv.db, h) {
      AcquireQueues(srv, s, h, xid);
    } else {
      EventsAreNews(Get(srv.lockEv, h.file), h.file);
    }
  }

  /** A tryAcquire: granted when the lock is free, else answered false. */
  lemma TryAcquireAnswers(srv: Srv, s: Session, h: FileHandler, xid: Xid, up: bool)
    ensures var r := TryAcquire(srv, s, h, xid, up);
            var known := s in srv.clients && srv.clients[s] != "";
            && (r.end != Returned <==> !known || (up && IsFree(srv.db, h) && h.file in srv.queues))
            && (r.end != Returned ==> r.end == Aborted && r.out == [])
            && (known && !up ==>
                  r.srv == Found(srv, s, h) && r.out == Send(s, xid, Error(PAXOS_ERROR)) && r.moves == [])
            && (known && up && IsFree(srv.db, h) && h.file !in srv.queues ==> Grants(srv, s, h, xid, r))
            && (known && up && !IsFree(srv.db, h) ==>
                  r.out == Send(s, xid, Value(false)) && r.moves == [] && r.srv == Found(srv, s, h))
  {
    EventsAreNews(Get(srv.lockEv, h.file), h.file);
  }

  /** What the session at the head of a queue is told when it gets the lock. */
  function HeadIsTold(srv: Srv, file: string): seq<Out> {
    var q := Get(srv.queues, file);
    if q == [] then [] else Send(q[0].session, q[0].xid, Value(true))
  }

  /** The next in line has no client name, or its queue is empty. */
  predicate NobodyToTell(srv: Srv, file: string) {
    file in srv.queues
    && (srv.queues[file] == []
        || !(srv.queues[file][0].session in srv.clients && srv.clients[srv.queues[file][0].session] != ""))
  }

  /** A release: the releaser is answered, the head of the queue gets its answer, and each lock
      listener of the file is told. Whoever asks, the lock is given up. */
  lemma ReleaseAnswers(v: Variant, srv: Srv, s: Session, h: FileHandler, xid: Xid, up: bool)
    ensures var r := Release(v, srv, s, h, xid, up);
            var known := s in srv.clients && srv.clients[s] != "";
            && (r.end != Returned <==> !known || (up && IsNode(srv.db, h) && NobodyToTell(srv, h.file)))
            && (r.end != Returned ==> r.end == Aborted)
            && (known && !up ==>
                  r.srv == Found(srv, s, h) && r.out == Send(s, xid, Error(PAXOS_ERROR)) && r.moves == [])
            && (known && up && !IsNode(srv.db, h) ==>
                  r.srv == Found(srv, s, h) && r.out == Send(s, xid, Error(FS_FAIL)) && r.moves == [])
            && (r.end == Returned && up && IsNode(srv.db, h) ==>
                  r.out == Send(s, xid, Value(true)) + HeadIsTold(srv, h.file)
                           + News(OfLocks, Get(srv.lockEv, h.file), h.file))
  {
    EventsAreNews(Get(srv.lockEv, h.file), h.file);
  }

  lemma ReleaseIsFreed(v: Variant, srv: Srv, s: Session, h: FileHandler, xid: Xid)
    requires Known(srv, s) && IsNode(srv.db, h)
    ensures Release(v, srv, s, h, xid, true)
         == Freed(v, Found(srv, s, h).(db := Apply(srv.db, Unlock(h.file, h.inst)).0), s, h, xid)
  {}

  lemma FreedTables(v: Variant, srv: Srv, s: Session, h: FileHandler, xid: Xid)
    requires Known(srv, s) && Freed(v, srv, s, h, xid).end == Returned
    ensures var post, f, q := Freed(v, srv, s, h, xid).srv, h.file, Get(srv.queues, h.file);
            && (q != [] ==> q[0].session in srv.clients)
            && post.db == (if q != [] && v.Intended?
                           then Apply(srv.db, Lock(f, h.inst, srv.clients[q[0].session])).0 else srv.db)
            && (forall g :: Get(post.queues, g) == if g == f && q != [] then q[1..] else Get(srv.queues, g))
            && post == srv.(db := post.db, queues := post.queues, held := post.held)
  {}

  lemma FreedHeld(v: Variant, srv: Srv, s: Session, h: FileHandler, xid: Xid, c: Client, g: string)
    requires Known(srv, s) && Freed(v, srv, s, h, xid).end == Returned
    ensures var q := Get(srv.queues, h.file);
            g in GetSet(Freed(v, srv, s, h, xid).srv.held, c)
            <==> (g in GetSet(srv.held, c) && !(c == srv.clients[s] && g == h.file))
                 || (q != [] && q[0].session in srv.clients && c == srv.clients[q[0].session] && g == h.file)
  {}

  /** What a release that frees the lock leaves. The stored owner is reset, the head leaves the
      queue, and only the repaired program then stores the next owner. */
  lemma ReleaseEffect(v: Variant, srv: Srv, s: Session, h: FileHandler, xid: Xid)
    requires Known(srv, s) && IsNode(srv.db, h) && Release(v, srv, s, h, xid, true).end == Returned
    ensures var post, f, q := Release(v, srv, s, h, xid, true).srv, h.file, Get(srv.queues, h.file);
            var freed := Apply(srv.db, Unlock(f, h.inst)).0;
            && (q != [] ==> q[0].session in srv.clients)
            && post.db == (if q != [] && v.Intended?
                           then Apply(freed, Lock(f, h.inst, srv.clients[q[0].session])).0 else freed)
            && (forall g :: Get(post.queues, g) == if g == f && q != [] then q[1..] else Get(srv.queues, g))
            && post == Found(srv, s, h).(db := post.db, queues := post.queues, held := post.held)
  {
    ReleaseIsFreed(v, srv, s, h, xid);
    FreedTables(v, Found(srv, s, h).(db := Apply(srv.db, Unlock(h.file, h.inst)).0), s, h, xid);
  }

  /** The file leaves the releaser's set, also if another client is the stored owner, and joins
      the next client's. */
  lemma ReleaseMovesFile(v: Variant, srv: Srv, s: Session, h: FileHandler, xid: Xid, c: Client, g: string)
    requires Known(srv, s) && IsNode(srv.db, h) && Release(v, srv, s, h, xid, true).end == Returned
    ensures var q := Get(srv.queues, h.file);
            g in GetSet(Release(v, srv, s, h, xid, true).srv.held, c)
            <==> (g in GetSet(srv.held, c) && !(c == srv.clients[s] && g == h.file))
                 || (q != [] && q[0].session in srv.clients && c == srv.clients[q[0].session] && g == h.file)
  {
    ReleaseIsFreed(v, srv, s, h, xid);
    FreedHeld(v, Found(srv, s, h).(db := Apply(srv.db, Unlock(h.file, h.inst)).0), s, h, xid, c, g);
  }

  // ---------------------------------------------------------------- delete, sessions, leadership

  predicate IsDeletable(db: Db, h: FileHandler) {
    IsFree(db, h) && !(db.fs[h.file].isDir && db.fs[h.file].content != "")
  }

  lemma PurgedTells(srv: Srv, s: Session, file: string, xid: Xid)
    requires Known(srv, s)
    ensures Purged(srv, s, file, xid).out
         == Send(s, xid, Value(true)) + News(OfContent, Get(srv.contentEv, file), file) + NewsAbove(srv, file)
  {
    EventsAreNews(Get(srv.contentEv, file), file);
    ParentEventsAreNews(srv, file);
  }

  lemma DeleteIsPurged(srv: Srv, s: Session, h: FileHandler, xid: Xid)
    requires Known(srv, s) && IsDeletable(srv.db, h) && HasRoom(srv.db.fs, h.file)
    ensures FileDelete(srv, s, h, xid, true)
         == Purged(Found(srv, s, h).(db := Apply(srv.db, Delete(h.file, h.inst)).0), s, h.file, xid)
  {}

  /** A delete stops the server exactly when the session has no name, or the directory above the
      node is gone. One that does not work is answered and changes nothing but the lookup. */
  lemma DeleteAnswers(srv: Srv, s: Session, h: FileHandler, xid: Xid, up: bool)
    ensures var r := FileDelete(srv, s, h, xid, up);
            var known := s in srv.clients && srv.clients[s] != "";
            && (r.end != Returned <==> !known || (up && IsDeletable(srv.db, h) && !HasRoom(srv.db.fs, h.file)))
            && (r.end != Returned ==> r.end == Aborted && r.out == []) && r.moves == []
            && (known && !up ==> r.srv == Found(srv, s, h) && r.out == Send(s, xid, Error(PAXOS_ERROR)))
            && (known && up && !IsDeletable(srv.db, h) ==>
                  r.srv == Found(srv, s, h) && r.out == Send(s, xid, Value(false)))
  {}

  /** A delete that works is answered true, and the content listeners of the file and then those
      of the directory above are told. */
  lemma DeleteTells(srv: Srv, s: Session, h: FileHandler, xid: Xid)
    requires Known(srv, s) && IsDeletable(srv.db, h) && HasRoom(srv.db.fs, h.file)
    ensures FileDelete(srv, s, h, xid, true).out
         == Send(s, xid, Value(true)) + News(OfContent, Get(srv.contentEv, h.file), h.file) + NewsAbove(srv, h.file)
  {
    DeleteIsPurged(srv, s, h, xid);
    PurgedTells(Found(srv, s, h).(db := Apply(srv.db, Delete(h.file, h.inst)).0), s, h.file, xid);
  }

  lemma PurgedEffect(srv: Srv, s: Session, f: string, xid: Xid)
    requires Known(srv, s)
    ensures var post := Purged(srv, s, f, xid).srv;
            && post.db == srv.db && post.tables == DropFile(srv.tables, f)
            && post.clients == srv.clients && post.held == srv.held && post.queues == srv.queues - {f}
            && post.lockEv == srv.lockEv - {f} && post.contentEv == srv.contentEv - {f}
            && forall c :: GetSet(post.eph, c) == GetSet(srv.eph, c) - (if c == srv.clients[s] then {f} else {})
  {}

  /** It leaves no handle, queue or listener of the file, and no mark of the session's client. */
  lemma DeleteEffect(srv: Srv, s: Session, h: FileHandler, xid: Xid)
    requires Known(srv, s) && IsDeletable(srv.db, h) && HasRoom(srv.db.fs, h.file)
    ensures var post, f := FileDelete(srv, s, h, xid, true).srv, h.file;
            && post.db == Apply(srv.db, Delete(f, h.inst)).0
            && post.tables == DropFile(Find(srv.tables, s, h).0, f)
            && post.clients == srv.clients && post.held == srv.held && post.queues == srv.queues - {f}
            && post.lockEv == srv.lockEv - {f} && post.contentEv == srv.contentEv - {f}
            && forall c :: GetSet(post.eph, c) == GetSet(srv.eph, c) - (if c == srv.clients[s] then {f} else {})
  {
    DeleteIsPurged(srv, s, h, xid);
    PurgedEffect(Found(srv, s, h).(db := Apply(srv.db, Delete(h.file, h.inst)).0), s, h.file, xid);
  }

  lemma NotOfOne(queue: seq<Waiter>, s: Session)
    requires queue != []
    ensures var last := queue[|queue| - 1];
            NotOf(queue, s) == NotOf(queue[..|queue| - 1], s) + (if last.session == s then [] else [last])
  {}

  /** With the repairs a close takes the session's entries from a queue, and the others keep their
      order. */
  lemma {:induction false} OthersKeepTheirPlace(a: seq<Waiter>, b: seq<Waiter>, s: Session)
    ensures NotOf(a + b, s) == NotOf(a, s) + NotOf(b, s)
    decreases b
  {
    if b == [] {
      assert a + b == a && NotOf(b, s) == [];
    } else {
      assert (a + b)[..|a + b| - 1] == a + b[..|b| - 1];
      OthersKeepTheirPlace(a, b[..|b| - 1], s);
      NotOfOne(b, s);
      NotOfOne(a + b, s);
    }
  }

  /** A session is mapped to its client on a ready leader, and refused elsewhere. */
  lemma StartAnswers(srv: Srv, s: Session, client: Client, xid: Xid, up: bool)
    ensures var r := StartSession(srv, s, client, xid, up);
            && r.end == Returned && r.moves == [] && r.out == Send(s, xid, Value(up))
            && r.srv == srv.(clients := r.srv.clients)
            && (!up ==> r.srv.clients == srv.clients)
            && (up ==> s in r.srv.clients && r.srv.clients[s] == client
                       && forall t :: t != s ==> (t in r.srv.clients <==> t in srv.clients)
                                                 && (t in srv.clients ==> r.srv.clients[t] == srv.clients[t]))
  {}

  /** A handle that is brought back is entered unchecked; its session joins the lists its mode
      asks for, and the node counts as ephemeral if it says so. */
  lemma ReopenAnswers(srv: Srv, s: Session, h: FileHandler, mode: nat, xid: Xid, f: string, c: Client)
    ensures var r := FileReopen(srv, s, h, mode, xid);
            var client := if s in srv.clients then srv.clients[s] else "";
            && r.end == Returned && r.moves == [] && r.out == Send(s, xid, Value(true))
            && r.srv.tables == Add(srv.tables, s, h) && r.srv.db == srv.db && r.srv.clients == srv.clients
            && r.srv.queues == srv.queues && r.srv.held == srv.held
            && Get(r.srv.lockEv, f)
               == Get(srv.lockEv, f) + (if f == h.file && Has(mode, EV_LOCK_CHANGED) then [s] else [])
            && Get(r.srv.contentEv, f)
               == Get(srv.contentEv, f) + (if f == h.file && Has(mode, EV_CONTENT_MODIFIED) then [s] else [])
            && GetSet(r.srv.eph, c)
               == GetSet(srv.eph, c) + (if c == client && Has(mode, EPHEMERAL) then {h.file} else {})
  {}

  /** A new leader keeps its store and starts with no session, handle, queue, ephemeral mark or
      listener. */
  lemma LeadEffect(srv: Srv, rows: seq<(string, string)>)
    ensures var post := InitializeLeader(srv, rows);
            && post.db == srv.db && post.clients == map[] && post.queues == map[] && post.eph == map[]
            && post.lockEv == map[] && post.contentEv == map[]
            && post.tables.byFile == map[] && post.tables.bySession == map[]
  {}
}
