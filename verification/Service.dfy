/**
 The lock service of one leader: what each request does to its tables and to the store.

 `AsWritten` is the program; `Intended` is the program with the two repairs its comments
 and its design report call for: `release` makes the woken waiter the stored owner, and
 `fileClose` takes the closing session out of the real lock queue.
 */
module Service {
  import opened Text
  import opened Database
  import opened Handles

  datatype Variant = AsWritten | Intended

  type Client = string
  type Xid = nat

  const NO_REPLY: Xid := 0xFFFF_FFFF

  const WRITE := 0x2
  const CREATE_DIRECTORY := 0x4
  const CREATE_FILE := 0x8
  const EPHEMERAL := 0x10
  const EV_LOCK_CHANGED := 0x100
  const EV_CONTENT_MODIFIED := 0x200

  /** The flag bit is set in the mode. */
  predicate Has(mode: nat, flag: nat)
    requires flag > 0
  {
    (mode / flag) % 2 == 1
  }

  datatype ErrorCode = BAD_ARG | FS_FAIL | PAXOS_ERROR

  datatype Ret =
    | Value(b: bool)
    | Opened(h: FileHandler)
    | Data(content: string, meta: Meta)
    | Error(code: ErrorCode)

  datatype Out =
    | Reply(session: Session, xid: Xid, ret: Ret)
    | LockChanged(session: Session, file: string)
    | ContentModified(session: Session, file: string)

  /** A queued acquire. */
  datatype Waiter = Waiter(session: Session, xid: Xid)

  /** What happens to lock queues: an acquire joins one, the head is granted the lock, the
      entries of a session are cancelled. */
  datatype Move =
    | Asked(file: string, who: Waiter)
    | Granted(file: string, who: Waiter)
    | Cancelled(file: string, session: Session)

  datatype Srv = Srv(
    db: Db,
    tables: Tables,
    clients: map<Session, Client>,
    queues: map<string, seq<Waiter>>,
    held: map<Client, set<string>>,
    eph: map<Client, set<string>>,
    lockEv: map<string, seq<Session>>,
    contentEv: map<string, seq<Session>>)

  /** Aborted: an assertion of the program failed. Hung: a loop never ends. */
  datatype Ending = Returned | Aborted | Hung

  datatype Res = Res(srv: Srv, out: seq<Out>, moves: seq<Move>, end: Ending)

  function GetSet<K, V>(m: map<K, set<V>>, k: K): set<V> {
    if k in m then m[k] else {}
  }

  function PutSet<K, V>(m: map<K, set<V>>, k: K, v: set<V>): map<K, set<V>> {
    if v == {} then m - {k} else m[k := v]
  }

  /** Replies to internal calls are not sent. */
  function Send(s: Session, xid: Xid, ret: Ret): seq<Out> {
    if xid == NO_REPLY then [] else [Reply(s, xid, ret)]
  }

  function LockEvents(listeners: seq<Session>, file: string): seq<Out> {
    if listeners == [] then []
    else LockEvents(listeners[..|listeners| - 1], file) + [LockChanged(listeners[|listeners| - 1], file)]
  }

  function ContentEvents(listeners: seq<Session>, file: string): seq<Out> {
    if listeners == [] then []
    else ContentEvents(listeners[..|listeners| - 1], file)
         + [ContentModified(listeners[|listeners| - 1], file)]
  }

  /** Events for the directory above a file; the root has no listeners. */
  function ParentEvents(srv: Srv, file: string): seq<Out> {
    var parent := ParentName(file);
    if parent == "/" then [] else ContentEvents(Get(srv.contentEv, parent), parent)
  }

  /** The session has introduced itself with a non-empty client name. */
  predicate Known(srv: Srv, s: Session) {
    s in srv.clients && srv.clients[s] != ""
  }

  function Done(srv: Srv, out: seq<Out>): Res {
    Res(srv, out, [], Returned)
  }

  function Magic(file: string, inst: nat, writable: bool): Hash {
    HashOf(file + ToString(inst) + ToString(if writable then 1 else 0))
  }

  function Found(srv: Srv, s: Session, h: FileHandler): Srv {
    srv.(tables := Find(srv.tables, s, h).0)
  }

  // ---------------------------------------------------------------- open, read, write

  function FileOpen(srv: Srv, s: Session, file: string, mode: nat, masterSeq: nat, xid: Xid,
                    up: bool): Res {
    if !Known(srv, s) then Res(srv, [], [], Aborted)
    else if !NameOk(file) || (Has(mode, CREATE_DIRECTORY) && Has(mode, CREATE_FILE)) then
      Done(srv, Send(s, xid, Error(BAD_ARG)))
    else if !up then
      Done(srv, Send(s, xid, Error(PAXOS_ERROR)))
    else
      var creates := Has(mode, CREATE_DIRECTORY) || Has(mode, CREATE_FILE);
      var (db, r) := Apply(srv.db, if creates then Create(file, Has(mode, CREATE_DIRECTORY)) else Open(file));
      if !r.Number? then
        Done(srv, Send(s, xid, Error(FS_FAIL)))
      else
        Entered(srv.(db := db), s, file, mode, creates && Has(mode, EPHEMERAL), masterSeq, r.inst, xid)
  }

  /** The node is there: the handle goes into both tables and the events asked for are
      registered; listeners of the parent hear of it. */
  function Entered(srv: Srv, s: Session, file: string, mode: nat, ephemeral: bool, masterSeq: nat,
                   inst: nat, xid: Xid): Res
    requires Known(srv, s)
  {
    var client := srv.clients[s];
    var h := FileHandler(Magic(file, inst, Has(mode, WRITE)), masterSeq, file, inst, Has(mode, WRITE));
    var next := Registered(srv, s, h, mode).(
      eph := if ephemeral then srv.eph[client := GetSet(srv.eph, client) + {file}] else srv.eph);
    Done(next, Send(s, xid, Opened(h)) + ParentEvents(next, file))
  }

  function Registered(srv: Srv, s: Session, h: FileHandler, mode: nat): Srv {
    srv.(tables := Add(srv.tables, s, h),
         lockEv := if Has(mode, EV_LOCK_CHANGED) then srv.lockEv[h.file := Get(srv.lockEv, h.file) + [s]]
                   else srv.lockEv,
         contentEv := if Has(mode, EV_CONTENT_MODIFIED)
                      then srv.contentEv[h.file := Get(srv.contentEv, h.file) + [s]]
                      else srv.contentEv)
  }

  function GetContentsAndStat(srv: Srv, s: Session, h: FileHandler, xid: Xid, up: bool): Res {
    var found := Found(srv, s, h);
    var r := Apply(srv.db, Read(h.file, h.inst)).1;
    Done(found, Send(s, xid,
      if !up then Error(PAXOS_ERROR)
      else if r.Contents? then Data(r.content, r.meta)
      else Error(FS_FAIL)))
  }

  function SetContents(srv: Srv, s: Session, h: FileHandler, content: string, xid: Xid, up: bool): Res {
    var found := Found(srv, s, h);
    var (db, r) := Apply(srv.db, Update(h.file, h.inst, content));
    if !up then Done(found, Send(s, xid, Error(PAXOS_ERROR)))
    else if r != Ok then Done(found, Send(s, xid, Error(FS_FAIL)))
    else
      Done(found.(db := db),
           Send(s, xid, Value(true)) + ContentEvents(Get(srv.contentEv, h.file), h.file))
  }

  // ---------------------------------------------------------------- locks

  /** What a successful testAndSet leads to; nobody may be waiting for a free lock. */
  function Taken(found: Srv, s: Session, file: string, db: Db, xid: Xid): Res
    requires Known(found, s)
  {
    if file in found.queues then Res(found.(db := db), [], [], Aborted)
    else
      var client := found.clients[s];
      Done(found.(db := db, held := found.held[client := GetSet(found.held, client) + {file}]),
           Send(s, xid, Value(true)) + LockEvents(Get(found.lockEv, file), file))
  }

  function Acquire(srv: Srv, s: Session, h: FileHandler, xid: Xid, up: bool): Res {
    if !Known(srv, s) then Res(srv, [], [], Aborted)
    else
      var found := Found(srv, s, h);
      var (db, r) := Apply(srv.db, Lock(h.file, h.inst, srv.clients[s]));
      if !up then Done(found, Send(s, xid, Error(PAXOS_ERROR)))
      else if r == Ok then Taken(found, s, h.file, db, xid)
      else
        var who := Waiter(s, xid);
        Res(found.(queues := found.queues[h.file := Get(found.queues, h.file) + [who]]),
            [], [Asked(h.file, who)], Returned)
  }

  function TryAcquire(srv: Srv, s: Session, h: FileHandler, xid: Xid, up: bool): Res {
    if !Known(srv, s) then Res(srv, [], [], Aborted)
    else
      var found := Found(srv, s, h);
      var (db, r) := Apply(srv.db, Lock(h.file, h.inst, srv.clients[s]));
      if !up then Done(found, Send(s, xid, Error(PAXOS_ERROR)))
      else if r == Ok then Taken(found, s, h.file, db, xid)
      else Done(found, Send(s, xid, Value(false)))
  }

  /** The lock is free and out of the releaser's set; the first waiter, if any, gets it. */
  function HandOver(v: Variant, freed: Srv, h: FileHandler): Res {
    var file := h.file;
    if file !in freed.queues then Done(freed, [])
    else if freed.queues[file] == [] then Res(freed, [], [], Aborted)
    else
      var head, rest := freed.queues[file][0], freed.queues[file][1..];
      if !Known(freed, head.session) then Res(freed.(queues := freed.queues[file := rest]), [], [], Aborted)
      else
        var client := freed.clients[head.session];
        Res(freed.(
              db := if v.Intended? then Apply(freed.db, Lock(file, h.inst, client)).0 else freed.db,
              held := freed.held[client := GetSet(freed.held, client) + {file}],
              queues := Put(freed.queues, file, rest)),
            Send(head.session, head.xid, Value(true)), [Granted(file, head)], Returned)
  }

  function Release(v: Variant, srv: Srv, s: Session, h: FileHandler, xid: Xid, up: bool): Res {
    if !Known(srv, s) then Res(srv, [], [], Aborted)
    else
      var found := Found(srv, s, h);
      var (db, r) := Apply(srv.db, Unlock(h.file, h.inst));
      if !up then Done(found, Send(s, xid, Error(PAXOS_ERROR)))
      else if r != Ok then Done(found, Send(s, xid, Error(FS_FAIL)))
      else
        Freed(v, found.(db := db), s, h, xid)
  }

  /** The stored owner is reset: the file leaves the releaser's set and goes to the next. */
  function Freed(v: Variant, srv: Srv, s: Session, h: FileHandler, xid: Xid): Res
    requires Known(srv, s)
  {
    var client := srv.clients[s];
    var next := HandOver(v, srv.(held := PutSet(srv.held, client, GetSet(srv.held, client) - {h.file})), h);
    var events := if next.end == Returned then LockEvents(Get(srv.lockEv, h.file), h.file) else [];
    next.(out := Send(s, xid, Value(true)) + next.out + events)
  }

  // ---------------------------------------------------------------- delete and close

  function FileDelete(srv: Srv, s: Session, h: FileHandler, xid: Xid, up: bool): Res {
    if !Known(srv, s) then Res(srv, [], [], Aborted)
    else
      var found := Found(srv, s, h);
      var (db, r) := Apply(srv.db, Delete(h.file, h.inst));
      if !up then Done(found, Send(s, xid, Error(PAXOS_ERROR)))
      else if r == Aborts then Res(found, [], [], Aborted)
      else if r != Ok then Done(found, Send(s, xid, Value(false)))
      else
        Purged(found.(db := db), s, h.file, xid)
  }

  /** The node is gone: so are its handles, its lock queue and its event lists. */
  function Purged(srv: Srv, s: Session, file: string, xid: Xid): Res
    requires Known(srv, s)
  {
    var client := srv.clients[s];
    Done(Srv(srv.db, DropFile(srv.tables, file), srv.clients, srv.queues - {file}, srv.held,
             PutSet(srv.eph, client, GetSet(srv.eph, client) - {file}),
             srv.lockEv - {file}, srv.contentEv - {file}),
         Send(s, xid, Value(true)) + ContentEvents(Get(srv.contentEv, file), file) + ParentEvents(srv, file))
  }

  function NotOf(queue: seq<Waiter>, s: Session): (r: seq<Waiter>)
    ensures forall w :: w in r <==> w in queue && w.session != s
  {
    if queue == [] then []
    else
      var r := NotOf(queue[..|queue| - 1], s);
      if queue[|queue| - 1].session == s then r else r + [queue[|queue| - 1]]
  }

  /** The lock queue after session s closes a handle; none when the loop never ends.
      As written, the loop never advances: it stops on the first entry or not at all, and
      what it erases is the first entry of a copy. */
  function ClearedQueue(v: Variant, queues: map<string, seq<Waiter>>, file: string, s: Session)
    : Option<map<string, seq<Waiter>>> {
    if file !in queues then Some(queues)
    else if v.Intended? then Some(Put(queues, file, NotOf(queues[file], s)))
    else if queues[file] == [] then Some(queues - {file})
    else if queues[file][0].session != s then None
    else if |queues[file]| == 1 then Some(queues - {file})
    else Some(queues)
  }

  /** The last part of a close: the handle, the session's queue entries and its event
      registrations for the file go. */
  function Forget(v: Variant, srv: Srv, s: Session, fd: Fd): Res {
    var file := fd.h.file;
    var dropped := srv.(tables := Drop(srv.tables, s, fd));
    var cleared := ClearedQueue(v, srv.queues, file, s);
    if cleared.None? then Res(dropped, [], [], Hung)
    else
      Res(dropped.(
            queues := cleared.value,
            lockEv := Put(srv.lockEv, file, Without(Get(srv.lockEv, file), s)),
            contentEv := Put(srv.contentEv, file, Without(Get(srv.contentEv, file), s))),
          [], if file in srv.queues && (v.Intended? || |srv.queues[file]| <= 1) then [Cancelled(file, s)] else [],
          Returned)
  }

  /** Runs the second part only when the first returned. */
  function Then(first: Res, second: Res): Res {
    if first.end == Returned then Res(second.srv, first.out + second.out, first.moves + second.moves, second.end)
    else first
  }

  function FileClose(v: Variant, srv: Srv, s: Session, h: FileHandler, xid: Xid, up: bool): Res {
    if !Known(srv, s) then Res(srv, [], [], Aborted)
    else
      var found := Found(srv, s, h);
      var fd := Find(srv.tables, s, h).1;
      var unlocked := Reclaim(v, found, s, fd.h, up);
      Then(unlocked, LetGo(v, unlocked.srv, s, fd, xid, up))
  }

  /** The first half of a close: a held lock is released. */
  function Reclaim(v: Variant, srv: Srv, s: Session, h: FileHandler, up: bool): Res
    requires Known(srv, s)
  {
    if h.file in GetSet(srv.held, srv.clients[s]) then Release(v, srv, s, h, NO_REPLY, up)
    else Done(srv, [])
  }

  /** The second half of a close: an ephemeral node is deleted, any other handle dropped. */
  function LetGo(v: Variant, srv: Srv, s: Session, fd: Fd, xid: Xid, up: bool): Res {
    var ephemeral := s in srv.clients && fd.h.file in GetSet(srv.eph, srv.clients[s]);
    var last := if ephemeral then FileDelete(srv, s, fd.h, NO_REPLY, up) else Forget(v, srv, s, fd);
    Then(last, Done(last.srv, Send(s, xid, Value(true))))
  }

  // ---------------------------------------------------------------- sessions and leadership

  function StartSession(srv: Srv, s: Session, client: Client, xid: Xid, up: bool): Res {
    if up then Done(srv.(clients := srv.clients[s := client]), Send(s, xid, Value(true)))
    else Done(srv, Send(s, xid, Value(false)))
  }

  function FileReopen(srv: Srv, s: Session, h: FileHandler, mode: nat, xid: Xid): Res {
    var client := if s in srv.clients then srv.clients[s] else "";
    Done(Registered(srv, s, h, mode).(
           eph := if Has(mode, EPHEMERAL) then srv.eph[client := GetSet(srv.eph, client) + {h.file}]
                  else srv.eph),
         Send(s, xid, Value(true)))
  }

  /** Closes a list of handles, given by value, one after the other. */
  function CloseAll(v: Variant, srv: Srv, s: Session, fds: seq<Fd>, up: bool): Res
    decreases fds
  {
    if fds == [] then Done(srv, [])
    else
      var first := FileClose(v, srv, s, fds[0].h, NO_REPLY, up);
      if first.end == Returned then Then(first, CloseAll(v, first.srv, s, fds[1..], up))
      else first
  }

  /** A lost session: its handles, listed at the start, are closed and it is forgotten. */
  function Disconnect(v: Variant, srv: Srv, s: Session, up: bool): Res {
    var closed := CloseAll(v, srv, s, Get(srv.tables.bySession, s), up);
    Then(closed, Done(closed.srv.(clients := closed.srv.clients - {s}), []))
  }

  /** The held sets rebuilt from (file, owner) rows. */
  function HeldFrom(rows: seq<(string, string)>): map<Client, set<string>> {
    if rows == [] then map[]
    else
      var m := HeldFrom(rows[..|rows| - 1]);
      var (file, owner) := rows[|rows| - 1];
      m[owner := GetSet(m, owner) + {file}]
  }

  /** A new leader starts from the store alone. The rows are as the store delivers them. */
  function InitializeLeader(srv: Srv, rows: seq<(string, string)>): Srv {
    Srv(srv.db, Tables(map[], map[], srv.tables.nextId), map[], map[], HeldFrom(rows), map[], map[], map[])
  }
}
