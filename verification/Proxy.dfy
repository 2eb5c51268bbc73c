/**
 The replicated front of the store: a call is packed into a command, sent as bytes, run by
 the store behind the log, and its result sent back as bytes. It acts like a direct call as
 long as instance numbers fit the 32-bit field.
 */
module Proxy {
  import opened Text
  import opened Database
  import opened Wire
  import opened Messages

  /** What the program does not fix: the hash function, and the values of the variables that
      a failed operation leaves unset. */
  datatype Env = Env(hashes: Hash -> nat, junk: nat, blank: WireMeta)

  function MetaNumbers(m: Meta, env: Env): WireMeta {
    WireMeta(m.inst, m.contentGen, m.lockGen, env.hashes(m.checksum), m.isDir)
  }

  /** The result object for a reply; the instance number is cut to 32 bits. */
  function Pack(cmd: Cmd, reply: Reply, rows: seq<(string, string)>, env: Env): Result {
    match cmd
    case Create(_, _) => NumberResult(0, (if reply.Number? then reply.inst else env.junk) % WIDE, reply.Number?)
    case Open(_) => NumberResult(1, (if reply.Number? then reply.inst else env.junk) % WIDE, reply.Number?)
    case Read(_, _) =>
      if reply.Contents? then ReadResult(reply.content, MetaNumbers(reply.meta, env), true)
      else ReadResult("", env.blank, false)
    case States => StatesResult(rows)
    case _ => FlagResult(Tag(cmd), reply == Ok)
  }

  /** The command interpreter on a message; none stands for an exception or a failed assertion. */
  function Serve(db: Db, input: Words, rows: seq<(string, string)>, env: Env): (Db, Option<Words>) {
    match Decode(input)
    case None => (db, None)
    case Some(cmd) =>
      var (next, reply) := Apply(db, cmd);
      if reply == Aborts || !ResultFits(Pack(cmd, reply, rows, env)) then (next, None)
      else (next, Some(EncodeResult(Pack(cmd, reply, rows, env))))
  }

  method BackstoreRun(db: ServerDb, input: Words, env: Env)
    returns (output: Option<Words>, rows: seq<(string, string)>)
    modifies db
    ensures ListedTwice(rows, old(db.State())) || (rows == [] && Decode(input) != Some(States))
    ensures (db.State(), output) == Serve(old(db.State()), input, rows, env)
  {
    rows := [];
    var param := Decode(input);
    if param.None? {
      return None, [];
    }
    var result: Result;
    match param.value {
      case Create(f, isDir) =>
        var success, instance := db.CheckAndCreate(f, isDir);
        result := NumberResult(0, (if success then instance else env.junk) % WIDE, success);
      case Open(f) =>
        var success, instance := db.CheckAndOpen(f);
        result := NumberResult(1, (if success then instance else env.junk) % WIDE, success);
      case Delete(f, inst) =>
        var r := db.CheckAndDelete(f, inst);
        if r == Aborts {
          return None, [];
        }
        result := FlagResult(2, r == Ok);
      case Read(f, inst) =>
        var r := db.CheckAndRead(f, inst);
        if r.Contents? {
          result := ReadResult(r.content, MetaNumbers(r.meta, env), true);
        } else {
          result := ReadResult("", env.blank, false);
        }
      case Update(f, inst, content) =>
        var r := db.CheckAndUpdate(f, inst, content);
        result := FlagResult(4, r == Ok);
      case Lock(f, inst, client) =>
        var r := db.TestAndSetLockOwner(f, inst, client);
        result := FlagResult(5, r == Ok);
      case Unlock(f, inst) =>
        var r := db.ResetLockOwner(f, inst);
        result := FlagResult(6, r == Ok);
      case States =>
        var first := db.GetStates();
        var second := db.GetStates();
        rows := first + second;
        result := StatesResult(rows);
    }
    assert result == Pack(param.value, Apply(old(db.State()), param.value).1, rows, env);
    output := if ResultFits(result) then Some(EncodeResult(result)) else None;
  }

  // ---------------------------------------------------------------- the calling side

  /** The instance number of a call is cut to the 32 bits of the command's field. */
  function Cut(cmd: Cmd): Cmd {
    match cmd
    case Delete(f, inst) => Delete(f, inst % WIDE)
    case Read(f, inst) => Read(f, inst % WIDE)
    case Update(f, inst, content) => Update(f, inst % WIDE, content)
    case Lock(f, inst, client) => Lock(f, inst % WIDE, client)
    case Unlock(f, inst) => Unlock(f, inst % WIDE)
    case _ => cmd
  }

  /** What a caller gets. Broken: an exception, or the server has stopped. */
  datatype Answer =
    | Broken
    | Numbered(success: bool, inst: nat)
    | Flag(success: bool)
    | NodeData(success: bool, content: string, meta: WireMeta)
    | Listing(rows: seq<(string, string)>)

  function Unpack(r: Result): Answer {
    match r
    case NumberResult(_, inst, success) => Numbered(success, inst)
    case FlagResult(_, success) => Flag(success)
    case ReadResult(content, meta, success) => NodeData(success, content, meta)
    case StatesResult(rows) => Listing(rows)
  }

  function Received(output: Option<Words>): Answer {
    match output
    case None => Broken
    case Some(bytes) =>
      match DecodeResult(bytes)
      case None => Broken
      case Some(r) => Unpack(r)
  }

  /** A call through the replicated front, on a replica that leads. */
  function Call(db: Db, cmd: Cmd, rows: seq<(string, string)>, env: Env): (Db, Answer) {
    if !CommandFits(Cut(cmd)) then (db, Broken)
    else
      var (next, output) := Serve(db, Messages.Encode(Cut(cmd)), rows, env);
      (next, Received(output))
  }

  /** The same call on the store itself. */
  function Direct(db: Db, cmd: Cmd, rows: seq<(string, string)>, env: Env): (Db, Answer) {
    var (next, reply) := Apply(db, cmd);
    (next,
     match reply
     case Aborts => Broken
     case Number(inst) => Numbered(true, inst)
     case Contents(content, meta) => NodeData(true, content, MetaNumbers(meta, env))
     case Rows(_) => Listing(rows)
     case Ok => Flag(true)
     case Fails =>
       match cmd
       case Create(_, _) => Numbered(false, 0)
       case Open(_) => Numbered(false, 0)
       case Read(_, _) => NodeData(false, "", env.blank)
       case _ => Flag(false))
  }

  /** Equal success and, on success, equal payload; listings have the same rows. */
  ghost predicate Agree(a: Answer, b: Answer) {
    match a
    case Broken => b.Broken?
    case Numbered(success, inst) => b.Numbered? && b.success == success && (success ==> b.inst == inst)
    case Flag(success) => b == a
    case NodeData(success, content, meta) =>
      b.NodeData? && b.success == success && (success ==> b.content == content && b.meta == meta)
    case Listing(rows) => b.Listing? && forall p :: p in b.rows <==> p in rows
  }

  /** Whatever goes through the log comes back as the result made for the command. */
  lemma CallIsPacked(db: Db, cmd: Cmd, rows: seq<(string, string)>, env: Env)
    requires CommandFits(cmd) && Apply(db, cmd).1 != Aborts
    requires ResultFits(Pack(cmd, Apply(db, cmd).1, rows, env))
    ensures Call(db, cmd, rows, env) == (Apply(db, cmd).0, Unpack(Pack(cmd, Apply(db, cmd).1, rows, env)))
  {
    assert Cut(cmd) == cmd;
    CommandRoundTrip(cmd);
    ResultRoundTrip(Pack(cmd, Apply(db, cmd).1, rows, env));
  }

  lemma PackAgreesIff(db: Db, cmd: Cmd, once: seq<(string, string)>, rows: seq<(string, string)>, env: Env)
    requires Apply(db, cmd).1 != Aborts && forall p :: p in rows <==> p in once
    ensures Agree(Direct(db, cmd, once, env).1, Unpack(Pack(cmd, Apply(db, cmd).1, rows, env)))
       <==> (Apply(db, cmd).1.Number? ==> Apply(db, cmd).1.inst < WIDE)
  {}

  /** A call through the log does to the store what a direct call does, and answers the same
      exactly when the number it returns, if any, fits in 32 bits. */
  lemma ProxyRefinesIff(db: Db, cmd: Cmd, once: seq<(string, string)>, rows: seq<(string, string)>, env: Env)
    requires CommandFits(cmd) && Apply(db, cmd).1 != Aborts
    requires ResultFits(Pack(cmd, Apply(db, cmd).1, rows, env))
    requires IsListing(once, db) && ListedTwice(rows, db)
    ensures Call(db, cmd, rows, env).0 == Direct(db, cmd, once, env).0
    ensures Agree(Direct(db, cmd, once, env).1, Call(db, cmd, rows, env).1)
       <==> (Apply(db, cmd).1.Number? ==> Apply(db, cmd).1.inst < WIDE)
  {
    CallIsPacked(db, cmd, rows, env);
    TwiceHasSameRows(rows, once, db);
    PackAgreesIff(db, cmd, once, rows, env);
  }

  lemma TwiceHasSameRows(rows: seq<(string, string)>, once: seq<(string, string)>, db: Db)
    requires IsListing(once, db) && ListedTwice(rows, db)
    ensures forall p :: p in rows <==> p in once
    ensures |rows| == 2 * |once|
  {}

  lemma CallCuts(db: Db, a: Cmd, b: Cmd, rows: seq<(string, string)>, env: Env)
    requires Cut(a) == Cut(b)
    ensures Call(db, a, rows, env) == Call(db, b, rows, env)
  {}

  /** The command names an instance. */
  predicate NamesInstance(cmd: Cmd) {
    cmd.Delete? || cmd.Read? || cmd.Update? || cmd.Lock? || cmd.Unlock?
  }

  /** The store finds the instance, and it is fit for the command. */
  predicate Acts(db: Db, cmd: Cmd)
    requires NamesInstance(cmd)
  {
    match cmd
    case Delete(f, inst) => CanDelete(db, f, inst)
    case Lock(f, inst, _) => Live(db, f, inst) && db.fs[f].owner == NO_OWNER
    case _ => Live(db, cmd.file, cmd.inst)
  }

  lemma FailsIff(db: Db, cmd: Cmd)
    requires NamesInstance(cmd)
    ensures Apply(db, cmd).1 == Fails <==> !Acts(db, cmd)
    ensures !Acts(db, cmd) ==> Apply(db, cmd).0 == db
    ensures Acts(db, cmd) ==> Live(db, cmd.file, cmd.inst)
  {}

  lemma AbortedCall(db: Db, cmd: Cmd, rows: seq<(string, string)>, env: Env)
    requires CommandFits(cmd) && Apply(db, cmd).1 == Aborts
    ensures Call(db, cmd, rows, env).1 == Broken
  {
    assert Cut(cmd) == cmd;
    CommandRoundTrip(cmd);
  }

  /** What a caller of the front gets for a command that fits, and of the store itself. */
  lemma Answers(db: Db, cmd: Cmd, rows: seq<(string, string)>, env: Env)
    requires NamesInstance(cmd)
    ensures var a := Direct(db, cmd, rows, env).1;
            if !Acts(db, cmd) then a == (if cmd.Read? then NodeData(false, "", env.blank) else Flag(false))
            else a.Broken? || (a.Flag? && a.success) || (a.NodeData? && a.success)
    ensures CommandFits(cmd) && ResultFits(Pack(cmd, Apply(db, cmd).1, rows, env)) ==>
              var a := Call(db, cmd, rows, env).1;
              if !Acts(db, cmd) then a == (if cmd.Read? then NodeData(false, "", env.blank) else Flag(false))
              else a.Broken? || (a.Flag? && a.success) || (a.NodeData? && a.success)
  {
    FailsIff(db, cmd);
    if CommandFits(cmd) && ResultFits(Pack(cmd, Apply(db, cmd).1, rows, env)) {
      if Apply(db, cmd).1 == Aborts {
        AbortedCall(db, cmd, rows, env);
      } else {
        CallIsPacked(db, cmd, rows, env);
      }
    }
  }

  /** With a number that does not fit, a call acts on the instance that is left after the cut.
      It then does to the store what a direct call does and answers the same exactly when
      neither would do anything. */
  lemma WideCallAgreesIff(db: Db, cmd: Cmd, rows: seq<(string, string)>, env: Env)
    requires NamesInstance(cmd) && cmd.inst >= WIDE && CommandFits(Cut(cmd))
    requires ResultFits(Pack(Cut(cmd), Apply(db, Cut(cmd)).1, rows, env))
    ensures Call(db, cmd, rows, env).0 == Direct(db, cmd, rows, env).0
            && Agree(Direct(db, cmd, rows, env).1, Call(db, cmd, rows, env).1)
       <==> !Acts(db, cmd) && !Acts(db, Cut(cmd))
  {
    var cut := Cut(cmd);
    assert Cut(cut) == cut && cut.file == cmd.file && cut.inst != cmd.inst;
    CallCuts(db, cmd, cut, rows, env);
    FailsIff(db, cmd);
    FailsIff(db, cut);
    Answers(db, cmd, rows, env);
    Answers(db, cut, rows, env);
    if !Acts(db, cut) {
      assert Call(db, cut, rows, env).0 == db by { CallIsPacked(db, cut, rows, env); }
    }
  }
}
