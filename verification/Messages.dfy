/**
 Commands to the replicated store and their results as bytes: a tag and the fields of the
 arm it selects.
 */
module Messages {
  import opened Text
  import opened Database
  import opened Wire

  // ---------------------------------------------------------------- commands as bytes

  function Tag(cmd: Cmd): nat {
    match cmd
    case Create(_, _) => 0
    case Open(_) => 1
    case Delete(_, _) => 2
    case Read(_, _) => 3
    case Update(_, _, _) => 4
    case Lock(_, _, _) => 5
    case Unlock(_, _) => 6
    case States => 7
  }

  /** The fields have room in the command: instance numbers have 32 bits there. */
  predicate CommandFits(cmd: Cmd) {
    match cmd
    case Create(f, _) => TextFits(f)
    case Open(f) => TextFits(f)
    case Delete(f, inst) => TextFits(f) && inst < WIDE
    case Read(f, inst) => TextFits(f) && inst < WIDE
    case Update(f, inst, content) => TextFits(f) && inst < WIDE && TextFits(content)
    case Lock(f, inst, client) => TextFits(f) && inst < WIDE && TextFits(client)
    case Unlock(f, inst) => TextFits(f) && inst < WIDE
    case States => true
  }

  function Fields(cmd: Cmd): Words
    requires CommandFits(cmd)
  {
    match cmd
    case Create(f, isDir) => PutText(f) + PutBool(isDir)
    case Open(f) => PutText(f)
    case Delete(f, inst) => PutText(f) + Put32(inst)
    case Read(f, inst) => PutText(f) + Put32(inst)
    case Update(f, inst, content) => PutText(f) + (Put32(inst) + PutText(content))
    case Lock(f, inst, client) => PutText(f) + (Put32(inst) + PutText(client))
    case Unlock(f, inst) => PutText(f) + Put32(inst)
    case States => PutBool(false)
  }

  function Encode(cmd: Cmd): Words
    requires CommandFits(cmd)
  {
    Put32(Tag(cmd)) + Fields(cmd)
  }

  function GetNameAndNumber(s: Words): Parsed<(string, nat)> {
    match GetText(s)
    case Bad => Bad
    case Got(f, tail) =>
      match Get32(tail)
      case Bad => Bad
      case Got(inst, rest) => Got((f, inst), rest)
  }

  function GetNameNumberText(s: Words): Parsed<(string, nat, string)> {
    match GetNameAndNumber(s)
    case Bad => Bad
    case Got(p, tail) =>
      match GetText(tail)
      case Bad => Bad
      case Got(t, rest) => Got((p.0, p.1, t), rest)
  }

  function GetNameAndFlag(s: Words): Parsed<(string, bool)> {
    match GetText(s)
    case Bad => Bad
    case Got(f, tail) =>
      match GetBool(tail)
      case Bad => Bad
      case Got(b, rest) => Got((f, b), rest)
  }

  /** The command of a read with this tag and these fields. */
  function OfNumber(tag: nat, p: Parsed<(string, nat)>): Parsed<Cmd> {
    if p.Bad? then Bad
    else
      Got(if tag == 2 then Delete(p.value.0, p.value.1)
          else if tag == 3 then Read(p.value.0, p.value.1)
          else Unlock(p.value.0, p.value.1), p.rest)
  }

  function OfText(tag: nat, p: Parsed<(string, nat, string)>): Parsed<Cmd> {
    if p.Bad? then Bad
    else
      Got(if tag == 4 then Update(p.value.0, p.value.1, p.value.2)
          else Lock(p.value.0, p.value.1, p.value.2), p.rest)
  }

  function OfFlag(p: Parsed<(string, bool)>): Parsed<Cmd> {
    if p.Bad? then Bad else Got(Create(p.value.0, p.value.1), p.rest)
  }

  function OfName(p: Parsed<string>): Parsed<Cmd> {
    if p.Bad? then Bad else Got(Open(p.value), p.rest)
  }

  function OfNothing(p: Parsed<bool>): Parsed<Cmd> {
    if p.Bad? then Bad else Got(States, p.rest)
  }

  function DecodeFields(tag: nat, s: Words): Parsed<Cmd> {
    if tag == 0 then OfFlag(GetNameAndFlag(s))
    else if tag == 1 then OfName(GetText(s))
    else if tag == 2 || tag == 3 || tag == 6 then OfNumber(tag, GetNameAndNumber(s))
    else if tag == 4 || tag == 5 then OfText(tag, GetNameNumberText(s))
    else if tag == 7 then OfNothing(GetBool(s))
    else Bad
  }

  /** A whole message: a known tag, its fields, and nothing after them. */
  function Decode(s: Words): Option<Cmd> {
    match Get32(s)
    case Bad => None
    case Got(tag, tail) =>
      match DecodeFields(tag, tail)
      case Bad => None
      case Got(cmd, rest) => if rest == [] then Some(cmd) else None
  }

  lemma NameAndNumber(f: string, inst: nat, rest: Words)
    requires TextFits(f) && inst < WIDE
    ensures GetNameAndNumber(PutText(f) + (Put32(inst) + rest)) == Got((f, inst), rest)
  {
    TextRoundTrip(f, Put32(inst) + rest);
    Word32Iff(Put32(inst) + rest, inst, rest);
  }

  lemma NameNumberText(f: string, inst: nat, t: string)
    requires TextFits(f) && inst < WIDE && TextFits(t)
    ensures GetNameNumberText(PutText(f) + (Put32(inst) + PutText(t))) == Got((f, inst, t), [])
  {
    NameAndNumber(f, inst, PutText(t));
    assert PutText(t) + [] == PutText(t);
    TextRoundTrip(t, []);
  }

  lemma NameNumber(f: string, inst: nat)
    requires TextFits(f) && inst < WIDE
    ensures GetNameAndNumber(PutText(f) + Put32(inst)) == Got((f, inst), [])
  {
    assert Put32(inst) + [] == Put32(inst);
    NameAndNumber(f, inst, []);
  }

  lemma NameFlag(f: string, b: bool)
    requires TextFits(f)
    ensures GetNameAndFlag(PutText(f) + PutBool(b)) == Got((f, b), [])
  {
    TextRoundTrip(f, PutBool(b));
    assert PutBool(b) + [] == PutBool(b);
    BoolRoundTrip(b, []);
  }

  lemma OneText(t: string)
    requires TextFits(t)
    ensures GetText(PutText(t)) == Got(t, [])
  {
    assert PutText(t) + [] == PutText(t);
    TextRoundTrip(t, []);
  }

  lemma OneFlag(b: bool)
    ensures GetBool(PutBool(b)) == Got(b, [])
  {}

  lemma UpdateRoundTrip(f: string, inst: nat, content: string)
    requires TextFits(f) && inst < WIDE && TextFits(content)
    ensures DecodeFields(4, Fields(Update(f, inst, content))) == Got(Update(f, inst, content), [])
  {
    NameNumberText(f, inst, content);
  }

  lemma LockRoundTrip(f: string, inst: nat, client: string)
    requires TextFits(f) && inst < WIDE && TextFits(client)
    ensures DecodeFields(5, Fields(Lock(f, inst, client))) == Got(Lock(f, inst, client), [])
  {
    var s := PutText(f) + (Put32(inst) + PutText(client));
    assert Fields(Lock(f, inst, client)) == s;
    assert GetNameNumberText(s) == Got((f, inst, client), []) by { NameNumberText(f, inst, client); }
    assert DecodeFields(5, s) == OfText(5, GetNameNumberText(s));
  }

  lemma NumberedRoundTrip(cmd: Cmd)
    requires CommandFits(cmd) && (cmd.Delete? || cmd.Read? || cmd.Unlock?)
    ensures DecodeFields(Tag(cmd), Fields(cmd)) == Got(cmd, [])
  {
    NameNumber(cmd.file, cmd.inst);
  }

  lemma CreateRoundTrip(f: string, isDir: bool)
    requires TextFits(f)
    ensures DecodeFields(0, Fields(Create(f, isDir))) == Got(Create(f, isDir), [])
  {
    NameFlag(f, isDir);
  }

  lemma OpenRoundTrip(f: string)
    requires TextFits(f)
    ensures DecodeFields(1, Fields(Open(f))) == Got(Open(f), [])
  {
    OneText(f);
  }

  lemma StatesRoundTrip()
    ensures DecodeFields(7, Fields(States)) == Got(States, [])
  {}

  lemma FieldsRoundTrip(cmd: Cmd)
    requires CommandFits(cmd)
    ensures DecodeFields(Tag(cmd), Fields(cmd)) == Got(cmd, [])
  {
    if cmd.Update? {
      UpdateRoundTrip(cmd.file, cmd.inst, cmd.content);
    } else if cmd.Lock? {
      LockRoundTrip(cmd.file, cmd.inst, cmd.client);
    } else if cmd.Delete? || cmd.Read? || cmd.Unlock? {
      NumberedRoundTrip(cmd);
    } else if cmd.Create? {
      CreateRoundTrip(cmd.file, cmd.isDir);
    } else if cmd.Open? {
      OpenRoundTrip(cmd.file);
    } else {
      StatesRoundTrip();
    }
  }

  /** Decoding undoes encoding, for every command that fits. */
  lemma CommandRoundTrip(cmd: Cmd)
    requires CommandFits(cmd)
    ensures Decode(Encode(cmd)) == Some(cmd)
  {
    Word32Iff(Encode(cmd), Tag(cmd), Fields(cmd));
    FieldsRoundTrip(cmd);
  }

  // ---------------------------------------------------------------- what is accepted

  lemma NameAndNumberIff(s: Words, f: string, inst: nat, rest: Words)
    ensures GetNameAndNumber(s) == Got((f, inst), rest)
       <==> TextFits(f) && inst < WIDE && s == PutText(f) + (Put32(inst) + rest)
  {
    if TextFits(f) && inst < WIDE && s == PutText(f) + (Put32(inst) + rest) {
      NameAndNumber(f, inst, rest);
    }
    if GetNameAndNumber(s) == Got((f, inst), rest) {
      var tail := GetText(s).rest;
      TextIff(s, f, tail);
      Word32Iff(tail, inst, rest);
    }
  }

  lemma NameNumberTextIff(s: Words, f: string, inst: nat, t: string)
    ensures GetNameNumberText(s) == Got((f, inst, t), [])
       <==> TextFits(f) && inst < WIDE && TextFits(t) && s == PutText(f) + (Put32(inst) + PutText(t))
  {
    if TextFits(f) && inst < WIDE && TextFits(t) && s == PutText(f) + (Put32(inst) + PutText(t)) {
      NameNumberText(f, inst, t);
    }
    if GetNameNumberText(s) == Got((f, inst, t), []) {
      var tail := GetNameAndNumber(s).rest;
      NameAndNumberIff(s, f, inst, tail);
      TextIff(tail, t, []);
      assert PutText(t) + [] == PutText(t);
    }
  }

  /** A word that is read as this flag: 0 for false, anything else for true. */
  predicate IsFlag(w: Words, b: bool) {
    |w| == 4 && (b <==> Base256(w) != 0)
  }

  lemma NameAndFlagIff(s: Words, f: string, b: bool)
    ensures GetNameAndFlag(s) == Got((f, b), [])
       <==> TextFits(f) && exists flag: Words :: IsFlag(flag, b) && s == PutText(f) + flag
  {
    if GetNameAndFlag(s) == Got((f, b), []) {
      var tail := GetText(s).rest;
      TextIff(s, f, tail);
      BoolLayout(b, tail);
      assert tail[..4] == tail;
      assert IsFlag(tail, b);
    }
    if TextFits(f) {
      if flag: Words :| IsFlag(flag, b) && s == PutText(f) + flag {
        TextIff(s, f, flag);
        BoolLayout(b, flag);
        assert flag[..4] == flag;
      }
    }
  }

  /** The bytes that carry the fields of a command. */
  ghost predicate CarriesFields(s: Words, cmd: Cmd)
    requires CommandFits(cmd)
  {
    match cmd
    case Create(f, isDir) => exists flag: Words :: IsFlag(flag, isDir) && s == PutText(f) + flag
    case States => |s| == 4
    case _ => s == Fields(cmd)
  }

  lemma NumberedFieldsIff(s: Words, cmd: Cmd)
    requires cmd.Delete? || cmd.Read? || cmd.Unlock?
    ensures DecodeFields(Tag(cmd), s) == Got(cmd, []) <==> CommandFits(cmd) && s == Fields(cmd)
  {
    NameAndNumberIff(s, cmd.file, cmd.inst, []);
    if cmd.inst < WIDE { assert Put32(cmd.inst) + [] == Put32(cmd.inst); }
  }

  lemma UpdateFieldsIff(s: Words, cmd: Cmd)
    requires cmd.Update?
    ensures DecodeFields(Tag(cmd), s) == Got(cmd, []) <==> CommandFits(cmd) && s == Fields(cmd)
  {
    NameNumberTextIff(s, cmd.file, cmd.inst, cmd.content);
  }

  lemma LockFieldsIff(s: Words, cmd: Cmd)
    requires cmd.Lock?
    ensures DecodeFields(Tag(cmd), s) == Got(cmd, []) <==> CommandFits(cmd) && s == Fields(cmd)
  {
    NameNumberTextIff(s, cmd.file, cmd.inst, cmd.client);
  }

  lemma FieldsIff(s: Words, cmd: Cmd)
    ensures DecodeFields(Tag(cmd), s) == Got(cmd, []) <==> CommandFits(cmd) && CarriesFields(s, cmd)
  {
    if cmd.Create? {
      NameAndFlagIff(s, cmd.file, cmd.isDir);
    } else if cmd.Open? {
      TextIff(s, cmd.file, []);
      if TextFits(cmd.file) { assert PutText(cmd.file) + [] == PutText(cmd.file); }
    } else if cmd.Update? {
      UpdateFieldsIff(s, cmd);
    } else if cmd.Lock? {
      LockFieldsIff(s, cmd);
    } else if cmd.Delete? || cmd.Read? || cmd.Unlock? {
      NumberedFieldsIff(s, cmd);
    } else {
      BoolLayout(false, s);
    }
  }

  lemma TagIsOf(tag: nat, s: Words)
    ensures DecodeFields(tag, s).Got? ==> tag == Tag(DecodeFields(tag, s).value)
  {}

  /** What is accepted as a command, in a whole message: its number and its fields and nothing
      after them. Only flags can look different from what is written for the command. */
  lemma CommandIff(s: Words, cmd: Cmd)
    ensures Decode(s) == Some(cmd)
       <==> CommandFits(cmd) && |s| >= 4 && s[..4] == Put32(Tag(cmd)) && CarriesFields(s[4..], cmd)
  {
    FieldsIff(if |s| >= 4 then s[4..] else [], cmd);
    if |s| >= 4 {
      var tag, tail := Get32(s).value, Get32(s).rest;
      Word32Iff(s, tag, tail);
      assert s[..4] == Put32(tag);
      TagIsOf(tag, tail);
      if s[..4] == Put32(Tag(cmd)) {
        assert s == Put32(Tag(cmd)) + s[4..];
        Word32Iff(s, Tag(cmd), s[4..]);
      }
    }
  }

  lemma TagFirst(n: nat, s: Words)
    requires n < WIDE
    ensures var m := Put32(n) + s;
            |m| >= 4 && Base256(m[..4]) == n && m[4..] == s
  {
    WordIsBigEndian(n, [], 0);
    assert (Put32(n) + s)[..4] == Put32(n);
  }

  lemma Grouped(a: Words, b: Words, c: Words)
    ensures a + (b + c) == a + b + c
  {}

  /** The bytes of each command: its number among the operations, then its arguments in the
      order of the call. */
  lemma CommandLayout(cmd: Cmd)
    requires CommandFits(cmd)
    ensures |Encode(cmd)| >= 4
    ensures var number, rest := Base256(Encode(cmd)[..4]), Encode(cmd)[4..];
            && (cmd.Create? ==> number == 0 && rest == PutText(cmd.file) + PutBool(cmd.isDir))
            && (cmd.Open? ==> number == 1 && rest == PutText(cmd.file))
            && (cmd.Delete? ==> number == 2 && rest == PutText(cmd.file) + Put32(cmd.inst))
            && (cmd.Read? ==> number == 3 && rest == PutText(cmd.file) + Put32(cmd.inst))
            && (cmd.Update? ==>
                  number == 4 && rest == PutText(cmd.file) + Put32(cmd.inst) + PutText(cmd.content))
            && (cmd.Lock? ==> number == 5 && rest == PutText(cmd.file) + Put32(cmd.inst) + PutText(cmd.client))
            && (cmd.Unlock? ==> number == 6 && rest == PutText(cmd.file) + Put32(cmd.inst))
            && (cmd.States? ==> number == 7 && rest == PutBool(false))
  {
    TagFirst(Tag(cmd), Fields(cmd));
    if cmd.Update? {
      Grouped(PutText(cmd.file), Put32(cmd.inst), PutText(cmd.content));
    } else if cmd.Lock? {
      Grouped(PutText(cmd.file), Put32(cmd.inst), PutText(cmd.client));
    }
  }

  // ---------------------------------------------------------------- results as bytes

  datatype WireMeta = WireMeta(inst: nat, contentGen: nat, lockGen: nat, checksum: nat, isDir: bool)

  /** FlagResult is the result of the four operations that only succeed or fail. */
  datatype Result =
    | NumberResult(tag: nat, inst: nat, success: bool)
    | FlagResult(tag: nat, success: bool)
    | ReadResult(content: string, meta: WireMeta, success: bool)
    | StatesResult(rows: seq<(string, string)>)

  predicate MetaFits(m: WireMeta) {
    m.inst < WIDE * WIDE && m.contentGen < WIDE * WIDE && m.lockGen < WIDE * WIDE && m.checksum < WIDE * WIDE
  }

  predicate RowsFit(rows: seq<(string, string)>) {
    forall p :: p in rows ==> TextFits(p.0) && TextFits(p.1)
  }

  predicate ResultFits(r: Result) {
    match r
    case NumberResult(tag, inst, _) => tag < 2 && inst < WIDE
    case FlagResult(tag, _) => tag == 2 || 4 <= tag <= 6
    case ReadResult(content, meta, _) => TextFits(content) && MetaFits(meta)
    case StatesResult(rows) => |rows| <= MAX_LEN && RowsFit(rows)
  }

  function PutMeta(m: WireMeta): Words
    requires MetaFits(m)
  {
    Put64(m.inst) + (Put64(m.contentGen) + (Put64(m.lockGen) + (Put64(m.checksum) + PutBool(m.isDir))))
  }

  function GetMeta(s: Words): Parsed<WireMeta> {
    match Get64(s)
    case Bad => Bad
    case Got(inst, s1) =>
      match Get64(s1)
      case Bad => Bad
      case Got(contentGen, s2) =>
        match Get64(s2)
        case Bad => Bad
        case Got(lockGen, s3) =>
          match Get64(s3)
          case Bad => Bad
          case Got(checksum, s4) =>
            match GetBool(s4)
            case Bad => Bad
            case Got(isDir, rest) => Got(WireMeta(inst, contentGen, lockGen, checksum, isDir), rest)
  }

  lemma MetaRoundTrip(m: WireMeta, rest: Words)
    requires MetaFits(m)
    ensures GetMeta(PutMeta(m) + rest) == Got(m, rest)
  {
    var s4 := PutBool(m.isDir) + rest;
    var s3 := Put64(m.checksum) + s4;
    var s2 := Put64(m.lockGen) + s3;
    var s1 := Put64(m.contentGen) + s2;
    assert PutMeta(m) + rest == Put64(m.inst) + s1;
    Word64Iff(Put64(m.inst) + s1, m.inst, s1);
    Word64Iff(s1, m.contentGen, s2);
    Word64Iff(s2, m.lockGen, s3);
    Word64Iff(s3, m.checksum, s4);
    BoolRoundTrip(m.isDir, rest);
  }

  function PutRows(rows: seq<(string, string)>): Words
    requires RowsFit(rows)
  {
    if rows == [] then []
    else
      assert rows[0] in rows;
      PutText(rows[0].0) + (PutText(rows[0].1) + PutRows(rows[1..]))
  }

  function GetRow(s: Words): Parsed<(string, string)> {
    match GetText(s)
    case Bad => Bad
    case Got(key, s1) =>
      match GetText(s1)
      case Bad => Bad
      case Got(value, s2) => Got((key, value), s2)
  }

  function GetRows(n: nat, s: Words): Parsed<seq<(string, string)>> {
    if n == 0 then Got([], s)
    else
      match GetRow(s)
      case Bad => Bad
      case Got(row, tail) =>
        match GetRows(n - 1, tail)
        case Bad => Bad
        case Got(rows, rest) => Got([row] + rows, rest)
  }

  lemma RowRoundTrip(key: string, value: string, rest: Words)
    requires TextFits(key) && TextFits(value)
    ensures GetRow(PutText(key) + (PutText(value) + rest)) == Got((key, value), rest)
  {
    TextRoundTrip(key, PutText(value) + rest);
    TextRoundTrip(value, rest);
  }

  lemma {:induction false} RowsRoundTrip(rows: seq<(string, string)>)
    requires RowsFit(rows)
    ensures GetRows(|rows|, PutRows(rows)) == Got(rows, [])
  {
    if rows != [] {
      assert rows[0] in rows;
      RowRoundTrip(rows[0].0, rows[0].1, PutRows(rows[1..]));
      RowsRoundTrip(rows[1..]);
      assert [(rows[0].0, rows[0].1)] + rows[1..] == rows;
    }
  }

  function ResultTag(r: Result): nat {
    match r
    case NumberResult(tag, _, _) => tag
    case FlagResult(tag, _) => tag
    case ReadResult(_, _, _) => 3
    case StatesResult(_) => 7
  }

  function ResultFields(r: Result): Words
    requires ResultFits(r)
  {
    match r
    case NumberResult(_, inst, success) => Put32(inst) + PutBool(success)
    case FlagResult(_, success) => PutBool(success)
    case ReadResult(content, meta, success) => PutText(content) + (PutMeta(meta) + PutBool(success))
    case StatesResult(rows) => Put32(|rows|) + PutRows(rows)
  }

  function EncodeResult(r: Result): Words
    requires ResultFits(r)
  {
    Put32(ResultTag(r)) + ResultFields(r)
  }

  function GetNumberResult(tag: nat, s: Words): Parsed<Result> {
    match Get32(s)
    case Bad => Bad
    case Got(inst, tail) =>
      match GetBool(tail)
      case Bad => Bad
      case Got(success, rest) => Got(NumberResult(tag, inst, success), rest)
  }

  function GetFlagResult(tag: nat, s: Words): Parsed<Result> {
    match GetBool(s)
    case Bad => Bad
    case Got(success, rest) => Got(FlagResult(tag, success), rest)
  }

  function GetReadResult(s: Words): Parsed<Result> {
    match GetText(s)
    case Bad => Bad
    case Got(content, s1) =>
      match GetMeta(s1)
      case Bad => Bad
      case Got(meta, s2) =>
        match GetBool(s2)
        case Bad => Bad
        case Got(success, rest) => Got(ReadResult(content, meta, success), rest)
  }

  function GetStatesResult(s: Words): Parsed<Result> {
    match Get32(s)
    case Bad => Bad
    case Got(n, tail) =>
      if n > MAX_LEN then Bad
      else
        match GetRows(n, tail)
        case Bad => Bad
        case Got(rows, rest) => Got(StatesResult(rows), rest)
  }

  function GetResult(tag: nat, s: Words): Parsed<Result> {
    if tag < 2 then GetNumberResult(tag, s)
    else if tag == 2 || 4 <= tag <= 6 then GetFlagResult(tag, s)
    else if tag == 3 then GetReadResult(s)
    else if tag == 7 then GetStatesResult(s)
    else Bad
  }

  function DecodeResult(s: Words): Option<Result> {
    match Get32(s)
    case Bad => None
    case Got(tag, tail) =>
      match GetResult(tag, tail)
      case Bad => None
      case Got(r, rest) => if rest == [] then Some(r) else None
  }

  lemma NumberResultRoundTrip(r: Result)
    requires ResultFits(r) && r.NumberResult?
    ensures GetNumberResult(r.tag, ResultFields(r)) == Got(r, [])
  {
    Word32Iff(ResultFields(r), r.inst, PutBool(r.success));
    OneFlag(r.success);
  }

  lemma ReadResultRoundTrip(r: Result)
    requires ResultFits(r) && r.ReadResult?
    ensures GetReadResult(ResultFields(r)) == Got(r, [])
  {
    TextRoundTrip(r.content, PutMeta(r.meta) + PutBool(r.success));
    MetaRoundTrip(r.meta, PutBool(r.success));
    OneFlag(r.success);
  }

  lemma StatesResultRoundTrip(r: Result)
    requires ResultFits(r) && r.StatesResult?
    ensures GetStatesResult(ResultFields(r)) == Got(r, [])
  {
    Word32Iff(ResultFields(r), |r.rows|, PutRows(r.rows));
    RowsRoundTrip(r.rows);
  }

  /** Decoding undoes encoding, for every result that fits. */
  lemma ResultRoundTrip(r: Result)
    requires ResultFits(r)
    ensures DecodeResult(EncodeResult(r)) == Some(r)
  {
    Word32Iff(EncodeResult(r), ResultTag(r), ResultFields(r));
    if r.NumberResult? {
      NumberResultRoundTrip(r);
    } else if r.FlagResult? {
      OneFlag(r.success);
    } else if r.ReadResult? {
      ReadResultRoundTrip(r);
    } else {
      StatesResultRoundTrip(r);
    }
  }

  /** The bytes of metadata: four words of 64 bits and a flag. */
  lemma MetaLayout(m: WireMeta)
    requires MetaFits(m)
    ensures var s := PutMeta(m);
            && |s| == 36
            && Base256(s[..8]) == m.inst && Base256(s[8..16]) == m.contentGen
            && Base256(s[16..24]) == m.lockGen && Base256(s[24..32]) == m.checksum
            && Base256(s[32..]) == if m.isDir then 1 else 0
  {
    var s := PutMeta(m);
    LongIsBigEndian(m.inst, [], 0);
    LongIsBigEndian(m.contentGen, [], 0);
    LongIsBigEndian(m.lockGen, [], 0);
    LongIsBigEndian(m.checksum, [], 0);
    BoolLayout(m.isDir, []);
    assert s[..8] == Put64(m.inst) && s[8..16] == Put64(m.contentGen);
    assert s[16..24] == Put64(m.lockGen) && s[24..32] == Put64(m.checksum) && s[32..] == PutBool(m.isDir);
  }

  lemma OneRow(rows: seq<(string, string)>)
    requires |rows| == 1 && RowsFit(rows)
    ensures rows[0] in rows && PutRows(rows) == PutText(rows[0].0) + PutText(rows[0].1)
  {
    assert PutRows(rows[1..]) == [];
  }

  lemma FirstRow(rows: seq<(string, string)>)
    requires rows != [] && RowsFit(rows)
    ensures rows[0] in rows && RowsFit(rows[1..])
    ensures PutRows(rows) == PutText(rows[0].0) + PutText(rows[0].1) + PutRows(rows[1..])
  {
    Grouped(PutText(rows[0].0), PutText(rows[0].1), PutRows(rows[1..]));
  }

  /** The pairs of a listing follow each other, each with its name first. */
  lemma {:induction false} RowsLayout(rows: seq<(string, string)>, row: (string, string))
    requires RowsFit(rows) && TextFits(row.0) && TextFits(row.1)
    ensures RowsFit(rows + [row]) && PutRows(rows + [row]) == PutRows(rows) + (PutText(row.0) + PutText(row.1))
  {
    var all := rows + [row];
    assert RowsFit(all);
    if rows == [] {
      assert all == [row];
      OneRow(all);
    } else {
      assert all[1..] == rows[1..] + [row] && all[0] == rows[0];
      FirstRow(rows);
      FirstRow(all);
      RowsLayout(rows[1..], row);
    }
  }

  /** The bytes of each result: the number of the operation, then what it delivers, with the
      success flag last. */
  lemma ResultLayout(r: Result)
    requires ResultFits(r)
    ensures |EncodeResult(r)| >= 4
    ensures var number, rest := Base256(EncodeResult(r)[..4]), EncodeResult(r)[4..];
            && (r.NumberResult? ==> number == r.tag && rest == Put32(r.inst) + PutBool(r.success))
            && (r.FlagResult? ==> number == r.tag && rest == PutBool(r.success))
            && (r.ReadResult? ==> number == 3 && rest == PutText(r.content) + PutMeta(r.meta) + PutBool(r.success))
            && (r.StatesResult? ==> number == 7 && rest == Put32(|r.rows|) + PutRows(r.rows))
  {
    TagFirst(ResultTag(r), ResultFields(r));
    if r.ReadResult? {
      Grouped(PutText(r.content), PutMeta(r.meta), PutBool(r.success));
    }
  }

  // ---------------------------------------------------------------- which results are accepted

  /** The four numbers of metadata. */
  function PutNumbers(m: WireMeta): Words
    requires MetaFits(m)
  {
    Put64(m.inst) + Put64(m.contentGen) + Put64(m.lockGen) + Put64(m.checksum)
  }

  lemma NumbersFirst(m: WireMeta, tail: Words)
    requires MetaFits(m)
    ensures Put64(m.inst) + (Put64(m.contentGen) + (Put64(m.lockGen) + (Put64(m.checksum) + tail)))
         == PutNumbers(m) + tail
  {}

  lemma FlagIff(s: Words, b: bool, rest: Words)
    ensures GetBool(s) == Got(b, rest) <==> exists w: Words :: IsFlag(w, b) && s == w + rest
  {
    BoolLayout(b, s);
    if GetBool(s) == Got(b, rest) {
      assert IsFlag(s[..4], b) && s == s[..4] + rest;
    }
    if w: Words :| IsFlag(w, b) && s == w + rest {
      assert s[..4] == w && s[4..] == rest;
    }
  }

  lemma LoneFlag(w: Words, b: bool)
    requires IsFlag(w, b)
    ensures GetBool(w) == Got(b, [])
  {
    assert w + [] == w;
    FlagIff(w, b, []);
  }

  lemma MetaReads(s: Words, m: WireMeta, rest: Words)
    requires GetMeta(s) == Got(m, rest)
    ensures MetaFits(m) && exists w: Words :: IsFlag(w, m.isDir) && s == PutNumbers(m) + (w + rest)
  {
    var s1 := Get64(s).rest;
    var s2 := Get64(s1).rest;
    var s3 := Get64(s2).rest;
    var s4 := Get64(s3).rest;
    Word64Iff(s, m.inst, s1);
    Word64Iff(s1, m.contentGen, s2);
    Word64Iff(s2, m.lockGen, s3);
    Word64Iff(s3, m.checksum, s4);
    FlagIff(s4, m.isDir, rest);
    NumbersFirst(m, s4);
  }

  lemma MetaRead(m: WireMeta, w: Words, rest: Words)
    requires MetaFits(m) && IsFlag(w, m.isDir)
    ensures GetMeta(PutNumbers(m) + (w + rest)) == Got(m, rest)
  {
    var s4 := w + rest;
    var s3 := Put64(m.checksum) + s4;
    var s2 := Put64(m.lockGen) + s3;
    var s1 := Put64(m.contentGen) + s2;
    NumbersFirst(m, s4);
    Word64Iff(Put64(m.inst) + s1, m.inst, s1);
    Word64Iff(s1, m.contentGen, s2);
    Word64Iff(s2, m.lockGen, s3);
    Word64Iff(s3, m.checksum, s4);
    FlagIff(s4, m.isDir, rest);
  }

  lemma RowIff(s: Words, row: (string, string), rest: Words)
    ensures GetRow(s) == Got(row, rest)
       <==> TextFits(row.0) && TextFits(row.1) && s == PutText(row.0) + PutText(row.1) + rest
  {
    if TextFits(row.0) && TextFits(row.1) && s == PutText(row.0) + PutText(row.1) + rest {
      Grouped(PutText(row.0), PutText(row.1), rest);
      RowRoundTrip(row.0, row.1, rest);
    }
    if GetRow(s) == Got(row, rest) {
      TextIff(s, row.0, GetText(s).rest);
      TextIff(GetText(s).rest, row.1, rest);
      Grouped(PutText(row.0), PutText(row.1), rest);
    }
  }

  /** What the reading of n rows takes is what is written for the rows. */
  ghost predicate RowsTaken(n: nat, s: Words, rows: seq<(string, string)>, rest: Words) {
    |rows| == n && RowsFit(rows) && s == PutRows(rows) + rest
  }

  lemma NoRowsTaken(s: Words)
    ensures GetRows(0, s) == Got([], s) && RowsTaken(0, s, [], s)
  {
    assert PutRows([]) + s == s;
  }

  lemma OneMoreRow(n: nat, s: Words, row: (string, string), tail: Words, rows: seq<(string, string)>, rest: Words)
    requires TextFits(row.0) && TextFits(row.1) && s == PutText(row.0) + PutText(row.1) + tail
    requires RowsTaken(n, tail, rows, rest)
    ensures RowsTaken(n + 1, s, [row] + rows, rest)
  {
    var all := [row] + rows;
    assert all[1..] == rows && all[0] == row;
    FirstRow(all);
    Grouped(PutText(row.0) + PutText(row.1), PutRows(rows), rest);
  }

  lemma {:induction false} RowsReads(n: nat, s: Words, rows: seq<(string, string)>, rest: Words)
    requires GetRows(n, s) == Got(rows, rest)
    ensures RowsTaken(n, s, rows, rest)
    decreases n
  {
    if n == 0 {
      NoRowsTaken(s);
    } else {
      var row, tail := GetRow(s).value, GetRow(s).rest;
      var next := GetRows(n - 1, tail);
      RowsReads(n - 1, tail, next.value, next.rest);
      RowIff(s, row, tail);
      OneMoreRow(n - 1, s, row, tail, next.value, next.rest);
    }
  }

  /** The bytes that carry the fields of a result. */
  ghost predicate CarriesResult(s: Words, r: Result)
    requires ResultFits(r)
  {
    match r
    case NumberResult(_, inst, success) => exists w: Words :: IsFlag(w, success) && s == Put32(inst) + w
    case FlagResult(_, success) => IsFlag(s, success)
    case ReadResult(content, meta, success) =>
      exists d: Words, w: Words :: IsFlag(d, meta.isDir) && IsFlag(w, success)
                                   && s == PutText(content) + (PutNumbers(meta) + (d + w))
    case StatesResult(rows) => s == Put32(|rows|) + PutRows(rows)
  }

  lemma NumberResultIff(s: Words, r: Result)
    requires r.NumberResult? && r.tag < 2
    ensures GetResult(r.tag, s) == Got(r, []) <==> ResultFits(r) && CarriesResult(s, r)
  {
    if GetResult(r.tag, s) == Got(r, []) {
      var tail := Get32(s).rest;
      Word32Iff(s, r.inst, tail);
      FlagIff(tail, r.success, []);
      var w: Words :| IsFlag(w, r.success) && tail == w + [];
      assert w + [] == w;
    }
    if ResultFits(r) {
      if w: Words :| IsFlag(w, r.success) && s == Put32(r.inst) + w {
        Word32Iff(s, r.inst, w);
        LoneFlag(w, r.success);
      }
    }
  }

  lemma FlagResultIff(s: Words, r: Result)
    requires r.FlagResult? && (r.tag == 2 || 4 <= r.tag <= 6)
    ensures GetResult(r.tag, s) == Got(r, []) <==> CarriesResult(s, r)
  {
    FlagIff(s, r.success, []);
    assert forall w: Words :: w + [] == w;
  }

  lemma ReadResultReads(s: Words, r: Result)
    requires r.ReadResult? && GetReadResult(s) == Got(r, [])
    ensures ResultFits(r) && CarriesResult(s, r)
  {
    var s1 := GetText(s).rest;
    var s2 := GetMeta(s1).rest;
    TextIff(s, r.content, s1);
    MetaReads(s1, r.meta, s2);
    FlagIff(s2, r.success, []);
    var d: Words :| IsFlag(d, r.meta.isDir) && s1 == PutNumbers(r.meta) + (d + s2);
    var w: Words :| IsFlag(w, r.success) && s2 == w + [];
    assert w + [] == w;
  }

  lemma ThreeParts(s: Words, s1: Words, s2: Words, content: string, meta: WireMeta, success: bool)
    requires GetText(s) == Got(content, s1) && GetMeta(s1) == Got(meta, s2) && GetBool(s2) == Got(success, [])
    ensures GetReadResult(s) == Got(ReadResult(content, meta, success), [])
  {}

  lemma ReadResultRead(s: Words, content: string, meta: WireMeta, success: bool, d: Words, w: Words)
    requires TextFits(content) && MetaFits(meta) && IsFlag(d, meta.isDir) && IsFlag(w, success)
    requires s == PutText(content) + (PutNumbers(meta) + (d + w))
    ensures GetReadResult(s) == Got(ReadResult(content, meta, success), [])
  {
    var s1 := PutNumbers(meta) + (d + w);
    TextIff(s, content, s1);
    MetaRead(meta, d, w);
    LoneFlag(w, success);
    ThreeParts(s, s1, w, content, meta, success);
  }

  lemma StatesResultIff(s: Words, r: Result)
    requires r.StatesResult?
    ensures GetStatesResult(s) == Got(r, []) <==> ResultFits(r) && CarriesResult(s, r)
  {
    if GetStatesResult(s) == Got(r, []) {
      var n, tail := Get32(s).value, Get32(s).rest;
      RowsReads(n, tail, r.rows, []);
      Word32Iff(s, n, tail);
      assert PutRows(r.rows) + [] == PutRows(r.rows);
    }
    if ResultFits(r) && CarriesResult(s, r) {
      StatesResultRoundTrip(r);
    }
  }

  lemma ResultFieldsIff(s: Words, r: Result)
    ensures GetResult(ResultTag(r), s) == Got(r, []) <==> ResultFits(r) && CarriesResult(s, r)
  {
    match r
    case NumberResult(tag, _, _) => if tag < 2 { NumberResultIff(s, r); }
    case FlagResult(tag, _) => if tag == 2 || 4 <= tag <= 6 { FlagResultIff(s, r); }
    case ReadResult(_, _, _) =>
      if GetReadResult(s) == Got(r, []) { ReadResultReads(s, r); }
      if ResultFits(r) {
        if d: Words, w: Words :| IsFlag(d, r.meta.isDir) && IsFlag(w, r.success)
                                 && s == PutText(r.content) + (PutNumbers(r.meta) + (d + w)) {
          ReadResultRead(s, r.content, r.meta, r.success, d, w);
        }
      }
    case StatesResult(_) => StatesResultIff(s, r);
  }

  lemma ResultTagIsOf(tag: nat, s: Words)
    ensures GetResult(tag, s).Got? ==> tag == ResultTag(GetResult(tag, s).value)
  {}

  lemma ResultReads(s: Words, r: Result)
    requires DecodeResult(s) == Some(r)
    ensures ResultFits(r) && |s| >= 4 && s[..4] == Put32(ResultTag(r)) && CarriesResult(s[4..], r)
  {
    var tag, tail := Get32(s).value, Get32(s).rest;
    Word32Iff(s, tag, tail);
    assert s[..4] == Put32(tag) && s[4..] == tail;
    ResultTagIsOf(tag, tail);
    assert GetResult(tag, tail) == Got(r, []);
    ResultFieldsIff(tail, r);
  }

  lemma ResultRead(s: Words, r: Result)
    requires ResultFits(r) && |s| >= 4 && s[..4] == Put32(ResultTag(r)) && CarriesResult(s[4..], r)
    ensures DecodeResult(s) == Some(r)
  {
    var tail := s[4..];
    assert s == Put32(ResultTag(r)) + tail;
    Word32Iff(s, ResultTag(r), tail);
    assert GetResult(ResultTag(r), tail) == Got(r, []) by { ResultFieldsIff(tail, r); }
  }

  /** What is accepted as a result, in a whole message: its number and its fields and nothing
      after them. Only flags can look different from what is written for the result. */
  lemma ResultIff(s: Words, r: Result)
    ensures DecodeResult(s) == Some(r)
       <==> ResultFits(r) && |s| >= 4 && s[..4] == Put32(ResultTag(r)) && CarriesResult(s[4..], r)
  {
    if DecodeResult(s) == Some(r) {
      ResultReads(s, r);
    } else if ResultFits(r) && |s| >= 4 && s[..4] == Put32(ResultTag(r)) {
      if CarriesResult(s[4..], r) {
        ResultRead(s, r);
      }
    }
  }
}
