/**
 The byte form of messages: big-endian words, flags, and byte strings padded with zeros to
 a multiple of four, as sections 4.1, 4.4, 4.5, 4.10 and 4.11 of RFC 4506 lay out.

 Readers work on what is left of a message. Every writer produces whole words, and every
 reader leaves whole words when it is given whole words.
 */
module Wire {
  import opened Numbers

  newtype byte = x: int | 0 <= x < 256

  type Words = seq<byte>

  const WIDE := 0x1_0000_0000
  const MAX_LEN := 0xFFFF_FFFC
  const MAX_MESSAGE := 0x8000_0000

  datatype Parsed<T> = Bad | Got(value: T, rest: Words)

  // ---------------------------------------------------------------- words

  function Put32(n: nat): (s: Words)
    requires n < WIDE
    ensures |s| == 4
  {
    [(n / 0x100 / 0x100 / 0x100) as byte, (n / 0x100 / 0x100 % 0x100) as byte, (n / 0x100 % 0x100) as byte,
     (n % 0x100) as byte]
  }

  function Value32(s: seq<byte>): (n: nat)
    requires |s| >= 4
    ensures n < WIDE
  {
    ((s[0] as nat * 0x100 + s[1] as nat) * 0x100 + s[2] as nat) * 0x100 + s[3] as nat
  }

  function Get32(s: Words): Parsed<nat> {
    if |s| < 4 then Bad else Got(Value32(s), s[4..])
  }

  lemma LastDigit(q: nat, r: nat)
    requires r < 0x100
    ensures (q * 0x100 + r) / 0x100 == q && (q * 0x100 + r) % 0x100 == r
  {}

  lemma SplitWord(s: seq<byte>)
    requires |s| >= 4
    ensures Put32(Value32(s)) == s[..4]
  {
    var a, b, c, d := s[0] as nat, s[1] as nat, s[2] as nat, s[3] as nat;
    LastDigit((a * 0x100 + b) * 0x100 + c, d);
    LastDigit(a * 0x100 + b, c);
    LastDigit(a, b);
  }

  lemma JoinWord(n: nat, rest: Words)
    requires n < WIDE
    ensures Value32(Put32(n) + rest) == n
  {}

  /** Reading a word gives n exactly when the word is the one written for n. */
  lemma Word32Iff(s: Words, n: nat, rest: Words)
    ensures Get32(s) == Got(n, rest) <==> n < WIDE && s == Put32(n) + rest
  {
    if n < WIDE && s == Put32(n) + rest {
      JoinWord(n, rest);
      assert s[4..] == rest;
    }
    if |s| >= 4 {
      SplitWord(s);
      assert s == s[..4] + s[4..];
    }
  }

  function Put64(n: nat): (s: Words)
    requires n < WIDE * WIDE
    ensures |s| == 8
  {
    Put32(n / WIDE) + Put32(n % WIDE)
  }

  function Get64(s: Words): Parsed<nat> {
    match Get32(s)
    case Bad => Bad
    case Got(high, tail) =>
      match Get32(tail)
      case Bad => Bad
      case Got(low, rest) => Got(high * WIDE + low, rest)
  }

  lemma Word64Iff(s: Words, n: nat, rest: Words)
    ensures Get64(s) == Got(n, rest) <==> n < WIDE * WIDE && s == Put64(n) + rest
  {
    if n < WIDE * WIDE && s == Put64(n) + rest {
      assert s == Put32(n / WIDE) + (Put32(n % WIDE) + rest);
      Word32Iff(s, n / WIDE, Put32(n % WIDE) + rest);
      Word32Iff(Put32(n % WIDE) + rest, n % WIDE, rest);
    }
    if Get64(s) == Got(n, rest) {
      var high, tail := Get32(s).value, Get32(s).rest;
      var low := Get32(tail).value;
      Word32Iff(s, high, tail);
      Word32Iff(tail, low, rest);
      assert n / WIDE == high && n % WIDE == low;
      assert s == Put64(n) + rest;
    }
  }

  /** The value of the bytes read as digits to the base 256, the first byte the highest. */
  function Base256(s: seq<byte>): nat {
    if s == [] then 0 else 0x100 * Base256(s[..|s| - 1]) + s[|s| - 1] as nat
  }

  /** The digit of any place, counted from the highest, and the value is below the next power. */
  lemma {:induction false} DigitOf(s: seq<byte>, k: nat)
    requires k < |s|
    ensures s[k] as nat == Base256(s) / Power(0x100, |s| - 1 - k) % 0x100
    decreases |s|
  {
    var front, last := s[..|s| - 1], s[|s| - 1] as nat;
    LastDigit(Base256(front), last);
    if k < |s| - 1 {
      DigitOf(front, k);
      DivTwice(Base256(s), 0x100, Power(0x100, |front| - 1 - k));
    }
  }

  lemma FourBytes(s: seq<byte>)
    requires |s| == 4
    ensures Base256(s) == Value32(s)
  {
    assert s[..3][..2] == s[..2] && s[..2][..1] == s[..1];
    assert Base256(s[..1]) == s[0] as nat;
    assert Base256(s[..2]) == 0x100 * Base256(s[..1]) + s[1] as nat;
    assert Base256(s[..3]) == 0x100 * Base256(s[..2]) + s[2] as nat;
  }

  /** A word is its number to the base 256 with the highest byte first; the number a word is
      read as is the value of its first four bytes. */
  lemma WordIsBigEndian(n: nat, s: Words, k: nat)
    requires n < WIDE && k < 4
    ensures Base256(Put32(n)) == n && Put32(n)[k] as nat == n / Power(0x100, 3 - k) % 0x100
    ensures |s| >= 4 ==> Get32(s) == Got(Base256(s[..4]), s[4..])
  {
    JoinWord(n, []);
    assert Put32(n) + [] == Put32(n);
    FourBytes(Put32(n));
    DigitOf(Put32(n), k);
    if |s| >= 4 {
      FourBytes(s[..4]);
    }
  }

  lemma {:induction false} Base256Concat(a: seq<byte>, b: seq<byte>)
    ensures Base256(a + b) == Base256(a) * Power(0x100, |b|) + Base256(b)
    decreases |b|
  {
    if b == [] {
      assert a + b == a;
    } else {
      assert (a + b)[..|a + b| - 1] == a + b[..|b| - 1];
      Base256Concat(a, b[..|b| - 1]);
      Regroup(Base256(a), Power(0x100, |b| - 1));
    }
  }

  lemma Regroup(v: nat, p: nat)
    ensures 0x100 * (v * p) == v * (0x100 * p)
  {}

  lemma FourthPower()
    ensures Power(0x100, 4) == WIDE
  {
    assert Power(0x100, 2) == 0x1_0000;
  }

  /** And so is a word of 64 bits. */
  lemma LongIsBigEndian(n: nat, s: Words, k: nat)
    requires n < WIDE * WIDE && k < 8
    ensures Base256(Put64(n)) == n && Put64(n)[k] as nat == n / Power(0x100, 7 - k) % 0x100
    ensures |s| >= 8 ==> Get64(s) == Got(Base256(s[..8]), s[8..])
  {
    FourthPower();
    WordIsBigEndian(n / WIDE, s, 0);
    WordIsBigEndian(n % WIDE, if |s| >= 4 then s[4..] else s, 0);
    Base256Concat(Put32(n / WIDE), Put32(n % WIDE));
    DigitOf(Put64(n), k);
    if |s| >= 8 {
      Base256Concat(s[..4], s[4..][..4]);
      assert s[..4] + s[4..][..4] == s[..8] && s[4..][4..] == s[8..];
    }
  }

  function PutBool(b: bool): Words {
    Put32(if b then 1 else 0)
  }

  /** Any word but zero reads as true. */
  function GetBool(s: Words): Parsed<bool> {
    match Get32(s)
    case Bad => Bad
    case Got(n, rest) => Got(n != 0, rest)
  }

  lemma BoolRoundTrip(b: bool, rest: Words)
    ensures GetBool(PutBool(b) + rest) == Got(b, rest)
  {}

  /** Flags are the one place where input can be accepted and come out different. */
  lemma BoolIsCanonicalIff(s: Words)
    requires |s| >= 4
    ensures s == PutBool(GetBool(s).value) + GetBool(s).rest <==> Value32(s) <= 1
  {}

  // ---------------------------------------------------------------- padded bytes

  function Pad(len: nat): (k: nat)
    ensures k < 4 && (len + k) % 4 == 0
  {
    (4 - len % 4) % 4
  }

  lemma PadFits(total: nat, len: nat)
    requires total % 4 == 0 && len <= total
    ensures len + Pad(len) <= total && (total - len - Pad(len)) % 4 == 0
  {}

  function Zeros(k: nat): (s: seq<byte>)
    ensures |s| == k
  {
    seq(k, _ => 0)
  }

  function Padded(data: seq<byte>): (s: Words)
    ensures |s| == |data| + Pad(|data|) && |s| % 4 == 0
  {
    data + Zeros(Pad(|data|))
  }

  /** Copies the bytes and pads up to the next multiple of four. */
  method PutBytes(buf: array<byte>, p: nat, data: seq<byte>) returns (q: nat)
    requires p + |data| + Pad(|data|) <= buf.Length
    modifies buf
    ensures q == p + |Padded(data)|
    ensures buf[..p] == old(buf[..p]) && buf[p..q] == Padded(data) && buf[q..] == old(buf[q..])
  {
    forall i | 0 <= i < |data| {
      buf[p + i] := data[i];
    }
    q := p + |data|;
    var len := |data|;
    while len % 4 != 0
      invariant |data| <= len <= |data| + Pad(|data|) && q == p + len
      invariant buf[..p] == old(buf[..p])
      invariant forall i :: 0 <= i < |data| ==> buf[p + i] == data[i]
      invariant forall i :: p + |data| <= i < q ==> buf[i] == 0
      invariant forall i :: q <= i < buf.Length ==> buf[i] == old(buf[i])
      decreases |data| + Pad(|data|) - len
    {
      len := len + 1;
      buf[q] := 0;
      q := q + 1;
    }
    assert len == |data| + Pad(|data|);
    assert buf[p..q] == Padded(data);
  }

  predicate AllZero(s: seq<byte>) {
    forall i :: 0 <= i < |s| ==> s[i] == 0
  }

  /** Takes the bytes and checks the padding; ok is false when a padding byte is not zero. */
  method GetBytes(buf: array<byte>, p: nat, len: nat) returns (ok: bool, data: seq<byte>, q: nat)
    requires p + len + Pad(len) <= buf.Length
    ensures data == buf[p..p + len]
    ensures ok <==> buf[p..p + len + Pad(len)] == Padded(data)
    ensures ok ==> q == p + len + Pad(len)
  {
    data := buf[p..p + len];
    q := p + len;
    var n := len;
    while n % 4 != 0
      invariant len <= n <= len + Pad(len) && q == p + n
      invariant AllZero(buf[p + len..q])
      decreases len + Pad(len) - n
    {
      n := n + 1;
      if buf[q] != 0 {
        assert buf[p..p + len + Pad(len)][q - p] != Padded(data)[q - p];
        return false, data, q;
      }
      q := q + 1;
    }
    assert n == len + Pad(len);
    assert buf[p..q] == data + buf[p + len..q];
    assert buf[p + len..q] == Zeros(Pad(len));
    ok := true;
  }

  function PutOpaque(data: seq<byte>): (s: Words)
    requires |data| <= MAX_LEN
    ensures |s| % 4 == 0
  {
    Put32(|data|) + Padded(data)
  }

  /** A length and that many padded bytes. The program checks the length against what is left
      without the padding; PaddingIsThere shows that this is enough. */
  function GetOpaque(s: Words): Parsed<seq<byte>> {
    match Get32(s)
    case Bad => Bad
    case Got(len, tail) =>
      if len + Pad(len) > |tail| || len > MAX_LEN then Bad
      else if !AllZero(tail[len..len + Pad(len)]) then Bad
      else Got(tail[..len], tail[len + Pad(len)..])
  }

  /** When whole words are left, bytes that are there have their padding there too, and what
      follows them is again whole words. */
  lemma PaddingIsThere(s: Words)
    requires |s| % 4 == 0
    ensures Get32(s).Got? && Get32(s).value <= |Get32(s).rest| ==>
              Get32(s).value + Pad(Get32(s).value) <= |Get32(s).rest|
    ensures GetOpaque(s).Got? ==> |GetOpaque(s).rest| % 4 == 0
  {
    if |s| >= 4 && Get32(s).value <= |Get32(s).rest| {
      PadFits(|Get32(s).rest|, Get32(s).value);
    }
  }

  lemma ReadBack(data: seq<byte>, rest: Words)
    requires |data| <= MAX_LEN
    ensures GetOpaque(PutOpaque(data) + rest) == Got(data, rest)
  {
    var tail := Padded(data) + rest;
    assert PutOpaque(data) + rest == Put32(|data|) + tail;
    Word32Iff(PutOpaque(data) + rest, |data|, tail);
    assert tail[..|data|] == data && tail[|data| + Pad(|data|)..] == rest;
    assert tail[|data|..|data| + Pad(|data|)] == Zeros(Pad(|data|));
  }

  lemma PaddedParts(tail: Words, len: nat)
    requires len + Pad(len) <= |tail| && AllZero(tail[len..len + Pad(len)])
    ensures tail == Padded(tail[..len]) + tail[len + Pad(len)..]
  {
    assert tail[len..len + Pad(len)] == Zeros(Pad(len));
    assert tail == tail[..len] + tail[len..len + Pad(len)] + tail[len + Pad(len)..];
  }

  /** A byte string is read exactly from the bytes that are written for it: what is accepted
      comes out the same when written again. */
  lemma OpaqueIff(s: Words, data: seq<byte>, rest: Words)
    ensures GetOpaque(s) == Got(data, rest) <==> |data| <= MAX_LEN && s == PutOpaque(data) + rest
  {
    if |data| <= MAX_LEN && s == PutOpaque(data) + rest {
      ReadBack(data, rest);
    }
    if GetOpaque(s) == Got(data, rest) {
      var len, tail := Get32(s).value, Get32(s).rest;
      Word32Iff(s, len, tail);
      PaddedParts(tail, len);
      assert s == Put32(len) + (Padded(data) + rest);
    }
  }

  /** The bytes of a byte string in a message: its length, the bytes, and as few zeros as make
      whole words. */
  lemma OpaqueLayout(data: seq<byte>)
    requires |data| <= MAX_LEN
    ensures var s := PutOpaque(data);
            && 4 + |data| <= |s| < 4 + |data| + 4 && |s| % 4 == 0
            && Base256(s[..4]) == |data| && s[4..4 + |data|] == data
            && forall i :: 4 + |data| <= i < |s| ==> s[i] == 0
  {
    var s := PutOpaque(data);
    WordIsBigEndian(|data|, [], 0);
    assert s[..4] == Put32(|data|);
  }

  // ---------------------------------------------------------------- text

  /** Every character is a single byte. */
  predicate ByteText(s: string) {
    forall i :: 0 <= i < |s| ==> s[i] as int < 256
  }

  function ToBytes(s: string): (b: seq<byte>)
    requires ByteText(s)
    ensures |b| == |s|
  {
    seq(|s|, i requires 0 <= i < |s| => s[i] as int as byte)
  }

  function ToText(b: seq<byte>): (s: string)
    ensures |s| == |b|
  {
    seq(|b|, i requires 0 <= i < |b| => b[i] as int as char)
  }

  predicate TextFits(s: string) {
    ByteText(s) && |s| <= MAX_LEN
  }

  function PutText(s: string): Words
    requires TextFits(s)
  {
    PutOpaque(ToBytes(s))
  }

  function GetText(s: Words): Parsed<string> {
    match GetOpaque(s)
    case Bad => Bad
    case Got(data, rest) => Got(ToText(data), rest)
  }

  lemma TextRoundTrip(t: string, rest: Words)
    requires TextFits(t)
    ensures GetText(PutText(t) + rest) == Got(t, rest)
  {
    ReadBack(ToBytes(t), rest);
    assert ToText(ToBytes(t)) == t;
  }

  lemma BytesOfText(b: seq<byte>)
    ensures ByteText(ToText(b)) && ToBytes(ToText(b)) == b
  {}

  /** A text is read exactly from the bytes that are written for it. */
  lemma TextIff(s: Words, t: string, rest: Words)
    ensures GetText(s) == Got(t, rest) <==> TextFits(t) && s == PutText(t) + rest
  {
    if TextFits(t) && s == PutText(t) + rest {
      TextRoundTrip(t, rest);
    }
    if GetText(s) == Got(t, rest) {
      var data := GetOpaque(s).value;
      OpaqueIff(s, data, rest);
      BytesOfText(data);
    }
  }

  /** The bytes of a text in a message: its length, and one byte for each character in order. */
  lemma TextLayout(t: string)
    requires TextFits(t)
    ensures var s := PutText(t);
            && 4 + |t| <= |s| && Base256(s[..4]) == |t|
            && forall i :: 0 <= i < |t| ==> s[4 + i] as int == t[i] as int
  {
    OpaqueLayout(ToBytes(t));
    assert PutText(t)[4..4 + |t|] == ToBytes(t);
    forall i | 0 <= i < |t| ensures PutText(t)[4 + i] as int == t[i] as int {
      assert PutText(t)[4..4 + |t|][i] == ToBytes(t)[i];
    }
  }

  /** A flag is written as the word 1 or 0, and every word but 0 is read as true. */
  lemma BoolLayout(b: bool, s: Words)
    ensures |PutBool(b)| == 4 && Base256(PutBool(b)) == if b then 1 else 0
    ensures GetBool(s) == if |s| < 4 then Bad else Got(Base256(s[..4]) != 0, s[4..])
  {
    WordIsBigEndian(if b then 1 else 0, s, 0);
  }

  // ---------------------------------------------------------------- the message header

  /** The word before a message: its size, with the top bit set. */
  function Header(size: nat): Words
    requires size < MAX_MESSAGE
  {
    Put32(size + MAX_MESSAGE)
  }

  /** What a receiver makes of the word; none when the top bit is clear. */
  function SizeOf(word: Words): Parsed<nat> {
    match Get32(word)
    case Bad => Bad
    case Got(n, rest) => if n < MAX_MESSAGE then Bad else Got(n - MAX_MESSAGE, rest)
  }

  lemma HeaderIff(word: Words, size: nat, rest: Words)
    ensures SizeOf(word) == Got(size, rest) <==> size < MAX_MESSAGE && word == Header(size) + rest
  {
    Word32Iff(word, size + MAX_MESSAGE, rest);
  }

  /** The first byte of a header has its top bit set, and the rest of it is the size. */
  lemma HeaderIsBigEndian(size: nat)
    requires size < MAX_MESSAGE
    ensures |Header(size)| == 4 && Header(size)[0] as nat >= 0x80 && Base256(Header(size)) == size + 0x8000_0000
    ensures Base256([Header(size)[0] - 0x80] + Header(size)[1..]) == size
  {
    WordIsBigEndian(size + MAX_MESSAGE, [], 0);
    var s := Header(size);
    FourBytes(s);
    FourBytes([s[0] - 0x80] + s[1..]);
  }
}
