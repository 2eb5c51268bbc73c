/**
 Names, child lists and decimal numerals: the string handling the service rests on.

 A node is named by its full path. A directory stores its children as one string in
 which every child is preceded by a bar; the server rewrites that string on each
 create and delete, and clients take it apart again with `Tokenize`.
 */
module Text {
  import opened Numbers

  datatype Option<+T> = None | Some(value: T)

  // ---------------------------------------------------------------- names

  predicate ValidChar(c: char) {
    c == '_' || c == '/' || '0' <= c <= '9' || 'a' <= c <= 'z' || 'A' <= c <= 'Z'
  }

  predicate DoubleSlashAt(key: string, i: nat)
    requires 0 < i < |key|
  {
    key[i - 1] == '/' && key[i] == '/'
  }

  /** A path starts with a slash, does not end with one, has no empty component and
      uses only letters, digits, underscores and slashes. */
  predicate NameOk(key: string) {
    && |key| > 0
    && key[0] == '/'
    && key[|key| - 1] != '/'
    && (forall i :: 0 <= i < |key| ==> ValidChar(key[i]))
    && (forall i :: 0 < i < |key| ==> !DoubleSlashAt(key, i))
  }

  method CheckName(key: string) returns (ok: bool)
    ensures ok <==> NameOk(key)
  {
    if |key| == 0 || key[0] != '/' {
      return false;
    }
    if key[|key| - 1] == '/' {
      return false;
    }
    for i := 0 to |key|
      invariant forall j :: 0 <= j < i ==> ValidChar(key[j])
    {
      if !ValidChar(key[i]) {
        return false;
      }
    }
    for i := 1 to |key|
      invariant forall j :: 0 < j < i ==> !DoubleSlashAt(key, j)
    {
      if DoubleSlashAt(key, i) {
        return false;
      }
    }
    return true;
  }

  /** The largest slash position not above pos, or 0. */
  function LastSlash(key: string, pos: nat): (cut: nat)
    requires pos < |key|
    ensures cut <= pos
    ensures cut == 0 || key[cut] == '/'
    ensures forall i :: cut < i <= pos ==> key[i] != '/'
  {
    if pos == 0 || key[pos] == '/' then pos else LastSlash(key, pos - 1)
  }

  function ParentName(key: string): string {
    if key == "" then ""
    else
      var cut := LastSlash(key, |key| - 1);
      if cut == 0 then "/" else key[..cut]
  }

  /** The scan from the right; on the empty key the position wraps to -1 and the
      substring taken is the whole (empty) key. */
  method GetParentName(key: string) returns (parent: string)
    ensures parent == ParentName(key)
  {
    var pos := |key| - 1;
    while pos > 0
      invariant -1 <= pos < |key|
      invariant pos == -1 <==> key == ""
      invariant key != "" ==> LastSlash(key, |key| - 1) == LastSlash(key, pos)
    {
      if key[pos] == '/' {
        break;
      }
      pos := pos - 1;
    }
    if pos == 0 {
      return "/";
    } else if pos == -1 {
      return key;
    } else {
      return key[..pos];
    }
  }

  /** A legal path is its parent, a slash and a slash-free leaf, and the parent is
      the root or again a legal, shorter path. */
  lemma ParentOfName(key: string)
    requires NameOk(key)
    ensures ParentName(key) == "/" || (NameOk(ParentName(key)) && |ParentName(key)| < |key|)
    ensures exists leaf :: leaf != "" && '/' !in leaf
              && key == (if ParentName(key) == "/" then "" else ParentName(key)) + "/" + leaf
  {
    var cut := LastSlash(key, |key| - 1);
    var leaf := key[cut + 1..];
    assert '/' !in leaf;
    assert key == key[..cut] + "/" + leaf;
    if cut > 0 {
      var p := key[..cut];
      assert p[0] == key[0];
      assert !DoubleSlashAt(key, cut);
      forall i | 0 <= i < |p| ensures ValidChar(p[i]) { assert p[i] == key[i]; }
      forall i | 0 < i < |p| ensures !DoubleSlashAt(p, i) { assert !DoubleSlashAt(key, i); }
      assert NameOk(p);
      assert p != "/";
    } else {
      assert key[..cut] == "";
    }
  }

  /** An ASCII digit, capital, underscore or small letter. */
  predicate WordCode(code: int) {
    48 <= code <= 57 || 65 <= code <= 90 || code == 95 || 97 <= code <= 122
  }

  /** A component of a path. */
  predicate Word(part: string) {
    part != "" && forall i :: 0 <= i < |part| ==> WordCode(part[i] as int)
  }

  /** Each component with a slash in front. */
  function Path(parts: seq<string>): string {
    if parts == [] then "" else Path(parts[..|parts| - 1]) + "/" + parts[|parts| - 1]
  }

  lemma CharsOfWords(c: char)
    ensures ValidChar(c) <==> c == '/' || WordCode(c as int)
    ensures !WordCode('/' as int)
  {}

  lemma WordsHaveNoSlash(w: string)
    ensures Word(w) ==> '/' !in w
    ensures w != "" && '/' !in w && (forall i :: 0 <= i < |w| ==> ValidChar(w[i])) ==> Word(w)
  {
    forall i | 0 <= i < |w| ensures ValidChar(w[i]) <==> w[i] == '/' || WordCode(w[i] as int) {
      CharsOfWords(w[i]);
    }
  }

  lemma LeafOfName(key: string) returns (up: string, leaf: string)
    requires NameOk(key)
    ensures key == up + "/" + leaf && Word(leaf) && (up == "" || (NameOk(up) && |up| < |key|))
  {
    ParentOfName(key);
    up := if ParentName(key) == "/" then "" else ParentName(key);
    leaf :| leaf != "" && '/' !in leaf && key == up + "/" + leaf;
    forall i | 0 <= i < |leaf| ensures ValidChar(leaf[i]) {
      assert key[|up| + 1 + i] == leaf[i];
    }
    WordsHaveNoSlash(leaf);
  }

  lemma LongerName(up: string, leaf: string)
    requires (up == "" || NameOk(up)) && Word(leaf)
    ensures NameOk(up + "/" + leaf)
  {
    var key := up + "/" + leaf;
    WordsHaveNoSlash(leaf);
    forall i | 0 <= i < |key| ensures ValidChar(key[i]) {
      if i > |up| {
        assert key[i] == leaf[i - |up| - 1];
        CharsOfWords(key[i]);
      }
    }
    forall i | 0 < i < |key| ensures !DoubleSlashAt(key, i) {
      if i > |up| {
        assert key[i] == leaf[i - |up| - 1] && key[i] in leaf;
      } else if i < |up| {
        assert !DoubleSlashAt(up, i);
      }
    }
    assert key[|key| - 1] == leaf[|leaf| - 1] && leaf[|leaf| - 1] in leaf;
  }

  lemma {:induction false} PathOfName(key: string) returns (parts: seq<string>)
    requires NameOk(key)
    ensures parts != [] && (forall i :: 0 <= i < |parts| ==> Word(parts[i])) && key == Path(parts)
    decreases |key|
  {
    var up, leaf := LeafOfName(key);
    var front := [];
    if up != "" {
      front := PathOfName(up);
    }
    parts := front + [leaf];
    assert parts[..|parts| - 1] == front;
  }

  lemma {:induction false} NameOfPath(parts: seq<string>)
    requires parts != [] && forall i :: 0 <= i < |parts| ==> Word(parts[i])
    ensures NameOk(Path(parts))
  {
    var front := parts[..|parts| - 1];
    if front != [] {
      NameOfPath(front);
    }
    LongerName(Path(front), parts[|parts| - 1]);
  }

  /** The legal keys are exactly the paths of at least one component, each a non-empty word. */
  lemma NameOkIff(key: string)
    ensures NameOk(key)
       <==> exists parts :: parts != [] && (forall i :: 0 <= i < |parts| ==> Word(parts[i])) && key == Path(parts)
  {
    if NameOk(key) {
      var parts := PathOfName(key);
    } else if parts :| parts != [] && (forall i :: 0 <= i < |parts| ==> Word(parts[i])) && key == Path(parts) {
      NameOfPath(parts);
    }
  }

  // ---------------------------------------------------------------- child lists

  /** Non-empty and without a bar: what can be stored in a child list. */
  predicate Plain(name: string) {
    name != "" && '|' !in name
  }

  lemma NamesArePlain(key: string)
    requires NameOk(key)
    ensures Plain(key)
  {}

  /** The stored form of a list of children. */
  function Encode(names: seq<string>): string {
    if names == [] then "" else Encode(names[..|names| - 1]) + "|" + names[|names| - 1]
  }

  function Flush(word: string): seq<string> {
    if word == "" then [] else [word]
  }

  /** One character at a time: the non-empty pieces of word + s between delimiters,
      where word is the piece being read. */
  function Scan(word: string, s: string, delims: string): seq<string>
    decreases s
  {
    if s == "" then Flush(word)
    else if s[0] in delims then Flush(word) + Scan("", s[1..], delims)
    else Scan(word + [s[0]], s[1..], delims)
  }

  function Pieces(s: string): seq<string> {
    Scan("", s, "|")
  }

  lemma {:induction false} ScanWord(word: string, w: string, rest: string, delims: string)
    requires forall i :: 0 <= i < |w| ==> w[i] !in delims
    ensures Scan(word, w + rest, delims) == Scan(word + w, rest, delims)
    decreases w
  {
    if w == "" {
      assert w + rest == rest && word + w == word;
    } else {
      assert (w + rest)[0] == w[0] && (w + rest)[1..] == w[1..] + rest;
      ScanWord(word + [w[0]], w[1..], rest, delims);
      assert word + [w[0]] + w[1..] == word + w;
    }
  }

  lemma {:induction false} ScanGap(gap: string, rest: string, delims: string)
    requires forall i :: 0 <= i < |gap| ==> gap[i] in delims
    ensures Scan("", gap + rest, delims) == Scan("", rest, delims)
  {
    if gap == "" {
      assert gap + rest == rest;
    } else {
      assert (gap + rest)[0] == gap[0] && (gap + rest)[1..] == gap[1..] + rest;
      ScanGap(gap[1..], rest, delims);
    }
  }

  lemma ScanBreak(word: string, rest: string, delims: string)
    requires rest == "" || rest[0] in delims
    ensures Scan(word, rest, delims) == Flush(word) + Scan("", rest, delims)
  {}

  /** A word up to a delimiter or the end is one piece. */
  lemma ScanToken(w: string, rest: string, delims: string)
    requires w != "" && forall i :: 0 <= i < |w| ==> w[i] !in delims
    requires rest == "" || rest[0] in delims
    ensures Scan("", w + rest, delims) == [w] + Scan("", rest, delims)
  {
    ScanWord("", w, rest, delims);
    assert "" + w == w;
    ScanBreak(w, rest, delims);
  }

  function FindFirstOf(s: string, delims: string, from: nat): (r: Option<nat>)
    ensures r.Some? ==> from <= r.value < |s| && s[r.value] in delims
    ensures forall i :: from <= i < (if r.Some? then r.value else |s|) ==> s[i] !in delims
    decreases if from < |s| then |s| - from else 0
  {
    if from >= |s| then None
    else if s[from] in delims then Some(from)
    else FindFirstOf(s, delims, from + 1)
  }

  function FindFirstNotOf(s: string, delims: string, from: nat): (r: Option<nat>)
    ensures r.Some? ==> from <= r.value < |s| && s[r.value] !in delims
    ensures forall i :: from <= i < (if r.Some? then r.value else |s|) ==> s[i] in delims
    decreases if from < |s| then |s| - from else 0
  {
    if from >= |s| then None
    else if s[from] !in delims then Some(from)
    else FindFirstNotOf(s, delims, from + 1)
  }

  /** What is left to tokenize at an optional position; none stands for the end. */
  function LeftAt(str: string, pos: Option<nat>, delims: string): seq<string>
    requires pos.Some? ==> pos.value <= |str|
  {
    if pos.Some? then Scan("", str[pos.value..], delims) else []
  }

  /** The client's reader of a child list: two positions leapfrog over the string. */
  method Tokenize(str: string, delims: string) returns (tokens: seq<string>)
    ensures tokens == Scan("", str, delims)
  {
    tokens := [];
    ghost var all := Scan("", str, delims);
    var lastPos := FindFirstNotOf(str, delims, 0);
    SkipTo(str, 0, lastPos, delims);
    assert str[0..] == str;
    var pos := if lastPos.Some? then FindFirstOf(str, delims, lastPos.value) else None;
    while pos.Some? || lastPos.Some?
      invariant lastPos.Some? ==> lastPos.value < |str| && str[lastPos.value] !in delims
                                  && pos == FindFirstOf(str, delims, lastPos.value)
      invariant lastPos.None? ==> pos.None?
      invariant tokens + LeftAt(str, lastPos, delims) == all
      decreases if lastPos.Some? then |str| - lastPos.value else -1
    {
      var end := if pos.Some? then pos.value else |str|;
      TakeToken(str, lastPos.value, end, delims);
      tokens := tokens + [str[lastPos.value..end]];
      lastPos := FindFirstNotOf(str, delims, end);
      pos := if lastPos.Some? then FindFirstOf(str, delims, lastPos.value) else None;
    }
  }

  lemma TakeToken(str: string, start: nat, end: nat, delims: string)
    requires start < end <= |str| && (end < |str| ==> str[end] in delims)
    requires forall i :: start <= i < end ==> str[i] !in delims
    ensures LeftAt(str, Some(start), delims)
         == [str[start..end]] + LeftAt(str, FindFirstNotOf(str, delims, end), delims)
  {
    assert str[start..] == str[start..end] + str[end..];
    ScanToken(str[start..end], str[end..], delims);
    SkipTo(str, end, FindFirstNotOf(str, delims, end), delims);
  }

  lemma SkipTo(str: string, from: nat, next: Option<nat>, delims: string)
    requires from <= |str| && next == FindFirstNotOf(str, delims, from)
    ensures Scan("", str[from..], delims) == LeftAt(str, next, delims)
  {
    var stop := if next.Some? then next.value else |str|;
    assert str[from..] == str[from..stop] + str[stop..];
    ScanGap(str[from..stop], str[stop..], delims);
  }

  /** What repeated `getline` with a bar delivers: the text up to each bar, empty
      tokens included, and no token after a final bar. */
  function GetlineSplit(s: string): (tokens: seq<string>)
    decreases |s|
  {
    if s == "" then []
    else
      var (token, rest) := Getline(s);
      [token] + GetlineSplit(rest)
  }

  /** One `getline`: the text before the first bar and what follows that bar. */
  function Getline(s: string): (r: (string, string))
    requires s != ""
    ensures |r.1| < |s|
    ensures '|' !in r.0
    ensures s == r.0 + "|" + r.1 || (s == r.0 && r.1 == "")
  {
    var bar := FindFirstOf(s, "|", 0);
    if bar.None? then (s, "")
    else
      assert s[bar.value] == '|';
      (s[..bar.value], s[bar.value + 1..])
  }

  function NonEmpty(tokens: seq<string>): seq<string> {
    if tokens == [] then [] else Flush(tokens[0]) + NonEmpty(tokens[1..])
  }

  lemma ScanGetline(s: string)
    requires s != ""
    ensures Pieces(s) == Flush(Getline(s).0) + Pieces(Getline(s).1)
  {
    var (token, tail) := Getline(s);
    var rest := s[|token|..];
    assert s == token + rest;
    if rest != "" {
      assert rest == "|" + tail;
      assert rest[1..] == tail;
      assert Scan("", rest, "|") == [] + Scan("", tail, "|");
    }
    if token != "" {
      ScanToken(token, rest, "|");
    }
  }

  /** Server and client read a child list alike: the non-empty getline tokens are the
      tokens the client's Tokenize finds, for every string. */
  lemma {:induction false} GetlineAgreesWithTokenize(s: string)
    ensures NonEmpty(GetlineSplit(s)) == Scan("", s, "|")
    decreases |s|
  {
    if s != "" {
      var tail := Getline(s).1;
      ScanGetline(s);
      GetlineAgreesWithTokenize(tail);
      assert GetlineSplit(s)[1..] == GetlineSplit(tail);
    }
  }

  function Without<T(!new, ==)>(names: seq<T>, node: T): (r: seq<T>)
    ensures forall n :: n in r <==> n in names && n != node
  {
    if names == [] then []
    else (if names[|names| - 1] == node then Without(names[..|names| - 1], node)
          else Without(names[..|names| - 1], node) + [names[|names| - 1]])
  }

  /** What stays keeps its order. */
  lemma {:induction false} WithoutKeepsOrder<T(!new)>(a: seq<T>, b: seq<T>, node: T)
    ensures Without(a + b, node) == Without(a, node) + Without(b, node)
    ensures Without([node], node) == [] && forall n :: n != node ==> Without([n], node) == [n]
    decreases b
  {
    if b == [] {
      assert a + b == a;
    } else {
      assert (a + b)[..|a + b| - 1] == a + b[..|b| - 1];
      WithoutKeepsOrder(a, b[..|b| - 1], node);
    }
  }

  /** The stored list after a child is added. */
  function DirContentCreate(content: string, node: string): string {
    content + "|" + node
  }

  /** The server's rewrite when a child is deleted: split with getline, skip the empty
      tokens, keep every other one. */
  method DirContentDelete(content: string, node: string) returns (str: string)
    ensures str == Encode(Without(Pieces(content), node))
  {
    str := "";
    ghost var kept := [];
    var rest := content;
    while rest != ""
      invariant kept + Pieces(rest) == Pieces(content)
      invariant str == Encode(Without(kept, node))
      decreases |rest|
    {
      ScanGetline(rest);
      var (token, tail) := Getline(rest);
      rest := tail;
      if token == "" {
        continue;
      }
      assert (kept + [token])[..|kept|] == kept;
      if node != token {
        str := str + "|" + token;
        assert (Without(kept, node) + [token])[..|Without(kept, node)|] == Without(kept, node);
      }
      kept := kept + [token];
    }
    assert kept + [] == kept;
  }

  lemma {:induction false} EncodeCons(name: string, names: seq<string>)
    ensures Encode([name] + names) == "|" + name + Encode(names)
  {
    var all := [name] + names;
    if names == [] {
      assert all[..|all| - 1] == [];
    } else {
      assert all[..|all| - 1] == [name] + names[..|names| - 1];
      EncodeCons(name, names[..|names| - 1]);
    }
  }

  /** Reading back a stored list gives the list. */
  lemma {:induction false} PiecesOfEncode(names: seq<string>)
    requires forall n :: n in names ==> Plain(n)
    ensures Pieces(Encode(names)) == names
  {
    if names != [] {
      var head, tail := names[0], names[1..];
      assert names == [head] + tail;
      EncodeCons(head, tail);
      PiecesOfEncode(tail);
      var rest := Encode(tail);
      if tail != [] {
        EncodeCons(tail[0], tail[1..]);
        assert tail == [tail[0]] + tail[1..];
        assert rest[0] == '|';
      }
      assert head in names;
      ScanToken(head, rest, "|");
      var s := Encode(names);
      assert s == "|" + (head + rest);
      assert s[0] == '|' && s[1..] == head + rest;
      assert Scan("", s, "|") == [] + Scan("", head + rest, "|");
    }
  }

  /** Adding and removing a child on the stored form is adding and removing it in the
      list. */
  lemma ChildListEdits(names: seq<string>, node: string)
    requires forall n :: n in names ==> Plain(n)
    ensures DirContentCreate(Encode(names), node) == Encode(names + [node])
    ensures Encode(Without(Pieces(Encode(names)), node)) == Encode(Without(names, node))
    ensures Plain(node) ==> Pieces(DirContentCreate(Encode(names), node)) == names + [node]
  {
    PiecesOfEncode(names);
    assert (names + [node])[..|names|] == names;
    if Plain(node) {
      PiecesOfEncode(names + [node]);
    }
  }

  // ---------------------------------------------------------------- decimal numerals

  const DIGITS := "0123456789"

  function Digit(d: nat): (c: char)
    requires d < 10
    ensures '0' <= c <= '9' && c as int == '0' as int + d
  {
    DIGITS[d]
  }

  /** to_string on an unsigned number. */
  function ToString(n: nat): (s: string)
    ensures s != ""
  {
    if n < 10 then [Digit(n)] else ToString(n / 10) + [Digit(n % 10)]
  }

  /** stoul on a string of digits. */
  function Parse(s: string): nat {
    if s == "" then 0
    else 10 * Parse(s[..|s| - 1])
         + (if '0' <= s[|s| - 1] <= '9' then s[|s| - 1] as int - '0' as int else 0)
  }

  lemma {:induction false} ParseToString(n: nat)
    ensures Parse(ToString(n)) == n
  {
    var s := ToString(n);
    if n < 10 {
      assert s[..|s| - 1] == "";
    } else {
      assert s[..|s| - 1] == ToString(n / 10);
      ParseToString(n / 10);
    }
  }

  /** The characters of a numeral are its decimal digits, the highest first, and none to spare. */
  lemma {:induction false} DigitsOfNumeral(n: nat, k: nat)
    requires k < |ToString(n)|
    ensures ToString(n)[k] as int == '0' as int + n / Power(10, |ToString(n)| - 1 - k) % 10
    ensures n > 0 ==> Power(10, |ToString(n)| - 1) <= n
    decreases n
  {
    if n >= 10 {
      var front := ToString(n / 10);
      if k < |front| {
        DigitsOfNumeral(n / 10, k);
        DivTwice(n, 10, Power(10, |front| - 1 - k));
      } else {
        DigitsOfNumeral(n / 10, 0);
      }
    }
  }

  /** The stored form of a list: each child with a bar in front, in order. */
  lemma {:induction false} EncodeIsJoined(names: seq<string>, name: string)
    ensures Encode(names + [name]) == Encode(names) + "|" + name && Encode([]) == ""
  {
    assert (names + [name])[..|names|] == names;
  }
}
