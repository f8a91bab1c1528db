/** The textual notation of a path, as tracker status stores it: printing, parsing, and when they agree. */
module PathText {
  import opened Json
  import opened FieldPath

  datatype ParseError =
    | EmptyPath | UnterminatedBracket | EmptyBracket | EmptyKey
    | NotAnIndex | NegativeIndex | TrailingDot | NoSegments

  datatype Result<+T> = Ok(value: T) | Err(error: ParseError)

  const MAX_INT := 0x7FFF_FFFF_FFFF_FFFF
  const MIN_INT := -0x8000_0000_0000_0000

  // ---- Decimal numbers ----

  function Digit(d: nat): char
    requires d < 10
  {
    '0' + d as char
  }

  predicate IsDigit(c: char)
  {
    '0' <= c <= '9'
  }

  function DigitsOf(n: nat): (s: string)
    ensures s != "" && forall c | c in s :: IsDigit(c)
  {
    if n < 10 then [Digit(n)] else DigitsOf(n / 10) + [Digit(n % 10)]
  }

  function Itoa(n: int): string
  {
    if n < 0 then "-" + DigitsOf(-n) else DigitsOf(n)
  }

  function DigitsValue(s: string): nat
    requires forall c | c in s :: IsDigit(c)
  {
    if s == "" then 0 else
    var c := s[|s| - 1];
    assert c in s && IsDigit(c);
    10 * DigitsValue(s[..|s| - 1]) + (c - '0') as nat
  }

  /** Decimal text with an optional sign, as a 64-bit integer. */
  function Atoi(s: string): (r: Option<int>)
    ensures r.Some? ==> MIN_INT <= r.value <= MAX_INT
  {
    var signed := s != "" && (s[0] == '-' || s[0] == '+');
    var ds := if signed then s[1..] else s;
    if ds == "" || exists c | c in ds :: !IsDigit(c) then None else
    var n: int := if s[0] == '-' then -(DigitsValue(ds) as int) else DigitsValue(ds);
    if MIN_INT <= n <= MAX_INT then Some(n) else None
  }

  lemma {:induction false} DigitsRoundTrip(n: nat)
    ensures DigitsValue(DigitsOf(n)) == n
  {
    if n >= 10 {
      DigitsRoundTrip(n / 10);
      var s := DigitsOf(n);
      assert s[..|s| - 1] == DigitsOf(n / 10);
    } else {
      assert DigitsOf(n)[..0] == "";
    }
  }

  lemma {:induction false} AtoiUndoesItoa(n: int)
    requires 0 <= n <= MAX_INT
    ensures Atoi(Itoa(n)) == Some(n)
  {
    DigitsRoundTrip(n);
    var s := DigitsOf(n);
    assert s[0] in s && IsDigit(s[0]);
  }

  // ---- Printing ----

  function Piece(seg: Segment, first: bool): string
  {
    if seg.IsField() then (if first then "" else ".") + seg.name
    else if seg.IsKeyMatch() then "[" + seg.key + "=" + seg.val + "]"
    else if seg.IsIndex() then "[" + Itoa(seg.i) + "]"
    else ""
  }

  /** The text of the remaining segments; first while nothing has been written. */
  function Text(p: Path, first: bool): string
  {
    if p == [] then "" else
    var piece := Piece(p[0], first);
    piece + Text(p[1..], first && piece == "")
  }

  function Print(p: Path): string
  {
    Text(p, true)
  }

  method PrintLoop(p: Path) returns (b: string)
    ensures b == Print(p)
  {
    b := "";
    for n := 0 to |p|
      invariant b + Text(p[n..], b == "") == Print(p)
    {
      var s := p[n];
      assert p[n..][0] == s && p[n..][1..] == p[n + 1..];
      var piece := "";
      if s.IsField() {
        if |b| > 0 { piece := "."; }
        piece := piece + s.name;
      } else if s.IsKeyMatch() {
        piece := "[" + s.key + "=" + s.val + "]";
      } else if s.IsIndex() {
        piece := "[" + Itoa(s.i) + "]";
      }
      Append(b, piece, Text(p[n + 1..], b + piece == ""));
      b := b + piece;
    }
  }

  lemma {:induction false} Append(a: string, b: string, c: string)
    ensures a + (b + c) == (a + b) + c
    ensures a + b == "" <==> a == "" && b == ""
  {
    if a + b == "" {
      assert |a| + |b| == 0;
    }
  }

  // ---- Parsing ----

  function IndexByte(s: string, c: char): (r: int)
    ensures -1 <= r < |s|
    ensures r >= 0 ==> s[r] == c
    ensures forall j | 0 <= j < |s| && (r < 0 || j < r) :: s[j] != c
  {
    if s == "" then -1
    else if s[0] == c then 0
    else
      var r := IndexByte(s[1..], c);
      if r < 0 then -1 else r + 1
  }

  /** How far a field name reaches. */
  function NameEnd(s: string): (j: nat)
    ensures j <= |s|
    ensures forall k | 0 <= k < j :: s[k] != '.' && s[k] != '['
    ensures j < |s| ==> s[j] == '.' || s[j] == '['
  {
    if s == "" || s[0] == '.' || s[0] == '[' then 0 else 1 + NameEnd(s[1..])
  }

  /** The segment between brackets. */
  function Bracket(inner: string): Result<Segment>
  {
    if inner == "" then Err(EmptyBracket) else
    var eq := IndexByte(inner, '=');
    if eq >= 0 then
      if eq == 0 then Err(EmptyKey) else Ok(KeyMatch(inner[..eq], inner[eq + 1..]))
    else
      match Atoi(inner)
      case None => Err(NotAnIndex)
      case Some(n) => if n < 0 then Err(NegativeIndex) else Ok(Index(n))
  }

  function Prepend(out: Path, r: Result<Path>): Result<Path>
  {
    match r case Ok(p) => Ok(out + p) case Err(e) => Err(e)
  }

  /** What one turn of the parser reads: at most one segment, and how far it gets. */
  function Token(s: string): (r: Result<(Path, nat)>)
    requires s != ""
    ensures r.Ok? ==> 0 < r.value.1 <= |s|
  {
    if s[0] == '[' then
      var end := IndexByte(s, ']');
      if end < 0 then Err(UnterminatedBracket) else
      match Bracket(s[1..end])
      case Err(e) => Err(e)
      case Ok(seg) => Ok(([seg], end + 1))
    else if s[0] == '.' then
      if |s| == 1 then Err(TrailingDot) else Ok(([], 1))
    else
      Ok(([Field(s[..NameEnd(s)])], NameEnd(s)))
  }

  function Scan(s: string): Result<Path>
    decreases |s|
  {
    if s == "" then Ok([]) else
    match Token(s)
    case Err(e) => Err(e)
    case Ok((piece, n)) => Prepend(piece, Scan(s[n..]))
  }

  function Parse(s: string): Result<Path>
  {
    if s == "" then Err(EmptyPath) else
    var r := Scan(s);
    if r == Ok([]) then Err(NoSegments) else r
  }

  method NameEndLoop(s: string, i: nat) returns (j: nat)
    requires i <= |s|
    ensures i <= j <= |s| && j == i + NameEnd(s[i..])
  {
    j := i;
    while j < |s| && s[j] != '.' && s[j] != '['
      invariant i <= j <= |s|
      invariant forall k | i <= k < j :: s[k] != '.' && s[k] != '['
    {
      j := j + 1;
    }
    var e := NameEnd(s[i..]);
    assert i + e < |s| ==> s[i + e] == s[i..][e];
    assert j < |s| ==> s[j] == s[i..][j - i];
  }

  method TokenAt(s: string, i: nat) returns (r: Result<(Path, nat)>)
    requires i < |s|
    ensures r == Token(s[i..])
  {
    if s[i] == '[' {
      var end := IndexByte(s[i..], ']');
      if end < 0 { return Err(UnterminatedBracket); }
      var seg := Bracket(s[i..][1..end]);
      if seg.Err? { return Err(seg.error); }
      return Ok(([seg.value], end + 1));
    } else if s[i] == '.' {
      if i + 1 >= |s| { return Err(TrailingDot); }
      return Ok(([], 1));
    } else {
      var j := NameEndLoop(s, i);
      assert s[i..][..j - i] == s[i..j];
      return Ok(([Field(s[i..j])], j - i));
    }
  }

  lemma {:induction false} ScanByToken(s: string, i: nat, piece: Path, n: nat)
    requires i < |s| && Token(s[i..]) == Ok((piece, n))
    ensures i + n <= |s| && Scan(s[i..]) == Prepend(piece, Scan(s[i + n..]))
  {
    assert s[i..][n..] == s[i + n..];
  }

  method ParseLoop(s: string) returns (r: Result<Path>)
    ensures r == Parse(s)
  {
    if s == "" { return Err(EmptyPath); }
    var out: Path := [];
    var i := 0;
    assert s[0..] == s;
    PrependNothing(Scan(s));
    while i < |s|
      invariant 0 <= i <= |s|
      invariant Prepend(out, Scan(s[i..])) == Scan(s)
    {
      var token := TokenAt(s, i);
      if token.Err? { return Err(token.error); }
      var (piece, n) := token.value;
      ScanByToken(s, i, piece, n);
      PrependTwice(out, piece, Scan(s[i + n..]));
      out := out + piece;
      i := i + n;
    }
    assert s[i..] == "" && out + [] == out;
    if out == [] { return Err(NoSegments); }
    return Ok(out);
  }

  lemma {:induction false} PrependNothing(r: Result<Path>)
    ensures Prepend([], r) == r
  {
    if r.Ok? { assert [] + r.value == r.value; }
  }

  lemma {:induction false} PrependTwice(a: Path, b: Path, r: Result<Path>)
    ensures Prepend(a, Prepend(b, r)) == Prepend(a + b, r)
  {
    if r.Ok? { assert a + (b + r.value) == a + b + r.value; }
  }

  // ---- Agreement ----

  /** A segment whose text reads back as itself. */
  predicate PrintableSegment(seg: Segment)
  {
    match seg
    case Field(name) => name != "" && '.' !in name && '[' !in name
    case Index(i) => 0 <= i <= MAX_INT
    case KeyMatch(key, val) => key != "" && '=' !in key && ']' !in key && ']' !in val
  }

  predicate Printable(p: Path)
  {
    p != [] && forall s | s in p :: PrintableSegment(s)
  }

  lemma {:induction false} IndexByteAt(a: string, c: char, b: string)
    requires c !in a
    ensures IndexByte(a + [c] + b, c) == |a|
  {
    var s := a + [c] + b;
    assert s[|a|] == c;
    assert forall k | 0 <= k < |a| :: s[k] == a[k] && a[k] in a;
  }

  lemma {:induction false} BracketReads(seg: Segment, inner: string, rest: string)
    requires ']' !in inner && Bracket(inner) == Ok(seg)
    ensures Scan("[" + inner + "]" + rest) == Prepend([seg], Scan(rest))
  {
    var s := "[" + inner + "]" + rest;
    assert s == ("[" + inner) + [']'] + rest;
    IndexByteAt("[" + inner, ']', rest);
    assert s[1..|inner| + 1] == inner && s[|inner| + 2..] == rest;
  }

  lemma {:induction false} NameReads(name: string, rest: string)
    requires PrintableSegment(Field(name))
    requires rest == "" || rest[0] == '.' || rest[0] == '['
    ensures Scan(name + rest) == Prepend([Field(name)], Scan(rest))
  {
    var s := name + rest;
    assert forall k | 0 <= k < |name| :: s[k] == name[k] && name[k] in name;
    assert rest != "" ==> s[|name|] == rest[0];
    assert NameEnd(s) == |name|;
    assert s[0] != '[' && s[0] != '.';
    assert s[..|name|] == name && s[|name|..] == rest;
  }

  lemma {:induction false} KeyMatchReads(seg: Segment, rest: string)
    requires seg.KeyMatch? && PrintableSegment(seg)
    ensures Scan("[" + seg.key + "=" + seg.val + "]" + rest) == Prepend([seg], Scan(rest))
  {
    var inner := seg.key + "=" + seg.val;
    assert inner == seg.key + ['='] + seg.val;
    IndexByteAt(seg.key, '=', seg.val);
    assert inner[..|seg.key|] == seg.key && inner[|seg.key| + 1..] == seg.val;
    BracketReads(seg, inner, rest);
    assert "[" + seg.key + "=" + seg.val + "]" + rest == "[" + inner + "]" + rest;
  }

  lemma {:induction false} IndexReads(i: int, rest: string)
    requires PrintableSegment(Index(i))
    ensures Scan("[" + Itoa(i) + "]" + rest) == Prepend([Index(i)], Scan(rest))
  {
    AtoiUndoesItoa(i);
    assert '=' !in Itoa(i) && ']' !in Itoa(i);
    BracketReads(Index(i), Itoa(i), rest);
  }

  lemma {:induction false} DotReads(t: string)
    requires t != ""
    ensures Scan("." + t) == Scan(t)
  {
    assert ("." + t)[1..] == t;
    PrependNothing(Scan(t));
  }

  /** The text of one segment, with any text that may follow it, scans to the segment. */
  lemma {:induction false} PieceReads(seg: Segment, first: bool, rest: string)
    requires PrintableSegment(seg)
    requires rest == "" || rest[0] == '.' || rest[0] == '['
    ensures Scan(Piece(seg, first) + rest) == Prepend([seg], Scan(rest))
    ensures Piece(seg, first) != ""
    ensures !first ==> Piece(seg, first)[0] == '.' || Piece(seg, first)[0] == '['
  {
    if seg.Index? {
      IndexReads(seg.i, rest);
    } else if seg.KeyMatch? {
      KeyMatchReads(seg, rest);
    } else {
      NameReads(seg.name, rest);
      DotReads(seg.name + rest);
      Append(".", seg.name, rest);
      assert "" + seg.name == seg.name;
    }
  }

  lemma {:induction false} ScanUndoesText(p: Path, first: bool)
    requires forall s | s in p :: PrintableSegment(s)
    ensures Scan(Text(p, first)) == Ok(p)
    ensures !first && p != [] ==> Text(p, first) != "" && (Text(p, first)[0] == '.' || Text(p, first)[0] == '[')
  {
    if p != [] {
      assert p[0] in p && p == [p[0]] + p[1..];
      ScanUndoesText(p[1..], false);
      PieceReads(p[0], first, Text(p[1..], false));
    }
  }

  lemma {:induction false} ScanIsPrintable(s: string)
    ensures Scan(s).Ok? ==> forall seg | seg in Scan(s).value :: PrintableSegment(seg)
    decreases |s|
  {
    if s != "" {
      if s[0] == '[' {
        var end := IndexByte(s, ']');
        if end >= 0 && Bracket(s[1..end]).Ok? {
          ScanIsPrintable(s[end + 1..]);
          BracketIsPrintable(s, end);
          PrintableFirst(Bracket(s[1..end]).value, Scan(s[end + 1..]));
        }
      } else if s[0] == '.' {
        if |s| > 1 { ScanIsPrintable(s[1..]); }
      } else {
        ScanIsPrintable(s[NameEnd(s)..]);
        PrintableFirst(Field(s[..NameEnd(s)]), Scan(s[NameEnd(s)..]));
      }
    }
  }

  lemma {:induction false} BracketIsPrintable(s: string, end: int)
    requires s != "" && s[0] == '[' && end == IndexByte(s, ']') && end >= 0 && Bracket(s[1..end]).Ok?
    ensures PrintableSegment(Bracket(s[1..end]).value)
  {
    var inner := s[1..end];
    assert forall j | 0 <= j < |inner| :: inner[j] == s[j + 1];
    assert ']' !in inner;
  }

  lemma {:induction false} PrintableFirst(seg: Segment, r: Result<Path>)
    requires PrintableSegment(seg) && (r.Ok? ==> forall s | s in r.value :: PrintableSegment(s))
    ensures Prepend([seg], r).Ok? ==> forall s | s in Prepend([seg], r).value :: PrintableSegment(s)
  {}

  /** Parsing undoes printing on exactly the printable paths. */
  lemma {:induction false} ParseUndoesPrint(p: Path)
    ensures Parse(Print(p)) == Ok(p) <==> Printable(p)
  {
    ScanIsPrintable(Print(p));
    if Printable(p) {
      ScanUndoesText(p, true);
      assert Print(p) != "" by {
        assert p[0] in p;
      }
    }
  }

  /** Whatever parses reads back as the same path after printing. */
  lemma {:induction false} PrintUndoesParse(s: string)
    requires Parse(s).Ok?
    ensures Printable(Parse(s).value)
    ensures Parse(Print(Parse(s).value)) == Parse(s)
  {
    ScanIsPrintable(s);
    ParseUndoesPrint(Parse(s).value);
  }

  /** Two printable paths with one text are one path: maps may be keyed by the text. */
  lemma {:induction false} PrintIsInjective(p: Path, q: Path)
    requires Printable(p) && Printable(q) && Print(p) == Print(q)
    ensures p == q
  {
    ParseUndoesPrint(p);
    ParseUndoesPrint(q);
  }
}
