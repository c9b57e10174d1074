/**
 How JSON.stringify quotes a string (section 7 of RFC 8259 and QuoteJSONString of ECMA-262): short escapes,
 four-digit escapes for other control characters and for lone surrogates, everything else as it is.
 */
module JsonString {
  import opened Wrappers
  import opened JsonNumber

  const QUOTE: Unit := 0x22
  const BACKSLASH: Unit := 0x5C
  const LOWER_U: Unit := 0x75

  predicate High(c: Unit) { 0xD800 <= c <= 0xDBFF }

  predicate Low(c: Unit) { 0xDC00 <= c <= 0xDFFF }

  predicate Paired(s: Text) { |s| >= 2 && High(s[0]) && Low(s[1]) }

  function HexDigit(d: int): Unit
    requires 0 <= d < 16
  {
    if d < 10 then 0x30 + d else 0x57 + d
  }

  function UnicodeEscape(c: Unit): Text
  {
    [BACKSLASH, LOWER_U, HexDigit(c / 4096), HexDigit(c / 256 % 16), HexDigit(c / 16 % 16), HexDigit(c % 16)]
  }

  function EscapeUnit(c: Unit): Text
  {
    if c == 0x08 then [BACKSLASH, 0x62]
    else if c == 0x09 then [BACKSLASH, 0x74]
    else if c == 0x0A then [BACKSLASH, 0x6E]
    else if c == 0x0C then [BACKSLASH, 0x66]
    else if c == 0x0D then [BACKSLASH, 0x72]
    else if c == QUOTE || c == BACKSLASH then [BACKSLASH, c]
    else if c < 0x20 || High(c) || Low(c) then UnicodeEscape(c)
    else [c]
  }

  /** The code units at the front of a non-empty string that are printed together. */
  function Chunk(s: Text): (c: Text)
    requires s != []
    ensures c != [] && c <= s && |c| <= 2
  {
    if Paired(s) then s[..2] else s[..1]
  }

  function ChunkText(s: Text): (t: Text)
    requires s != []
    ensures t != []
  {
    if Paired(s) then s[..2] else EscapeUnit(s[0])
  }

  function Escaped(s: Text): Text
  {
    if s == [] then [] else ChunkText(s) + Escaped(s[|Chunk(s)|..])
  }

  function StringText(s: Text): Text { [QUOTE] + Escaped(s) + [QUOTE] }

  // ---------- Quoting is unambiguous ----------

  /** How many code units of a quoted text its first escape, pair or plain unit takes. */
  function Width(t: Text): nat
    requires t != []
  {
    if t[0] == BACKSLASH then if |t| >= 2 && t[1] == LOWER_U then 6 else 2
    else if High(t[0]) then 2
    else 1
  }

  lemma ChunkWidth(s: Text, rest: Text)
    requires s != []
    ensures Width(ChunkText(s) + rest) == |ChunkText(s)| && ChunkText(s)[0] != QUOTE
  {
  }

  lemma HexDigitExact(a: int, b: int)
    requires 0 <= a < 16 && 0 <= b < 16 && HexDigit(a) == HexDigit(b)
    ensures a == b
  {
  }

  lemma UnicodeEscapeExact(a: Unit, b: Unit)
    requires UnicodeEscape(a) == UnicodeEscape(b)
    ensures a == b
  {
    var x, y := UnicodeEscape(a), UnicodeEscape(b);
    assert x[2] == y[2] && x[3] == y[3] && x[4] == y[4] && x[5] == y[5];
    HexDigitExact(a / 4096, b / 4096);
    HexDigitExact(a / 256 % 16, b / 256 % 16);
    HexDigitExact(a / 16 % 16, b / 16 % 16);
    HexDigitExact(a % 16, b % 16);
    HexValue(a);
    HexValue(b);
  }

  lemma HexValue(c: Unit)
    ensures c == c / 4096 * 4096 + c / 256 % 16 * 256 + c / 16 % 16 * 16 + c % 16
  {
    assert c == c / 16 * 16 + c % 16;
    var d := c / 16;
    assert c / 256 == d / 16 && c / 4096 == d / 256;
    assert d == d / 16 * 16 + d % 16;
    var e := d / 16;
    assert d / 256 == e / 16 && e == e / 16 * 16 + e % 16;
  }

  lemma EscapeUnitExact(a: Unit, b: Unit)
    requires EscapeUnit(a) == EscapeUnit(b)
    ensures a == b
  {
    hide UnicodeEscape;
    EscapeShape(a);
    EscapeShape(b);
    if EscapeUnit(a) == UnicodeEscape(a) && EscapeUnit(b) == UnicodeEscape(b) {
      UnicodeEscapeExact(a, b);
    }
  }

  lemma EscapeShape(c: Unit)
    ensures |UnicodeEscape(c)| == 6 && (|EscapeUnit(c)| == 6 ==> EscapeUnit(c) == UnicodeEscape(c))
    ensures |EscapeUnit(c)| == 1 ==> EscapeUnit(c) == [c] && !High(c) && !Low(c) && c != BACKSLASH && c != QUOTE
    ensures |EscapeUnit(c)| in {1, 2, 6} && (|EscapeUnit(c)| >= 2 ==> EscapeUnit(c)[0] == BACKSLASH)
  {
  }

  lemma ChunkExact(a: Text, b: Text)
    requires a != [] && b != [] && ChunkText(a) == ChunkText(b)
    ensures Chunk(a) == Chunk(b)
  {
    hide EscapeUnit;
    EscapeShape(a[0]);
    EscapeShape(b[0]);
    if !Paired(a) && !Paired(b) { EscapeUnitExact(a[0], b[0]); }
  }

  /** Two quoted strings at the front of the same text are the same string. */
  lemma {:induction false} EscapedUnambiguous(a: Text, b: Text, u: Text, v: Text)
    requires Escaped(a) + [QUOTE] + u == Escaped(b) + [QUOTE] + v
    ensures a == b && u == v
    decreases |a|
  {
    hide ChunkText;
    var x, y := Escaped(a) + [QUOTE] + u, Escaped(b) + [QUOTE] + v;
    if a != [] { EscapedHead(a, u); }
    if b != [] { EscapedHead(b, v); }
    if a != [] && b != [] {
      var ra, rb := a[|Chunk(a)|..], b[|Chunk(b)|..];
      assert ChunkText(a) == x[..|ChunkText(a)|] == y[..|ChunkText(b)|] == ChunkText(b);
      ChunkExact(a, b);
      assert x[|ChunkText(a)|..] == y[|ChunkText(b)|..];
      EscapedUnambiguous(ra, rb, u, v);
      assert a == Chunk(a) + ra && b == Chunk(b) + rb;
    } else if a == [] && b == [] {
      assert x[1..] == u && y[1..] == v;
    }
  }

  lemma EscapedHead(a: Text, u: Text)
    requires a != []
    ensures var x, c := Escaped(a) + [QUOTE] + u, ChunkText(a);
            && |c| <= |x| && x[..|c|] == c && x[0] != QUOTE && Width(x) == |c|
            && x[|c|..] == Escaped(a[|Chunk(a)|..]) + [QUOTE] + u
  {
    var rest := Escaped(a[|Chunk(a)|..]) + [QUOTE] + u;
    assert Escaped(a) + [QUOTE] + u == ChunkText(a) + rest;
    ChunkWidth(a, rest);
  }

  lemma StringUnambiguous(a: Text, b: Text, u: Text, v: Text)
    requires StringText(a) + u == StringText(b) + v
    ensures a == b && u == v
  {
    assert (StringText(a) + u)[1..] == Escaped(a) + [QUOTE] + u;
    assert (StringText(b) + v)[1..] == Escaped(b) + [QUOTE] + v;
    EscapedUnambiguous(a, b, u, v);
  }

  // ---------- Quoted text is well-formed UTF-16, and UTF-8 keeps it apart ----------

  predicate WellFormed(t: Text)
  {
    if t == [] then true
    else if Paired(t) then WellFormed(t[2..])
    else !High(t[0]) && !Low(t[0]) && WellFormed(t[1..])
  }

  lemma {:induction false} JoinWellFormed(a: Text, b: Text)
    requires WellFormed(a) && WellFormed(b)
    ensures WellFormed(a + b)
  {
    if a == [] {
      assert a + b == b;
    } else if Paired(a) {
      JoinWellFormed(a[2..], b);
      assert (a + b)[2..] == a[2..] + b;
    } else {
      JoinWellFormed(a[1..], b);
      assert (a + b)[1..] == a[1..] + b;
    }
  }

  lemma {:induction false} PlainWellFormed(t: Text)
    requires forall i | 0 <= i < |t| :: t[i] < 0xD800
    ensures WellFormed(t)
  {
    if t != [] { PlainWellFormed(t[1..]); }
  }

  lemma {:induction false} EscapedWellFormed(s: Text)
    ensures WellFormed(Escaped(s))
  {
    if s != [] {
      EscapedWellFormed(s[|Chunk(s)|..]);
      ChunkWellFormed(s);
      JoinWellFormed(ChunkText(s), Escaped(s[|Chunk(s)|..]));
    }
  }

  lemma ChunkWellFormed(s: Text)
    requires s != []
    ensures WellFormed(ChunkText(s))
  {
    if Paired(s) {
      assert s[..2][2..] == [];
    } else if |EscapeUnit(s[0])| > 1 {
      PlainWellFormed(EscapeUnit(s[0]));
    } else {
      assert EscapeUnit(s[0])[1..] == [];
    }
  }

  lemma StringWellFormed(s: Text)
    ensures WellFormed(StringText(s))
  {
    EscapedWellFormed(s);
    PlainWellFormed([QUOTE]);
    JoinWellFormed([QUOTE], Escaped(s));
    JoinWellFormed([QUOTE] + Escaped(s), [QUOTE]);
  }

  /** The code point of a surrogate pair. */
  function PairPoint(high: Unit, low: Unit): (p: int)
    requires High(high) && Low(low)
    ensures 0x1_0000 <= p < 0x11_0000
  {
    0x1_0000 + (high - 0xD800) * 0x400 + (low - 0xDC00)
  }

  /** UTF-8 of the front of a text (section 3 of RFC 3629); a lone surrogate becomes U+FFFD. */
  function FrontBytes(t: Text): (bytes: seq<Byte>)
    requires t != []
    ensures bytes != []
  {
    if Paired(t) then
      var p := PairPoint(t[0], t[1]);
      [0xF0 + p / 0x4_0000, 0x80 + p / 0x1000 % 64, 0x80 + p / 64 % 64, 0x80 + p % 64]
    else
      var c := if High(t[0]) || Low(t[0]) then 0xFFFD else t[0];
      if c < 0x80 then [c]
      else if c < 0x800 then [0xC0 + c / 64, 0x80 + c % 64]
      else [0xE0 + c / 4096, 0x80 + c / 64 % 64, 0x80 + c % 64]
  }

  function FrontLength(t: Text): nat { if Paired(t) then 2 else 1 }

  /** The bytes a hash is fed for a string. */
  function Utf8(t: Text): seq<Byte>
  {
    if t == [] then [] else FrontBytes(t) + Utf8(t[FrontLength(t)..])
  }

  function ByteWidth(b: Byte): nat
  {
    if b < 0x80 then 1 else if b < 0xE0 then 2 else if b < 0xF0 then 3 else 4
  }

  lemma FrontWidth(t: Text)
    requires t != []
    ensures |FrontBytes(t)| == ByteWidth(FrontBytes(t)[0])
  {
  }

  lemma PairExact(a: Text, b: Text)
    requires Paired(a) && Paired(b) && FrontBytes(a) == FrontBytes(b)
    ensures a[0] == b[0] && a[1] == b[1]
  {
    var p, q := PairPoint(a[0], a[1]), PairPoint(b[0], b[1]);
    var x, y := FrontBytes(a), FrontBytes(b);
    assert x[0] == y[0] && x[1] == y[1] && x[2] == y[2] && x[3] == y[3];
    PointDigits(p);
    PointDigits(q);
    assert p == q;
  }

  lemma PointDigits(p: nat)
    ensures p == p / 0x4_0000 * 0x4_0000 + p / 0x1000 % 64 * 0x1000 + p / 64 % 64 * 64 + p % 64
  {
    var q := p / 64;
    assert p == q * 64 + p % 64;
    var r := q / 64;
    assert q == r * 64 + q % 64 && p / 0x1000 == r;
    assert r == r / 64 * 64 + r % 64 && p / 0x4_0000 == r / 64;
  }

  lemma SingleExact(a: Unit, b: Unit)
    requires !High(a) && !Low(a) && !High(b) && !Low(b) && FrontBytes([a]) == FrontBytes([b])
    ensures a == b
  {
    var x, y := FrontBytes([a]), FrontBytes([b]);
    assert x[0] == y[0] && |x| == |y|;
    if |x| >= 2 { assert x[1] == y[1]; }
    if |x| >= 3 { assert x[2] == y[2]; }
    SingleDigits(a);
    SingleDigits(b);
  }

  lemma SingleDigits(c: Unit)
    ensures c == c / 4096 * 4096 + c / 64 % 64 * 64 + c % 64 && c == c / 64 * 64 + c % 64
  {
  }

  /** UTF-8 keeps well-formed texts apart. */
  lemma {:induction false} Utf8Exact(a: Text, b: Text)
    requires WellFormed(a) && WellFormed(b) && Utf8(a) == Utf8(b)
    ensures a == b
    decreases |a|
  {
    hide FrontBytes;
    if a != [] && b != [] {
      var ra, rb := a[FrontLength(a)..], b[FrontLength(b)..];
      FrontWidth(a);
      FrontWidth(b);
      assert Utf8(a)[0] == FrontBytes(a)[0] && Utf8(b)[0] == FrontBytes(b)[0];
      assert FrontBytes(a) == Utf8(a)[..|FrontBytes(a)|] == Utf8(b)[..|FrontBytes(b)|] == FrontBytes(b);
      assert Utf8(ra) == Utf8(a)[|FrontBytes(a)|..] == Utf8(b)[|FrontBytes(b)|..] == Utf8(rb);
      FrontExact(a, b);
      Utf8Exact(ra, rb);
      assert a == a[..FrontLength(a)] + ra && b == b[..FrontLength(b)] + rb;
    }
  }

  lemma FrontExact(a: Text, b: Text)
    requires WellFormed(a) && WellFormed(b) && a != [] && b != [] && FrontBytes(a) == FrontBytes(b)
    ensures FrontLength(a) == FrontLength(b) && a[..FrontLength(a)] == b[..FrontLength(b)]
  {
    FrontShape(a);
    FrontShape(b);
    hide FrontBytes;
    if Paired(a) && Paired(b) {
      PairExact(a, b);
    } else if !Paired(a) && !Paired(b) {
      SingleExact(a[0], b[0]);
    }
  }

  lemma FrontShape(t: Text)
    requires t != []
    ensures Paired(t) <==> |FrontBytes(t)| == 4
    ensures !Paired(t) ==> FrontBytes(t) == FrontBytes([t[0]])
  {
  }
}
