/**
 A reader of JSON texts without white space (RFC 8259) and of UTF-8 (RFC 3629), written from the standards: what is
 hashed and signed is the UTF-8 of a JSON text that reads back as the very value, with its keys in order.
 */
module JsonReading {
  import opened Wrappers
  import opened JsonNumber
  import opened JsonString
  import opened CanonicalJson
  import opened CommandReceipt
  import opened Utf8Reading

  // ---------- Numbers ----------

  /** How many units at the front can belong to a number. */
  function NumberLength(t: Text): (n: nat)
    ensures n <= |t|
  {
    if t != [] && (0x30 <= t[0] <= 0x39 || t[0] in {0x2B, 0x2D, 0x2E, 0x65}) then 1 + NumberLength(t[1..]) else 0
  }

  function Signed(negative: bool, m: Magnitude): Number
  {
    if m.digits == [] then Zero(negative) else Decimal(negative, m.digits, m.point)
  }

  function ReadNumber(t: Text): Number
  {
    if t != [] && t[0] == 0x2D then Signed(true, ReadMagnitude(t[1..])) else Signed(false, ReadMagnitude(t))
  }

  lemma NumberReadsBack(n: Number)
    requires n.Valid() && !n.NonFinite?
    ensures SameNumber(n, ReadNumber(NumberText(n)))
  {
    ZeroReads();
    hide ReadMagnitude;
    if n.Decimal? {
      MagnitudeRoundTrip(n.digits, n.point);
      MagnitudeUnsigned(n);
      hide MagnitudeText;
      var m := MagnitudeText(n.digits, n.point);
      if n.negative { assert NumberText(n)[1..] == m; }
    }
  }

  /** Which form a number is printed in. */
  lemma FormIff(digits: Text, point: int)
    requires Shortest(digits)
    ensures var t := MagnitudeText(digits, point);
            && t != [] && (t[0] == 0x30 <==> -6 < point <= 0)
            && (0x65 in t <==> point <= -6 || 21 < point)
            && (0x2E in t <==> if -6 < point <= 21 then point < |digits| else 1 < |digits|)
  {
    SignedUnits(point - 1);
    SignedDigits(point - 1);
    hide SignedText;
    var t := MagnitudeText(digits, point);
    if -6 < point <= 0 {
      assert t[1] == 0x2E;
    } else if 0 < point < |digits| && point <= 21 {
      assert t[point] == 0x2E;
    } else if point > 21 || point <= -6 {
      if |digits| > 1 { assert t[1] == 0x2E; }
      assert t[if |digits| > 1 then |digits| + 1 else 1] == 0x65;
    }
  }

  lemma SignedDigits(e: int)
    ensures 0x2E !in SignedText(e)
  {
  }

  lemma {:induction false} NumberEnds(s: Text, u: Text)
    requires AllNumberUnits(s) && Stop(u)
    ensures NumberLength(s + u) == |s|
  {
    if s != [] {
      assert (s + u)[1..] == s[1..] + u;
      NumberEnds(s[1..], u);
    } else {
      assert s + u == u;
    }
  }

  // ---------- Strings ----------

  predicate Hex(c: Unit) { 0x30 <= c <= 0x39 || 0x41 <= c <= 0x46 || 0x61 <= c <= 0x66 }

  function HexOf(c: Unit): (d: int)
    requires Hex(c)
    ensures 0 <= d < 16
  {
    if c <= 0x39 then c - 0x30 else if c <= 0x46 then c - 0x37 else c - 0x57
  }

  /** The unit that an escape, or a unit that stands for itself, gives at the front of a string, and its width. */
  function ReadUnit(t: Text): (r: Option<(Unit, nat)>)
    requires t != []
    ensures r.Some? ==> 1 <= r.value.1 <= |t|
  {
    if t[0] == 0x5C then
      if |t| < 2 then None
      else if t[1] in {0x22, 0x5C, 0x2F} then Some((t[1], 2))
      else if t[1] == 0x62 then Some((0x08, 2))
      else if t[1] == 0x66 then Some((0x0C, 2))
      else if t[1] == 0x6E then Some((0x0A, 2))
      else if t[1] == 0x72 then Some((0x0D, 2))
      else if t[1] == 0x74 then Some((0x09, 2))
      else if t[1] == 0x75 && |t| >= 6 && Hex(t[2]) && Hex(t[3]) && Hex(t[4]) && Hex(t[5]) then
        Some((HexOf(t[2]) * 4096 + HexOf(t[3]) * 256 + HexOf(t[4]) * 16 + HexOf(t[5]), 6))
      else None
    else if t[0] == 0x22 || t[0] < 0x20 then None
    else Some((t[0], 1))
  }

  /** The string up to its closing quote, and what follows. */
  function ReadChars(t: Text): (r: Option<(Text, Text)>)
    ensures r.Some? ==> |r.value.1| < |t|
    decreases |t|
  {
    if t == [] then None
    else if t[0] == 0x22 then Some(([], t[1..]))
    else
      var first := ReadUnit(t);
      if first.None? then None
      else
        var rest := ReadChars(t[first.value.1..]);
        if rest.None? then None else Some(([first.value.0] + rest.value.0, rest.value.1))
  }

  lemma DigitReads(d: int)
    requires 0 <= d < 16
    ensures var c := HexDigit(d); Hex(c) && HexOf(c) == d && !(0x41 <= c <= 0x46)
  {
  }

  lemma UnicodeReads(c: Unit, rest: Text)
    ensures ReadUnit(UnicodeEscape(c) + rest) == Some((c, 6))
  {
    DigitReads(c / 4096);
    DigitReads(c / 256 % 16);
    DigitReads(c / 16 % 16);
    DigitReads(c % 16);
    HexValue(c);
    hide Hex, HexOf, HexDigit;
    var t := UnicodeEscape(c) + rest;
    assert t[0] == 0x5C && t[1] == 0x75 && t[2] == HexDigit(c / 4096) && t[3] == HexDigit(c / 256 % 16);
    assert t[4] == HexDigit(c / 16 % 16) && t[5] == HexDigit(c % 16);
  }

  lemma UnitReads(c: Unit, rest: Text)
    ensures ReadUnit(EscapeUnit(c) + rest) == Some((c, |EscapeUnit(c)|)) && EscapeUnit(c)[0] != 0x22
  {
    UnicodeReads(c, rest);
    hide UnicodeEscape, HexOf, Hex;
    EscapeShape(c);
  }

  /** Only what has to be escaped is, in the shortest way; a lone surrogate is escaped although it need not be. */
  lemma EscapeIsShortest(c: Unit, e: Text)
    requires e != [] && ReadUnit(e) == Some((c, |e|))
    ensures if 0xD800 <= c <= 0xDFFF then |EscapeUnit(c)| == 6 else |EscapeUnit(c)| <= |e|
  {
    hide HexOf, Hex, HexDigit;
  }

  lemma {:induction false} CharsRead(s: Text, rest: Text)
    ensures ReadChars(Escaped(s) + ([0x22] + rest)) == Some((s, rest))
    decreases |s|
  {
    hide ReadChars, EscapeUnit;
    if s != [] {
      var n := |Chunk(s)|;
      CharsRead(s[n..], rest);
      ChunkFirst(s, [0x22] + rest);
      var more := Escaped(s[n..]) + ([0x22] + rest);
      hide Escaped;
      if Paired(s) { PairRead(s, more, s[2..], rest); } else { OneRead(s, more, s[1..], rest); }
    } else {
      QuoteRead(rest);
      assert [] + ([0x22] + rest) == [0x22] + rest;
    }
  }

  lemma QuoteRead(rest: Text)
    ensures ReadChars([0x22] + rest) == Some(([], rest))
  {
    assert ([0x22] + rest)[1..] == rest;
  }

  lemma ChunkFirst(s: Text, after: Text)
    requires s != []
    ensures Escaped(s) + after == ChunkText(s) + (Escaped(s[|Chunk(s)|..]) + after)
  {
    hide ChunkText;
  }

  lemma OneRead(s: Text, more: Text, s': Text, rest: Text)
    requires s != [] && s' == s[1..] && ReadChars(more) == Some((s', rest))
    ensures ReadChars(EscapeUnit(s[0]) + more) == Some((s, rest))
  {
    UnitReads(s[0], more);
    hide EscapeUnit, ReadUnit;
    var t := EscapeUnit(s[0]) + more;
    assert t[|EscapeUnit(s[0])|..] == more;
    assert s == [s[0]] + s[1..];
  }

  /** A pair is two units that stand for themselves. */
  lemma PairRead(s: Text, more: Text, s': Text, rest: Text)
    requires Paired(s) && s' == s[2..] && ReadChars(more) == Some((s', rest))
    ensures ReadChars(s[..2] + more) == Some((s, rest))
  {
    var t := s[..2] + more;
    PlainRead(s[1], more, s', rest);
    PlainRead(s[0], [s[1]] + more, [s[1]] + s', rest);
    hide ReadChars;
    assert t == [s[0]] + ([s[1]] + more);
    assert s == [s[0]] + ([s[1]] + s');
  }

  lemma PlainRead(c: Unit, more: Text, s: Text, rest: Text)
    requires c >= 0x20 && c != 0x22 && c != 0x5C && ReadChars(more) == Some((s, rest))
    ensures ReadChars([c] + more) == Some(([c] + s, rest))
  {
    assert ([c] + more)[1..] == more;
  }

  /** Reading a quoted string gives it back. */
  lemma StringReadsBack(s: Text, rest: Text)
    ensures var t := StringText(s) + rest; t != [] && t[0] == 0x22 && ReadChars(t[1..]) == Some((s, rest))
  {
    CharsRead(s, rest);
    hide ReadChars, Escaped;
    var body := Escaped(s);
    assert StringText(s) + rest == [0x22] + (body + ([0x22] + rest));
  }

  // ---------- Values ----------

  /** The value at the front of a text, and what follows it. */
  function ReadValue(t: Text): (r: Option<(Json, Text)>)
    ensures r.Some? ==> |r.value.1| < |t|
    decreases |t|, 0
  {
    if t == [] then None
    else if [0x6E, 0x75, 0x6C, 0x6C] <= t then Some((Null, t[4..]))
    else if [0x74, 0x72, 0x75, 0x65] <= t then Some((Bool(true), t[4..]))
    else if [0x66, 0x61, 0x6C, 0x73, 0x65] <= t then Some((Bool(false), t[5..]))
    else if t[0] == 0x22 then
      var text := ReadChars(t[1..]);
      if text.None? then None else Some((Str(text.value.0), text.value.1))
    else if t[0] == 0x5B then
      if |t| > 1 && t[1] == 0x5D then Some((Arr([]), t[2..]))
      else
        var items := ReadItems(t[1..]);
        if items.None? then None else Some((Arr(items.value.0), items.value.1))
    else if t[0] == 0x7B then
      if |t| > 1 && t[1] == 0x7D then Some((Obj([]), t[2..]))
      else
        var members := ReadMembers(t[1..]);
        if members.None? then None else Some((Obj(members.value.0), members.value.1))
    else if NumberLength(t) > 0 then Some((Num(ReadNumber(t[..NumberLength(t)])), t[NumberLength(t)..]))
    else None
  }

  /** One value or more, with commas between them, up to the closing bracket. */
  function ReadItems(t: Text): (r: Option<(seq<Json>, Text)>)
    ensures r.Some? ==> |r.value.1| < |t|
    decreases |t|, 1
  {
    var first := ReadValue(t);
    if first.None? || first.value.1 == [] then None
    else if first.value.1[0] == 0x5D then Some(([first.value.0], first.value.1[1..]))
    else if first.value.1[0] != 0x2C then None
    else
      var more := ReadItems(first.value.1[1..]);
      if more.None? then None else Some(([first.value.0] + more.value.0, more.value.1))
  }

  /** A key, a colon and a value. */
  function ReadEntry(t: Text): (r: Option<(Entry<Json>, Text)>)
    ensures r.Some? ==> |r.value.1| < |t|
    decreases |t|, 1
  {
    if t == [] || t[0] != 0x22 then None
    else
      var key := ReadChars(t[1..]);
      if key.None? || key.value.1 == [] || key.value.1[0] != 0x3A then None
      else
        var value := ReadValue(key.value.1[1..]);
        if value.None? then None else Some((Entry(key.value.0, value.value.0), value.value.1))
  }

  function ReadMembers(t: Text): (r: Option<(seq<Entry<Json>>, Text)>)
    ensures r.Some? ==> |r.value.1| < |t|
    decreases |t|, 2
  {
    var first := ReadEntry(t);
    if first.None? || first.value.1 == [] then None
    else if first.value.1[0] == 0x7D then Some(([first.value.0], first.value.1[1..]))
    else if first.value.1[0] != 0x2C then None
    else
      var more := ReadMembers(first.value.1[1..]);
      if more.None? then None else Some(([first.value.0] + more.value.0, more.value.1))
  }

  ghost predicate BeforeAt(a: Text, b: Text, n: nat)
  {
    n <= |a| && n < |b| && a[..n] == b[..n] && (n == |a| || a[n] < b[n])
  }

  /** At the first place where they differ, the earlier text ends or has the smaller code unit. */
  ghost predicate Before(a: Text, b: Text) { exists n: nat :: BeforeAt(a, b, n) }

  lemma HeadAt(a: Text, b: Text, n: nat)
    requires BeforeAt(a, b, n)
    ensures b != [] && (n == 0 ==> a == [] || a[0] < b[0])
    ensures n > 0 ==> a != [] && a[0] == b[0] && BeforeAt(a[1..], b[1..], n - 1)
  {
    if n > 0 {
      assert a[..n][0] == b[..n][0];
      assert a[1..][..n - 1] == a[..n][1..] == b[..n][1..] == b[1..][..n - 1];
    }
  }

  lemma TailAt(a: Text, b: Text, n: nat)
    requires a != [] && b != [] && a[0] == b[0] && BeforeAt(a[1..], b[1..], n)
    ensures BeforeAt(a, b, n + 1)
  {
    assert a[..n + 1] == [a[0]] + a[1..][..n] && b[..n + 1] == [b[0]] + b[1..][..n];
  }

  lemma {:induction false} LessIsBefore(a: Text, b: Text)
    ensures Less(a, b) <==> Before(a, b)
  {
    if a != [] && b != [] && a[0] == b[0] { LessIsBefore(a[1..], b[1..]); }
    if n: nat :| BeforeAt(a, b, n) { HeadAt(a, b, n); }
    if Less(a, b) {
      if a != [] && a[0] == b[0] {
        var n: nat :| BeforeAt(a[1..], b[1..], n);
        TailAt(a, b, n);
      } else {
        assert BeforeAt(a, b, 0);
      }
    }
  }

  /** Every object has its keys in increasing order, so no key twice. */
  ghost predicate Ordered(v: Json)
  {
    match v
    case Arr(items) => forall i | 0 <= i < |items| :: Ordered(items[i])
    case Obj(members) =>
      && (forall i, j | 0 <= i < j < |members| :: Before(members[i].key, members[j].key))
      && forall i | 0 <= i < |members| :: Ordered(members[i].value)
    case _ => true
  }

  // ---------- Reading back what was printed ----------

  /** The text starts with a print of the value, up to the same rest. */
  ghost predicate Gives(v: Json, t: Text, u: Text)
  {
    var r := ReadValue(t);
    r.Some? && r.value.1 == u && Same(v, r.value.0) && Ordered(r.value.0)
  }

  ghost predicate ItemsGiven(xs: seq<Json>, t: Text, u: Text)
  {
    var r := ReadItems(t);
    && r.Some? && r.value.1 == u && |r.value.0| == |xs|
    && forall i | 0 <= i < |xs| :: Same(xs[i], r.value.0[i]) && Ordered(r.value.0[i])
  }

  ghost predicate Copies(x: Entry<Json>, y: Entry<Json>) { x.key == y.key && Same(x.value, y.value) && Ordered(y.value) }

  ghost predicate EntryGiven(x: Entry<Json>, t: Text, u: Text)
  {
    var r := ReadEntry(t);
    r.Some? && r.value.1 == u && Copies(x, r.value.0)
  }

  ghost predicate MembersGiven(xs: seq<Entry<Json>>, t: Text, u: Text)
  {
    var r := ReadMembers(t);
    && r.Some? && r.value.1 == u && |r.value.0| == |xs|
    && forall i | 0 <= i < |xs| :: Copies(xs[i], r.value.0[i])
  }

  lemma PlainReadsBack(v: Json, u: Text)
    requires Printable(v) && Stop(u) && !v.Arr? && !v.Obj?
    ensures Gives(v, Print(v) + u, u)
  {
    match v
    case Num(n) => NumReadsBack(n, u);
    case Str(text) => StrReadsBack(text, u);
    case Bool(b) => WordReadsBack(v, u);
    case Null => WordReadsBack(v, u);
  }

  lemma WordReadsBack(v: Json, u: Text)
    requires v.Null? || v.Bool?
    ensures Gives(v, Print(v) + u, u)
  {
    hide ReadChars, ReadItems, ReadMembers, NumberLength;
    var t := Print(v) + u;
    assert t[0] == Print(v)[0] && Print(v) <= t && t[|Print(v)|..] == u;
  }

  lemma NumberValue(t: Text)
    requires t != [] && t[0] !in {0x6E, 0x74, 0x66, 0x22, 0x5B, 0x7B} && NumberLength(t) > 0
    ensures ReadValue(t) == Some((Num(ReadNumber(t[..NumberLength(t)])), t[NumberLength(t)..]))
  {
    hide ReadNumber, ReadChars, ReadItems, ReadMembers, NumberLength;
  }

  lemma ArrayValue(t: Text)
    requires |t| > 1 && t[0] == 0x5B
    ensures ReadValue(t)
            == if t[1] == 0x5D then Some((Arr([]), t[2..]))
               else if ReadItems(t[1..]).None? then None
               else Some((Arr(ReadItems(t[1..]).value.0), ReadItems(t[1..]).value.1))
  {
    hide ReadNumber, ReadChars, ReadItems, ReadMembers, NumberLength;
  }

  lemma ObjectValue(t: Text)
    requires |t| > 1 && t[0] == 0x7B
    ensures ReadValue(t)
            == if t[1] == 0x7D then Some((Obj([]), t[2..]))
               else if ReadMembers(t[1..]).None? then None
               else Some((Obj(ReadMembers(t[1..]).value.0), ReadMembers(t[1..]).value.1))
  {
    hide ReadNumber, ReadChars, ReadItems, ReadMembers, NumberLength;
  }

  lemma NumReadsBack(n: Number, u: Text)
    requires Printable(Num(n)) && Stop(u)
    ensures Gives(Num(n), NumberText(n) + u, u)
  {
    NumberUnits(n);
    NumberReadsBack(n);
    NumberTag(n, u);
    hide NumberText;
    NumberEnds(NumberText(n), u);
    hide ReadNumber, NumberLength, AllNumberUnits, Stop, SameNumber, ReadValue;
    var text := NumberText(n);
    var t := text + u;
    NumberValue(t);
    CutAt(text, u);
  }

  lemma CutAt(a: Text, b: Text)
    ensures (a + b)[..|a|] == a && (a + b)[|a|..] == b
  {
  }

  lemma NumberTag(n: Number, u: Text)
    requires Printable(Num(n))
    ensures var t := NumberText(n) + u; t != [] && t[0] !in {0x6E, 0x74, 0x66, 0x22, 0x5B, 0x7B}
  {
    NumberUnits(n);
    hide NumberText;
    assert (NumberText(n) + u)[0] == NumberText(n)[0];
  }

  lemma StrReadsBack(text: Text, u: Text)
    ensures Gives(Str(text), StringText(text) + u, u)
  {
    StringReadsBack(text, u);
    hide StringText, ReadChars;
  }

  lemma ItemStep(x: Json, xs: seq<Json>, t: Text, rest: Text, u: Text)
    requires Gives(x, t, rest) && rest != []
    requires if xs == [] then rest[0] == 0x5D && rest[1..] == u else rest[0] == 0x2C && ItemsGiven(xs, rest[1..], u)
    ensures ItemsGiven([x] + xs, t, u)
  {
    hide ReadValue, Same, Ordered;
    if xs != [] {
      var more := ReadItems(rest[1..]).value.0;
      assert forall i | 0 <= i < |xs| :: ([x] + xs)[i + 1] == xs[i];
      assert ReadItems(t).value.0 == [ReadValue(t).value.0] + more;
    }
  }

  lemma {:induction false} ItemsReadBack(whole: Json, xs: seq<Json>, u: Text)
    requires xs != [] && forall i | 0 <= i < |xs| :: Printable(xs[i]) && xs[i] < whole
    ensures ItemsGiven(xs, Joined(PrintItems(xs)) + [CLOSE_ARRAY] + u, u)
    decreases whole, 0, |xs|
  {
    hide Print, Joined, Stop, Gives, ItemsGiven;
    var ps := PrintItems(xs);
    JoinedFront(ps, CLOSE_ARRAY, u);
    var rest := After(ps, CLOSE_ARRAY, u);
    ReadsBack(xs[0], rest);
    if |xs| > 1 {
      assert ps[1..] == PrintItems(xs[1..]);
      ItemsReadBack(whole, xs[1..], u);
    }
    ItemStep(xs[0], xs[1..], ps[0] + rest, rest, u);
    assert [xs[0]] + xs[1..] == xs;
  }

  lemma EntryReads(x: Entry<Json>, rest: Text)
    requires Printable(x.value) && Gives(x.value, Print(x.value) + rest, rest)
    ensures EntryGiven(x, StringText(x.key) + [COLON] + Print(x.value) + rest, rest)
  {
    hide Print, Printable, ReadValue, Same, Ordered, ReadChars, StringText;
    var more := [COLON] + Print(x.value) + rest;
    StringReadsBack(x.key, more);
    assert StringText(x.key) + [COLON] + Print(x.value) + rest == StringText(x.key) + more;
    assert more[1..] == Print(x.value) + rest;
  }

  lemma MemberUnroll(t: Text)
    requires var first := ReadEntry(t); first.Some? && first.value.1 != []
    ensures var first, rest := ReadEntry(t).value.0, ReadEntry(t).value.1;
            ReadMembers(t)
            == if rest[0] == 0x7D then Some(([first], rest[1..]))
               else if rest[0] != 0x2C || ReadMembers(rest[1..]).None? then None
               else Some(([first] + ReadMembers(rest[1..]).value.0, ReadMembers(rest[1..]).value.1))
  {
    hide ReadEntry;
  }

  lemma CopiesNext(x: Entry<Json>, y: Entry<Json>, xs: seq<Entry<Json>>, ys: seq<Entry<Json>>)
    requires Copies(x, y) && |xs| == |ys| && forall i | 0 <= i < |xs| :: Copies(xs[i], ys[i])
    ensures forall i | 0 <= i < |[x] + xs| :: Copies(([x] + xs)[i], ([y] + ys)[i])
  {
    hide Copies;
  }

  lemma MemberStep(x: Entry<Json>, xs: seq<Entry<Json>>, t: Text, rest: Text, u: Text)
    requires EntryGiven(x, t, rest) && rest != []
    requires if xs == [] then rest[0] == 0x7D && rest[1..] == u else rest[0] == 0x2C && MembersGiven(xs, rest[1..], u)
    ensures MembersGiven([x] + xs, t, u)
  {
    MemberUnroll(t);
    hide ReadEntry, Copies, ReadMembers;
    if xs != [] {
      var more := ReadMembers(rest[1..]).value.0;
      CopiesNext(x, ReadEntry(t).value.0, xs, more);
    }
  }

  lemma {:induction false} MembersReadBack(whole: Json, xs: seq<Entry<Json>>, u: Text)
    requires xs != [] && forall i | 0 <= i < |xs| :: Printable(xs[i].value) && xs[i].value < whole
    ensures MembersGiven(xs, Joined(EntryTexts(PrintMembers(xs))) + [CLOSE_OBJECT] + u, u)
    decreases whole, 0, |xs|
  {
    hide Print, Joined, Stop, Gives, EntryGiven, MembersGiven, PrintMembers, EntryTexts, StringText;
    var ps := EntryTexts(PrintMembers(xs));
    EntriesFront(xs);
    JoinedFront(ps, CLOSE_OBJECT, u);
    var rest := After(ps, CLOSE_OBJECT, u);
    ReadsBack(xs[0].value, rest);
    EntryReads(xs[0], rest);
    if |xs| > 1 { MembersReadBack(whole, xs[1..], u); }
    MemberStep(xs[0], xs[1..], ps[0] + rest, rest, u);
    assert [xs[0]] + xs[1..] == xs;
  }

  lemma ArrayReads(xs: seq<Json>, u: Text)
    requires Printable(Arr(xs))
    requires xs != [] ==> ItemsGiven(xs, (Print(Arr(xs)) + u)[1..], u)
    ensures Gives(Arr(xs), Print(Arr(xs)) + u, u)
  {
    var t := Print(Arr(xs)) + u;
    assert t[0] == 0x5B;
    ArrayText(xs, u);
    if xs == [] {
      assert t[1] == 0x5D && t[2..] == u;
    } else {
      PrintKind(xs[0]);
      assert KindAt(0x5D) == 0;
      JoinedLead(PrintItems(xs), CLOSE_ARRAY, u);
      hide Print, Joined, Printable, ReadItems, ReadValue, Stop, KindAt;
      assert t[1] == t[1..][0];
      ArrayValue(t);
      SameItems(xs, ReadItems(t[1..]).value.0);
      hide Same;
    }
  }

  lemma ObjectReads(ms: seq<Entry<Json>>, u: Text)
    requires Printable(Obj(ms))
    requires ms != [] ==> MembersGiven(Sort(ms), (Print(Obj(ms)) + u)[1..], u)
    ensures Gives(Obj(ms), Print(Obj(ms)) + u, u)
  {
    var t := Print(Obj(ms)) + u;
    assert t[0] == 0x7B;
    ObjectText(ms, u);
    if ms == [] {
      assert t[1] == 0x7D && t[2..] == u;
    } else {
      MembersStart(ms, u);
      var ws := ReadMembers(t[1..]).value.0;
      hide Print, Printable, ReadMembers, Sort, ReadValue;
      assert t[1] == t[1..][0] == 0x22;
      ObjectValue(t);
      CopiesOrdered(ms, ws);
      CopiesSame(ms, ws);
      hide Same, Ordered;
    }
  }

  lemma MembersStart(ms: seq<Entry<Json>>, u: Text)
    requires Printable(Obj(ms)) && ms != []
    ensures |Print(Obj(ms)) + u| > 1 && (Print(Obj(ms)) + u)[1..][0] == QUOTE
  {
    ObjectText(ms, u);
    SortMultiset(ms);
    hide Sort, Print, Joined;
    assert ms[0] in Sort(ms);
    EntriesFront(Sort(ms));
    JoinedLead(EntryTexts(PrintMembers(Sort(ms))), CLOSE_OBJECT, u);
  }

  lemma CopiesSame(ms: seq<Entry<Json>>, ws: seq<Entry<Json>>)
    requires DistinctKeys(ms)
    requires |ws| == |Sort(ms)| && forall i | 0 <= i < |ws| :: Copies(Sort(ms)[i], ws[i])
    ensures Same(Obj(ms), Obj(ws))
  {
    SortSorted(ms);
    hide Same, Ordered, Sort, StrictlySorted, DistinctKeys;
    forall k | 0 <= k < |ws| ensures SameEntry(Sort(ms)[k], ws[k]) {
      assert Copies(Sort(ms)[k], ws[k]);
    }
    hide Copies, SameEntry;
    SameFromSorted(ms, ws, Sort(ms), ws);
  }

  lemma CopiesOrdered(ms: seq<Entry<Json>>, ws: seq<Entry<Json>>)
    requires DistinctKeys(ms)
    requires |ws| == |Sort(ms)| && forall i | 0 <= i < |ws| :: Copies(Sort(ms)[i], ws[i])
    ensures Ordered(Obj(ws))
  {
    SortSorted(ms);
    hide Same, Sort;
    forall i, j | 0 <= i < j < |ws| ensures Before(ws[i].key, ws[j].key) {
      SortedAt(Sort(ms), i, j);
      LessIsBefore(ws[i].key, ws[j].key);
    }
  }

  lemma {:induction false} SortedAt<T>(es: seq<Entry<T>>, i: nat, j: nat)
    requires StrictlySorted(es) && i < j < |es|
    ensures Less(es[i].key, es[j].key)
  {
    if i > 0 { SortedAt(es[1..], i - 1, j - 1); } else { assert es[j] == es[1..][j - 1]; }
  }

  lemma {:induction false} ReadsBack(v: Json, u: Text)
    requires Printable(v) && Stop(u)
    ensures Gives(v, Print(v) + u, u)
    decreases v, 1, 0
  {
    match v
    case Arr(xs) =>
      ArrayText(xs, u);
      hide Stop, Print, Printable, Same;
      if xs != [] { ItemsReadBack(v, xs, u); }
      ArrayReads(xs, u);
    case Obj(ms) =>
      ObjectText(ms, u);
      hide Stop, Print, Printable, Same;
      if ms != [] { MembersReadBack(v, Sort(ms), u); }
      ObjectReads(ms, u);
    case _ => PlainReadsBack(v, u);
  }

  /**
   The bytes that are hashed or signed for a value are the UTF-8 of a JSON text of it: they read back as the text, and
   the text as the value, with the keys of every object in order.
   */
  lemma CanonicalReadsBack(v: Json)
    requires Printable(v)
    ensures FromUtf8(Utf8(Print(v))) == Some(Print(v))
    ensures var r := ReadValue(Print(v)); r.Some? && r.value.1 == [] && Same(v, r.value.0) && Ordered(r.value.0)
  {
    ReadsBack(v, []);
    PrintWellFormed(v);
    hide Print, ReadValue, Utf8, FromUtf8, Repaired;
    assert Print(v) + [] == Print(v);
    Utf8ReadsBack(Print(v));
    WellFormedKept(Print(v));
  }
}
