/**
 A reader of UTF-8, written from section 4 of RFC 3629: the bytes that are hashed and signed are the UTF-8 of the
 text, with U+FFFD for each lone surrogate.
 */
module Utf8Reading {
  import opened Wrappers
  import opened JsonNumber
  import opened JsonString

  predicate Trail(b: Byte) { 0x80 <= b <= 0xBF }

  /** Six more bits. */
  function More(high: int, trail: int): int { high * 64 + (trail - 0x80) }

  /** The code point of the shortest form at the front, and its width; surrogates have none. */
  function ReadPoint(b: seq<Byte>): (r: Option<(int, nat)>)
    requires b != []
    ensures r.Some? ==> 1 <= r.value.1 <= |b| && (0 <= r.value.0 < 0xD800 || 0xE000 <= r.value.0 < 0x11_0000)
  {
    if b[0] < 0x80 then Some((b[0], 1))
    else if 0xC2 <= b[0] <= 0xDF && |b| >= 2 && Trail(b[1]) then Some((More(b[0] - 0xC0, b[1]), 2))
    else if 0xE0 <= b[0] <= 0xEF && |b| >= 3 && Trail(b[1]) && Trail(b[2]) then
      var p := More(More(b[0] - 0xE0, b[1]), b[2]);
      if p < 0x800 || 0xD800 <= p <= 0xDFFF then None else Some((p, 3))
    else if 0xF0 <= b[0] <= 0xF4 && |b| >= 4 && Trail(b[1]) && Trail(b[2]) && Trail(b[3]) then
      var p := More(More(More(b[0] - 0xF0, b[1]), b[2]), b[3]);
      if p < 0x1_0000 || p > 0x10_FFFF then None else Some((p, 4))
    else None
  }

  /** A code point in UTF-16. */
  function UnitsOf(p: int): Text
    requires 0 <= p < 0x11_0000
  {
    if p < 0x1_0000 then [p] else [0xD800 + (p - 0x1_0000) / 0x400, 0xDC00 + (p - 0x1_0000) % 0x400]
  }

  function FromUtf8(b: seq<Byte>): Option<Text>
  {
    if b == [] then Some([])
    else
      var first := ReadPoint(b);
      if first.None? then None
      else
        var rest := FromUtf8(b[first.value.1..]);
        if rest.None? then None else Some(UnitsOf(first.value.0) + rest.value)
  }

  /** Each surrogate that is not half of a pair is replaced. */
  function Repaired(t: Text): Text
  {
    if t == [] then []
    else if |t| >= 2 && 0xD800 <= t[0] <= 0xDBFF && 0xDC00 <= t[1] <= 0xDFFF then t[..2] + Repaired(t[2..])
    else [if 0xD800 <= t[0] <= 0xDFFF then 0xFFFD else t[0]] + Repaired(t[1..])
  }

  function FrontPoint(t: Text): (p: int)
    requires t != []
    ensures 0 <= p < 0x11_0000
  {
    if Paired(t) then PairPoint(t[0], t[1]) else if High(t[0]) || Low(t[0]) then 0xFFFD else t[0]
  }

  lemma FrontRead(t: Text, more: seq<Byte>)
    requires t != []
    ensures ReadPoint(FrontBytes(t) + more) == Some((FrontPoint(t), |FrontBytes(t)|))
  {
    if Paired(t) { PairFront(t, more); } else { SingleFront(t, more); }
  }

  lemma PairFront(t: Text, more: seq<Byte>)
    requires Paired(t)
    ensures ReadPoint(FrontBytes(t) + more) == Some((FrontPoint(t), |FrontBytes(t)|))
  {
    var p := PairPoint(t[0], t[1]);
    PointDigits(p);
    var b := FrontBytes(t) + more;
    assert b[0] == 0xF0 + p / 0x4_0000 && b[1] == 0x80 + p / 0x1000 % 64;
    assert b[2] == 0x80 + p / 64 % 64 && b[3] == 0x80 + p % 64;
    hide PairPoint, FrontBytes;
    ThreeTrails(b);
  }

  lemma ThreeTrails(b: seq<Byte>)
    requires |b| >= 4 && 0xF0 <= b[0] <= 0xF4 && Trail(b[1]) && Trail(b[2]) && Trail(b[3])
    ensures var p := More(More(More(b[0] - 0xF0, b[1]), b[2]), b[3]);
            ReadPoint(b) == if p < 0x1_0000 || p > 0x10_FFFF then None else Some((p, 4))
  {
  }

  lemma SingleFront(t: Text, more: seq<Byte>)
    requires t != [] && !Paired(t)
    ensures ReadPoint(FrontBytes(t) + more) == Some((FrontPoint(t), |FrontBytes(t)|))
  {
    var c := FrontPoint(t);
    var b := FrontBytes(t) + more;
    if c < 0x80 {
      assert b[0] == c;
    } else if c < 0x800 {
      assert b[0] == 0xC0 + c / 64 && b[1] == 0x80 + c % 64;
    } else {
      assert b[0] == 0xE0 + c / 4096 && b[1] == 0x80 + c / 64 % 64 && b[2] == 0x80 + c % 64;
      assert |FrontBytes(t)| == 3;
      hide FrontPoint, FrontBytes, ReadPoint;
      ThreeBytes(c, b);
    }
  }

  lemma ThreeBytes(c: Unit, b: seq<Byte>)
    requires 0x800 <= c && !High(c) && !Low(c) && |b| >= 3
    requires b[0] == 0xE0 + c / 4096 && b[1] == 0x80 + c / 64 % 64 && b[2] == 0x80 + c % 64
    ensures ReadPoint(b) == Some((c, 3))
  {
    SingleDigits(c);
  }

  lemma FrontUnits(t: Text)
    requires t != []
    ensures Repaired(t) == UnitsOf(FrontPoint(t)) + Repaired(t[FrontLength(t)..])
  {
    hide Repaired;
    if Paired(t) {
      var p := PairPoint(t[0], t[1]);
      assert t[..2] == [t[0], t[1]];
    }
    RepairedFront(t);
  }

  lemma RepairedFront(t: Text)
    requires t != []
    ensures Repaired(t)
            == if Paired(t) then t[..2] + Repaired(t[2..])
               else [if High(t[0]) || Low(t[0]) then 0xFFFD else t[0]] + Repaired(t[1..])
  {
  }

  /** The bytes of a text read back as the text with its lone surrogates replaced. */
  lemma {:induction false} Utf8ReadsBack(t: Text)
    ensures FromUtf8(Utf8(t)) == Some(Repaired(t))
    decreases |t|
  {
    hide FrontBytes, ReadPoint, UnitsOf, Repaired;
    if t != [] {
      var rest := t[FrontLength(t)..];
      Utf8ReadsBack(rest);
      FrontRead(t, Utf8(rest));
      FrontUnits(t);
      hide FrontPoint;
      var b := FrontBytes(t) + Utf8(rest);
      assert b[|FrontBytes(t)|..] == Utf8(rest);
    } else {
      Nothing();
    }
  }

  lemma Nothing()
    ensures Repaired([]) == []
  {
  }

  lemma {:induction false} WellFormedKept(t: Text)
    requires WellFormed(t)
    ensures Repaired(t) == t
  {
    if Paired(t) {
      WellFormedKept(t[2..]);
      assert t[..2] + t[2..] == t;
    } else if t != [] {
      WellFormedKept(t[1..]);
      assert [t[0]] + t[1..] == t;
    }
  }
}
