/** How the text of a sent message is compared with a draft's: line ends as LF, white space around it left out. */
module BodyText {
  import opened Wrappers
  import opened JsonNumber

  predicate IsSpace(c: Unit)
  {
    || 0x09 <= c <= 0x0D || c == 0x20 || c == 0xA0 || c == 0x1680 || 0x2000 <= c <= 0x200A
    || c == 0x2028 || c == 0x2029 || c == 0x202F || c == 0x205F || c == 0x3000 || c == 0xFEFF
  }

  function Unix(t: Text): Text
  {
    if t == [] then []
    else if |t| >= 2 && t[0] == 0x0D && t[1] == 0x0A then [0x0A] + Unix(t[2..])
    else [t[0]] + Unix(t[1..])
  }

  function TrimStart(t: Text): Text { if t != [] && IsSpace(t[0]) then TrimStart(t[1..]) else t }

  function TrimEnd(t: Text): Text { if t != [] && IsSpace(t[|t| - 1]) then TrimEnd(t[..|t| - 1]) else t }

  function BothTrimmed(t: Text): Text { TrimEnd(TrimStart(t)) }

  predicate SameBody(actual: Option<Text>, expected: Text)
  {
    actual.Some? && BothTrimmed(Unix(actual.value)) == BothTrimmed(Unix(expected))
  }

  /** Text with CRLF line ends, those that are CRLF already included. */
  function Windows(t: Text): Text
  {
    if t == [] then []
    else if |t| >= 2 && t[0] == 0x0D && t[1] == 0x0A then [0x0D, 0x0A] + Windows(t[2..])
    else (if t[0] == 0x0A then [0x0D, 0x0A] else [t[0]]) + Windows(t[1..])
  }

  predicate AllSpace(t: Text) { forall i | 0 <= i < |t| :: IsSpace(t[i]) }

  lemma UnixFront(t: Text)
    requires t != []
    ensures var n := if |t| >= 2 && t[0] == 0x0D && t[1] == 0x0A then 2 else 1;
            Unix(t) == [if n == 2 then 0x0A else t[0]] + Unix(t[n..])
  {
  }

  lemma {:induction false} UnixUndoesWindows(t: Text)
    ensures Unix(Windows(t)) == Unix(t)
    decreases |t|
  {
    if t != [] {
      var w := Windows(t);
      UnixFront(w);
      UnixFront(t);
      if |t| >= 2 && t[0] == 0x0D && t[1] == 0x0A {
        UnixUndoesWindows(t[2..]);
        assert w[2..] == Windows(t[2..]);
      } else {
        UnixUndoesWindows(t[1..]);
        if t[0] == 0x0A {
          assert w[2..] == Windows(t[1..]);
        } else {
          assert w[1..] == Windows(t[1..]);
          if |w| >= 2 { WindowsStart(t[1..]); }
        }
      }
    }
  }

  /** Making line ends CRLF never moves a LF to the front. */
  lemma WindowsStart(t: Text)
    ensures Windows(t) == [] <==> t == []
    ensures Windows(t) != [] ==> Windows(t)[0] != 0x0A
  {
  }

  lemma {:induction false} UnixJoin(a: Text, b: Text)
    requires a == [] || a[|a| - 1] != 0x0D || b == [] || b[0] != 0x0A
    ensures Unix(a + b) == Unix(a) + Unix(b)
    decreases |a|
  {
    if a == [] {
      assert a + b == b;
    } else {
      var n := if |a| >= 2 && a[0] == 0x0D && a[1] == 0x0A then 2 else 1;
      assert (a + b)[0] == a[0] && (|a| >= 2 ==> (a + b)[1] == a[1]);
      assert |a| == 1 && b != [] ==> (a + b)[1] == b[0];
      assert (a + b)[n..] == a[n..] + b;
      UnixJoin(a[n..], b);
      UnixFront(a + b);
      UnixFront(a);
      hide Unix;
      Regroup([if n == 2 then 0x0A else a[0]], Unix(a[n..]), Unix(b));
    }
  }

  lemma Regroup(a: Text, b: Text, c: Text)
    ensures (a + b) + c == a + (b + c)
  {
  }

  lemma {:induction false} UnixSpace(w: Text)
    requires AllSpace(w)
    ensures AllSpace(Unix(w))
    decreases |w|
  {
    if w != [] {
      UnixFront(w);
      UnixSpace(w[if |w| >= 2 && w[0] == 0x0D && w[1] == 0x0A then 2 else 1..]);
    }
  }

  lemma {:induction false} StartSplit(t: Text) returns (p: Text)
    ensures AllSpace(p) && t == p + TrimStart(t)
    ensures TrimStart(t) == [] || !IsSpace(TrimStart(t)[0])
  {
    p := [];
    if t != [] && IsSpace(t[0]) {
      var q := StartSplit(t[1..]);
      p := [t[0]] + q;
      assert t == [t[0]] + t[1..];
    }
  }

  lemma {:induction false} EndSplit(t: Text) returns (s: Text)
    ensures AllSpace(s) && t == TrimEnd(t) + s
    ensures TrimEnd(t) == [] || !IsSpace(TrimEnd(t)[|TrimEnd(t)| - 1])
  {
    s := [];
    if t != [] && IsSpace(t[|t| - 1]) {
      var n := |t| - 1;
      var q := EndSplit(t[..n]);
      s := q + [t[n]];
      assert t == t[..n] + [t[n]];
    }
  }

  predicate Bare(t: Text) { t == [] || (!IsSpace(t[0]) && !IsSpace(t[|t| - 1])) }

  /** A text is white space around its trimmed form. */
  lemma TrimSplit(t: Text) returns (p: Text, s: Text)
    ensures AllSpace(p) && AllSpace(s) && t == p + BothTrimmed(t) + s && Bare(BothTrimmed(t))
  {
    p := StartSplit(t);
    var r := TrimStart(t);
    s := EndSplit(r);
    var c := TrimEnd(r);
    Regroup(p, c, s);
    assert c != [] ==> c[0] == r[0];
  }

  lemma {:induction false} StartTrimmed(w: Text, t: Text)
    requires AllSpace(w)
    ensures TrimStart(w + t) == TrimStart(t)
  {
    if w == [] {
      assert w + t == t;
    } else {
      StartTrimmed(w[1..], t);
      assert (w + t)[1..] == w[1..] + t;
    }
  }

  lemma {:induction false} EndTrimmed(t: Text, w: Text)
    requires AllSpace(w)
    ensures TrimEnd(t + w) == TrimEnd(t)
  {
    if w == [] {
      assert t + w == t;
    } else {
      var n := |w| - 1;
      EndTrimmed(t, w[..n]);
      assert (t + w)[..|t + w| - 1] == t + w[..n];
    }
  }

  /** Trimming finds what stands between the white space. */
  lemma Trimmed(p: Text, c: Text, s: Text)
    requires AllSpace(p) && AllSpace(s) && Bare(c)
    ensures BothTrimmed(p + c + s) == c
  {
    Regroup(p, c, s);
    StartTrimmed(p, c + s);
    if c == [] {
      assert c + s == s && s + [] == s && [] + s == s;
      StartTrimmed(s, []);
    } else {
      assert (c + s)[0] == c[0];
      EndTrimmed(c, s);
    }
  }

  /** Making line ends LF and trimming can be done in either order. */
  lemma TrimUnix(t: Text)
    ensures BothTrimmed(Unix(t)) == Unix(BothTrimmed(t))
  {
    hide BothTrimmed, IsSpace;
    var p, s := TrimSplit(t);
    var c := BothTrimmed(t);
    if c == [] {
      assert p + c + s == p + s;
      assert Unix(t) + [] + [] == Unix(t);
      UnixSpace(t);
      Trimmed(Unix(t), [], []);
    } else {
      BareUnix(p, c, s);
      UnixSpace(p);
      UnixSpace(s);
      hide Unix;
      Trimmed(Unix(p), Unix(c), Unix(s));
    }
  }

  lemma BareUnix(p: Text, c: Text, s: Text)
    requires c != [] && Bare(c)
    ensures Bare(Unix(c)) && Unix(p + c + s) == Unix(p) + Unix(c) + Unix(s)
  {
    var n := |c| - 1;
    UnixJoin(c[..n], [c[n]]);
    assert c == c[..n] + [c[n]];
    UnixFront(c);
    assert Unix([c[n]]) == [c[n]] by { UnixFront([c[n]]); assert [c[n]][1..] == []; }
    hide Unix;
    assert (p + c)[|p + c| - 1] == c[n];
    UnixJoin(p, c);
    UnixJoin(p + c, s);
  }

  /**
   Bodies are the same exactly when, with LF line ends, they are one text with white space around it.
   */
  lemma SameBodyIff(actual: Text, expected: Text)
    ensures SameBody(Some(actual), expected) <==>
      exists c, p, s, q, r ::
        && AllSpace(p) && AllSpace(s) && AllSpace(q) && AllSpace(r) && Bare(c)
        && Unix(actual) == p + c + s && Unix(expected) == q + c + r
  {
    hide Unix, AllSpace, Bare, BothTrimmed;
    if SameBody(Some(actual), expected) {
      var p, s := TrimSplit(Unix(actual));
      var q, r := TrimSplit(Unix(expected));
      var c := BothTrimmed(Unix(actual));
      assert Unix(actual) == p + c + s && Unix(expected) == q + c + r;
    }
    forall c, p, s, q, r |
      && AllSpace(p) && AllSpace(s) && AllSpace(q) && AllSpace(r) && Bare(c)
      && Unix(actual) == p + c + s && Unix(expected) == q + c + r
      ensures SameBody(Some(actual), expected)
    {
      Trimmed(p, c, s);
      Trimmed(q, c, r);
    }
  }

  /** Graph may turn line ends into CRLF and put any white space around the body. */
  lemma BodyAccepted(body: Text, before: Text, after: Text)
    requires AllSpace(before) && AllSpace(after)
    ensures SameBody(Some(before + Windows(body) + after), body)
  {
    hide Unix, Windows, AllSpace, BothTrimmed;
    var w := Windows(body);
    UnixUndoesWindows(body);
    TrimUnix(before + w + after);
    TrimUnix(w);
    SpaceAround(before, w, after);
  }

  lemma SpaceAround(before: Text, t: Text, after: Text)
    requires AllSpace(before) && AllSpace(after)
    ensures BothTrimmed(before + t + after) == BothTrimmed(t)
  {
    hide BothTrimmed;
    var p, s := TrimSplit(t);
    var c := BothTrimmed(t);
    assert before + t + after == (before + p) + c + (s + after);
    Trimmed(before + p, c, s + after);
  }
}
