/**
 The canonical JSON text that command receipts are computed over: object keys sorted by code unit, no white
 space.  The text of a value determines the value, up to the order of keys and the sign of zero.
 */
module CanonicalJson {
  import opened Wrappers
  import opened JsonNumber
  import opened JsonString
  import opened Sequences
  import StableSort

  datatype Entry<T> = Entry(key: Text, value: T)

  /** `Undefined` stands for the values canonicalisation refuses, such as a field that is not there. */
  datatype Json =
    | Undefined | Null | Bool(value: bool) | Num(number: Number) | Str(text: Text)
    | Arr(items: seq<Json>) | Obj(members: seq<Entry<Json>>)

  const COMMA: Unit := 0x2C
  const COLON: Unit := 0x3A
  const OPEN_ARRAY: Unit := 0x5B
  const CLOSE_ARRAY: Unit := 0x5D
  const OPEN_OBJECT: Unit := 0x7B
  const CLOSE_OBJECT: Unit := 0x7D
  const NULL_TEXT: Text := [0x6E, 0x75, 0x6C, 0x6C]
  const TRUE_TEXT: Text := [0x74, 0x72, 0x75, 0x65]
  const FALSE_TEXT: Text := [0x66, 0x61, 0x6C, 0x73, 0x65]

  predicate DistinctKeys<T>(es: seq<Entry<T>>) { forall i, j | 0 <= i < j < |es| :: es[i].key != es[j].key }

  /** What a program can hold: proper numbers, and no key twice in one object. */
  predicate Valid(v: Json)
  {
    match v
    case Num(n) => n.Valid()
    case Arr(items) => forall i | 0 <= i < |items| :: Valid(items[i])
    case Obj(members) => DistinctKeys(members) && forall i | 0 <= i < |members| :: Valid(members[i].value)
    case _ => true
  }

  predicate Supported(v: Json)
  {
    match v
    case Undefined => false
    case Num(n) => !n.NonFinite?
    case Arr(items) => forall i | 0 <= i < |items| :: Supported(items[i])
    case Obj(members) => forall i | 0 <= i < |members| :: Supported(members[i].value)
    case _ => true
  }

  predicate Printable(v: Json) { Valid(v) && Supported(v) }

  // ---------- Sorting keys ----------

  /** The order of code units that Array.prototype.sort uses on strings. */
  predicate Less(a: Text, b: Text)
  {
    b != [] && (a == [] || a[0] < b[0] || (a[0] == b[0] && Less(a[1..], b[1..])))
  }

  function ByKey<T>(): (Entry<T>, Entry<T>) -> bool { (a: Entry<T>, b: Entry<T>) => Less(a.key, b.key) }

  function Insert<T>(e: Entry<T>, es: seq<Entry<T>>): seq<Entry<T>> { StableSort.Insert(ByKey(), e, es) }

  function Sort<T>(es: seq<Entry<T>>): seq<Entry<T>> { StableSort.Sort(ByKey(), es) }

  ghost predicate StrictlySorted<T>(es: seq<Entry<T>>)
  {
    es != [] ==> (forall e | e in es[1..] :: Less(es[0].key, e.key)) && StrictlySorted(es[1..])
  }

  // ---------- Printing ----------

  function Joined(parts: seq<Text>): Text
  {
    if parts == [] then []
    else if |parts| == 1 then parts[0]
    else parts[0] + [COMMA] + Joined(parts[1..])
  }

  function EntryText(e: Entry<Text>): Text { StringText(e.key) + [COLON] + e.value }

  function EntryTexts(es: seq<Entry<Text>>): seq<Text>
  {
    if es == [] then [] else [EntryText(es[0])] + EntryTexts(es[1..])
  }

  function PrintItems(items: seq<Json>): (ts: seq<Text>)
    requires forall i | 0 <= i < |items| :: Printable(items[i])
    ensures |ts| == |items|
  {
    if items == [] then [] else [Print(items[0])] + PrintItems(items[1..])
  }

  function PrintMembers(members: seq<Entry<Json>>): (es: seq<Entry<Text>>)
    requires forall i | 0 <= i < |members| :: Printable(members[i].value)
    ensures |es| == |members|
  {
    if members == [] then []
    else [Entry(members[0].key, Print(members[0].value))] + PrintMembers(members[1..])
  }

  function Print(v: Json): Text
    requires Printable(v)
  {
    match v
    case Null => NULL_TEXT
    case Bool(b) => if b then TRUE_TEXT else FALSE_TEXT
    case Num(n) => NumberText(n)
    case Str(t) => StringText(t)
    case Arr(items) => [OPEN_ARRAY] + Joined(PrintItems(items)) + [CLOSE_ARRAY]
    case Obj(members) => [OPEN_OBJECT] + Joined(EntryTexts(Sort(PrintMembers(members)))) + [CLOSE_OBJECT]
  }

  /** Nothing when some part of the value has no canonical form. */
  function Canonicalize(v: Json): Option<Text>
    requires Valid(v)
  {
    if Supported(v) then Some(Print(v)) else None
  }

  /** The same JSON value: key order and the sign of zero do not matter. */
  ghost predicate Same(a: Json, b: Json)
  {
    match (a, b)
    case (Num(m), Num(n)) => SameNumber(m, n)
    case (Arr(xs), Arr(ys)) => |xs| == |ys| && forall i | 0 <= i < |xs| :: Same(xs[i], ys[i])
    case (Obj(ms), Obj(ns)) => (forall x | x in ms :: HasTwin(x, ns)) && (forall y | y in ns :: IsTwin(ms, y))
    case _ => a == b
  }

  ghost predicate SameEntry(x: Entry<Json>, y: Entry<Json>)
    decreases x, 0
  {
    x.key == y.key && Same(x.value, y.value)
  }

  /** Some member is the same as `x`. */
  ghost predicate HasTwin(x: Entry<Json>, ns: seq<Entry<Json>>)
    decreases x, 1, |ns|
  {
    ns != [] && (SameEntry(x, ns[0]) || HasTwin(x, ns[1..]))
  }

  /** `y` is the same as some member. */
  ghost predicate IsTwin(ms: seq<Entry<Json>>, y: Entry<Json>)
    decreases ms
  {
    ms != [] && (SameEntry(ms[0], y) || IsTwin(ms[1..], y))
  }

  // ---------- The order on keys, and what sorting does ----------

  lemma {:induction false} LessTotal(a: Text, b: Text)
    ensures Less(a, b) || a == b || Less(b, a)
    ensures !(Less(a, b) && Less(b, a)) && !Less(a, a)
  {
    if a != [] {
      LessTotal(a[1..], if b == [] then [] else b[1..]);
      if b != [] && a[0] == b[0] && a[1..] == b[1..] { assert a == [a[0]] + a[1..] == b; }
    }
  }

  lemma {:induction false} LessTransitive(a: Text, b: Text, c: Text)
    requires Less(a, b) && Less(b, c)
    ensures Less(a, c)
  {
    if a != [] && a[0] == b[0] == c[0] { LessTransitive(a[1..], b[1..], c[1..]); }
  }

  /** `k` is less than every key of `es`. */
  ghost predicate Below<T>(k: Text, es: seq<Entry<T>>) { forall e | e in es :: Less(k, e.key) }

  lemma ConsSorted<T>(e: Entry<T>, es: seq<Entry<T>>)
    requires Below(e.key, es) && StrictlySorted(es)
    ensures StrictlySorted([e] + es) && multiset([e] + es) == multiset{e} + multiset(es)
  {
    assert ([e] + es)[1..] == es;
  }

  lemma BelowAll<T>(k: Text, es: seq<Entry<T>>)
    requires es != [] && Less(k, es[0].key) && StrictlySorted(es)
    ensures Below(k, es)
  {
    Uncons(es);
    forall e | e in es ensures Less(k, e.key) {
      if e != es[0] { LessTransitive(k, es[0].key, e.key); }
    }
  }

  lemma BelowInserted<T>(k: Text, e: Entry<T>, es: seq<Entry<T>>, r: seq<Entry<T>>)
    requires Below(k, es) && Less(k, e.key) && multiset(r) == multiset{e} + multiset(es)
    ensures Below(k, r)
  {
    assert multiset(r) == multiset([e] + es);
    Sequences.SameMembers(r, [e] + es);
  }

  lemma {:induction false} InsertSorted<T>(e: Entry<T>, es: seq<Entry<T>>)
    requires StrictlySorted(es) && forall x | x in es :: x.key != e.key
    ensures StrictlySorted(Insert(e, es)) && multiset(Insert(e, es)) == multiset{e} + multiset(es)
  {
    if es == [] {
      ConsSorted(e, es);
    } else {
      Uncons(es);
      assert es[0] in es;
      LessTotal(es[0].key, e.key);
      if !Less(es[0].key, e.key) {
        BelowAll(e.key, es);
        ConsSorted(e, es);
      } else {
        assert forall x | x in es[1..] :: x in es;
        InsertSorted(e, es[1..]);
        assert Below(es[0].key, es[1..]);
        hide StrictlySorted;
        BelowInserted(es[0].key, e, es[1..], Insert(e, es[1..]));
        ConsSorted(es[0], Insert(e, es[1..]));
      }
    }
  }

  predicate Without<T>(k: Text, es: seq<Entry<T>>) { forall i | 0 <= i < |es| :: es[i].key != k }

  lemma StillWithout<T>(k: Text, es: seq<Entry<T>>, sorted: seq<Entry<T>>)
    requires Without(k, es) && multiset(sorted) == multiset(es)
    ensures forall x | x in sorted :: x.key != k
  {
    Sequences.SameMembers(sorted, es);
  }

  lemma {:induction false} SortMultiset<T>(es: seq<Entry<T>>)
    requires DistinctKeys(es)
    ensures StrictlySorted(Sort(es)) && multiset(Sort(es)) == multiset(es)
  {
    if es != [] {
      var tail := es[1..];
      Uncons(es);
      SortMultiset(tail);
      assert Without(es[0].key, tail);
      StillWithout(es[0].key, tail, Sort(tail));
      InsertSorted(es[0], Sort(tail));
    }
  }

  lemma SortSorted<T>(es: seq<Entry<T>>)
    requires DistinctKeys(es)
    ensures StrictlySorted(Sort(es)) && forall x :: x in Sort(es) <==> x in es
  {
    SortMultiset(es);
    Sequences.SameMembers(Sort(es), es);
  }

  lemma HasElement<T>(es: seq<Entry<T>>)
    ensures es == [] || exists e :: e in es
  {
    if es != [] { assert es[0] in es; }
  }

  /** A strictly sorted list is determined by its entries. */
  lemma {:induction false} SortedUnique<T>(xs: seq<Entry<T>>, ys: seq<Entry<T>>)
    requires StrictlySorted(xs) && StrictlySorted(ys) && forall e :: e in xs <==> e in ys
    ensures xs == ys
    decreases |xs|
  {
    if xs == [] {
      HasElement(ys);
    } else {
      assert xs[0] in ys && ys[0] in xs;
      Uncons(xs);
      Uncons(ys);
      LessTotal(xs[0].key, ys[0].key);
      LessTotal(xs[0].key, xs[0].key);
      assert xs[0] == ys[0];
      forall e ensures e in xs[1..] <==> e in ys[1..] {
        assert e in xs <==> e in ys;
      }
      SortedUnique(xs[1..], ys[1..]);
    }
  }

  // ---------- Printing members and sorting them commute ----------

  lemma {:induction false} MembersAt(ms: seq<Entry<Json>>, i: nat)
    requires forall k | 0 <= k < |ms| :: Printable(ms[k].value)
    requires i < |ms|
    ensures PrintMembers(ms)[i] == Entry(ms[i].key, Print(ms[i].value))
  {
    if i > 0 { MembersAt(ms[1..], i - 1); }
  }

  lemma {:induction false} InsertPrinted(e: Entry<Json>, ms: seq<Entry<Json>>)
    requires Printable(e.value) && forall k | 0 <= k < |ms| :: Printable(ms[k].value)
    ensures forall k | 0 <= k < |Insert(e, ms)| :: Printable(Insert(e, ms)[k].value)
    ensures Insert(Entry(e.key, Print(e.value)), PrintMembers(ms)) == PrintMembers(Insert(e, ms))
  {
    hide Print;
    if ms == [] || !Less(ms[0].key, e.key) {
      assert ([e] + ms)[1..] == ms;
    } else {
      InsertPrinted(e, ms[1..]);
      var tail := Insert(e, ms[1..]);
      assert ([ms[0]] + tail)[1..] == tail;
      assert PrintMembers(ms)[1..] == PrintMembers(ms[1..]);
    }
  }

  lemma {:induction false} SortPrinted(ms: seq<Entry<Json>>)
    requires forall k | 0 <= k < |ms| :: Printable(ms[k].value)
    ensures forall k | 0 <= k < |Sort(ms)| :: Printable(Sort(ms)[k].value)
    ensures Sort(PrintMembers(ms)) == PrintMembers(Sort(ms))
  {
    hide Print;
    if ms != [] {
      SortPrinted(ms[1..]);
      InsertPrinted(ms[0], Sort(ms[1..]));
      assert PrintMembers(ms)[1..] == PrintMembers(ms[1..]);
    }
  }

  // ---------- The text of a value determines it ----------

  predicate Stop(u: Text) { u == [] || u[0] in {COMMA, CLOSE_ARRAY, CLOSE_OBJECT} }

  /** The kind of a value shows in the first code unit of its text. */
  function KindAt(c: Unit): int
  {
    if c == 0x6E then 1 else if c == 0x74 || c == 0x66 then 2
    else if c == MINUS || IsDigit(c) then 3 else if c == QUOTE then 4
    else if c == OPEN_ARRAY then 5 else if c == OPEN_OBJECT then 6 else 0
  }

  function Kind(v: Json): int
  {
    match v
    case Undefined => 0
    case Null => 1
    case Bool(_) => 2
    case Num(_) => 3
    case Str(_) => 4
    case Arr(_) => 5
    case Obj(_) => 6
  }

  lemma PrintKind(v: Json)
    requires Printable(v)
    ensures Print(v) != [] && KindAt(Print(v)[0]) == Kind(v) != 0
  {
    hide Joined, EntryTexts, Sort, NumberText, Escaped, PrintItems, PrintMembers;
    if v.Num? { NumberUnits(v.number); }
  }

  /** A number ends at the stop that follows it. */
  lemma {:induction false} NumberEnd(s: Text, t: Text, u: Text, v: Text)
    requires AllNumberUnits(s) && AllNumberUnits(t) && Stop(u) && Stop(v) && s + u == t + v
    ensures s == t && u == v
  {
    NumberFront(s, u);
    NumberFront(t, v);
    if s != [] && t != [] {
      assert s[1..] + u == (s + u)[1..] == (t + v)[1..] == t[1..] + v;
      NumberEnd(s[1..], t[1..], u, v);
      assert s == [s[0]] + s[1..] && t == [t[0]] + t[1..];
    }
  }

  lemma NumberFront(s: Text, u: Text)
    requires AllNumberUnits(s) && Stop(u)
    ensures s == [] ==> s + u == u
    ensures s != [] ==> s + u != [] && (s + u)[0] == s[0]
    ensures s + u != [] ==> (NumberUnit((s + u)[0]) <==> s != [])
  {
  }

  /** Two values printed at the front of the same text, each up to a stop, are the same value. */
  lemma {:induction false} Unambiguous(a: Json, b: Json, u: Text, v: Text)
    requires Printable(a) && Printable(b) && Stop(u) && Stop(v) && Print(a) + u == Print(b) + v
    ensures Same(a, b) && u == v
    decreases a, 1, 0
  {
    SameKind(a, b, u, v);
    hide Stop, Print, Printable, Same;
    match a
    case Null => PlainUnambiguous(a, b, u, v);
    case Bool(_) => PlainUnambiguous(a, b, u, v);
    case Num(_) => PlainUnambiguous(a, b, u, v);
    case Str(_) => PlainUnambiguous(a, b, u, v);
    case Arr(xs) =>
      ArrayText(xs, u);
      ArrayText(b.items, v);
      ItemsUnambiguous(a, xs, b.items, u, v);
      SameItems(xs, b.items);
    case Obj(ms) =>
      ObjectText(ms, u);
      ObjectText(b.members, v);
      MembersUnambiguous(a, Sort(ms), Sort(b.members), u, v);
      SameFromSorted(ms, b.members, Sort(ms), Sort(b.members));
  }

  lemma SameKind(a: Json, b: Json, u: Text, v: Text)
    requires Printable(a) && Printable(b) && Print(a) + u == Print(b) + v
    ensures Kind(a) == Kind(b) != 0
  {
    PrintKind(a);
    PrintKind(b);
    hide Print;
    assert Print(a)[0] == (Print(a) + u)[0] == (Print(b) + v)[0] == Print(b)[0];
  }

  lemma PlainUnambiguous(a: Json, b: Json, u: Text, v: Text)
    requires Printable(a) && Printable(b) && Stop(u) && Stop(v) && Print(a) + u == Print(b) + v
    requires Kind(a) == Kind(b) && !a.Arr? && !a.Obj?
    ensures Same(a, b) && u == v
  {
    hide Stop, NumberText, StringText, SameNumber;
    var x, y := Print(a) + u, Print(b) + v;
    match a
    case Null => assert x[4..] == u && y[4..] == v;
    case Bool(_) =>
      assert x[0] == y[0];
      assert x[|Print(a)|..] == u && y[|Print(b)|..] == v;
    case Num(m) =>
      NumberUnits(m);
      NumberUnits(b.number);
      NumberEnd(Print(a), Print(b), u, v);
      NumberTextExact(m, b.number);
    case Str(_) => StringUnambiguous(a.text, b.text, u, v);
  }

  lemma DropFirst(c: Unit, body: Text, close: Unit, u: Text)
    ensures ([c] + body + [close] + u)[1..] == body + [close] + u
  {
  }

  lemma ArrayText(xs: seq<Json>, u: Text)
    requires Printable(Arr(xs))
    ensures forall i | 0 <= i < |xs| :: Printable(xs[i])
    ensures (Print(Arr(xs)) + u)[1..] == Joined(PrintItems(xs)) + [CLOSE_ARRAY] + u
  {
    DropFirst(OPEN_ARRAY, Joined(PrintItems(xs)), CLOSE_ARRAY, u);
  }

  lemma ObjectText(ms: seq<Entry<Json>>, u: Text)
    requires Printable(Obj(ms))
    ensures forall x :: x in Sort(ms) <==> x in ms
    ensures forall i | 0 <= i < |Sort(ms)| :: Sort(ms)[i] in ms && Printable(Sort(ms)[i].value)
    ensures (Print(Obj(ms)) + u)[1..] == Joined(EntryTexts(PrintMembers(Sort(ms)))) + [CLOSE_OBJECT] + u
  {
    SortPrinted(ms);
    SortSorted(ms);
    DropFirst(OPEN_OBJECT, Joined(EntryTexts(PrintMembers(Sort(ms)))), CLOSE_OBJECT, u);
    hide Joined, PrintMembers, EntryTexts, Sort, Printable;
    assert forall i | 0 <= i < |Sort(ms)| :: Sort(ms)[i] in Sort(ms);
  }

  lemma SameItems(xs: seq<Json>, ys: seq<Json>)
    requires |xs| == |ys| && forall i | 0 <= i < |xs| :: Same(xs[i], ys[i])
    ensures Same(Arr(xs), Arr(ys))
  {
  }

  lemma {:induction false} Twin(x: Entry<Json>, ns: seq<Entry<Json>>) returns (y: Entry<Json>)
    requires HasTwin(x, ns)
    ensures y in ns && SameEntry(x, y)
  {
    hide SameEntry;
    if SameEntry(x, ns[0]) { y := ns[0]; } else { y := Twin(x, ns[1..]); }
  }

  lemma {:induction false} TwinOf(ms: seq<Entry<Json>>, y: Entry<Json>) returns (x: Entry<Json>)
    requires IsTwin(ms, y)
    ensures x in ms && SameEntry(x, y)
  {
    hide SameEntry;
    if SameEntry(ms[0], y) { x := ms[0]; } else { x := TwinOf(ms[1..], y); }
  }

  lemma {:induction false} TwinAt(x: Entry<Json>, ns: seq<Entry<Json>>, k: nat)
    requires k < |ns| && SameEntry(x, ns[k])
    ensures HasTwin(x, ns)
  {
    hide SameEntry;
    if k > 0 { TwinAt(x, ns[1..], k - 1); }
  }

  lemma {:induction false} TwinOfAt(ms: seq<Entry<Json>>, y: Entry<Json>, k: nat)
    requires k < |ms| && SameEntry(ms[k], y)
    ensures IsTwin(ms, y)
  {
    hide SameEntry;
    if k > 0 { TwinOfAt(ms[1..], y, k - 1); }
  }

  lemma SameFromSorted(ms: seq<Entry<Json>>, ns: seq<Entry<Json>>, xs: seq<Entry<Json>>, ys: seq<Entry<Json>>)
    requires forall x :: x in xs <==> x in ms
    requires forall x :: x in ys <==> x in ns
    requires |xs| == |ys| && forall k | 0 <= k < |xs| :: SameEntry(xs[k], ys[k])
    ensures Same(Obj(ms), Obj(ns))
  {
    hide SameEntry;
    forall x | x in ms ensures HasTwin(x, ns) {
      var k := Locate(xs, x);
      var j := Locate(ns, ys[k]);
      TwinAt(x, ns, j);
    }
    forall y | y in ns ensures IsTwin(ms, y) {
      var k := Locate(ys, y);
      var i := Locate(ms, xs[k]);
      TwinOfAt(ms, y, i);
    }
    hide HasTwin, IsTwin;
  }

  /** What follows the first of several joined parts. */
  function After(parts: seq<Text>, close: Unit, u: Text): Text
    requires parts != []
  {
    if |parts| == 1 then [close] + u else [COMMA] + (Joined(parts[1..]) + [close] + u)
  }

  lemma Regroup(a: Text, b: Text, c: Text, d: Text, e: Text)
    ensures a + b + c + d + e == a + (b + (c + d + e))
  {
  }

  lemma JoinedFront(parts: seq<Text>, close: Unit, u: Text)
    requires parts != [] && close in {CLOSE_ARRAY, CLOSE_OBJECT}
    ensures Joined(parts) + [close] + u == parts[0] + After(parts, close, u)
    ensures Stop(After(parts, close, u)) && After(parts, close, u) != []
    ensures After(parts, close, u)[0] == close <==> |parts| == 1
    ensures After(parts, close, u)[1..] == if |parts| == 1 then u else Joined(parts[1..]) + [close] + u
  {
    if |parts| > 1 {
      assert Joined(parts) == parts[0] + [COMMA] + Joined(parts[1..]);
      hide Joined;
      Regroup(parts[0], [COMMA], Joined(parts[1..]), [close], u);
    } else {
      hide Joined;
      Regroup2(parts[0], [close], u);
    }
  }

  lemma Regroup2(a: Text, b: Text, c: Text)
    ensures a + b + c == a + (b + c)
  {
  }

  lemma {:induction false} ItemsUnambiguous(whole: Json, xs: seq<Json>, ys: seq<Json>, u: Text, v: Text)
    requires forall i | 0 <= i < |xs| :: Printable(xs[i]) && xs[i] < whole
    requires forall i | 0 <= i < |ys| :: Printable(ys[i])
    requires Joined(PrintItems(xs)) + [CLOSE_ARRAY] + u == Joined(PrintItems(ys)) + [CLOSE_ARRAY] + v
    ensures |xs| == |ys| && u == v && forall i | 0 <= i < |xs| :: Same(xs[i], ys[i])
    decreases whole, 0, |xs|
  {
    hide Print, Joined, Same, Stop;
    var ps, qs := PrintItems(xs), PrintItems(ys);
    if xs != [] {
      JoinedFront(ps, CLOSE_ARRAY, u);
      PrintKind(xs[0]);
    }
    if ys != [] {
      JoinedFront(qs, CLOSE_ARRAY, v);
      PrintKind(ys[0]);
    }
    if xs == [] || ys == [] {
      EmptyJoin(ps, qs, CLOSE_ARRAY, u, v);
    } else {
      Unambiguous(xs[0], ys[0], After(ps, CLOSE_ARRAY, u), After(qs, CLOSE_ARRAY, v));
      if |xs| > 1 {
        assert ps[1..] == PrintItems(xs[1..]) && qs[1..] == PrintItems(ys[1..]);
        ItemsUnambiguous(whole, xs[1..], ys[1..], u, v);
      }
    }
  }

  lemma JoinedLead(ps: seq<Text>, close: Unit, u: Text)
    requires close in {CLOSE_ARRAY, CLOSE_OBJECT}
    requires ps != [] ==> ps[0] != []
    ensures var x := Joined(ps) + [close] + u;
            x != [] && (if ps == [] then x[0] == close && x[1..] == u else x[0] == ps[0][0])
  {
    if ps != [] { JoinedFront(ps, close, u); }
  }

  /** An empty list and a non-empty one do not print alike: no part starts with the closing bracket. */
  lemma EmptyJoin(ps: seq<Text>, qs: seq<Text>, close: Unit, u: Text, v: Text)
    requires ps == [] || qs == []
    requires close in {CLOSE_ARRAY, CLOSE_OBJECT}
    requires ps != [] ==> ps[0] != [] && ps[0][0] != close
    requires qs != [] ==> qs[0] != [] && qs[0][0] != close
    requires Joined(ps) + [close] + u == Joined(qs) + [close] + v
    ensures ps == [] && qs == [] && u == v
  {
    JoinedLead(ps, close, u);
    JoinedLead(qs, close, v);
    hide Joined;
  }

  lemma EntriesFront(ms: seq<Entry<Json>>)
    requires ms != [] && forall i | 0 <= i < |ms| :: Printable(ms[i].value)
    ensures var es := EntryTexts(PrintMembers(ms));
            && es != [] && es[1..] == EntryTexts(PrintMembers(ms[1..]))
            && es[0] == StringText(ms[0].key) + [COLON] + Print(ms[0].value)
            && es[0] != [] && es[0][0] == QUOTE
            && (|es| == 1 <==> |ms| == 1)
  {
    var pm := PrintMembers(ms);
    assert pm[1..] == PrintMembers(ms[1..]);
    if |ms| > 1 { assert EntryTexts(pm[1..]) != []; }
  }

  lemma {:induction false} MembersUnambiguous(whole: Json, xs: seq<Entry<Json>>, ys: seq<Entry<Json>>, u: Text, v: Text)
    requires forall i | 0 <= i < |xs| :: Printable(xs[i].value) && xs[i].value < whole
    requires forall i | 0 <= i < |ys| :: Printable(ys[i].value)
    requires Joined(EntryTexts(PrintMembers(xs))) + [CLOSE_OBJECT] + u
             == Joined(EntryTexts(PrintMembers(ys))) + [CLOSE_OBJECT] + v
    ensures |xs| == |ys| && u == v
    ensures forall i | 0 <= i < |xs| :: SameEntry(xs[i], ys[i])
    decreases whole, 0, |xs|
  {
    hide Print, Joined, Same, Stop, PrintMembers, EntryTexts, StringText;
    var ps, qs := EntryTexts(PrintMembers(xs)), EntryTexts(PrintMembers(ys));
    if xs != [] {
      EntriesFront(xs);
      JoinedFront(ps, CLOSE_OBJECT, u);
    }
    if ys != [] {
      EntriesFront(ys);
      JoinedFront(qs, CLOSE_OBJECT, v);
    }
    if xs == [] || ys == [] {
      EmptyEntries(xs);
      EmptyEntries(ys);
      EmptyJoin(ps, qs, CLOSE_OBJECT, u, v);
    } else {
      var r, s := After(ps, CLOSE_OBJECT, u), After(qs, CLOSE_OBJECT, v);
      EntryUnambiguous(xs[0], ys[0], r, s);
      Unambiguous(xs[0].value, ys[0].value, r, s);
      if |xs| > 1 {
        MembersUnambiguous(whole, xs[1..], ys[1..], u, v);
      }
    }
  }

  lemma EmptyEntries(ms: seq<Entry<Json>>)
    requires forall i | 0 <= i < |ms| :: Printable(ms[i].value)
    ensures EntryTexts(PrintMembers(ms)) == [] <==> ms == []
  {
    if ms != [] { EntriesFront(ms); }
  }

  lemma EntryUnambiguous(x: Entry<Json>, y: Entry<Json>, r: Text, s: Text)
    requires Printable(x.value) && Printable(y.value)
    requires StringText(x.key) + [COLON] + Print(x.value) + r == StringText(y.key) + [COLON] + Print(y.value) + s
    ensures x.key == y.key && Print(x.value) + r == Print(y.value) + s
  {
    hide StringText, Print;
    var u, v := [COLON] + Print(x.value) + r, [COLON] + Print(y.value) + s;
    assert StringText(x.key) + [COLON] + Print(x.value) + r == StringText(x.key) + u;
    assert StringText(y.key) + [COLON] + Print(y.value) + s == StringText(y.key) + v;
    StringUnambiguous(x.key, y.key, u, v);
    assert u[1..] == Print(x.value) + r && v[1..] == Print(y.value) + s;
  }

  // ---------- The same value prints alike ----------

  lemma {:induction false} ItemsAt(items: seq<Json>, i: nat)
    requires forall k | 0 <= k < |items| :: Printable(items[k])
    requires i < |items|
    ensures PrintItems(items)[i] == Print(items[i])
  {
    if i > 0 { ItemsAt(items[1..], i - 1); }
  }

  predicate PrintsAlike(x: Entry<Json>, y: Entry<Json>)
  {
    Printable(x.value) && Printable(y.value) && x.key == y.key && Print(x.value) == Print(y.value)
  }

  lemma {:induction false} SamePrints(a: Json, b: Json)
    requires Printable(a) && Printable(b) && Same(a, b)
    ensures Print(a) == Print(b)
    decreases a, 1
  {
    match a
    case Num(_) => NumberTextExact(a.number, b.number);
    case Arr(xs) =>
      var ys := b.items;
      forall i | 0 <= i < |xs| ensures Print(xs[i]) == Print(ys[i]) {
        hide Print;
        SamePrints(xs[i], ys[i]);
      }
      hide Same;
      ItemsPrintAlike(xs, ys);
    case Obj(ms) => SameObjectPrints(a, ms, b.members);
    case _ =>
  }

  lemma {:induction false} SameObjectPrints(a: Json, ms: seq<Entry<Json>>, ns: seq<Entry<Json>>)
    requires a == Obj(ms) && Printable(a) && Printable(Obj(ns)) && Same(a, Obj(ns))
    ensures Print(a) == Print(Obj(ns))
    decreases a, 0
  {
    hide Print, Same;
    MembersPrintable(ms);
    MembersPrintable(ns);
    forall x, y | x in ms && y in ns && SameEntry(x, y) ensures PrintsAlike(x, y) && PrintsAlike(y, x) {
      SamePrints(x.value, y.value);
    }
    hide Printable, PrintsAlike, SameEntry, HasAlike;
    AlikeEachWay(ms, ns);
    MembersPrintAlike(ms, ns);
  }

  lemma MembersPrintable(ms: seq<Entry<Json>>)
    requires Printable(Obj(ms))
    ensures forall x | x in ms :: Printable(x.value)
    ensures forall i | 0 <= i < |ms| :: Printable(ms[i].value)
  {
  }

  lemma ItemsPrintAlike(xs: seq<Json>, ys: seq<Json>)
    requires Printable(Arr(xs)) && Printable(Arr(ys))
    requires |xs| == |ys| && forall i | 0 <= i < |xs| :: Print(xs[i]) == Print(ys[i])
    ensures Print(Arr(xs)) == Print(Arr(ys))
  {
    hide Joined;
    forall i | 0 <= i < |xs| ensures PrintItems(xs)[i] == PrintItems(ys)[i] {
      ItemsAt(xs, i);
      ItemsAt(ys, i);
    }
    assert PrintItems(xs) == PrintItems(ys);
  }

  /** Some member prints as `x` does. */
  ghost predicate HasAlike(x: Entry<Json>, ns: seq<Entry<Json>>) { exists y | y in ns :: PrintsAlike(x, y) }

  lemma {:induction false} AlikeOf(x: Entry<Json>, ns: seq<Entry<Json>>)
    requires HasTwin(x, ns) && forall y | y in ns && SameEntry(x, y) :: PrintsAlike(x, y)
    ensures HasAlike(x, ns)
  {
    hide PrintsAlike, SameEntry;
    var y := Twin(x, ns);
  }

  lemma {:induction false} AlikeTo(ms: seq<Entry<Json>>, y: Entry<Json>)
    requires IsTwin(ms, y) && forall x | x in ms && SameEntry(x, y) :: PrintsAlike(y, x)
    ensures HasAlike(y, ms)
  {
    hide PrintsAlike, SameEntry;
    var x := TwinOf(ms, y);
  }

  lemma AlikeEachWay(ms: seq<Entry<Json>>, ns: seq<Entry<Json>>)
    requires Same(Obj(ms), Obj(ns))
    requires forall x, y | x in ms && y in ns && SameEntry(x, y) :: PrintsAlike(x, y) && PrintsAlike(y, x)
    ensures forall x | x in ms :: HasAlike(x, ns)
    ensures forall y | y in ns :: HasAlike(y, ms)
  {
    ObjectMembers(ms, ns);
    hide PrintsAlike, SameEntry, Same, HasTwin, IsTwin, HasAlike;
    forall x | x in ms ensures HasAlike(x, ns) {
      AlikeOf(x, ns);
    }
    forall y | y in ns ensures HasAlike(y, ms) {
      AlikeTo(ms, y);
    }
  }

  lemma ObjectMembers(ms: seq<Entry<Json>>, ns: seq<Entry<Json>>)
    requires Same(Obj(ms), Obj(ns))
    ensures forall x | x in ms :: HasTwin(x, ns)
    ensures forall y | y in ns :: IsTwin(ms, y)
  {
    hide HasTwin, IsTwin;
  }

  lemma MembersPrintAlike(ms: seq<Entry<Json>>, ns: seq<Entry<Json>>)
    requires Printable(Obj(ms)) && Printable(Obj(ns))
    requires forall x | x in ms :: HasAlike(x, ns)
    requires forall y | y in ns :: HasAlike(y, ms)
    ensures Print(Obj(ms)) == Print(Obj(ns))
  {
    hide Joined, EntryTexts, Sort, PrintMembers, HasAlike;
    MembersPrintable(ms);
    MembersPrintable(ns);
    PrintedSubset(ms, ns);
    PrintedSubset(ns, ms);
    PrintedDistinct(ms);
    PrintedDistinct(ns);
    SortSorted(PrintMembers(ms));
    SortSorted(PrintMembers(ns));
    SortedUnique(Sort(PrintMembers(ms)), Sort(PrintMembers(ns)));
  }

  lemma PrintedDistinct(ms: seq<Entry<Json>>)
    requires DistinctKeys(ms) && forall k | 0 <= k < |ms| :: Printable(ms[k].value)
    ensures DistinctKeys(PrintMembers(ms))
  {
    forall i, j | 0 <= i < j < |ms| ensures PrintMembers(ms)[i].key != PrintMembers(ms)[j].key {
      MembersAt(ms, i);
      MembersAt(ms, j);
    }
  }

  lemma PrintedSubset(ms: seq<Entry<Json>>, ns: seq<Entry<Json>>)
    requires forall k | 0 <= k < |ms| :: Printable(ms[k].value)
    requires forall k | 0 <= k < |ns| :: Printable(ns[k].value)
    requires forall x | x in ms :: HasAlike(x, ns)
    ensures forall e | e in PrintMembers(ms) :: e in PrintMembers(ns)
  {
    forall e | e in PrintMembers(ms) ensures e in PrintMembers(ns) {
      var i :| 0 <= i < |ms| && PrintMembers(ms)[i] == e;
      assert ms[i] in ms;
      var y :| y in ns && PrintsAlike(ms[i], y);
      var j :| 0 <= j < |ns| && ns[j] == y;
      MembersAt(ms, i);
      MembersAt(ns, j);
      assert PrintMembers(ns)[j] == e;
    }
  }

  /** Canonical texts are equal exactly when the values are the same JSON value. */
  lemma CanonicalExact(a: Json, b: Json)
    requires Valid(a) && Valid(b) && Canonicalize(a).Some? && Canonicalize(b).Some?
    ensures Canonicalize(a) == Canonicalize(b) <==> Same(a, b)
  {
    if Canonicalize(a) == Canonicalize(b) {
      assert Print(a) + [] == Print(b) + [];
      Unambiguous(a, b, [], []);
    } else if Same(a, b) {
      SamePrints(a, b);
    }
  }
}
