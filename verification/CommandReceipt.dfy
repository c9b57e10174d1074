/**
 Command receipts: what the digest of a command binds, what the signature of a receipt covers, and which
 drafts an accepted command names.  Hashing, signature checks and date parsing are parameters.
 */
module CommandReceipt {
  import opened Wrappers
  import opened JsonNumber
  import opened JsonString
  import opened CanonicalJson
  import Sequences

  /** The code units of an ASCII constant. */
  function Ascii(s: string): (t: Text)
    ensures |t| == |s| && forall i | 0 <= i < |s| && s[i] < '\U{80}' :: t[i] == s[i] as int
  {
    seq(|s|, i requires 0 <= i < |s| => if s[i] < '\U{80}' then s[i] as int else 0)
  }

  const COMMAND_FIELDS: seq<string> :=
    ["schema_version", "request_id", "action", "action_level", "target", "args", "reversible", "requested_by",
     "requested_at", "expires_at", "nonce"]

  const SIGNATURE: Text := Ascii("signature")
  const DOMAIN: Text := Ascii("orca-jarvis/command-approval/v1\0")
  const DIGEST_PREFIX: Text := Ascii("sha256:")

  /** Property access: the own property of an object, undefined on everything else. */
  function Field(v: Json, key: Text): Json
  {
    if v.Obj? then Lookup(v.members, key) else Undefined
  }

  function Lookup(members: seq<Entry<Json>>, key: Text): Json
  {
    if members == [] then Undefined
    else if members[0].key == key then members[0].value
    else Lookup(members[1..], key)
  }

  /** The named fields of a value, in the order of the names. */
  function Pick(v: Json, names: seq<string>): seq<Entry<Json>>
  {
    seq(|names|, i requires 0 <= i < |names| => Entry(Ascii(names[i]), Field(v, Ascii(names[i]))))
  }

  function CommandBody(command: Json): Json { Obj(Pick(command, COMMAND_FIELDS)) }

  /** Nothing when the body cannot be canonicalised, where the source throws. */
  function CommandDigest(command: Json, hash: seq<Byte> -> Text): Option<Text>
    requires Valid(command)
  {
    BodyValid(command);
    var text := Canonicalize(CommandBody(command));
    if text.None? then None else Some(DIGEST_PREFIX + hash(Utf8(text.value)))
  }

  ghost predicate Injective(hash: seq<Byte> -> Text)
  {
    forall x, y | hash(x) == hash(y) :: x == y
  }

  // ---------- Canonical text as bytes ----------

  lemma {:induction false} JoinedWellFormed(parts: seq<Text>)
    requires forall i | 0 <= i < |parts| :: WellFormed(parts[i])
    ensures WellFormed(Joined(parts))
  {
    if |parts| > 1 {
      JoinedWellFormed(parts[1..]);
      PlainWellFormed([COMMA]);
      JoinWellFormed(parts[0], [COMMA]);
      JoinWellFormed(parts[0] + [COMMA], Joined(parts[1..]));
    }
  }

  lemma Bracketed(open: Unit, body: Text, close: Unit)
    requires open < 0xD800 && close < 0xD800 && WellFormed(body)
    ensures WellFormed([open] + body + [close])
  {
    PlainWellFormed([open]);
    PlainWellFormed([close]);
    JoinWellFormed([open], body);
    JoinWellFormed([open] + body, [close]);
  }

  lemma {:induction false} EntryTextsWellFormed(es: seq<Entry<Text>>)
    requires forall i | 0 <= i < |es| :: WellFormed(es[i].value)
    ensures forall i | 0 <= i < |EntryTexts(es)| :: WellFormed(EntryTexts(es)[i])
  {
    if es != [] {
      EntryTextsWellFormed(es[1..]);
      StringWellFormed(es[0].key);
      PlainWellFormed([COLON]);
      JoinWellFormed(StringText(es[0].key), [COLON]);
      JoinWellFormed(StringText(es[0].key) + [COLON], es[0].value);
    }
  }

  /** Canonical text never holds a lone surrogate, so nothing is lost when it is encoded as UTF-8. */
  lemma {:induction false} PrintWellFormed(v: Json)
    requires Printable(v)
    ensures WellFormed(Print(v))
    decreases v
  {
    hide WellFormed, Joined, EntryTexts;
    match v
    case Null => PlainWellFormed(NULL_TEXT);
    case Bool(b) => PlainWellFormed(Print(v));
    case Num(n) =>
      NumberUnits(n);
      PlainWellFormed(NumberText(n));
    case Str(t) => StringWellFormed(t);
    case Arr(items) =>
      forall i | 0 <= i < |items| ensures WellFormed(PrintItems(items)[i]) {
        PrintWellFormed(items[i]);
        ItemsAt(items, i);
      }
      JoinedWellFormed(PrintItems(items));
      Bracketed(OPEN_ARRAY, Joined(PrintItems(items)), CLOSE_ARRAY);
    case Obj(ms) =>
      forall i | 0 <= i < |ms| ensures WellFormed(Print(ms[i].value)) {
        PrintWellFormed(ms[i].value);
      }
      ObjectWellFormed(ms);
  }

  lemma ObjectWellFormed(ms: seq<Entry<Json>>)
    requires Printable(Obj(ms))
    requires forall i | 0 <= i < |ms| :: WellFormed(Print(ms[i].value))
    ensures WellFormed(Print(Obj(ms)))
  {
    hide WellFormed, Joined, EntryTexts;
    var es := PrintMembers(ms);
    PrintedDistinct(ms);
    SortSorted(es);
    forall k | 0 <= k < |Sort(es)| ensures WellFormed(Sort(es)[k].value) {
      assert Sort(es)[k] in Sort(es);
      var i :| 0 <= i < |es| && es[i] == Sort(es)[k];
      MembersAt(ms, i);
    }
    EntryTextsWellFormed(Sort(es));
    JoinedWellFormed(EntryTexts(Sort(es)));
    Bracketed(OPEN_OBJECT, Joined(EntryTexts(Sort(es))), CLOSE_OBJECT);
  }

  lemma BytesExact(a: Json, b: Json)
    requires Printable(a) && Printable(b)
    ensures Utf8(Print(a)) == Utf8(Print(b)) <==> Same(a, b)
  {
    PrintWellFormed(a);
    PrintWellFormed(b);
    CanonicalExact(a, b);
    hide Print, Same;
    if Utf8(Print(a)) == Utf8(Print(b)) { Utf8Exact(Print(a), Print(b)); }
  }

  // ---------- Fields ----------

  lemma {:induction false} LookupIs(members: seq<Entry<Json>>, e: Entry<Json>)
    requires DistinctKeys(members) && e in members
    ensures Lookup(members, e.key) == e.value
  {
    if members[0] != e {
      Sequences.Uncons(members);
      var i :| 0 <= i < |members| && members[i] == e;
      LookupIs(members[1..], e);
    }
  }

  lemma {:induction false} LookupFound(members: seq<Entry<Json>>, key: Text)
    ensures Lookup(members, key) == Undefined || Entry(key, Lookup(members, key)) in members
  {
    if members != [] {
      LookupFound(members[1..], key);
      Sequences.Uncons(members);
    }
  }

  lemma SameLookup(ms: seq<Entry<Json>>, ns: seq<Entry<Json>>, key: Text)
    requires DistinctKeys(ns)
    requires forall x | x in ms :: HasTwin(x, ns)
    ensures Lookup(ms, key) == Undefined || Same(Lookup(ms, key), Lookup(ns, key))
  {
    LookupFound(ms, key);
    hide Lookup;
    if Lookup(ms, key) != Undefined {
      var y := Twin(Entry(key, Lookup(ms, key)), ns);
      LookupIs(ns, y);
    }
  }

  lemma {:induction false} SameSymmetric(a: Json, b: Json)
    requires Same(a, b)
    ensures Same(b, a)
    decreases a, 1
  {
    match a
    case Arr(xs) =>
      forall i | 0 <= i < |xs| ensures Same(b.items[i], xs[i]) { SameSymmetric(xs[i], b.items[i]); }
    case Obj(ms) => ObjectSymmetric(a, ms, b.members);
    case _ =>
  }

  lemma {:induction false} ObjectSymmetric(a: Json, ms: seq<Entry<Json>>, ns: seq<Entry<Json>>)
    requires a == Obj(ms) && Same(a, Obj(ns))
    ensures Same(Obj(ns), a)
    decreases a, 0
  {
    ObjectMembers(ms, ns);
    hide Same, HasTwin, IsTwin;
    forall x, y | x in ms && y in ns && SameEntry(x, y) ensures SameEntry(y, x) {
      SameSymmetric(x.value, y.value);
    }
    hide SameEntry;
    SwappedMembers(ms, ns);
  }

  lemma SwappedMembers(ms: seq<Entry<Json>>, ns: seq<Entry<Json>>)
    requires forall x | x in ms :: HasTwin(x, ns)
    requires forall y | y in ns :: IsTwin(ms, y)
    requires forall x, y | x in ms && y in ns && SameEntry(x, y) :: SameEntry(y, x)
    ensures Same(Obj(ns), Obj(ms))
  {
    hide SameEntry;
    forall y | y in ns ensures HasTwin(y, ms) {
      var x := TwinOf(ms, y);
      var i := Sequences.Locate(ms, x);
      TwinAt(y, ms, i);
    }
    forall x | x in ms ensures IsTwin(ns, x) {
      var y := Twin(x, ns);
      var j := Sequences.Locate(ns, y);
      TwinOfAt(ns, x, j);
    }
    hide HasTwin, IsTwin;
  }

  /** The same values have the same fields. */
  lemma SameField(a: Json, b: Json, key: Text)
    requires Printable(a) && Printable(b) && Same(a, b)
    ensures Same(Field(a, key), Field(b, key))
  {
    if a.Obj? && b.Obj? {
      var ms, ns := a.members, b.members;
      ObjectMembers(ms, ns);
      SameLookup(ms, ns, key);
      SameSymmetric(a, b);
      ObjectMembers(ns, ms);
      SameLookup(ns, ms, key);
      UndefinedAlone(Lookup(ms, key), Lookup(ns, key));
      UndefinedAlone(Lookup(ns, key), Lookup(ms, key));
    }
  }

  lemma UndefinedAlone(a: Json, b: Json)
    ensures Same(a, b) ==> (a.Undefined? <==> b.Undefined?)
    ensures Same(Undefined, Undefined)
  {
  }

  lemma FieldsDistinct(i: nat, j: nat)
    requires i < j < |COMMAND_FIELDS|
    ensures Ascii(COMMAND_FIELDS[i]) != Ascii(COMMAND_FIELDS[j])
  {
    var s, t := COMMAND_FIELDS[i], COMMAND_FIELDS[j];
    if |s| == |t| { FieldsDiffer(i, j); }
  }

  /** Fields of equal length differ at their second, third or eleventh letter. */
  lemma FieldsDiffer(i: nat, j: nat)
    requires i < j < |COMMAND_FIELDS| && |COMMAND_FIELDS[i]| == |COMMAND_FIELDS[j]|
    ensures var s, t := Ascii(COMMAND_FIELDS[i]), Ascii(COMMAND_FIELDS[j]); |s| == |t| && s != t
  {
    var s, t := COMMAND_FIELDS[i], COMMAND_FIELDS[j];
    assert s[1] != t[1] || s[2] != t[2] || (|s| > 10 && s[10] != t[10]);
    var x, y := Ascii(s), Ascii(t);
    assert x[1] == s[1] as int && y[1] == t[1] as int;
    assert x[2] == s[2] as int && y[2] == t[2] as int;
    if |s| > 10 { assert x[10] == s[10] as int && y[10] == t[10] as int; }
  }

  lemma {:induction false} LookupValid(members: seq<Entry<Json>>, key: Text)
    requires forall i | 0 <= i < |members| :: Valid(members[i].value)
    ensures Valid(Lookup(members, key))
  {
    if members != [] { LookupValid(members[1..], key); }
  }

  lemma BodyValid(command: Json)
    requires Valid(command)
    ensures Valid(CommandBody(command))
  {
    var members := CommandBody(command).members;
    forall i | 0 <= i < |members| ensures Valid(members[i].value) {
      if command.Obj? { LookupValid(command.members, Ascii(COMMAND_FIELDS[i])); }
    }
    forall i, j | 0 <= i < j < |members| ensures members[i].key != members[j].key {
      FieldsDistinct(i, j);
    }
  }

  /** Two lists of members with the same keys, in the same order, are the same object exactly when all values are. */
  lemma SameColumns(ms: seq<Entry<Json>>, ns: seq<Entry<Json>>)
    requires |ms| == |ns| && DistinctKeys(ms) && forall i | 0 <= i < |ms| :: ms[i].key == ns[i].key
    ensures Same(Obj(ms), Obj(ns)) <==> forall i | 0 <= i < |ms| :: Same(ms[i].value, ns[i].value)
  {
    hide Same;
    if Same(Obj(ms), Obj(ns)) {
      ObjectMembers(ms, ns);
      forall i | 0 <= i < |ms| ensures Same(ms[i].value, ns[i].value) {
        assert ms[i] in ms;
        var y := Twin(ms[i], ns);
        var j :| 0 <= j < |ns| && ns[j] == y;
        assert ms[j].key == ms[i].key;
      }
    }
    if forall i | 0 <= i < |ms| :: Same(ms[i].value, ns[i].value) { ColumnsSame(ms, ns); }
  }

  lemma ColumnsSame(ms: seq<Entry<Json>>, ns: seq<Entry<Json>>)
    requires |ms| == |ns| && forall i | 0 <= i < |ms| :: ms[i].key == ns[i].key && Same(ms[i].value, ns[i].value)
    ensures Same(Obj(ms), Obj(ns))
  {
    assert forall i | 0 <= i < |ms| :: SameEntry(ms[i], ns[i]);
    SameFromSorted(ms, ns, ms, ns);
  }

  /** The two values agree on all the named fields. */
  ghost predicate SameFields(a: Json, b: Json, names: seq<string>)
  {
    forall i | 0 <= i < |names| :: Same(Field(a, Ascii(names[i])), Field(b, Ascii(names[i])))
  }

  lemma SamePicked(a: Json, b: Json, names: seq<string>)
    requires DistinctKeys(Pick(a, names))
    ensures Same(Obj(Pick(a, names)), Obj(Pick(b, names))) <==> SameFields(a, b, names)
  {
    hide Field, Ascii, Same;
    var ms, ns := Pick(a, names), Pick(b, names);
    SameColumns(ms, ns);
    assert forall i | 0 <= i < |names| ::
        ms[i].value == Field(a, Ascii(names[i])) && ns[i].value == Field(b, Ascii(names[i]));
  }

  /** The bodies of two commands are the same value exactly when all eleven fields are. */
  lemma SameBodies(a: Json, b: Json)
    requires Valid(a) && Valid(b)
    ensures Same(CommandBody(a), CommandBody(b)) <==> SameFields(a, b, COMMAND_FIELDS)
  {
    BodyValid(a);
    ValidKeys(Pick(a, COMMAND_FIELDS));
    SamePicked(a, b, COMMAND_FIELDS);
    hide Same, SameFields, Pick, Valid;
  }

  lemma ValidKeys(members: seq<Entry<Json>>)
    requires Valid(Obj(members))
    ensures DistinctKeys(members)
  {
  }

  // ---------- What a digest and a signature bind ----------

  lemma DigestOf(command: Json, hash: seq<Byte> -> Text)
    requires Valid(command) && CommandDigest(command, hash).Some?
    ensures Printable(CommandBody(command))
    ensures CommandDigest(command, hash).value == DIGEST_PREFIX + hash(Utf8(Print(CommandBody(command))))
  {
    BodyValid(command);
    hide Pick, Print, Printable;
  }

  /** Under a hash without collisions, equal digests mean equal fields, all eleven of them, and conversely. */
  lemma DigestBindsEveryField(a: Json, b: Json, hash: seq<Byte> -> Text)
    requires Valid(a) && Valid(b) && Injective(hash)
    requires CommandDigest(a, hash).Some? && CommandDigest(b, hash).Some?
    ensures CommandDigest(a, hash) == CommandDigest(b, hash) <==> SameFields(a, b, COMMAND_FIELDS)
  {
    hide CommandDigest, Same, Print, Printable, CommandBody, SameFields, Valid, Utf8, DIGEST_PREFIX;
    DigestOf(a, hash);
    DigestOf(b, hash);
    BytesExact(CommandBody(a), CommandBody(b));
    SameBodies(a, b);
    var x, y := hash(Utf8(Print(CommandBody(a)))), hash(Utf8(Print(CommandBody(b))));
    assert (DIGEST_PREFIX + x)[|DIGEST_PREFIX|..] == x && (DIGEST_PREFIX + y)[|DIGEST_PREFIX|..] == y;
  }

  function Omit(members: seq<Entry<Json>>, key: Text): seq<Entry<Json>>
  {
    if members == [] then []
    else (if members[0].key == key then [] else [members[0]]) + Omit(members[1..], key)
  }

  /** A receipt as it is signed: all of it but the signature. */
  function Unsigned(receipt: Json): Json
  {
    if receipt.Obj? then Obj(Omit(receipt.members, SIGNATURE)) else receipt
  }

  lemma {:induction false} OmitKeeps(members: seq<Entry<Json>>, key: Text)
    requires DistinctKeys(members)
    ensures DistinctKeys(Omit(members, key))
    ensures forall e :: e in Omit(members, key) <==> e in members && e.key != key
  {
    if members != [] {
      OmitKeeps(members[1..], key);
      Sequences.Uncons(members);
      var rest := Omit(members[1..], key);
      forall j | 0 <= j < |rest| ensures members[0].key != rest[j].key {
        assert rest[j] in members[1..];
      }
    }
  }

  lemma UnsignedValid(receipt: Json)
    requires Valid(receipt)
    ensures Valid(Unsigned(receipt))
  {
    if receipt.Obj? {
      OmitKeeps(receipt.members, SIGNATURE);
      var ms := Omit(receipt.members, SIGNATURE);
      forall i | 0 <= i < |ms| ensures Valid(ms[i].value) {
        assert ms[i] in receipt.members;
      }
    }
  }

  function SignedBytes(receipt: Json): Option<seq<Byte>>
    requires Valid(receipt)
  {
    UnsignedValid(receipt);
    var text := Canonicalize(Unsigned(receipt));
    if text.None? then None else Some(Utf8(DOMAIN + text.value))
  }

  /** A signature covers the whole receipt but itself: the signed bytes agree only for the same receipt. */
  lemma SignatureCoversReceipt(r: Json, s: Json)
    requires Valid(r) && Valid(s) && SignedBytes(r).Some? && SignedBytes(s).Some?
    ensures SignedBytes(r) == SignedBytes(s) <==> Same(Unsigned(r), Unsigned(s))
  {
    UnsignedValid(r);
    UnsignedValid(s);
    CanonicalExact(Unsigned(r), Unsigned(s));
    PrintWellFormed(Unsigned(r));
    PrintWellFormed(Unsigned(s));
    hide Same, Print, Unsigned;
    var x, y := Print(Unsigned(r)), Print(Unsigned(s));
    PlainWellFormed(DOMAIN);
    JoinWellFormed(DOMAIN, x);
    JoinWellFormed(DOMAIN, y);
    if Utf8(DOMAIN + x) == Utf8(DOMAIN + y) {
      Utf8Exact(DOMAIN + x, DOMAIN + y);
      assert (DOMAIN + x)[|DOMAIN|..] == x && (DOMAIN + y)[|DOMAIN|..] == y;
    }
  }

  // ---------- Accepting a command and finding the draft it names ----------

  function Word(s: string): Json { Str(Ascii(s)) }

  function Small(n: int): Json
    requires 1 <= n <= 9
  {
    Num(Decimal(false, [ZERO + n], 1))
  }

  /** Strict equality: separately parsed arrays and objects are never identical. */
  predicate Identical(a: Json, b: Json)
  {
    match (a, b)
    case (Num(m), Num(n)) => SameNumber(m, n) && !m.NonFinite?
    case _ => a == b && !a.Arr? && !a.Obj?
  }

  /** The constant fields of a command this server acts on. */
  predicate Delegated(command: Json)
  {
    && command.Obj?
    && Identical(Field(command, Ascii("schema_version")), Small(1))
    && Identical(Field(command, Ascii("action")), Word("external.delegate"))
    && Identical(Field(command, Ascii("action_level")), Small(3))
    && Identical(Field(command, Ascii("requested_by")), Word("agent:grok-bot"))
    && Identical(Field(Field(command, Ascii("target")), Ascii("environment")), Word("external"))
    && Identical(Field(Field(command, Ascii("target")), Ascii("system")), Word("grok-bot"))
    && Identical(Field(Field(command, Ascii("args")), Ascii("source")), Word("grok-bot"))
  }

  predicate InForce(command: Json, now: int, parse: Json -> Option<int>)
  {
    var requested, expires := parse(Field(command, Ascii("requested_at"))), parse(Field(command, Ascii("expires_at")));
    && requested.Some? && expires.Some?
    && requested.value <= now < expires.value && requested.value < expires.value
  }

  /** The receipt was given for this very command. */
  predicate DigestMatches(command: Json, receipt: Json, hash: seq<Byte> -> Text)
    requires Valid(command)
  {
    var digest := CommandDigest(command, hash);
    digest.Some? && Identical(Str(digest.value), Field(receipt, Ascii("command_digest")))
  }

  /** `verifyJarvisCommand`; `parse` is Date.parse, where nothing stands for a date that is not finite. */
  predicate CommandAccepted(command: Json, receipt: Json, now: int, parse: Json -> Option<int>, hash: seq<Byte> -> Text)
    requires Valid(command)
  {
    && Delegated(command) && InForce(command, now, parse)
    && Identical(Field(receipt, Ascii("request_id")), Field(command, Ascii("request_id")))
    && DigestMatches(command, receipt, hash)
  }

  /** Does the item name this draft with this content? */
  predicate NamesDraft(item: Json, draftId: Text, digest: Text)
  {
    && Identical(Field(item, Ascii("action_kind")), Word("mail.send"))
    && Identical(Field(item, Ascii("mail_draft_id")), Str(draftId))
    && Identical(Field(item, Ascii("payload_digest")), Str(DIGEST_PREFIX + digest))
  }

  function FindItem(items: seq<Json>, draftId: Text, digest: Text): Option<Json>
  {
    if items == [] then None
    else if NamesDraft(items[0], draftId, digest) then Some(items[0])
    else FindItem(items[1..], draftId, digest)
  }

  function MatchingMailItem(command: Json, draftId: Text, digest: Text): Option<Json>
  {
    var items := Field(Field(command, Ascii("args")), Ascii("items"));
    if items.Arr? then FindItem(items.items, draftId, digest) else None
  }

  lemma SameIdentical(a: Json, b: Json, t: Text)
    requires Same(a, b)
    ensures Identical(a, Str(t)) <==> Identical(b, Str(t))
  {
  }

  lemma SameNames(a: Json, b: Json, draftId: Text, digest: Text)
    requires Printable(a) && Printable(b) && Same(a, b)
    ensures NamesDraft(a, draftId, digest) <==> NamesDraft(b, draftId, digest)
  {
    SameField(a, b, Ascii("action_kind"));
    SameField(a, b, Ascii("mail_draft_id"));
    SameField(a, b, Ascii("payload_digest"));
    hide Same, Identical, Ascii, Field;
    SameIdentical(Field(a, Ascii("action_kind")), Field(b, Ascii("action_kind")), Ascii("mail.send"));
    SameIdentical(Field(a, Ascii("mail_draft_id")), Field(b, Ascii("mail_draft_id")), draftId);
    SameIdentical(Field(a, Ascii("payload_digest")), Field(b, Ascii("payload_digest")), DIGEST_PREFIX + digest);
  }

  lemma {:induction false} SameFind(xs: seq<Json>, ys: seq<Json>, draftId: Text, digest: Text)
    requires |xs| == |ys|
    requires forall i | 0 <= i < |xs| :: Printable(xs[i]) && Printable(ys[i]) && Same(xs[i], ys[i])
    ensures FindItem(xs, draftId, digest).Some? <==> FindItem(ys, draftId, digest).Some?
  {
    hide NamesDraft, Same;
    if xs != [] {
      SameNames(xs[0], ys[0], draftId, digest);
      SameFind(xs[1..], ys[1..], draftId, digest);
    }
  }

  lemma FieldPrintable(v: Json, key: Text)
    requires Printable(v)
    ensures Field(v, key) == Undefined || Printable(Field(v, key))
  {
    if v.Obj? {
      MembersPrintable(v.members);
      LookupFound(v.members, key);
    }
  }

  lemma MatchedDigest(command: Json, receipt: Json, hash: seq<Byte> -> Text)
    requires Valid(command) && DigestMatches(command, receipt, hash)
    ensures CommandDigest(command, hash).Some?
    ensures Field(receipt, Ascii("command_digest")) == Str(CommandDigest(command, hash).value)
    ensures Printable(CommandBody(command))
  {
    DigestOf(command, hash);
    hide CommandDigest, Field, Ascii, Printable, CommandBody;
  }

  lemma ArgsPrintable(command: Json)
    requires Valid(command) && Printable(CommandBody(command))
    ensures Printable(Field(command, Ascii("args")))
  {
    var body := CommandBody(command);
    assert COMMAND_FIELDS[5] == "args";
    assert body.members[5].value == Field(command, Ascii("args"));
    hide Field, Ascii;
  }

  /**
   Whatever two commands are accepted with one receipt, they name the same drafts: no draft can be
   approved under a receipt beyond those of the command its digest was computed from.
   */
  lemma ReceiptFixesDrafts(c1: Json, c2: Json, receipt: Json, now1: int, now2: int, parse: Json -> Option<int>,
                           hash: seq<Byte> -> Text, draftId: Text, digest: Text)
    requires Valid(c1) && Valid(c2) && Injective(hash)
    requires CommandAccepted(c1, receipt, now1, parse, hash) && CommandAccepted(c2, receipt, now2, parse, hash)
    ensures MatchingMailItem(c1, draftId, digest).Some? <==> MatchingMailItem(c2, draftId, digest).Some?
  {
    hide Delegated, InForce, DigestMatches, CommandDigest, CommandBody, Same, Field, Printable, Valid, Injective, Ascii,
         FindItem, Identical, SameFields;
    MatchedDigest(c1, receipt, hash);
    MatchedDigest(c2, receipt, hash);
    ArgsPrintable(c1);
    ArgsPrintable(c2);
    DigestBindsEveryField(c1, c2, hash);
    SameFieldsArgs(c1, c2);
    SameArgs(Field(c1, Ascii("args")), Field(c2, Ascii("args")), draftId, digest);
  }

  lemma SameFieldsArgs(a: Json, b: Json)
    requires SameFields(a, b, COMMAND_FIELDS)
    ensures Same(Field(a, Ascii("args")), Field(b, Ascii("args")))
  {
    hide Same, Field, Ascii;
    assert COMMAND_FIELDS[5] == "args";
  }

  lemma SameArgs(a: Json, b: Json, draftId: Text, digest: Text)
    requires Printable(a) && Printable(b) && Same(a, b)
    ensures var xs, ys := Field(a, Ascii("items")), Field(b, Ascii("items"));
            && (xs.Arr? <==> ys.Arr?)
            && (xs.Arr? && ys.Arr? ==>
                  (FindItem(xs.items, draftId, digest).Some? <==> FindItem(ys.items, draftId, digest).Some?))
  {
    SameField(a, b, Ascii("items"));
    FieldPrintable(a, Ascii("items"));
    FieldPrintable(b, Ascii("items"));
    hide Field;
    var xs, ys := Field(a, Ascii("items")), Field(b, Ascii("items"));
    if xs.Arr? && ys.Arr? { SameFind(xs.items, ys.items, draftId, digest); }
  }
}
