/** When a message is the receipt of a draft, field by field and in terms of the whole listing. */
module ReceiptMeaning {
  import opened Wrappers
  import opened JsonNumber
  import opened PageChain
  import opened ReceiptScan

  /** "x-mi-draft-id" and "text", as code units. */
  const DRAFT_HEADER: Text := [120, 45, 109, 105, 45, 100, 114, 97, 102, 116, 45, 105, 100]
  const PLAIN_TEXT: Text := [116, 101, 120, 116]

  predicate Named(host: Host, h: Header) { host.lower(h.name) == DRAFT_HEADER }

  /** Some header of that name holds the draft's id. */
  ghost predicate Carries(host: Host, m: SentMessage, draft: Sought)
  {
    exists k :: 0 <= k < |m.headers| && Named(host, m.headers[k]) && m.headers[k].value == draft.draftId
  }

  /** One header of that name there is, and it holds the draft's id. */
  ghost predicate CarriesOnly(host: Host, m: SentMessage, draft: Sought)
  {
    exists k ::
      && 0 <= k < |m.headers| && Named(host, m.headers[k]) && m.headers[k].value == draft.draftId
      && forall j | 0 <= j < |m.headers| && j != k :: !Named(host, m.headers[j])
  }

  /** The code units that trimming takes away. */
  const SPACES: set<Unit> :=
    {9, 10, 11, 12, 13, 32, 160, 5760, 8192, 8193, 8194, 8195, 8196, 8197, 8198, 8199, 8200, 8201, 8202, 8232, 8233,
     8239, 8287, 12288, 65279}

  predicate Spaces(t: Text) { forall i | 0 <= i < |t| :: t[i] in SPACES }

  predicate Trimmed(t: Text) { t != [] ==> t[0] !in SPACES && t[|t| - 1] !in SPACES }

  /** The same text up to line ends and the white space around it. */
  ghost predicate SameText(actual: Text, expected: Text)
  {
    exists c, p, s, q, r ::
      && Spaces(p) && Spaces(s) && Spaces(q) && Spaces(r) && Trimmed(c)
      && BodyText.Unix(actual) == p + c + s && BodyText.Unix(expected) == q + c + r
  }

  lemma SpaceIff(c: Unit)
    ensures BodyText.IsSpace(c) <==> c in SPACES
  {
  }

  lemma SpacesIff(t: Text)
    ensures BodyText.AllSpace(t) <==> Spaces(t)
    ensures BodyText.Bare(t) <==> Trimmed(t)
  {
    forall i | 0 <= i < |t| ensures BodyText.IsSpace(t[i]) <==> t[i] in SPACES {
      SpaceIff(t[i]);
    }
    hide BodyText.IsSpace, SPACES;
  }

  /** The same addresses, each as often, however they are capitalised and ordered. */
  predicate SameAddresses(actual: Option<seq<Text>>, expected: seq<Text>, lower: Text -> Text)
  {
    actual.Some? && multiset(MapText(lower, actual.value)) == multiset(MapText(lower, expected))
  }

  /** The message is the draft as it was approved, sent by now. */
  ghost predicate Accepted(host: Host, m: SentMessage, draft: Sought)
  {
    && CarriesOnly(host, m, draft)
    && !m.isDraft && m.id != []
    && m.sentAt.Some? && m.sentAt.value >= draft.approvedAt - 60000
    && m.subject == draft.subject
    && host.lower(m.contentType) == PLAIN_TEXT
    && m.content.Some? && SameText(m.content.value, draft.body)
    && SameAddresses(m.to, draft.to, host.lower)
    && SameAddresses(m.cc, draft.cc, host.lower)
  }

  // ---------- Headers ----------

  lemma OneAhead<T>(a: T, xs: seq<T>, h: T)
    ensures [a] + xs == [h] <==> a == h && xs == []
  {
    assert ([a] + xs)[0] == a && |[a] + xs| == 1 + |xs|;
  }

  lemma OneBehind<T>(xs: seq<T>, a: T, h: T)
    ensures xs + [a] == [h] <==> a == h && xs == []
  {
    assert (xs + [a])[|xs|] == a && |xs + [a]| == 1 + |xs|;
  }

  lemma {:induction false} CorrelationHas(headers: seq<Header>, lower: Text -> Text, h: Header)
    ensures h in Correlation(headers, lower) <==> h in headers && lower(h.name) == CORRELATION_HEADER
  {
    if headers != [] {
      CorrelationHas(headers[1..], lower, h);
      assert h in headers <==> h == headers[0] || h in headers[1..];
    }
  }

  lemma BearsIff(host: Host, m: SentMessage, draft: Sought)
    ensures Bears(host, m, draft) <==> Carries(host, m, draft)
  {
    var found := Correlation(m.headers, host.lower);
    if Bears(host, m, draft) {
      var i :| 0 <= i < |found| && found[i].value == draft.draftId;
      CorrelationHas(m.headers, host.lower, found[i]);
      var k :| 0 <= k < |m.headers| && m.headers[k] == found[i];
      assert Named(host, m.headers[k]);
    }
    if Carries(host, m, draft) {
      var k :| 0 <= k < |m.headers| && Named(host, m.headers[k]) && m.headers[k].value == draft.draftId;
      CorrelationHas(m.headers, host.lower, m.headers[k]);
      var i :| 0 <= i < |found| && found[i] == m.headers[k];
    }
  }

  /** The headers of that name are one exactly when one index holds it and no other does. */
  lemma {:induction false} CorrelationOne(headers: seq<Header>, lower: Text -> Text, h: Header)
    ensures Correlation(headers, lower) == [h] <==> exists k :: Alone(headers, lower, h, k)
  {
    if headers != [] {
      var rest := headers[1..];
      if lower(headers[0].name) == CORRELATION_HEADER {
        NoneCorrelates(rest, lower);
        HeadAlone(headers, lower, h);
        OneAhead(headers[0], Correlation(rest, lower), h);
      } else {
        CorrelationOne(rest, lower, h);
        TailAlone(headers, lower, h);
      }
    }
  }

  ghost predicate Alone(headers: seq<Header>, lower: Text -> Text, h: Header, k: int)
  {
    && 0 <= k < |headers| && headers[k] == h && lower(headers[k].name) == CORRELATION_HEADER
    && forall j | 0 <= j < |headers| && j != k :: lower(headers[j].name) != CORRELATION_HEADER
  }

  lemma {:induction false} NoneCorrelates(headers: seq<Header>, lower: Text -> Text)
    ensures Correlation(headers, lower) == [] <==>
      forall j | 0 <= j < |headers| :: lower(headers[j].name) != CORRELATION_HEADER
  {
    if headers != [] {
      NoneCorrelates(headers[1..], lower);
      assert forall j | 1 <= j < |headers| :: headers[j] == headers[1..][j - 1];
    }
  }

  lemma HeadAlone(headers: seq<Header>, lower: Text -> Text, h: Header)
    requires headers != [] && lower(headers[0].name) == CORRELATION_HEADER
    ensures (exists k :: Alone(headers, lower, h, k)) <==>
      headers[0] == h && forall j | 0 <= j < |headers[1..]| :: lower(headers[1..][j].name) != CORRELATION_HEADER
  {
    if k :| Alone(headers, lower, h, k) { assert k == 0; }
    if headers[0] == h && forall j | 0 <= j < |headers[1..]| :: lower(headers[1..][j].name) != CORRELATION_HEADER {
      assert forall j | 1 <= j < |headers| :: headers[j] == headers[1..][j - 1];
      assert Alone(headers, lower, h, 0);
    }
  }

  lemma TailAlone(headers: seq<Header>, lower: Text -> Text, h: Header)
    requires headers != [] && lower(headers[0].name) != CORRELATION_HEADER
    ensures (exists k :: Alone(headers, lower, h, k)) <==> exists k :: Alone(headers[1..], lower, h, k)
  {
    if k :| Alone(headers, lower, h, k) {
      assert forall j | 0 <= j < |headers[1..]| :: headers[1..][j] == headers[j + 1];
      assert Alone(headers[1..], lower, h, k - 1);
    }
    if k :| Alone(headers[1..], lower, h, k) {
      assert forall j | 1 <= j < |headers| :: headers[j] == headers[1..][j - 1];
      assert Alone(headers, lower, h, k + 1);
    }
  }

  lemma OnlyIff(host: Host, m: SentMessage, draft: Sought)
    ensures CarriesOnly(host, m, draft) <==> Bears(host, m, draft) && |Correlation(m.headers, host.lower)| == 1
  {
    var found := Correlation(m.headers, host.lower);
    if |found| == 1 {
      CorrelationOne(m.headers, host.lower, found[0]);
      assert found == [found[0]];
      var k :| Alone(m.headers, host.lower, found[0], k);
      assert Named(host, m.headers[k]);
    }
    if CarriesOnly(host, m, draft) {
      var k :| 0 <= k < |m.headers| && Named(host, m.headers[k]) && m.headers[k].value == draft.draftId
        && forall j | 0 <= j < |m.headers| && j != k :: !Named(host, m.headers[j]);
      CorrelationOne(m.headers, host.lower, m.headers[k]);
      assert forall j | 0 <= j < |m.headers| && j != k :: !Named(host, m.headers[j]);
      assert Alone(m.headers, host.lower, m.headers[k], k);
      assert found == [m.headers[k]];
    }
  }

  // ---------- One message ----------

  /** A message that carries the draft's id matches it exactly when every field is as it must be. */
  lemma AcceptedIff(host: Host, m: SentMessage, draft: Sought)
    ensures Bears(host, m, draft) && Matches(host, m, draft) <==> Accepted(host, m, draft)
  {
    OnlyIff(host, m, draft);
    AddressesAreMultisets(m.to, draft.to, host.lower);
    AddressesAreMultisets(m.cc, draft.cc, host.lower);
    hide Bears, CarriesOnly, BodyText.SameBody, SameText, EqualAddresses, SameAddresses, Correlation;
    TextIff(m, draft);
    AddressesIff(m.to, draft.to, host.lower);
    AddressesIff(m.cc, draft.cc, host.lower);
  }

  lemma TextIff(m: SentMessage, draft: Sought)
    ensures BodyText.SameBody(m.content, draft.body) <==> m.content.Some? && SameText(m.content.value, draft.body)
  {
    if m.content.Some? {
      BodyText.SameBodyIff(m.content.value, draft.body);
      forall t ensures (BodyText.AllSpace(t) <==> Spaces(t)) && (BodyText.Bare(t) <==> Trimmed(t)) {
        SpacesIff(t);
      }
    }
    hide BodyText.Unix, BodyText.AllSpace, BodyText.Bare, BodyText.BothTrimmed, Spaces, Trimmed;
  }

  lemma AddressesIff(actual: Option<seq<Text>>, expected: seq<Text>, lower: Text -> Text)
    ensures EqualAddresses(actual, expected, lower) <==> SameAddresses(actual, expected, lower)
  {
    AddressesAreMultisets(actual, expected, lower);
    hide SortedText;
  }

  // ---------- The whole listing ----------

  /** The listing, page by page, none of them twice, to its end and within the limit. */
  ghost predicate Listing<T>(web: Web<T>, first: Text, maxPages: nat, path: seq<Text>)
  {
    web.Complete(first, path) && |path| <= maxPages
  }

  /** Of all messages in the listing this one alone carries the draft's id. */
  ghost predicate OnlyCarrier(host: Host, ms: seq<SentMessage>, draft: Sought, k: nat)
  {
    k < |ms| && Carries(host, ms[k], draft) && forall j | 0 <= j < |ms| && j != k :: !Carries(host, ms[j], draft)
  }

  /** What the attachments of the message are, when each has a name of its own and can be read. */
  ghost predicate Contains(host: Host, messageId: Text, files: seq<SentFile>, facts: seq<FileFact>)
  {
    && |facts| == |files|
    && forall i | 0 <= i < |files| ::
         && !files[i].isInline && files[i].id != []
         && host.contents(messageId, files[i].id).Some?
         && facts[i] == FileFact(files[i].name, host.contents(messageId, files[i].id).value.size,
                                 host.contents(messageId, files[i].id).value.sha256)
  }

  ghost predicate FilesAgree(host: Host, maxPages: nat, messageId: Text, expected: seq<FileFact>)
  {
    expected == [] ||
      exists path, facts ::
        && Listing(host.files(messageId), host.firstFiles(messageId), maxPages, path)
        && Contains(host, messageId, host.files(messageId).Items(path), facts)
        && SameAttachmentReceipt(host, expected, facts)
  }

  ghost predicate NoBearer(host: Host, ms: seq<SentMessage>, draft: Sought)
  {
    forall j | 0 <= j < |ms| :: !Bears(host, ms[j], draft)
  }

  lemma {:induction false} BearingNothing(host: Host, ms: seq<SentMessage>, draft: Sought)
    ensures Bearing(host, ms, draft) == [] <==> NoBearer(host, ms, draft)
  {
    hide Bears;
    if ms != [] { BearingNothing(host, ms[..|ms| - 1], draft); }
  }

  lemma {:induction false} BearingOne(host: Host, ms: seq<SentMessage>, draft: Sought, m: SentMessage)
    ensures Bearing(host, ms, draft) == [m] <==>
      exists k: nat :: k < |ms| && ms[k] == m && OnlyBearer(host, ms, draft, k)
  {
    hide Bears;
    if ms != [] {
      var n := |ms| - 1;
      if Bears(host, ms[n], draft) {
        BearingNothing(host, ms[..n], draft);
        LastBears(host, ms, draft, m);
        OneBehind(Bearing(host, ms[..n], draft), ms[n], m);
      } else {
        BearingOne(host, ms[..n], draft, m);
        LastIsOther(host, ms, draft, m);
      }
    }
  }

  ghost predicate OnlyBearer(host: Host, ms: seq<SentMessage>, draft: Sought, k: nat)
  {
    k < |ms| && Bears(host, ms[k], draft) && forall j | 0 <= j < |ms| && j != k :: !Bears(host, ms[j], draft)
  }

  lemma LastBears(host: Host, ms: seq<SentMessage>, draft: Sought, m: SentMessage)
    requires ms != [] && Bears(host, ms[|ms| - 1], draft)
    ensures (exists k: nat :: k < |ms| && ms[k] == m && OnlyBearer(host, ms, draft, k)) <==>
      ms[|ms| - 1] == m && NoBearer(host, ms[..|ms| - 1], draft)
  {
    hide Bears;
    var n := |ms| - 1;
    if k: nat :| k < |ms| && ms[k] == m && OnlyBearer(host, ms, draft, k) { assert k == n; }
    if k: nat :| k < |ms| && ms[k] == m && OnlyBearer(host, ms, draft, k) {
      assert forall j | 0 <= j < n :: ms[..n][j] == ms[j];
    }
    if ms[n] == m && NoBearer(host, ms[..n], draft) {
      assert forall j | 0 <= j < n :: ms[..n][j] == ms[j];
      assert OnlyBearer(host, ms, draft, n);
    }
  }

  lemma LastIsOther(host: Host, ms: seq<SentMessage>, draft: Sought, m: SentMessage)
    requires ms != [] && !Bears(host, ms[|ms| - 1], draft)
    ensures var front := ms[..|ms| - 1];
      (exists k: nat :: k < |ms| && ms[k] == m && OnlyBearer(host, ms, draft, k)) <==>
      (exists k: nat :: k < |front| && front[k] == m && OnlyBearer(host, front, draft, k))
  {
    hide Bears;
    var front := ms[..|ms| - 1];
    assert forall j | 0 <= j < |front| :: front[j] == ms[j];
    if k: nat :| k < |ms| && ms[k] == m && OnlyBearer(host, ms, draft, k) { assert OnlyBearer(host, front, draft, k); }
    if k: nat :| k < |front| && front[k] == m && OnlyBearer(host, front, draft, k) {
      assert OnlyBearer(host, ms, draft, k);
    }
  }

  lemma CarrierIff(host: Host, ms: seq<SentMessage>, draft: Sought, k: nat)
    ensures OnlyBearer(host, ms, draft, k) <==> OnlyCarrier(host, ms, draft, k)
  {
    forall j | 0 <= j < |ms| ensures Bears(host, ms[j], draft) <==> Carries(host, ms[j], draft) {
      BearsIff(host, ms[j], draft);
    }
    hide Bears, Carries;
  }

  /**
   A message is the receipt of a draft if and only if the listing can be read to its end within the limit, this
   message alone in it carries the draft's id, every field of it is as approved, and its attachments are the draft's.
   */
  lemma ConfirmedIff(host: Host, maxPages: nat, draft: Sought, m: SentMessage)
    ensures Confirmed(host, maxPages, draft, m) <==>
      && (exists path, k: nat ::
            && Listing(host.messages, host.firstPage, maxPages, path)
            && k < |host.messages.Items(path)| && host.messages.Items(path)[k] == m
            && OnlyCarrier(host, host.messages.Items(path), draft, k))
      && Accepted(host, m, draft)
      && FilesAgree(host, maxPages, m.id, draft.files)
  {
    FilesIff(host, maxPages, m.id, draft.files);
    AcceptedIff(host, m, draft);
    ListingIff(host, maxPages, draft, m);
    hide Accepted, FilesAgree, Bears, Matches, OnlyCarrier, CleanListing, FilesConfirmed;
  }

  ghost predicate OneInListing(host: Host, maxPages: nat, draft: Sought, m: SentMessage, path: seq<Text>, k: nat)
  {
    && Listing(host.messages, host.firstPage, maxPages, path)
    && k < |host.messages.Items(path)| && host.messages.Items(path)[k] == m
    && OnlyCarrier(host, host.messages.Items(path), draft, k)
  }

  lemma CleanIff(host: Host, maxPages: nat, draft: Sought, m: SentMessage, path: seq<Text>)
    ensures CleanListing(host, maxPages, draft, path) && Bearing(host, host.messages.Items(path), draft) == [m] <==>
      (exists k: nat :: OneInListing(host, maxPages, draft, m, path, k)) && Bears(host, m, draft) && Matches(host, m, draft)
  {
    var ms := host.messages.Items(path);
    BearingOne(host, ms, draft, m);
    forall k: nat ensures OnlyBearer(host, ms, draft, k) <==> OnlyCarrier(host, ms, draft, k) {
      CarrierIff(host, ms, draft, k);
    }
    OneMatches(host, m, draft);
    hide Bears, Matches, OnlyCarrier, Bearing, AllMatch;
    if k: nat :| k < |ms| && ms[k] == m && OnlyBearer(host, ms, draft, k) {
      assert OneInListing(host, maxPages, draft, m, path, k) <==> Listing(host.messages, host.firstPage, maxPages, path);
    }
  }

  lemma OneMatches(host: Host, m: SentMessage, draft: Sought)
    ensures AllMatch(host, [m], draft) <==> Matches(host, m, draft)
  {
    hide Matches;
    assert [m][0] == m;
  }

  lemma ListingIff(host: Host, maxPages: nat, draft: Sought, m: SentMessage)
    ensures (exists path :: CleanListing(host, maxPages, draft, path) && Bearing(host, host.messages.Items(path), draft) == [m])
      <==>
      (exists path, k: nat ::
         && Listing(host.messages, host.firstPage, maxPages, path)
         && k < |host.messages.Items(path)| && host.messages.Items(path)[k] == m
         && OnlyCarrier(host, host.messages.Items(path), draft, k))
      && Bears(host, m, draft) && Matches(host, m, draft)
  {
    hide Bears, Matches, OnlyCarrier, Bearing, CleanListing, Listing;
    if path :| CleanListing(host, maxPages, draft, path) && Bearing(host, host.messages.Items(path), draft) == [m] {
      CleanIff(host, maxPages, draft, m, path);
      var k: nat :| OneInListing(host, maxPages, draft, m, path, k);
    }
    if path, k: nat :|
      && Listing(host.messages, host.firstPage, maxPages, path)
      && k < |host.messages.Items(path)| && host.messages.Items(path)[k] == m
      && OnlyCarrier(host, host.messages.Items(path), draft, k)
    {
      assert OneInListing(host, maxPages, draft, m, path, k);
      CleanIff(host, maxPages, draft, m, path);
    }
  }

  lemma FactsIff(host: Host, messageId: Text, files: seq<SentFile>, facts: seq<FileFact>)
    ensures Contains(host, messageId, files, facts) <==>
      AllReadable(host, messageId, files) && facts == Facts(host, messageId, files)
  {
  }

  lemma FilesIff(host: Host, maxPages: nat, messageId: Text, expected: seq<FileFact>)
    ensures FilesConfirmed(host, maxPages, messageId, expected) <==> FilesAgree(host, maxPages, messageId, expected)
  {
    if expected != [] {
      hide SameAttachmentReceipt, AllReadable, Facts, Contains;
      if path :| FilesMatch(host, maxPages, messageId, expected, path) {
        var files := host.files(messageId).Items(path);
        FactsIff(host, messageId, files, Facts(host, messageId, files));
        assert Listing(host.files(messageId), host.firstFiles(messageId), maxPages, path);
      }
      if FilesAgree(host, maxPages, messageId, expected) {
        var path, facts :|
          && Listing(host.files(messageId), host.firstFiles(messageId), maxPages, path)
          && Contains(host, messageId, host.files(messageId).Items(path), facts)
          && SameAttachmentReceipt(host, expected, facts);
        FactsIff(host, messageId, host.files(messageId).Items(path), facts);
        assert FilesMatch(host, maxPages, messageId, expected, path);
      }
    }
  }
}
