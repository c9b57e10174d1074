/**
 Looking for the receipt of a draft among the sent items: which messages carry it, when one of them is
 accepted, and what is reported otherwise.
 */
module ReceiptScan {
  import opened Wrappers
  import opened JsonNumber
  import CanonicalJson
  import opened PageChain
  import BodyText
  import Sequences
  import StableSort
  import TextSort

  datatype Header = Header(name: Text, value: Text)

  /** A message as Graph lists it; `sentAt` is nothing when the date does not parse. */
  datatype SentMessage = SentMessage(
    id: Text, headers: seq<Header>, isDraft: bool, sentAt: Option<int>, subject: Text, contentType: Text,
    content: Option<Text>, to: Option<seq<Text>>, cc: Option<seq<Text>>)

  datatype SentFile = SentFile(id: Text, isInline: bool, name: Text)
  datatype FileFact = FileFact(name: Text, size: nat, sha256: Text)
  datatype Content = Content(size: nat, sha256: Text)

  datatype Sought = Sought(
    draftId: Text, approvedAt: int, subject: Text, body: Text, to: seq<Text>, cc: seq<Text>, files: seq<FileFact>)

  /** What the mailbox answers, and the host's lower-casing and comparison of texts. */
  datatype Host = Host(
    messages: Web<SentMessage>, firstPage: Text,
    files: Text -> Web<SentFile>, firstFiles: Text -> Text, contents: (Text, Text) -> Option<Content>,
    lower: Text -> Text, collateBefore: (Text, Text) -> bool)

  datatype Code =
    | ReceiptUnavailable | ScanIncomplete | PayloadMismatch | Ambiguous | ReceiptPending

  datatype Found = Receipt(graphMessageId: Text, sentAt: int) | Uncertain(code: Code)

  const CORRELATION_HEADER: Text :=
    [0x78, 0x2D, 0x6D, 0x69, 0x2D, 0x64, 0x72, 0x61, 0x66, 0x74, 0x2D, 0x69, 0x64]
  const TEXT_TYPE: Text := [0x74, 0x65, 0x78, 0x74]
  const CLOCK_SLACK := 60000

  // ---------- Addresses ----------

  function MapText(f: Text -> Text, xs: seq<Text>): (ys: seq<Text>)
    ensures |ys| == |xs|
  {
    seq(|xs|, i requires 0 <= i < |xs| => f(xs[i]))
  }

  function JsonList(xs: seq<Text>): (j: CanonicalJson.Json)
    ensures CanonicalJson.Printable(j)
  {
    var items := seq(|xs|, i requires 0 <= i < |xs| => CanonicalJson.Str(xs[i]));
    assert forall i | 0 <= i < |items| :: items[i].Str? && CanonicalJson.Printable(items[i]);
    CanonicalJson.Arr(items)
  }

  function SortedText(xs: seq<Text>): Text { CanonicalJson.Print(JsonList(TextSort.Sorted(xs))) }

  /** `actual` is nothing when the message has no recipient list. */
  predicate EqualAddresses(actual: Option<seq<Text>>, expected: seq<Text>, lower: Text -> Text)
  {
    actual.Some? && SortedText(MapText(lower, actual.value)) == SortedText(MapText(lower, expected))
  }

  // ---------- One message ----------

  function Correlation(headers: seq<Header>, lower: Text -> Text): seq<Header>
  {
    if headers == [] then []
    else
      (if lower(headers[0].name) == CORRELATION_HEADER then [headers[0]] else []) + Correlation(headers[1..], lower)
  }

  /** The message carries the draft's id in a correlation header. */
  predicate Bears(host: Host, m: SentMessage, draft: Sought)
  {
    exists i | 0 <= i < |Correlation(m.headers, host.lower)| ::
      Correlation(m.headers, host.lower)[i].value == draft.draftId
  }

  /** The message is what the draft would have become. */
  predicate Matches(host: Host, m: SentMessage, draft: Sought)
  {
    && |Correlation(m.headers, host.lower)| == 1 && !m.isDraft && m.id != []
    && m.sentAt.Some? && m.sentAt.value >= draft.approvedAt - CLOCK_SLACK
    && m.subject == draft.subject && host.lower(m.contentType) == TEXT_TYPE
    && BodyText.SameBody(m.content, draft.body)
    && EqualAddresses(m.to, draft.to, host.lower) && EqualAddresses(m.cc, draft.cc, host.lower)
  }

  function Bearing(host: Host, ms: seq<SentMessage>, draft: Sought): seq<SentMessage>
  {
    if ms == [] then []
    else
      Bearing(host, ms[..|ms| - 1], draft) + if Bears(host, ms[|ms| - 1], draft) then [ms[|ms| - 1]] else []
  }

  predicate AllMatch(host: Host, ms: seq<SentMessage>, draft: Sought)
  {
    forall i | 0 <= i < |ms| :: Matches(host, ms[i], draft)
  }

  // ---------- Attachments ----------

  /** The text attachments are sorted by. */
  function SortKey(f: FileFact): Text { f.name + [0x7C] + NatText(f.size) + [0x7C] + f.sha256 }

  function FileBefore(host: Host): (FileFact, FileFact) -> bool
  {
    (a, b) => host.collateBefore(SortKey(a), SortKey(b))
  }

  predicate SameAttachmentReceipt(host: Host, expected: seq<FileFact>, actual: seq<FileFact>)
  {
    && |expected| == |actual|
    && StableSort.Sort(FileBefore(host), expected) == StableSort.Sort(FileBefore(host), actual)
  }

  predicate FileReadable(host: Host, messageId: Text, f: SentFile)
  {
    !f.isInline && f.id != [] && host.contents(messageId, f.id).Some?
  }

  predicate AllReadable(host: Host, messageId: Text, fs: seq<SentFile>)
  {
    forall i | 0 <= i < |fs| :: FileReadable(host, messageId, fs[i])
  }

  function Fact(host: Host, messageId: Text, f: SentFile): FileFact
    requires FileReadable(host, messageId, f)
  {
    var c := host.contents(messageId, f.id).value;
    FileFact(f.name, c.size, c.sha256)
  }

  function Facts(host: Host, messageId: Text, fs: seq<SentFile>): seq<FileFact>
    requires AllReadable(host, messageId, fs)
  {
    seq(|fs|, i requires 0 <= i < |fs| => Fact(host, messageId, fs[i]))
  }

  // ---------- When the draft has a receipt ----------

  ghost predicate WholeListing<T>(web: Web<T>, first: Text, maxPages: nat, path: seq<Text>)
  {
    web.Complete(first, path) && |path| <= maxPages
  }

  /** The attachments of the message can be read in full, and they are the draft's. */
  ghost predicate FilesMatch(host: Host, maxPages: nat, messageId: Text, expected: seq<FileFact>, path: seq<Text>)
  {
    var web := host.files(messageId);
    && WholeListing(web, host.firstFiles(messageId), maxPages, path)
    && AllReadable(host, messageId, web.Items(path))
    && SameAttachmentReceipt(host, expected, Facts(host, messageId, web.Items(path)))
  }

  ghost predicate FilesConfirmed(host: Host, maxPages: nat, messageId: Text, expected: seq<FileFact>)
  {
    expected == [] || exists path :: FilesMatch(host, maxPages, messageId, expected, path)
  }

  /** The whole listing was read and every message that carries the draft's id is what it should be. */
  ghost predicate CleanListing(host: Host, maxPages: nat, draft: Sought, path: seq<Text>)
  {
    && WholeListing(host.messages, host.firstPage, maxPages, path)
    && AllMatch(host, Bearing(host, host.messages.Items(path), draft), draft)
  }

  /** The receipt a reader of the whole mailbox would accept. */
  ghost predicate Confirmed(host: Host, maxPages: nat, draft: Sought, m: SentMessage)
  {
    && (exists path :: CleanListing(host, maxPages, draft, path)
                       && Bearing(host, host.messages.Items(path), draft) == [m])
    && FilesConfirmed(host, maxPages, m.id, draft.files)
  }

  // ---------- What a scan may conclude when it stops early ----------

  /** A scan that cannot go past `path` has no whole listing to find. */
  lemma Blocked<T>(web: Web<T>, first: Text, maxPages: nat, path: seq<Text>)
    requires web.Chain(first, path) && web.NextOf(first, path) != []
    ensures var next := web.NextOf(first, path);
      (!web.Readable(next) || next in path || |path| >= maxPages) ==>
        (forall whole :: !WholeListing(web, first, maxPages, whole))
  {
    forall whole | WholeListing(web, first, maxPages, whole)
      ensures var next := web.NextOf(first, path); web.Readable(next) && next !in path && |path| < maxPages
    {
      CompleteExtends(web, first, path, whole);
      ChainAt(web, first, whole, |path|);
    }
  }

  /** An item on the next page is in every whole listing. */
  lemma NextPageCounts<T>(web: Web<T>, first: Text, maxPages: nat, path: seq<Text>, x: T)
    requires web.Chain(first, path) && web.NextOf(first, path) != []
    requires web.page(web.NextOf(first, path)).Listed? && x in web.page(web.NextOf(first, path)).items
    ensures forall whole | WholeListing(web, first, maxPages, whole) :: x in web.Items(whole)
  {
    forall whole | WholeListing(web, first, maxPages, whole) ensures x in web.Items(whole) {
      CompleteExtends(web, first, path, whole);
      ItemsContain(web, whole, |path|, x);
    }
  }

  lemma OneListing<T>(web: Web<T>, first: Text, path: seq<Text>)
    requires web.Complete(first, path)
    ensures forall whole | web.Complete(first, whole) :: whole == path
  {
    forall whole | web.Complete(first, whole) ensures whole == path {
      CompleteExtends(web, first, path, whole);
    }
  }

  lemma StepChain<T>(web: Web<T>, first: Text, path: seq<Text>)
    requires web.Chain(first, path)
    requires var next := web.NextOf(first, path); web.Readable(next) && next !in path
    ensures var next := web.NextOf(first, path);
            && web.Chain(first, path + [next])
            && web.NextOf(first, path + [next]) == web.page(next).next.value
            && web.Items(path + [next]) == web.Items(path) + web.page(next).items
  {
    var next := web.NextOf(first, path);
    assert (path + [next])[..|path|] == path;
    ItemsNext(web, path, next);
  }

  // ---------- What stops a scan ----------

  /** The pages of `path` were read, and the next link is no address or its page cannot be had. */
  ghost predicate CannotBeHad<T>(web: Web<T>, first: Text, path: seq<Text>)
  {
    var next := web.NextOf(first, path);
    web.Chain(first, path) && next != [] && (web.check(next).Malformed? || web.page(next).Failed?)
  }

  /** The pages of `path` were read, and the next link leads away, back or too far, or its page ends in no link. */
  ghost predicate LeadsAstray<T>(web: Web<T>, first: Text, maxPages: nat, path: seq<Text>)
  {
    var next := web.NextOf(first, path);
    && web.Chain(first, path) && next != []
    && (|| web.check(next).Foreign? || next in path || |path| == maxPages
        || (web.page(next).Listed? && web.page(next).next.None?))
  }

  /** `x` is on the page that follows those of `path`. */
  ghost predicate ComesNext<T>(web: Web<T>, first: Text, path: seq<Text>, x: T)
  {
    var next := web.NextOf(first, path);
    web.Chain(first, path) && next != [] && web.page(next).Listed? && x in web.page(next).items
  }

  /** What each code of a failed reading of attachments means. */
  ghost predicate FileCause(host: Host, maxPages: nat, messageId: Text, code: Code)
  {
    var web, first := host.files(messageId), host.firstFiles(messageId);
    match code
    case ReceiptUnavailable =>
      || (exists path :: CannotBeHad(web, first, path))
      || (exists path, x :: ComesNext(web, first, path, x) && !x.isInline && x.id != [] && host.contents(messageId, x.id).None?)
    case ScanIncomplete => exists path :: LeadsAstray(web, first, maxPages, path)
    case PayloadMismatch => exists path, x :: ComesNext(web, first, path, x) && (x.isInline || x.id == [])
    case _ => false
  }

  /** What each code of a failed scan of the sent items means. */
  ghost predicate ScanCause(host: Host, maxPages: nat, draft: Sought, code: Code)
  {
    var web, first := host.messages, host.firstPage;
    match code
    case ReceiptUnavailable => exists path :: CannotBeHad(web, first, path)
    case ScanIncomplete => exists path :: LeadsAstray(web, first, maxPages, path)
    case PayloadMismatch =>
      exists path, x :: ComesNext(web, first, path, x) && Bears(host, x, draft) && !Matches(host, x, draft)
    case _ => false
  }

  // ---------- The scans ----------

  datatype FilesRead = Files(items: seq<FileFact>) | FilesUncertain(code: Code)

  ghost predicate ReadTruly(host: Host, maxPages: nat, messageId: Text, r: FilesRead)
  {
    var web, first := host.files(messageId), host.firstFiles(messageId);
    if r.Files? then
      exists path ::
        && WholeListing(web, first, maxPages, path) && AllReadable(host, messageId, web.Items(path))
        && r.items == Facts(host, messageId, web.Items(path))
    else
      && r.code in {ReceiptUnavailable, ScanIncomplete, PayloadMismatch}
      && forall path | WholeListing(web, first, maxPages, path) :: !AllReadable(host, messageId, web.Items(path))
  }

  /** `readSentAttachments` returns the facts of every attachment, or there is no way to read them all. */
  method ReadSentAttachments(host: Host, maxPages: nat, messageId: Text) returns (r: FilesRead)
    ensures ReadTruly(host, maxPages, messageId, r)
    ensures r.FilesUncertain? ==> FileCause(host, maxPages, messageId, r.code)
  {
    hide FileReadable, AllReadable, WholeListing, Facts, ReadTruly, FileCause;
    NoFacts(host, messageId);
    var web, first := host.files(messageId), host.firstFiles(messageId);
    var items: seq<FileFact> := [];
    var seen: set<Text> := {};
    var next := first;
    var pages := 0;
    ghost var path: seq<Text> := [];
    while next != []
      invariant web.Chain(first, path) && next == web.NextOf(first, path)
      invariant pages == |path| <= maxPages && seen == set l | l in path
      invariant AllReadable(host, messageId, web.Items(path))
      invariant items == Facts(host, messageId, web.Items(path))
      decreases maxPages - pages
    {
      BlockedFiles(host, maxPages, messageId, path);
      if web.check(next).Malformed? {
        FilesNotHad(host, maxPages, messageId, path);
        return FilesUncertain(ReceiptUnavailable);
      }
      if web.check(next).Foreign? || next in seen || pages >= maxPages {
        FilesAstray(host, maxPages, messageId, path);
        return FilesUncertain(ScanIncomplete);
      }
      pages := pages + 1;
      seen := seen + {next};
      var response := web.page(next);
      if response.Failed? {
        FilesNotHad(host, maxPages, messageId, path);
        return FilesUncertain(ReceiptUnavailable);
      }
      ghost var before := items;
      assert response.items[..0] == [];
      var i := 0;
      while i < |response.items|
        invariant 0 <= i <= |response.items|
        invariant AllReadable(host, messageId, response.items[..i])
        invariant items == before + Facts(host, messageId, response.items[..i])
      {
        var item := response.items[i];
        if !FileReadable(host, messageId, item) {
          NextPageCounts(web, first, maxPages, path, item);
          UnreadableSpoils(host, maxPages, messageId, item);
          UnreadableCause(host, maxPages, messageId, path, item);
          return FilesUncertain(if item.isInline || item.id == [] then PayloadMismatch else ReceiptUnavailable);
        }
        FactsNext(host, messageId, response.items, i);
        items := items + [Fact(host, messageId, item)];
        i := i + 1;
      }
      assert response.items[..i] == response.items;
      if response.next.None? {
        FilesAstray(host, maxPages, messageId, path);
        return FilesUncertain(ScanIncomplete);
      }
      StepChain(web, first, path);
      FactsJoin(host, messageId, web.Items(path), response.items);
      path := path + [next];
      next := response.next.value;
    }
    WholeRead(host, maxPages, messageId, path);
    return Files(items);
  }

  lemma FilesNotHad(host: Host, maxPages: nat, messageId: Text, path: seq<Text>)
    requires CannotBeHad(host.files(messageId), host.firstFiles(messageId), path)
    ensures FileCause(host, maxPages, messageId, ReceiptUnavailable)
  {
  }

  lemma FilesAstray(host: Host, maxPages: nat, messageId: Text, path: seq<Text>)
    requires LeadsAstray(host.files(messageId), host.firstFiles(messageId), maxPages, path)
    ensures FileCause(host, maxPages, messageId, ScanIncomplete)
  {
  }

  lemma UnreadableCause(host: Host, maxPages: nat, messageId: Text, path: seq<Text>, x: SentFile)
    requires ComesNext(host.files(messageId), host.firstFiles(messageId), path, x) && !FileReadable(host, messageId, x)
    ensures FileCause(host, maxPages, messageId, if x.isInline || x.id == [] then PayloadMismatch else ReceiptUnavailable)
  {
  }

  lemma NoFacts(host: Host, messageId: Text)
    ensures AllReadable(host, messageId, []) && Facts(host, messageId, []) == []
  {
  }

  lemma WholeRead(host: Host, maxPages: nat, messageId: Text, path: seq<Text>)
    requires var web, first := host.files(messageId), host.firstFiles(messageId);
             web.Chain(first, path) && web.NextOf(first, path) == [] && |path| <= maxPages
             && AllReadable(host, messageId, web.Items(path))
    ensures ReadTruly(host, maxPages, messageId, Files(Facts(host, messageId, host.files(messageId).Items(path))))
  {
    hide AllReadable, Facts;
    assert WholeListing(host.files(messageId), host.firstFiles(messageId), maxPages, path);
  }

  lemma BlockedFiles(host: Host, maxPages: nat, messageId: Text, path: seq<Text>)
    requires var web, first := host.files(messageId), host.firstFiles(messageId);
             web.Chain(first, path) && web.NextOf(first, path) != []
    ensures var web, next := host.files(messageId), host.files(messageId).NextOf(host.firstFiles(messageId), path);
      (!web.Readable(next) || next in path || |path| >= maxPages) ==>
        && ReadTruly(host, maxPages, messageId, FilesUncertain(ReceiptUnavailable))
        && ReadTruly(host, maxPages, messageId, FilesUncertain(ScanIncomplete))
  {
    hide AllReadable, WholeListing;
    Blocked(host.files(messageId), host.firstFiles(messageId), maxPages, path);
  }

  lemma UnreadableSpoils(host: Host, maxPages: nat, messageId: Text, item: SentFile)
    requires !FileReadable(host, messageId, item)
    requires forall path | WholeListing(host.files(messageId), host.firstFiles(messageId), maxPages, path) ::
      item in host.files(messageId).Items(path)
    ensures ReadTruly(host, maxPages, messageId, FilesUncertain(PayloadMismatch))
    ensures ReadTruly(host, maxPages, messageId, FilesUncertain(ReceiptUnavailable))
  {
    hide FileReadable, WholeListing;
  }

  lemma FactsNext(host: Host, messageId: Text, fs: seq<SentFile>, i: nat)
    requires i < |fs| && AllReadable(host, messageId, fs[..i]) && FileReadable(host, messageId, fs[i])
    ensures AllReadable(host, messageId, fs[..i + 1])
    ensures Facts(host, messageId, fs[..i + 1]) == Facts(host, messageId, fs[..i]) + [Fact(host, messageId, fs[i])]
  {
  }

  lemma FactsJoin(host: Host, messageId: Text, xs: seq<SentFile>, ys: seq<SentFile>)
    requires AllReadable(host, messageId, xs) && AllReadable(host, messageId, ys)
    ensures AllReadable(host, messageId, xs + ys)
    ensures Facts(host, messageId, xs + ys) == Facts(host, messageId, xs) + Facts(host, messageId, ys)
  {
  }

  datatype Scanned = Matched(messages: seq<SentMessage>) | Stopped(code: Code)

  /** The page loop of `reconcile`: all messages that carry the draft's id, or no clean listing exists. */
  method ScanSentItems(host: Host, maxPages: nat, draft: Sought) returns (r: Scanned)
    ensures r.Matched? ==>
      exists path :: CleanListing(host, maxPages, draft, path)
                     && r.messages == Bearing(host, host.messages.Items(path), draft)
    ensures r.Stopped? ==> ScanCause(host, maxPages, draft, r.code)
    ensures r.Stopped? ==> forall path :: !CleanListing(host, maxPages, draft, path)
  {
    hide Bears, Matches, AllMatch, Bearing, CleanListing, WholeListing, ScanCause;
    NothingBears(host, draft);
    var web, first := host.messages, host.firstPage;
    var matched: seq<SentMessage> := [];
    var seen: set<Text> := {};
    var next := first;
    var pages := 0;
    ghost var path: seq<Text> := [];
    while next != []
      invariant web.Chain(first, path) && next == web.NextOf(first, path)
      invariant pages == |path| <= maxPages && seen == set l | l in path
      invariant matched == Bearing(host, web.Items(path), draft) && AllMatch(host, matched, draft)
      decreases maxPages - pages
    {
      BlockedScan(host, maxPages, draft, path);
      if web.check(next).Malformed? {
        ScanNotHad(host, maxPages, draft, path);
        return Stopped(ReceiptUnavailable);
      }
      if web.check(next).Foreign? || next in seen || pages >= maxPages {
        ScanAstray(host, maxPages, draft, path);
        return Stopped(ScanIncomplete);
      }
      pages := pages + 1;
      seen := seen + {next};
      var response := web.page(next);
      if response.Failed? {
        ScanNotHad(host, maxPages, draft, path);
        return Stopped(ReceiptUnavailable);
      }
      ghost var before := matched;
      BearingNone(host, before, response.items, draft);
      var i := 0;
      while i < |response.items|
        invariant 0 <= i <= |response.items|
        invariant matched == before + Bearing(host, response.items[..i], draft) && AllMatch(host, matched, draft)
      {
        var message := response.items[i];
        BearingNext(host, before, response.items, i, draft);
        if Bears(host, message, draft) {
          if !Matches(host, message, draft) {
            NextPageCounts(web, first, maxPages, path, message);
            MismatchSpoils(host, maxPages, draft, message);
            MismatchCause(host, maxPages, draft, path, message);
            return Stopped(PayloadMismatch);
          }
          AllMatchNext(host, matched, message, draft);
          matched := matched + [message];
        }
        i := i + 1;
      }
      assert response.items[..i] == response.items;
      if response.next.None? {
        ScanAstray(host, maxPages, draft, path);
        return Stopped(ScanIncomplete);
      }
      StepChain(web, first, path);
      BearingJoin(host, web.Items(path), response.items, draft);
      path := path + [next];
      next := response.next.value;
    }
    WholeAndClean(host, maxPages, draft, path);
    return Matched(matched);
  }

  lemma ScanNotHad(host: Host, maxPages: nat, draft: Sought, path: seq<Text>)
    requires CannotBeHad(host.messages, host.firstPage, path)
    ensures ScanCause(host, maxPages, draft, ReceiptUnavailable)
  {
  }

  lemma ScanAstray(host: Host, maxPages: nat, draft: Sought, path: seq<Text>)
    requires LeadsAstray(host.messages, host.firstPage, maxPages, path)
    ensures ScanCause(host, maxPages, draft, ScanIncomplete)
  {
  }

  lemma MismatchCause(host: Host, maxPages: nat, draft: Sought, path: seq<Text>, m: SentMessage)
    requires ComesNext(host.messages, host.firstPage, path, m) && Bears(host, m, draft) && !Matches(host, m, draft)
    ensures ScanCause(host, maxPages, draft, PayloadMismatch)
  {
    hide Bears, Matches;
  }

  lemma NothingBears(host: Host, draft: Sought)
    ensures Bearing(host, [], draft) == [] && AllMatch(host, [], draft)
  {
  }

  lemma BearingNone(host: Host, before: seq<SentMessage>, ms: seq<SentMessage>, draft: Sought)
    ensures before + Bearing(host, ms[..0], draft) == before
  {
  }

  lemma BearingNext(host: Host, before: seq<SentMessage>, ms: seq<SentMessage>, i: nat, draft: Sought)
    requires i < |ms|
    ensures before + Bearing(host, ms[..i + 1], draft)
         == before + Bearing(host, ms[..i], draft) + if Bears(host, ms[i], draft) then [ms[i]] else []
  {
    hide Bears;
    assert ms[..i + 1][..i] == ms[..i];
  }

  lemma AllMatchNext(host: Host, ms: seq<SentMessage>, m: SentMessage, draft: Sought)
    requires AllMatch(host, ms, draft) && Matches(host, m, draft)
    ensures AllMatch(host, ms + [m], draft)
  {
    hide Matches;
  }

  lemma BlockedScan(host: Host, maxPages: nat, draft: Sought, path: seq<Text>)
    requires host.messages.Chain(host.firstPage, path) && host.messages.NextOf(host.firstPage, path) != []
    ensures var next := host.messages.NextOf(host.firstPage, path);
      (!host.messages.Readable(next) || next in path || |path| >= maxPages) ==>
        (forall whole :: !CleanListing(host, maxPages, draft, whole))
  {
    hide AllMatch, Bearing, WholeListing;
    Blocked(host.messages, host.firstPage, maxPages, path);
  }

  lemma WholeAndClean(host: Host, maxPages: nat, draft: Sought, path: seq<Text>)
    requires host.messages.Chain(host.firstPage, path) && host.messages.NextOf(host.firstPage, path) == []
    requires |path| <= maxPages && AllMatch(host, Bearing(host, host.messages.Items(path), draft), draft)
    ensures CleanListing(host, maxPages, draft, path)
  {
    hide AllMatch, Bearing;
  }

  /**
   `reconcile`: it stops for every host, yields a receipt exactly when the whole mailbox listing confirms one,
   and reports "pending" and "ambiguous" only of a listing that was read in full.
   */
  method Reconcile(host: Host, maxPages: nat, draft: Sought) returns (r: Found)
    ensures r.Receipt? ==>
      exists m :: Confirmed(host, maxPages, draft, m) && m.id == r.graphMessageId && m.sentAt == Some(r.sentAt)
    ensures r.Uncertain? ==> forall m :: !Confirmed(host, maxPages, draft, m)
    ensures r == Uncertain(ReceiptPending) <==>
      exists path :: CleanListing(host, maxPages, draft, path)
                     && Bearing(host, host.messages.Items(path), draft) == []
    ensures r == Uncertain(Ambiguous) <==>
      exists path :: CleanListing(host, maxPages, draft, path)
                     && |Bearing(host, host.messages.Items(path), draft)| > 1
    ensures r.Uncertain? && r.code != ReceiptPending && r.code != Ambiguous ==>
      || ScanCause(host, maxPages, draft, r.code)
      || exists m :: FileCause(host, maxPages, m, r.code) || (r.code == PayloadMismatch && OtherFiles(host, maxPages, m, draft))
  {
    hide CleanListing, Bearing, SameAttachmentReceipt, WholeListing, AllReadable, ScanCause, FileCause, OtherFiles;
    ScanCodes(host, maxPages, draft);
    var scan := ScanSentItems(host, maxPages, draft);
    if scan.Stopped? { return Uncertain(scan.code); }
    ghost var path :| CleanListing(host, maxPages, draft, path)
      && scan.messages == Bearing(host, host.messages.Items(path), draft);
    ListingDecides(host, maxPages, draft, path);
    hide Confirmed, FilesConfirmed;
    if |scan.messages| != 1 { return Uncertain(if |scan.messages| > 1 then Ambiguous else ReceiptPending); }
    var m := scan.messages[0];
    if draft.files != [] {
      var files := ReadSentAttachments(host, maxPages, m.id);
      FilesDecided(host, maxPages, m.id, draft.files, files);
      FileCodes(host, maxPages, m.id);
      OtherFilesRead(host, maxPages, m.id, draft, files);
      if files.FilesUncertain? { return Uncertain(files.code); }
      if !SameAttachmentReceipt(host, draft.files, files.items) { return Uncertain(PayloadMismatch); }
    } else {
      NoFiles(host, maxPages, m.id);
    }
    return Receipt(m.id, m.sentAt.value);
  }

  /** The attachments were read in full, and are not the draft's. */
  ghost predicate OtherFiles(host: Host, maxPages: nat, messageId: Text, draft: Sought)
  {
    exists items :: ReadTruly(host, maxPages, messageId, Files(items)) && !SameAttachmentReceipt(host, draft.files, items)
  }

  lemma OtherFilesRead(host: Host, maxPages: nat, messageId: Text, draft: Sought, files: FilesRead)
    requires ReadTruly(host, maxPages, messageId, files)
    ensures files.Files? && !SameAttachmentReceipt(host, draft.files, files.items) ==>
      OtherFiles(host, maxPages, messageId, draft)
  {
    hide ReadTruly, SameAttachmentReceipt;
  }

  lemma ScanCodes(host: Host, maxPages: nat, draft: Sought)
    ensures !ScanCause(host, maxPages, draft, ReceiptPending) && !ScanCause(host, maxPages, draft, Ambiguous)
  {
  }

  lemma FileCodes(host: Host, maxPages: nat, messageId: Text)
    ensures !FileCause(host, maxPages, messageId, ReceiptPending) && !FileCause(host, maxPages, messageId, Ambiguous)
  {
  }

  lemma NoFiles(host: Host, maxPages: nat, messageId: Text)
    ensures FilesConfirmed(host, maxPages, messageId, [])
  {
  }

  lemma FilesDecided(host: Host, maxPages: nat, messageId: Text, expected: seq<FileFact>, r: FilesRead)
    requires expected != [] && ReadTruly(host, maxPages, messageId, r)
    ensures FilesConfirmed(host, maxPages, messageId, expected) <==>
              r.Files? && SameAttachmentReceipt(host, expected, r.items)
  {
    hide WholeListing, AllReadable, SameAttachmentReceipt;
    if r.Files? {
      var web := host.files(messageId);
      var path :| WholeListing(web, host.firstFiles(messageId), maxPages, path)
        && AllReadable(host, messageId, web.Items(path)) && r.items == Facts(host, messageId, web.Items(path));
      FilesDecide(host, maxPages, messageId, expected, path, r.items);
    }
  }

  lemma FilesDecide(host: Host, maxPages: nat, messageId: Text, expected: seq<FileFact>, path: seq<Text>,
                    items: seq<FileFact>)
    requires expected != [] && WholeListing(host.files(messageId), host.firstFiles(messageId), maxPages, path)
    requires AllReadable(host, messageId, host.files(messageId).Items(path))
    requires items == Facts(host, messageId, host.files(messageId).Items(path))
    ensures FilesConfirmed(host, maxPages, messageId, expected) <==> SameAttachmentReceipt(host, expected, items)
  {
    OneListing(host.files(messageId), host.firstFiles(messageId), path);
    hide SameAttachmentReceipt, FileReadable;
    if SameAttachmentReceipt(host, expected, items) {
      assert FilesMatch(host, maxPages, messageId, expected, path);
    }
  }

  /** What a listing that was read in full says about receipts. */
  lemma ListingDecides(host: Host, maxPages: nat, draft: Sought, path: seq<Text>)
    requires CleanListing(host, maxPages, draft, path)
    ensures forall whole :: CleanListing(host, maxPages, draft, whole) <==> whole == path
    ensures var matched := Bearing(host, host.messages.Items(path), draft);
      && (forall m :: Confirmed(host, maxPages, draft, m) <==>
                        matched == [m] && FilesConfirmed(host, maxPages, m.id, draft.files))
      && (|matched| == 1 ==> matched[0].sentAt.Some?)
  {
    OneListing(host.messages, host.firstPage, path);
    hide FilesConfirmed, Bearing;
  }

  /** At most one message can be the receipt of a draft, and it carries the draft's id and content. */
  lemma OneReceipt(host: Host, maxPages: nat, draft: Sought, m: SentMessage, n: SentMessage)
    requires Confirmed(host, maxPages, draft, m) && Confirmed(host, maxPages, draft, n)
    ensures m == n && Bears(host, m, draft) && Matches(host, m, draft)
  {
    hide Bears, Matches, FilesConfirmed;
    var path :| CleanListing(host, maxPages, draft, path) && Bearing(host, host.messages.Items(path), draft) == [m];
    OneListing(host.messages, host.firstPage, path);
    BearingBears(host, host.messages.Items(path), draft);
    var ms := Bearing(host, host.messages.Items(path), draft);
    assert ms[0] == m;
  }

  lemma {:induction false} BearingBears(host: Host, ms: seq<SentMessage>, draft: Sought)
    ensures forall i | 0 <= i < |Bearing(host, ms, draft)| :: Bears(host, Bearing(host, ms, draft)[i], draft)
  {
    hide Bears;
    if ms != [] { BearingBears(host, ms[..|ms| - 1], draft); }
  }

  lemma {:induction false} BearingJoin(host: Host, xs: seq<SentMessage>, ys: seq<SentMessage>, draft: Sought)
    ensures Bearing(host, xs + ys, draft) == Bearing(host, xs, draft) + Bearing(host, ys, draft)
  {
    hide Bears;
    if ys == [] {
      assert xs + ys == xs;
    } else {
      var n := |ys| - 1;
      BearingJoin(host, xs, ys[..n], draft);
      assert (xs + ys)[..|xs + ys| - 1] == xs + ys[..n];
    }
  }

  lemma {:induction false} BearingHas(host: Host, ms: seq<SentMessage>, draft: Sought, m: SentMessage)
    requires m in ms && Bears(host, m, draft)
    ensures m in Bearing(host, ms, draft)
  {
    hide Bears;
    var n := |ms| - 1;
    if m != ms[n] { BearingHas(host, ms[..n], draft, m); }
  }

  /** A message that carries the draft's id but does not match spoils every listing it is in. */
  lemma MismatchSpoils(host: Host, maxPages: nat, draft: Sought, m: SentMessage)
    requires Bears(host, m, draft) && !Matches(host, m, draft)
    requires forall path | WholeListing(host.messages, host.firstPage, maxPages, path) :: m in host.messages.Items(path)
    ensures forall path :: !CleanListing(host, maxPages, draft, path)
  {
    hide Bears, Matches;
    forall path | CleanListing(host, maxPages, draft, path) ensures false {
      BearingHas(host, host.messages.Items(path), draft, m);
    }
  }

  // ---------- What equality of addresses and attachments means ----------

  /** Comparing sorted, lower-cased lists as JSON text is comparing multisets of lower-cased addresses. */
  lemma AddressesAreMultisets(actual: Option<seq<Text>>, expected: seq<Text>, lower: Text -> Text)
    ensures EqualAddresses(actual, expected, lower) <==>
      actual.Some? && multiset(MapText(lower, actual.value)) == multiset(MapText(lower, expected))
  {
    if actual.Some? {
      var xs, ys := MapText(lower, actual.value), MapText(lower, expected);
      TextSort.SortedIff(xs, ys);
      JsonListExact(TextSort.Sorted(xs), TextSort.Sorted(ys));
    }
  }

  lemma JsonListExact(xs: seq<Text>, ys: seq<Text>)
    ensures CanonicalJson.Print(JsonList(xs)) == CanonicalJson.Print(JsonList(ys)) <==> xs == ys
  {
    CanonicalJson.CanonicalExact(JsonList(xs), JsonList(ys));
    hide CanonicalJson.Print;
    var us, vs := JsonList(xs).items, JsonList(ys).items;
    if CanonicalJson.Same(JsonList(xs), JsonList(ys)) {
      forall i | 0 <= i < |xs| ensures xs[i] == ys[i] { assert us[i] == vs[i]; }
    }
  }

  /** Accepted attachments are the expected ones as a multiset of name, size and content hash. */
  lemma AcceptedFilesAreEqual(host: Host, expected: seq<FileFact>, actual: seq<FileFact>)
    requires StableSort.WeakOrder(FileBefore(host)) && SameAttachmentReceipt(host, expected, actual)
    ensures multiset(expected) == multiset(actual)
  {
    StableSort.SortedEqual(FileBefore(host), expected, actual);
  }

  /**
   The expected attachments are accepted in whatever order Graph lists them exactly when the host's text
   comparison ties no two different ones.
   */
  lemma FilesAcceptedInAnyOrderIff(host: Host, expected: seq<FileFact>)
    requires StableSort.WeakOrder(FileBefore(host))
    ensures (forall actual | multiset(actual) == multiset(expected) :: SameAttachmentReceipt(host, expected, actual))
       <==> StableSort.NoTies(FileBefore(host), expected)
  {
    var before := FileBefore(host);
    StableSort.SortDecidesIff(before, expected);
    if StableSort.NoTies(before, expected) {
      forall actual | multiset(actual) == multiset(expected) ensures SameAttachmentReceipt(host, expected, actual) {
        Sequences.SameSize(actual, expected);
      }
    } else {
      var actual :| multiset(actual) == multiset(expected)
        && StableSort.Sort(before, actual) != StableSort.Sort(before, expected);
      assert !SameAttachmentReceipt(host, expected, actual);
    }
  }

  /** Different attachments have different sort keys, so only the host's comparison can tie them. */
  lemma SortKeyExact(a: FileFact, b: FileFact)
    requires |a.sha256| == |b.sha256| && SortKey(a) == SortKey(b)
    ensures a == b
  {
    var x, y := NatText(a.size), NatText(b.size);
    var s, t := SortKey(a), SortKey(b);
    var n := |s| - |a.sha256|;
    assert s[n..] == a.sha256 && t[n..] == b.sha256;
    assert s[..n - 1] == a.name + [0x7C] + x && t[..n - 1] == b.name + [0x7C] + y;
    LastBar(a.name, x, b.name, y);
    NatRoundTrip(a.size);
    NatRoundTrip(b.size);
  }

  lemma LastBar(a: Text, x: Text, b: Text, y: Text)
    requires Digits(x) && Digits(y) && a + [0x7C] + x == b + [0x7C] + y
    ensures a == b && x == y
  {
    var s, t := a + [0x7C] + x, b + [0x7C] + y;
    assert forall k | |a| < k < |s| :: s[k] != 0x7C;
    assert forall k | |b| < k < |t| :: t[k] != 0x7C;
    assert s[|a|] == 0x7C && t[|b|] == 0x7C;
    assert s[..|a|] == a && t[..|b|] == b && s[|a| + 1..] == x && t[|b| + 1..] == y;
  }
}
