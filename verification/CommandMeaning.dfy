/** What an accepted receipt and an accepted command say, field by field, and for how long a receipt can be used. */
module CommandMeaning {
  import opened Wrappers
  import opened JsonNumber
  import opened JsonString
  import opened CanonicalJson
  import opened CommandReceipt

  const WINDOW_MS := 30 * 60_000

  /**
   `verifyJarvisReceipt`; `parse` is Date.parse, where nothing stands for a date that is not finite, and `verifies` the
   check of a signature over bytes under the configured key.
   */
  predicate ReceiptAccepted(receipt: Json, keyId: Text, now: int, parse: Json -> Option<int>,
                            verifies: (seq<Byte>, Json) -> bool)
    requires Valid(receipt)
  {
    && Identical(Field(receipt, Ascii("key_id")), Str(keyId))
    && Identical(Field(receipt, Ascii("algorithm")), Word("Ed25519"))
    && Identical(Field(receipt, Ascii("decision")), Word("approve"))
    && Identical(Field(receipt, Ascii("max_uses")), Small(1))
    && Identical(Field(receipt, Ascii("status")), Word("issued"))
    && Identical(Field(receipt, Ascii("schema_version")), Small(1))
    && InWindow(parse(Field(receipt, Ascii("issued_at"))), parse(Field(receipt, Ascii("not_before"))),
                parse(Field(receipt, Ascii("expires_at"))), now)
    && SignedBytes(receipt).Some? && verifies(SignedBytes(receipt).value, Field(receipt, SIGNATURE))
  }

  predicate InWindow(issued: Option<int>, notBefore: Option<int>, expires: Option<int>, now: int)
  {
    && issued.Some? && notBefore.Some? && expires.Some?
    && issued.value <= now && notBefore.value <= now && now < expires.value
    && expires.value - issued.value <= WINDOW_MS
  }

  // ---------- Field by field ----------

  /** The own field of that name is this text. */
  predicate Says(v: Json, name: string, text: Text) { Field(v, Ascii(name)) == Str(text) }

  /** The own field of that name is this one-digit number. */
  predicate Counts(v: Json, name: string, digit: int)
    requires 1 <= digit <= 9
  {
    var f := Field(v, Ascii(name));
    f.Num? && SameNumber(f.number, Decimal(false, [48 + digit], 1))
  }

  lemma SaysIff(v: Json, name: string, text: Text)
    ensures Identical(Field(v, Ascii(name)), Str(text)) <==> Says(v, name, text)
  {
  }

  lemma CountsIff(v: Json, name: string, digit: int)
    requires 1 <= digit <= 9
    ensures Identical(Field(v, Ascii(name)), Small(digit)) <==> Counts(v, name, digit)
  {
    hide Field, Ascii;
  }

  /** The receipt is an issued approval for one use, under the configured key, signed over all of it but the signature. */
  lemma ReceiptMeans(receipt: Json, keyId: Text, now: int, parse: Json -> Option<int>,
                     verifies: (seq<Byte>, Json) -> bool)
    requires Valid(receipt)
    ensures ReceiptAccepted(receipt, keyId, now, parse, verifies) <==>
      && Says(receipt, "key_id", keyId) && Says(receipt, "algorithm", Ascii("Ed25519"))
      && Says(receipt, "decision", Ascii("approve")) && Counts(receipt, "max_uses", 1)
      && Says(receipt, "status", Ascii("issued")) && Counts(receipt, "schema_version", 1)
      && (exists issued, notBefore, expires ::
            && parse(Field(receipt, Ascii("issued_at"))) == Some(issued)
            && parse(Field(receipt, Ascii("not_before"))) == Some(notBefore)
            && parse(Field(receipt, Ascii("expires_at"))) == Some(expires)
            && issued <= now < expires && notBefore <= now && expires <= issued + 1_800_000)
      && SignedBytes(receipt).Some? && verifies(SignedBytes(receipt).value, Field(receipt, Ascii("signature")))
  {
    SaysIff(receipt, "key_id", keyId);
    SaysIff(receipt, "algorithm", Ascii("Ed25519"));
    SaysIff(receipt, "decision", Ascii("approve"));
    CountsIff(receipt, "max_uses", 1);
    SaysIff(receipt, "status", Ascii("issued"));
    CountsIff(receipt, "schema_version", 1);
    hide Identical, Field, Ascii, Says, Counts, SignedBytes, Valid;
  }

  /** However a receipt is presented, and however often, it is accepted within one half hour only. */
  lemma ReceiptWindow(receipt: Json, keyId: Text, now1: int, now2: int, parse: Json -> Option<int>,
                      verifies: (seq<Byte>, Json) -> bool)
    requires Valid(receipt)
    requires ReceiptAccepted(receipt, keyId, now1, parse, verifies) && ReceiptAccepted(receipt, keyId, now2, parse, verifies)
    ensures now2 - now1 < 30 * 60 * 1000
  {
    hide Identical, Field, Ascii, SignedBytes, Valid;
  }

  /**
   The command is this server's: an external delegation of level three, asked for by the agent, addressed to it, in
   force now, and the very command that the receipt was given for.
   */
  lemma CommandMeans(command: Json, receipt: Json, now: int, parse: Json -> Option<int>, hash: seq<Byte> -> Text)
    requires Valid(command)
    ensures CommandAccepted(command, receipt, now, parse, hash) <==>
      && command.Obj? && Counts(command, "schema_version", 1) && Says(command, "action", Ascii("external.delegate"))
      && Counts(command, "action_level", 3) && Says(command, "requested_by", Ascii("agent:grok-bot"))
      && Says(Field(command, Ascii("target")), "environment", Ascii("external"))
      && Says(Field(command, Ascii("target")), "system", Ascii("grok-bot"))
      && Says(Field(command, Ascii("args")), "source", Ascii("grok-bot"))
      && (exists requested, expires ::
            && parse(Field(command, Ascii("requested_at"))) == Some(requested)
            && parse(Field(command, Ascii("expires_at"))) == Some(expires)
            && requested <= now < expires)
      && Identical(Field(receipt, Ascii("request_id")), Field(command, Ascii("request_id")))
      && CommandDigest(command, hash).Some? && Says(receipt, "command_digest", CommandDigest(command, hash).value)
  {
    DelegatedMeans(command);
    InForceMeans(command, now, parse);
    hide Delegated, InForce, Field, Ascii, Says, Counts, CommandDigest, Valid;
    DigestMeans(command, receipt, hash);
  }

  lemma DelegatedMeans(command: Json)
    ensures Delegated(command) <==>
      && command.Obj? && Counts(command, "schema_version", 1) && Says(command, "action", Ascii("external.delegate"))
      && Counts(command, "action_level", 3) && Says(command, "requested_by", Ascii("agent:grok-bot"))
      && Says(Field(command, Ascii("target")), "environment", Ascii("external"))
      && Says(Field(command, Ascii("target")), "system", Ascii("grok-bot"))
      && Says(Field(command, Ascii("args")), "source", Ascii("grok-bot"))
  {
    CountsIff(command, "schema_version", 1);
    SaysIff(command, "action", Ascii("external.delegate"));
    CountsIff(command, "action_level", 3);
    SaysIff(command, "requested_by", Ascii("agent:grok-bot"));
    SaysIff(Field(command, Ascii("target")), "environment", Ascii("external"));
    SaysIff(Field(command, Ascii("target")), "system", Ascii("grok-bot"));
    SaysIff(Field(command, Ascii("args")), "source", Ascii("grok-bot"));
    hide Identical, Field, Ascii, Says, Counts;
  }

  lemma InForceMeans(command: Json, now: int, parse: Json -> Option<int>)
    ensures InForce(command, now, parse) <==>
      exists requested, expires ::
        && parse(Field(command, Ascii("requested_at"))) == Some(requested)
        && parse(Field(command, Ascii("expires_at"))) == Some(expires)
        && requested <= now < expires
  {
    hide Field, Ascii;
  }

  lemma DigestMeans(command: Json, receipt: Json, hash: seq<Byte> -> Text)
    requires Valid(command)
    ensures DigestMatches(command, receipt, hash) <==>
      CommandDigest(command, hash).Some? && Says(receipt, "command_digest", CommandDigest(command, hash).value)
  {
    hide CommandDigest, Field, Ascii, Valid;
  }

  /** The item of a command that names a draft is the first that asks to send this draft with this content. */
  ghost predicate Names(item: Json, draftId: Text, digest: Text)
  {
    && Says(item, "action_kind", Ascii("mail.send")) && Says(item, "mail_draft_id", draftId)
    && Says(item, "payload_digest", Ascii("sha256:") + digest)
  }

  lemma NamesIff(item: Json, draftId: Text, digest: Text)
    ensures NamesDraft(item, draftId, digest) <==> Names(item, draftId, digest)
  {
    SaysIff(item, "action_kind", Ascii("mail.send"));
    SaysIff(item, "mail_draft_id", draftId);
    SaysIff(item, "payload_digest", Ascii("sha256:") + digest);
    hide Identical, Field, Ascii, Says;
  }

  lemma {:induction false} FoundItem(items: seq<Json>, draftId: Text, digest: Text)
    ensures var found := FindItem(items, draftId, digest);
            && (found.Some? <==> exists i :: 0 <= i < |items| && Names(items[i], draftId, digest))
            && (found.Some? ==>
                  exists i ::
                    && 0 <= i < |items| && found.value == items[i] && Names(items[i], draftId, digest)
                    && forall j | 0 <= j < i :: !Names(items[j], draftId, digest))
  {
    if items != [] {
      NamesIff(items[0], draftId, digest);
      FoundItem(items[1..], draftId, digest);
      hide NamesDraft, Names;
      var rest := items[1..];
      assert forall j | 1 <= j < |items| :: items[j] == rest[j - 1];
      var found := FindItem(items, draftId, digest);
      if found.Some? && !Names(items[0], draftId, digest) {
        var k :| 0 <= k < |rest| && found.value == rest[k] && Names(rest[k], draftId, digest)
          && forall j | 0 <= j < k :: !Names(rest[j], draftId, digest);
        assert items[k + 1] == rest[k];
        assert forall j | 0 <= j < k + 1 :: !Names(items[j], draftId, digest);
      }
      if i :| 0 <= i < |items| && Names(items[i], draftId, digest) {
        if i > 0 { assert rest[i - 1] == items[i]; }
      }
    }
  }

  /** A command names a draft exactly when its list of items has one for this draft and content. */
  lemma MatchMeans(command: Json, draftId: Text, digest: Text)
    ensures var items := Field(Field(command, Ascii("args")), Ascii("items"));
            MatchingMailItem(command, draftId, digest).Some? <==>
              items.Arr? && exists i :: 0 <= i < |items.items| && Names(items.items[i], draftId, digest)
  {
    var items := Field(Field(command, Ascii("args")), Ascii("items"));
    if items.Arr? { FoundItem(items.items, draftId, digest); }
    hide Field, Ascii, Names, FindItem;
  }

  // ---------- What is hashed and signed ----------

  ghost predicate Agree(a: Json, b: Json, name: string) { Same(Field(a, Ascii(name)), Field(b, Ascii(name))) }

  /** Equal digests bind these eleven fields, and nothing else of a command. */
  lemma DigestBinds(a: Json, b: Json, hash: seq<Byte> -> Text)
    requires Valid(a) && Valid(b) && Injective(hash)
    requires CommandDigest(a, hash).Some? && CommandDigest(b, hash).Some?
    ensures CommandDigest(a, hash) == CommandDigest(b, hash) <==>
      && Agree(a, b, "schema_version") && Agree(a, b, "request_id") && Agree(a, b, "action")
      && Agree(a, b, "action_level") && Agree(a, b, "target") && Agree(a, b, "args") && Agree(a, b, "reversible")
      && Agree(a, b, "requested_by") && Agree(a, b, "requested_at") && Agree(a, b, "expires_at") && Agree(a, b, "nonce")
  {
    DigestBindsEveryField(a, b, hash);
    AllAgree(a, b);
    hide CommandDigest, Valid, Injective, SameFields, Agree;
  }

  lemma AllAgree(a: Json, b: Json)
    ensures SameFields(a, b, COMMAND_FIELDS) <==>
      && Agree(a, b, "schema_version") && Agree(a, b, "request_id") && Agree(a, b, "action")
      && Agree(a, b, "action_level") && Agree(a, b, "target") && Agree(a, b, "args") && Agree(a, b, "reversible")
      && Agree(a, b, "requested_by") && Agree(a, b, "requested_at") && Agree(a, b, "expires_at") && Agree(a, b, "nonce")
  {
    FieldsAgree(a, b, COMMAND_FIELDS);
    hide Agree, SameFields;
    var f := COMMAND_FIELDS;
    assert f[0] == "schema_version" && f[1] == "request_id" && f[2] == "action" && f[3] == "action_level";
    assert f[4] == "target" && f[5] == "args" && f[6] == "reversible" && f[7] == "requested_by";
    assert f[8] == "requested_at" && f[9] == "expires_at" && f[10] == "nonce" && |f| == 11;
  }

  lemma FieldsAgree(a: Json, b: Json, names: seq<string>)
    ensures SameFields(a, b, names) <==> forall i | 0 <= i < |names| :: Agree(a, b, names[i])
  {
    hide Same, Field, Ascii;
  }

  /** A receipt is signed under its domain, over its canonical text without the member "signature". */
  lemma SignedMeans(receipt: Json)
    requires Valid(receipt) && receipt.Obj?
    ensures var rest := Omit(receipt.members, Ascii("signature"));
            && (forall e :: e in rest <==> e in receipt.members && e.key != Ascii("signature"))
            && Valid(Obj(rest))
            && SignedBytes(receipt)
               == if Supported(Obj(rest))
                  then Some(Utf8(Ascii("orca-jarvis/command-approval/v1\0") + Print(Obj(rest)))) else None
  {
    OmitKeeps(receipt.members, Ascii("signature"));
    UnsignedValid(receipt);
    hide Print, Omit, Utf8, Supported;
  }
}
