/** What the receiver of a `Hab`'s bytes reads in them. */
module HabEvents {
  import opened Wrappers
  import opened Numerals
  import opened JsonValues
  import opened Primitives
  import opened Thresholds
  import opened Versions
  import opened Saids
  import opened Serders
  import opened WireValues
  import opened Events
  import opened KeyStates
  import opened Signatures
  import opened Kevers
  import opened Counters
  import opened Parsers
  import opened Composers
  import opened Habs

  // ---------- an ideal keyring ----------

  /** A signer whose key is well formed and whose signatures verify and travel well. */
  ghost predicate Able(c: Suite, kr: Keyring, s: Signer) {
    && c.isKey(s.key)
    && forall msg, i {:trigger kr.sign(s, msg, i)} :: kr.sign(s, msg, i).Some? ==>
         GoodSignature(c, s.key, msg, i, kr.sign(s, msg, i).value)
  }

  predicate GoodSignature(c: Suite, key: string, msg: string, i: nat, g: Siger) {
    g.index == i && c.verify(key, msg, g.raw) == Check.Valid && GoodSiger(c, g)
  }

  ghost predicate AllAble(c: Suite, kr: Keyring, signers: seq<Signer>) {
    forall s :: s in signers ==> Able(c, kr, s)
  }

  /** Every derived signer is able. */
  ghost predicate KeyringLaw(c: Suite, kr: Keyring) {
    forall salt, code, path, t :: kr.derive(salt, code, path, t).Some? ==>
      Able(c, kr, kr.derive(salt, code, path, t).value)
  }

  lemma {:induction false} DerivedAble(c: Suite, kr: Keyring, salt: string, code: string, transferable: bool,
                                       generation: nat, count: nat)
    requires KeyringLaw(c, kr)
    ensures Derive(kr, salt, code, transferable, generation, count).Ok? ==>
      AllAble(c, kr, Derive(kr, salt, code, transferable, generation, count).value)
  {
    hide Able;
    if count > 0 {
      DerivedAble(c, kr, salt, code, transferable, generation, count - 1);
    }
  }

  // ---------- signatures ----------

  lemma {:induction false} SignedInOrder(c: Suite, kr: Keyring, signers: seq<Signer>, msg: string, n: nat)
    requires n <= |signers| && AllAble(c, kr, signers) && SignFirst(kr, signers, msg, n).Ok?
    ensures var sigs := SignFirst(kr, signers, msg, n).value;
      |sigs| == n && forall i :: 0 <= i < n ==> GoodSignature(c, signers[i].key, msg, i, sigs[i])
  {
    hide GoodSignature;
    if n > 0 {
      SignedInOrder(c, kr, signers, msg, n - 1);
      assert Able(c, kr, signers[n - 1]);
    }
  }

  ghost function Positions(n: nat): (s: set<nat>)
    ensures |s| == n && forall i :: i in s <==> 0 <= i < n
  {
    if n == 0 then {} else Positions(n - 1) + {n - 1}
  }

  /** Signing with every key meets any reachable simple threshold. */
  lemma AllKeysSign(c: Suite, kr: Keyring, signers: seq<Signer>, msg: string, t: nat)
    requires AllAble(c, kr, signers) && SignFirst(kr, signers, msg, |signers|).Ok? && 1 <= t <= |signers|
    ensures VerifySigs(c, msg, SignFirst(kr, signers, msg, |signers|).value, KeysOf(signers), Simple(t)).Ok?
  {
    hide AllAble, SignFirst, GoodSiger, Able;
    var n, sigs, keys := |signers|, SignFirst(kr, signers, msg, |signers|).value, KeysOf(signers);
    SignedInOrder(c, kr, signers, msg, n);
    forall s | s in sigs ensures SignedBy(c, msg, s, keys) {
      var i :| 0 <= i < n && sigs[i] == s;
      assert GoodSignature(c, signers[i].key, msg, i, sigs[i]);
    }
    forall i: nat | i < n ensures i in Signatures.Signed(c, msg, sigs, keys) {
      assert GoodSignature(c, signers[i].key, msg, i, sigs[i]);
      assert sigs[i] in sigs && SignedBy(c, msg, sigs[i], keys);
    }
    assert Signatures.Signed(c, msg, sigs, keys) == Positions(n);
  }

  // ---------- the bytes ----------

  lemma CountFits(serder: Serder, n: nat)
    requires CodeFor(serder, ControllerIdxSigs).Ok? && CounterText(CodeFor(serder, ControllerIdxSigs).value, n).Ok?
    ensures n < 4096
  {
    assert Capacity(2) == 4096;
  }

  /** The message a receiver parses from a finished body with these signatures and more groups behind it. */
  lemma ComposedReadWith(c: Suite, sad: Json, serder: Serder, said: string, sigs: seq<Siger>, e: SignedEvent,
                         more: seq<Group>)
    requires DigestLaw(c) && TextLaw(c) && DecodeLaw(c) && WellFormed(c, sad, MAX_DEPTH)
    requires Draft(sad) && DeclaredSize(sad) < 0x100_0000 && Build(c, sad) == Ok((serder, said))
    requires Assemble(serder, said, sigs) == Ok(e) && forall s :: s in sigs ==> GoodSiger(c, s)
    requires GoodGroups(c, more, V1)
    ensures GroupsText(more, V1).Ok?
    ensures var text := e.composed + GroupsText(more, V1).value;
      ParseNext(c, text, true) ==
        Ok((ParsedMessage(serder, [ControllerSigs(sigs)] + AttachmentsOf(c, more, V1)), |text|))
  {
    hide Build, DeclaredSize, GoodSiger, DigestLaw, TextLaw, DecodeLaw, FromRaw, ParseNext, WellFormed, Assemble,
         GoodGroups, GroupText, GroupsText, AttachmentOf, Draft, Headed;
    var first := SigGroup(ControllerIdxSigs, sigs);
    SelfDescription(c, sad, "");
    SentText(serder, said, sigs, e);
    SigsFirst(c, serder, sigs, more);
    var all := [first] + more;
    NothingIsAscii();
    GroupsRead(c, all, V1, "", true);
    var text := GroupsText(all, V1).value;
    AllGroupsText(first, more);
    SelfDescription(c, sad, text);
    BodyThenGroups(c, serder, all, text);
    Reassociate(serder.raw, GroupText(first, V1).value, GroupsText(more, V1).value);
    FirstAttachment(c, first, more);
  }

  lemma FirstAttachment(c: Suite, first: Group, more: seq<Group>)
    requires GoodGroups(c, [first] + more, V1) && GoodGroups(c, more, V1) && GoodGroup(c, first, V1)
    ensures AttachmentsOf(c, [first] + more, V1) == [AttachmentOf(c, first, V1)] + AttachmentsOf(c, more, V1)
  {
    hide GoodGroups, GoodGroup, AttachmentOf;
  }

  /** A signed event as one body and one group. */
  lemma SentText(serder: Serder, said: string, sigs: seq<Siger>, e: SignedEvent)
    requires Assemble(serder, said, sigs) == Ok(e) && TableOf(serder.version) == V1
    ensures |sigs| < 4096 && GroupText(SigGroup(ControllerIdxSigs, sigs), V1).Ok?
    ensures e.composed == serder.raw + GroupText(SigGroup(ControllerIdxSigs, sigs), V1).value
  {
    hide Assemble, CounterText, SigText, CodeOf;
    AssembledParts(serder, said, sigs, e);
    CountFits(serder, |sigs|);
  }

  /** A body that is cut off in front of its groups, and the groups. */
  lemma BodyThenGroups(c: Suite, serder: Serder, gs: seq<Group>, text: string)
    requires GoodGroups(c, gs, V1) && GroupsText(gs, V1) == Ok(text) && TableOf(serder.version) == V1
    requires FromRaw(c, serder.raw + text) == Ok(serder) && serder.version.Some?
    requires Headed(serder.sad, serder.version.value) && serder.raw == Print(serder.sad)
    ensures ParseNext(c, serder.raw + text, true) ==
      Ok((ParsedMessage(serder, AttachmentsOf(c, gs, V1)), |serder.raw + text|))
  {
    hide GoodGroups, GroupsText, FromRaw, ParseNext, ParseAttachments, Headed, Print, Ascii;
    NothingIsAscii();
    GroupsRead(c, gs, V1, "", true);
    assert text + "" == text;
    BodyStart(serder.sad, serder.version.value, serder.raw, text);
    Split(serder.raw, text);
    NextByParts(c, serder.raw + text, serder, (AttachmentsOf(c, gs, V1), |text|), true);
  }

  lemma SigsFirst(c: Suite, serder: Serder, sigs: seq<Siger>, more: seq<Group>)
    requires |sigs| < 4096 && (forall s :: s in sigs ==> GoodSiger(c, s)) && GoodGroups(c, more, V1)
    ensures GoodGroups(c, [SigGroup(ControllerIdxSigs, sigs)] + more, V1)
    ensures AttachmentOf(c, SigGroup(ControllerIdxSigs, sigs), V1) == ControllerSigs(sigs)
  {
    hide GoodSiger;
    var all := [SigGroup(ControllerIdxSigs, sigs)] + more;
    forall g | g in all ensures GoodGroup(c, g, V1) {}
    forall i | 0 <= i < |all| - 1 ensures !all[i].TransSigGroup? {
      if i > 0 {
        assert all[i] == more[i - 1];
      }
    }
  }

  lemma AllGroupsText(first: Group, more: seq<Group>)
    requires GroupsText([first] + more, V1).Ok?
    ensures GroupText(first, V1).Ok? && GroupsText(more, V1).Ok?
    ensures GroupsText([first] + more, V1).value == GroupText(first, V1).value + GroupsText(more, V1).value
  {
    hide GroupText;
    assert ([first] + more)[1..] == more;
  }

  /** The message a receiver parses from a finished body with these signatures behind it. */
  lemma ComposedRead(c: Suite, sad: Json, serder: Serder, said: string, sigs: seq<Siger>, e: SignedEvent)
    requires DigestLaw(c) && TextLaw(c) && DecodeLaw(c) && WellFormed(c, sad, MAX_DEPTH)
    requires Draft(sad) && DeclaredSize(sad) < 0x100_0000 && Build(c, sad) == Ok((serder, said))
    requires Assemble(serder, said, sigs) == Ok(e) && forall s :: s in sigs ==> GoodSiger(c, s)
    ensures ParseNext(c, e.composed, true) == Ok((ParsedMessage(serder, [ControllerSigs(sigs)]), |e.composed|))
  {
    hide Build, DeclaredSize, GoodSiger, DigestLaw, TextLaw, DecodeLaw, ParseNext, WellFormed, Assemble;
    ComposedReadWith(c, sad, serder, said, sigs, e, []);
    assert e.composed + "" == e.composed;
    assert [ControllerSigs(sigs)] + AttachmentsOf(c, [], V1) == [ControllerSigs(sigs)];
  }

  /** The message a receiver parses from an event's bytes. */
  lemma BytesRead(c: Suite, kr: Keyring, sad: Json, signers: seq<Signer>) returns (serder: Serder, sigs: seq<Siger>)
    requires DigestLaw(c) && TextLaw(c) && DecodeLaw(c) && AllAble(c, kr, signers) && WellFormed(c, sad, MAX_DEPTH)
    requires Draft(sad) && DeclaredSize(sad) < 0x100_0000 && Finish(c, kr, sad, signers).Ok?
    ensures var e := Finish(c, kr, sad, signers).value;
      && Build(c, sad) == Ok((serder, e.said)) && e.raw == serder.raw
      && SignFirst(kr, signers, serder.raw, |signers|) == Ok(sigs)
      && ParseNext(c, e.composed, true) == Ok((ParsedMessage(serder, [ControllerSigs(sigs)]), |e.composed|))
  {
    hide Build, SignFirst, CounterText, SigText, DeclaredSize, AllAble, GoodSiger, DigestLaw, TextLaw, DecodeLaw,
         ParseNext, Able, WellFormed, CodeFor;
    var e := Finish(c, kr, sad, signers).value;
    serder := Build(c, sad).value.0;
    sigs := SignFirst(kr, signers, serder.raw, |signers|).value;
    SignaturesTravel(c, kr, signers, serder.raw);
    ComposedRead(c, sad, serder, e.said, sigs, e);
  }

  lemma BodyStart(sad: Json, v: Version, raw: string, rest: string)
    requires Headed(sad, v) && raw == Print(sad)
    ensures raw + rest != "" && (raw + rest)[0] == '{'
  {
    HeadText(sad, v);
    assert (raw + rest)[0] == raw[..6][0];
  }

  lemma AssembledParts(serder: Serder, said: string, sigs: seq<Siger>, e: SignedEvent)
    requires Assemble(serder, said, sigs) == Ok(e)
    ensures CodeFor(serder, ControllerIdxSigs).Ok? && CounterText(CodeFor(serder, ControllerIdxSigs).value, |sigs|).Ok?
    ensures CodeOf(ControllerIdxSigs, TableOf(serder.version)) == Some(CodeFor(serder, ControllerIdxSigs).value)
    ensures e.composed ==
      serder.raw + (CounterText(CodeFor(serder, ControllerIdxSigs).value, |sigs|).value + SigText(sigs))
    ensures e.said == said && e.raw == serder.raw
  {
    hide CounterText, SigText, CodeOf;
  }

  lemma SignaturesTravel(c: Suite, kr: Keyring, signers: seq<Signer>, msg: string)
    requires AllAble(c, kr, signers) && SignFirst(kr, signers, msg, |signers|).Ok?
    ensures forall s :: s in SignFirst(kr, signers, msg, |signers|).value ==> GoodSiger(c, s)
  {
    SignedInOrder(c, kr, signers, msg, |signers|);
    var sigs := SignFirst(kr, signers, msg, |signers|).value;
    hide AllAble, SignFirst, GoodSiger;
    forall s | s in sigs ensures GoodSiger(c, s) {
      var i :| 0 <= i < |sigs| && sigs[i] == s;
      assert GoodSignature(c, signers[i].key, msg, i, sigs[i]);
    }
  }

  // ---------- the bodies ----------

  lemma {:induction false} StringsRead(xs: seq<string>)
    ensures StrItems(Strings(xs).items) == Some(xs) && StringsIn(Strings(xs).items) == xs
  {
    if xs != [] {
      StringsRead(xs[1..]);
      assert Strings(xs).items[1..] == Strings(xs[1..]).items;
      assert xs == [xs[0]] + xs[1..];
    }
  }

  lemma FieldAt(v: Json, i: nat)
    requires v.Obj? && i < |v.fields| && forall j :: 0 <= j < i ==> v.fields[j].key != v.fields[i].key
    ensures Get(v, v.fields[i].key) == Some(v.fields[i].value)
  {
    FindAt(v.fields, v.fields[i].key, i);
  }

  /** A string-array field of a body. */
  ghost predicate Holds(sad: Json, key: string, xs: seq<string>) {
    Get(sad, key) == Some(Strings(xs))
  }

  ghost predicate Says(sad: Json, key: string, s: string) {
    Get(sad, key) == Some(Str(s))
  }

  lemma ListsRead(sad: Json, key: string, xs: seq<string>)
    requires Holds(sad, key, xs)
    ensures StrArrField(sad, key) == Ok(xs)
  {
    StringsRead(xs);
  }

  lemma ThresholdRead(sad: Json, key: string, n: nat)
    requires Get(sad, key) == Some(Decimal(n)) && 1 <= n < U64
    ensures ThresholdField(sad, key) == Ok(Simple(n))
  {
    ThresholdRoundTrip(Simple(n));
  }

  lemma BackerThresholdRead(n: nat)
    requires n < U64
    ensures ParseBackerThreshold(Format(n, 10)) == Ok(n)
  {
    ParseFormat(n, 10, 0, U64);
  }

  lemma SnRead(n: nat)
    requires n < U64
    ensures Parse(Format(n, 16), 16, U64) == Some(n)
  {
    ParseFormat(n, 16, 0, U64);
  }

  lemma InceptionHead(cfg: InceptionConfig, keys: seq<string>, digests: seq<string>)
    ensures var sad := InceptionDraft(cfg, keys, digests);
      && SelfAddressing(sad)
      && Says(sad, "t", "icp") && Says(sad, "s", "0")
  {
    hide Get, Find, Strings, Format, Draft;
    var sad := InceptionDraft(cfg, keys, digests);
    FieldAt(sad, 1); FieldAt(sad, 2); FieldAt(sad, 3); FieldAt(sad, 4);
  }

  lemma InceptionMiddle(cfg: InceptionConfig, keys: seq<string>, digests: seq<string>)
    ensures var sad := InceptionDraft(cfg, keys, digests);
      && Get(sad, "kt") == Some(Decimal(cfg.threshold)) && Holds(sad, "k", keys)
      && Get(sad, "nt") == Some(Decimal(cfg.nextThreshold))
  {
    hide Get, Find, Strings, Format, Draft;
    var sad := InceptionDraft(cfg, keys, digests);
    FieldAt(sad, 5); FieldAt(sad, 6); FieldAt(sad, 7);
  }

  lemma InceptionTail(cfg: InceptionConfig, keys: seq<string>, digests: seq<string>)
    ensures var sad := InceptionDraft(cfg, keys, digests);
      && Holds(sad, "n", digests)
      && Says(sad, "bt", Format(cfg.backerThreshold, 10)) && Holds(sad, "b", cfg.backers)
      && Holds(sad, "c", cfg.configTraits) && Get(sad, "a") == Some(Arr([]))
  {
    hide Get, Find, Strings, Format, Draft;
    var sad := InceptionDraft(cfg, keys, digests);
    FieldAt(sad, 8); FieldAt(sad, 9); FieldAt(sad, 10); FieldAt(sad, 11); FieldAt(sad, 12);
  }

  lemma RotationHead(h: Habitat, cfg: RotationConfig, keys: seq<string>, digests: seq<string>)
    ensures var sad := RotationDraft(h, cfg, keys, digests);
      && Says(sad, "d", "") && Says(sad, "i", h.prefix)
      && Says(sad, "t", "rot") && Says(sad, "s", Format(h.sn + 1, 16)) && Says(sad, "p", h.lastSaid)
  {
    hide Get, Find, Strings, Format, Draft, Decimal;
    RotationLink(h, cfg, keys, digests);
    var sad := RotationDraft(h, cfg, keys, digests);
    FieldAt(sad, 1); FieldAt(sad, 2); FieldAt(sad, 3);
  }

  lemma RotationLink(h: Habitat, cfg: RotationConfig, keys: seq<string>, digests: seq<string>)
    ensures var sad := RotationDraft(h, cfg, keys, digests);
      Says(sad, "s", Format(h.sn + 1, 16)) && Says(sad, "p", h.lastSaid)
  {
    hide Get, Find, Strings, Format, Draft, Decimal;
    var sad := RotationDraft(h, cfg, keys, digests);
    FieldAt(sad, 4); FieldAt(sad, 5);
  }

  lemma RotationMiddle(h: Habitat, cfg: RotationConfig, keys: seq<string>, digests: seq<string>)
    ensures var sad := RotationDraft(h, cfg, keys, digests);
      && Get(sad, "kt") == Some(Decimal(cfg.threshold)) && Holds(sad, "k", keys)
      && Get(sad, "nt") == Some(Decimal(cfg.nextThreshold))
  {
    hide Get, Find, Strings, Format, Draft;
    var sad := RotationDraft(h, cfg, keys, digests);
    FieldAt(sad, 6); FieldAt(sad, 7); FieldAt(sad, 8);
  }

  lemma NoStrings()
    ensures Strings([]) == Arr([])
  {
  }

  lemma RotationTail(h: Habitat, cfg: RotationConfig, keys: seq<string>, digests: seq<string>)
    ensures var sad := RotationDraft(h, cfg, keys, digests);
      && Holds(sad, "n", digests)
      && Says(sad, "bt", Format(h.backerThreshold, 10)) && Holds(sad, "br", cfg.backersRemove)
      && Holds(sad, "ba", cfg.backersAdd)
      && Holds(sad, "c", []) && Get(sad, "a") == Some(Arr([]))
  {
    hide Get, Find, Strings, Format, Draft;
    var sad := RotationDraft(h, cfg, keys, digests);
    NoStrings();
    FieldAt(sad, 9); FieldAt(sad, 10); FieldAt(sad, 11); FieldAt(sad, 12); FieldAt(sad, 13); FieldAt(sad, 14);
  }

  lemma InteractionFieldsOf(h: Habitat, anchors: seq<Json>)
    ensures var sad := InteractionDraft(h, anchors);
      && Says(sad, "d", "") && Says(sad, "i", h.prefix)
      && Says(sad, "t", "ixn") && Says(sad, "s", Format(h.sn + 1, 16)) && Says(sad, "p", h.lastSaid)
      && Get(sad, "a") == Some(Arr(anchors))
  {
    var sad := InteractionDraft(h, anchors);
    hide Get, Find, Format;
    FieldAt(sad, 1); FieldAt(sad, 2); FieldAt(sad, 3); FieldAt(sad, 4); FieldAt(sad, 5); FieldAt(sad, 6);
  }

  // ---------- drafts are well-formed ----------

  predicate Texts(xs: seq<string>) {
    forall i :: 0 <= i < |xs| ==> Utf8(xs[i])
  }

  /** A common order of the field names of all drafts. */
  function Rank(key: string): nat {
    match key
    case "v" => 1
    case "t" => 2
    case "d" => 3
    case "i" => 4
    case "s" => 5
    case "p" => 6
    case "kt" => 7
    case "k" => 8
    case "nt" => 9
    case "n" => 10
    case "bt" => 11
    case "b" => 12
    case "br" => 13
    case "ba" => 14
    case "c" => 15
    case "a" => 16
    case _ => 0
  }

  predicate Rising(ranks: seq<nat>) {
    forall i :: 0 <= i < |ranks| - 1 ==> ranks[i] < ranks[i + 1]
  }

  lemma {:induction false} RisingBelow(ranks: seq<nat>, i: nat, j: nat)
    requires Rising(ranks) && i < j < |ranks|
    ensures ranks[i] < ranks[j]
    decreases j
  {
    if i < j - 1 {
      RisingBelow(ranks, i, j - 1);
    }
    assert ranks[j - 1] < ranks[j - 1 + 1];
  }

  predicate FieldReady(c: Suite, f: Field, rank: nat) {
    Rank(f.key) == rank && WellFormed(c, f.value, MAX_DEPTH - 1)
  }

  /** Fields in rising order, each well-formed, make a well-formed draft. */
  lemma DraftReady(c: Suite, fields: seq<Field>, ranks: seq<nat>)
    requires |ranks| == |fields| && Rising(ranks)
    requires forall i :: 0 <= i < |ranks| ==> ranks[i] > 0 && FieldReady(c, fields[i], ranks[i])
    ensures WellFormed(c, Obj(fields), MAX_DEPTH)
  {
    hide Rank;
    forall i, j | 0 <= i < j < |fields| ensures fields[i].key != fields[j].key {
      RisingBelow(ranks, i, j);
    }
    forall i | 0 <= i < |fields| ensures Utf8(fields[i].key) {
      RankedIsText(fields[i].key);
    }
  }

  lemma RankedIsText(key: string)
    requires Rank(key) > 0
    ensures Utf8(key)
  {
    hide Utf8;
    forall i | 0 <= i < |key| ensures key[i] as int < 128 {
      assert |key| == 1 || |key| == 2;
    }
    AsciiIsUtf8(key);
  }

  lemma StringsReady(c: Suite, xs: seq<string>)
    requires Texts(xs)
    ensures WellFormed(c, Strings(xs), MAX_DEPTH - 1)
  {
  }

  lemma NumberReady(c: Suite, n: nat, radix: nat)
    requires 2 <= radix <= 16
    ensures WellFormed(c, Str(Format(n, radix)), MAX_DEPTH - 1)
  {
    FormatValue(n, radix);
    forall ch | ch in Format(n, radix) ensures ch as int < 128 { assert DigitValue(ch, radix).Some?; }
    AsciiIsUtf8(Format(n, radix));
  }

  lemma LiteralReady(c: Suite, s: string)
    requires Ascii(s)
    ensures WellFormed(c, Str(s), MAX_DEPTH - 1)
  {
    AsciiIsUtf8(s);
  }

  /** The fixed texts of the drafts. */
  lemma LiteralsReady(c: Suite)
    ensures WellFormed(c, Str(UNSIZED), MAX_DEPTH - 1) && WellFormed(c, Str(""), MAX_DEPTH - 1)
    ensures WellFormed(c, Str("0"), MAX_DEPTH - 1) && WellFormed(c, Str("icp"), MAX_DEPTH - 1)
    ensures WellFormed(c, Str("rot"), MAX_DEPTH - 1) && WellFormed(c, Str("ixn"), MAX_DEPTH - 1)
  {
    hide WellFormed;
    LiteralReady(c, UNSIZED);
    LiteralReady(c, "");
    LiteralReady(c, "0");
    LiteralReady(c, "icp");
    LiteralReady(c, "rot");
    LiteralReady(c, "ixn");
  }

  lemma InceptionFront(c: Suite, cfg: InceptionConfig, keys: seq<string>, digests: seq<string>)
    requires Texts(keys) && Texts(digests) && Texts(cfg.backers) && Texts(cfg.configTraits)
    ensures var fields := InceptionDraft(cfg, keys, digests).fields;
      && FieldReady(c, fields[0], 1)
      && FieldReady(c, fields[1], 2)
      && FieldReady(c, fields[2], 3)
      && FieldReady(c, fields[3], 4)
      && FieldReady(c, fields[4], 5)
  {
    hide WellFormed, Strings, Format, Draft, Ascii, Utf8;
    LiteralsReady(c);
  }

  lemma InceptionCentre(c: Suite, cfg: InceptionConfig, keys: seq<string>, digests: seq<string>)
    requires Texts(keys) && Texts(digests) && Texts(cfg.backers) && Texts(cfg.configTraits)
    ensures var fields := InceptionDraft(cfg, keys, digests).fields;
      && FieldReady(c, fields[5], 7)
      && FieldReady(c, fields[6], 8)
      && FieldReady(c, fields[7], 9)
      && FieldReady(c, fields[8], 10)
      && FieldReady(c, fields[9], 11)
  {
    hide WellFormed, Strings, Format, Draft;
    NumberReady(c, cfg.threshold, 10);
    StringsReady(c, keys);
    NumberReady(c, cfg.nextThreshold, 10);
    StringsReady(c, digests);
    NumberReady(c, cfg.backerThreshold, 10);
  }

  lemma InceptionBack(c: Suite, cfg: InceptionConfig, keys: seq<string>, digests: seq<string>)
    requires Texts(keys) && Texts(digests) && Texts(cfg.backers) && Texts(cfg.configTraits)
    ensures var fields := InceptionDraft(cfg, keys, digests).fields;
      && FieldReady(c, fields[10], 12)
      && FieldReady(c, fields[11], 15)
      && FieldReady(c, fields[12], 16)
  {
    hide WellFormed, Strings, Format, Draft;
    StringsReady(c, cfg.backers);
    StringsReady(c, cfg.configTraits);
    NoneReady(c);
  }

  lemma InceptionWellFormed(c: Suite, cfg: InceptionConfig, keys: seq<string>, digests: seq<string>)
    requires Texts(keys) && Texts(digests) && Texts(cfg.backers) && Texts(cfg.configTraits)
    ensures WellFormed(c, InceptionDraft(cfg, keys, digests), MAX_DEPTH)
  {
    hide WellFormed, FieldReady, Draft, Strings, Format;
    InceptionFront(c, cfg, keys, digests);
    InceptionCentre(c, cfg, keys, digests);
    InceptionBack(c, cfg, keys, digests);
    DraftReady(c, InceptionDraft(cfg, keys, digests).fields, [1, 2, 3, 4, 5, 7, 8, 9, 10, 11, 12, 15, 16]);
  }

  lemma NoneReady(c: Suite)
    ensures WellFormed(c, Arr([]), MAX_DEPTH - 1)
  {
  }

  lemma RotationFront(c: Suite, h: Habitat, cfg: RotationConfig, keys: seq<string>, digests: seq<string>)
    requires Texts(keys) && Texts(digests) && Texts(cfg.backersRemove) && Texts(cfg.backersAdd)
    requires Utf8(h.prefix) && Utf8(h.lastSaid)
    ensures var fields := RotationDraft(h, cfg, keys, digests).fields;
      && FieldReady(c, fields[0], 1)
      && FieldReady(c, fields[1], 2)
      && FieldReady(c, fields[2], 3)
      && FieldReady(c, fields[3], 4)
      && FieldReady(c, fields[4], 5)
  {
    hide WellFormed, Strings, Format, Draft, Ascii, Utf8;
    LiteralsReady(c);
    TextWellFormed(c, h.prefix, MAX_DEPTH - 1);
    NumberReady(c, h.sn + 1, 16);
  }

  lemma RotationCentre(c: Suite, h: Habitat, cfg: RotationConfig, keys: seq<string>, digests: seq<string>)
    requires Texts(keys) && Texts(digests) && Texts(cfg.backersRemove) && Texts(cfg.backersAdd)
    requires Utf8(h.prefix) && Utf8(h.lastSaid)
    ensures var fields := RotationDraft(h, cfg, keys, digests).fields;
      && FieldReady(c, fields[5], 6)
      && FieldReady(c, fields[6], 7)
      && FieldReady(c, fields[7], 8)
      && FieldReady(c, fields[8], 9)
      && FieldReady(c, fields[9], 10)
  {
    hide WellFormed, Strings, Format, Draft;
    TextWellFormed(c, h.lastSaid, MAX_DEPTH - 1);
    NumberReady(c, cfg.threshold, 10);
    StringsReady(c, keys);
    NumberReady(c, cfg.nextThreshold, 10);
    StringsReady(c, digests);
  }

  lemma RotationBack(c: Suite, h: Habitat, cfg: RotationConfig, keys: seq<string>, digests: seq<string>)
    requires Texts(keys) && Texts(digests) && Texts(cfg.backersRemove) && Texts(cfg.backersAdd)
    requires Utf8(h.prefix) && Utf8(h.lastSaid)
    ensures var fields := RotationDraft(h, cfg, keys, digests).fields;
      && FieldReady(c, fields[10], 11)
      && FieldReady(c, fields[11], 13)
      && FieldReady(c, fields[12], 14)
      && FieldReady(c, fields[13], 15)
      && FieldReady(c, fields[14], 16)
  {
    hide WellFormed, Strings, Format, Draft;
    NumberReady(c, h.backerThreshold, 10);
    StringsReady(c, cfg.backersRemove);
    StringsReady(c, cfg.backersAdd);
    NoneReady(c);
    NoneReady(c);
  }

  lemma RotationWellFormed(c: Suite, h: Habitat, cfg: RotationConfig, keys: seq<string>, digests: seq<string>)
    requires Texts(keys) && Texts(digests) && Texts(cfg.backersRemove) && Texts(cfg.backersAdd)
    requires Utf8(h.prefix) && Utf8(h.lastSaid)
    ensures WellFormed(c, RotationDraft(h, cfg, keys, digests), MAX_DEPTH)
  {
    hide WellFormed, FieldReady, Draft, Strings, Format;
    RotationFront(c, h, cfg, keys, digests);
    RotationCentre(c, h, cfg, keys, digests);
    RotationBack(c, h, cfg, keys, digests);
    DraftReady(c, RotationDraft(h, cfg, keys, digests).fields, [1, 2, 3, 4, 5, 6, 7, 8, 9, 10, 11, 13, 14, 15, 16]);
  }

  lemma InteractionFront(c: Suite, h: Habitat, anchors: seq<Json>)
    requires Utf8(h.prefix) && Utf8(h.lastSaid) && WellFormed(c, Arr(anchors), MAX_DEPTH - 1)
    ensures var fields := InteractionDraft(h, anchors).fields;
      && FieldReady(c, fields[0], 1)
      && FieldReady(c, fields[1], 2)
      && FieldReady(c, fields[2], 3)
      && FieldReady(c, fields[3], 4)
      && FieldReady(c, fields[4], 5)
  {
    hide WellFormed, Strings, Format, Draft, Ascii, Utf8;
    LiteralsReady(c);
    TextWellFormed(c, h.prefix, MAX_DEPTH - 1);
    NumberReady(c, h.sn + 1, 16);
  }

  lemma InteractionCentre(c: Suite, h: Habitat, anchors: seq<Json>)
    requires Utf8(h.prefix) && Utf8(h.lastSaid) && WellFormed(c, Arr(anchors), MAX_DEPTH - 1)
    ensures var fields := InteractionDraft(h, anchors).fields;
      && FieldReady(c, fields[5], 6)
      && FieldReady(c, fields[6], 16)
  {
    hide WellFormed, Strings, Format, Draft;
    TextWellFormed(c, h.lastSaid, MAX_DEPTH - 1);
  }

  lemma InteractionWellFormed(c: Suite, h: Habitat, anchors: seq<Json>)
    requires Utf8(h.prefix) && Utf8(h.lastSaid) && WellFormed(c, Arr(anchors), MAX_DEPTH - 1)
    ensures WellFormed(c, InteractionDraft(h, anchors), MAX_DEPTH)
  {
    hide WellFormed, FieldReady, Draft, Strings, Format;
    InteractionFront(c, h, anchors);
    InteractionCentre(c, h, anchors);
    DraftReady(c, InteractionDraft(h, anchors).fields, [1, 2, 3, 4, 5, 6, 16]);
  }

  lemma KeysAreTexts(c: Suite, kr: Keyring, signers: seq<Signer>)
    requires TextLaw(c) && AllAble(c, kr, signers)
    ensures Texts(KeysOf(signers))
  {
    forall i | 0 <= i < |signers| ensures Utf8(KeysOf(signers)[i]) {
      assert Able(c, kr, signers[i]);
      Base64IsUtf8(signers[i].key);
    }
  }

  lemma DigestsAreTexts(c: Suite, signers: seq<Signer>)
    requires DigestLaw(c) && TextLaw(c)
    ensures Texts(DigestsOf(c, signers))
  {
    forall i | 0 <= i < |signers| ensures Utf8(DigestsOf(c, signers)[i]) {
      DigestText(c, signers[i].key);
      Base64IsUtf8(DigestsOf(c, signers)[i]);
    }
  }

  /** Decoding a body whose fields are these gives this event. */
  lemma InceptionRead(sad: Json, v: string, d: string, i: string, s: string, t: nat, keys: seq<string>, nt: nat,
                      digests: seq<string>, bt: string, backers: seq<string>, traits: seq<string>, anchors: seq<Json>)
    requires Says(sad, "v", v) && Says(sad, "t", "icp") && Says(sad, "d", d) && Says(sad, "i", i) && Says(sad, "s", s)
    requires Get(sad, "kt") == Some(Decimal(t)) && Holds(sad, "k", keys) && 1 <= t < U64
    requires Get(sad, "nt") == Some(Decimal(nt)) && Holds(sad, "n", digests) && 1 <= nt < U64
    requires Says(sad, "bt", bt) && Holds(sad, "b", backers) && Holds(sad, "c", traits)
    requires Get(sad, "a") == Some(Arr(anchors))
    ensures InceptionOf(sad) ==
      Ok(InceptionEvent(v, "icp", d, i, s, Simple(t), keys, Simple(nt), digests, bt, backers, traits, anchors))
  {
    ThresholdRead(sad, "kt", t);
    ThresholdRead(sad, "nt", nt);
    ListsRead(sad, "k", keys);
    ListsRead(sad, "n", digests);
    ListsRead(sad, "b", backers);
    ListsRead(sad, "c", traits);
    hide Get, StrArrField, ThresholdField, Decimal, Holds;
  }

  lemma RotationRead(sad: Json, v: string, d: string, i: string, s: string, p: string, t: nat, keys: seq<string>,
                     nt: nat,
                     digests: seq<string>, bt: string, br: seq<string>, ba: seq<string>)
    requires Says(sad, "v", v) && Says(sad, "t", "rot") && Says(sad, "d", d) && Says(sad, "i", i) && Says(sad, "s", s)
    requires Says(sad, "p", p)
    requires Get(sad, "kt") == Some(Decimal(t)) && Holds(sad, "k", keys) && 1 <= t < U64
    requires Get(sad, "nt") == Some(Decimal(nt)) && Holds(sad, "n", digests) && 1 <= nt < U64
    requires Says(sad, "bt", bt) && Holds(sad, "br", br) && Holds(sad, "ba", ba) && Holds(sad, "c", [])
    requires Get(sad, "a") == Some(Arr([]))
    ensures RotationOf(sad) ==
      Ok(RotationEvent(v, "rot", d, i, s, p, Simple(t), keys, Simple(nt), digests, bt, br, ba, [], []))
  {
    ThresholdRead(sad, "kt", t);
    ThresholdRead(sad, "nt", nt);
    ListsRead(sad, "k", keys);
    ListsRead(sad, "n", digests);
    ListsRead(sad, "br", br);
    ListsRead(sad, "ba", ba);
    ListsRead(sad, "c", []);
    hide Get, StrArrField, ThresholdField, Decimal, Holds;
  }

  lemma InteractionRead(sad: Json, v: string, d: string, i: string, s: string, p: string, anchors: seq<Json>)
    requires Says(sad, "v", v) && Says(sad, "t", "ixn") && Says(sad, "d", d) && Says(sad, "i", i) && Says(sad, "s", s)
    requires Says(sad, "p", p) && Get(sad, "a") == Some(Arr(anchors))
    ensures InteractionOf(sad) == Ok(InteractionEvent(v, "ixn", d, i, s, p, anchors))
  {
    hide Get;
  }
}
