/** A receivable message that replaces the stored body of any accepted event. */
module Replacements {
  import opened Wrappers
  import opened Numerals
  import opened JsonValues
  import opened Primitives
  import opened Versions
  import opened Saids
  import opened Serders
  import opened WireValues
  import opened Parsers
  import opened Composers
  import opened DirectMode
  import opened DirectRuns
  import opened Rebuilding
  import opened Habs
  import opened HabEvents
  import opened ShortDrafts

  /** An exchange message that claims this SAID. */
  function Claim(said: string): (sad: Json)
    ensures Draft(sad)
  {
    var fields := [
      Field("v", Str(UNSIZED)), Field("t", Str("exn")), Field("d", Str(said)), Field("i", Str("")),
      Field("s", Str("0"))];
    DraftShape(fields);
    Obj(fields)
  }

  function ClaimSerder(said: string): Serder {
    var sad := Claim(said);
    var body := WithVersion(sad, Stamp(sad));
    Serder(Print(body), Some(Stamp(sad)), JsonKind, body)
  }

  lemma ClaimFields(said: string)
    ensures var sad := Claim(said);
      Says(sad, "t", "exn") && Says(sad, "d", said) && Says(sad, "i", "") && Says(sad, "s", "0")
  {
    hide Get, Find, Draft;
    var sad := Claim(said);
    FieldAt(sad, 1); FieldAt(sad, 2); FieldAt(sad, 3); FieldAt(sad, 4);
  }

  lemma ClaimFieldsReady(c: Suite, said: string)
    requires Utf8(said)
    ensures var fields := Claim(said).fields;
      && |fields| == 5
      && FieldReady(c, fields[0], 1)
      && FieldReady(c, fields[1], 2)
      && FieldReady(c, fields[2], 3)
      && FieldReady(c, fields[3], 4)
      && FieldReady(c, fields[4], 5)
  {
    hide WellFormed, Draft, Ascii, Utf8;
    LiteralsReady(c);
    ExchangeReady(c);
    TextWellFormed(c, said, MAX_DEPTH - 1);
  }

  lemma ExchangeReady(c: Suite)
    ensures WellFormed(c, Str("exn"), MAX_DEPTH - 1)
  {
    LiteralReady(c, "exn");
  }

  lemma ClaimReady(c: Suite, said: string)
    requires |said| == 44 && Base64Text(said)
    ensures DeclaredSize(Claim(said)) < 0x100_0000 && WellFormed(c, Claim(said), MAX_DEPTH)
  {
    hide WellFormed, FieldReady, Utf8, DeclaredSize, Draft, Base64Text;
    ClaimFits(said);
    Base64IsUtf8(said);
    ClaimFieldsReady(c, said);
    DraftReady(c, Claim(said).fields, [1, 2, 3, 4, 5]);
  }

  lemma ClaimFits(said: string)
    requires |said| == 44
    ensures DeclaredSize(Claim(said)) < 0x100_0000
  {
    hide Draft, DeclaredSize;
    var sad := Claim(said);
    assert SmallField(sad.fields[0]) && SmallField(sad.fields[1]) && SmallField(sad.fields[2]);
    assert SmallField(sad.fields[3]) && SmallField(sad.fields[4]);
    hide SmallField;
    SmallDraftFits(sad);
  }

  /** A draft that already carries a SAID, once its version is set, declares its own length. */
  lemma SizedWithSaid(sad: Json, said: string)
    requires Draft(sad) && Says(sad, "d", said) && !SelfAddressing(sad) && DeclaredSize(sad) < 0x100_0000
    requires |said| == 44 && Plain(said)
    ensures var v := Stamp(sad); Headed(WithVersion(sad, v), v) && v.size == |Print(WithVersion(sad, v))|
  {
    hide Print, Get, Set, ToVersionString, Plain, Fill;
    var v := Stamp(sad);
    var body := WithVersion(sad, v);
    KeepsIdentity(sad, v);
    Layout(v);
    VersionPlain(v);
    WithVersionHeaded(sad, v);
    DraftLength(sad, ToVersionString(v), false);
    FillLength(body, said, false);
    SaidInPlace(body, said);
  }

  lemma WithVersionHeaded(sad: Json, v: Version)
    requires Draft(sad) && Standard(v) && v.protocol == "KERI"
    ensures Headed(WithVersion(sad, v), v)
  {
    VersionField(sad);
    hide Print, Get, ToVersionString;
  }

  lemma SaidInPlace(sad: Json, said: string)
    requires sad.Obj? && Get(sad, "d") == Some(Str(said))
    ensures Fill(sad, said, false) == sad
  {
    hide Get;
    SetTwice(sad, "d", Str(said), Str(said));
    SetRestore(sad, "d", Str(said));
  }

  /** The body declares its own length. */
  lemma ClaimSized(said: string)
    requires |said| == 44 && Base64Text(said)
    ensures var s := ClaimSerder(said); Headed(s.sad, s.version.value) && s.version.value.size == |s.raw|
  {
    ClaimFits(said);
    ClaimFields(said);
    PlainSaid(said);
    hide Print, Get, ToVersionString, Claim, Plain, Draft, DeclaredSize, Headed, Base64Text;
    SizedWithSaid(Claim(said), said);
  }

  lemma PlainSaid(said: string)
    requires Base64Text(said)
    ensures Plain(said)
  {
  }

  lemma ClaimSerderReady(c: Suite, said: string)
    requires |said| == 44 && Base64Text(said)
    ensures WellFormed(c, ClaimSerder(said).sad, MAX_DEPTH)
  {
    hide WellFormed, Set, Claim, ToVersionString, DeclaredSize, Utf8, Base64Text;
    ClaimReady(c, said);
    KeysUtf8();
    var vs := ToVersionString(Stamp(Claim(said)));
    VersionAscii(Stamp(Claim(said)));
    AsciiIsUtf8(vs);
    TextWellFormed(c, vs, MAX_DEPTH - 1);
    SetWellFormed(c, Claim(said), "v", Str(vs), MAX_DEPTH);
  }

  /** It is parsed from its own bytes, without attachments. */
  lemma ClaimArrives(c: Suite, said: string)
    requires DecodeLaw(c) && |said| == 44 && Base64Text(said)
    ensures ParsedFrom(c, ClaimSerder(said).raw, true, ParsedMessage(ClaimSerder(said), []))
  {
    hide Print, Set, Claim, ToVersionString, WellFormed, Headed, DeclaredSize, FromRaw, ParseNext, Base64Text,
         DecodeLaw;
    var s := ClaimSerder(said);
    ClaimSerderReady(c, said);
    ClaimSized(said);
    ReadBack(c, s.sad, s.version.value, "");
    BodyStart(s.sad, s.version.value, s.raw, "");
    assert s.raw + "" == s.raw;
    assert s.raw[|s.raw|..] == "";
    NextByParts(c, s.raw, s, ([], 0), true);
  }

  lemma ClaimOverwrites(said: string)
    ensures Overwrites(Input(ParsedMessage(ClaimSerder(said), []), true))
    ensures SaidOfMessage(ParsedMessage(ClaimSerder(said), [])) == said
  {
    var sad := Claim(said);
    ClaimFields(said);
    var v := Str(ToVersionString(Stamp(sad)));
    GetSet(sad, "v", v, "t");
    GetSet(sad, "v", v, "d");
    GetSet(sad, "v", v, "i");
    GetSet(sad, "v", v, "s");
    hide Get, Set, Claim, ToVersionString, Print, Overwrites, Draft, SaidOfMessage;
    ExchangeOverwrites(ClaimSerder(said), said);
  }

  lemma ExchangeOverwrites(s: Serder, said: string)
    requires Says(s.sad, "t", "exn") && Says(s.sad, "d", said) && Says(s.sad, "i", "") && Says(s.sad, "s", "0")
    ensures Overwrites(Input(ParsedMessage(s, []), true)) && SaidOfMessage(ParsedMessage(s, [])) == said
  {
    hide Get, Parse;
    SnRead(0);
    assert Format(0, 16) == "0";
  }

  lemma AcceptedSaidIsText(c: Suite, ins: seq<Input>, p: string, k: nat)
    requires DigestLaw(c) && TextLaw(c) && k < |LogOf(c, ins, p)|
    ensures var said := SaidOfMessage(LogOf(c, ins, p)[k]); |said| == 44 && Base64Text(said)
  {
    LogEvent(c, ins, p, k);
    var sad := LogOf(c, ins, p)[k].serder.sad;
    DigestText(c, Print(Blank(sad)));
    hide Run, LogOf, SaidOfMessage, Print, Blank;
  }

  /**
   * Whatever event a verifier has accepted, there are bytes that it parses to a message of another
   * type claiming that event's SAID; once committed, the store has that body and not the event's.
   */
  lemma AnyBodyCanBeReplaced(c: Suite, ins: seq<Input>, p: string, k: nat) returns (data: string, m: ParsedMessage)
    requires DigestLaw(c) && TextLaw(c) && DecodeLaw(c) && k < |LogOf(c, ins, p)|
    ensures ParsedFrom(c, data, true, m) && Overwrites(Input(m, true))
    ensures SaidOfMessage(m) == SaidOfMessage(LogOf(c, ins, p)[k])
    ensures Clobbered(c, ins + [Input(m, true)], p, k)
    ensures var evts := Run(c, ins + [Input(m, true)]).tables.evts;
      SaidOfMessage(m) in evts && c.decode(evts[SaidOfMessage(m)]) == Some(m.serder.sad) && !KnownType(m.serder.sad)
  {
    var said := SaidOfMessage(LogOf(c, ins, p)[k]);
    AcceptedSaidIsText(c, ins, p, k);
    ClaimArrives(c, said);
    ClaimOverwrites(said);
    data, m := ClaimSerder(said).raw, ParsedMessage(ClaimSerder(said), []);
    hide Run, LogOf, SaidOfMessage, DigestLaw, TextLaw, DecodeLaw, Overwrites, ParseNext, ClaimSerder, KnownType;
    var i, all := Input(m, true), ins + [Input(m, true)];
    assert all[..|all| - 1] == ins;
    OverwriteStep(c, Run(c, ins), i);
    OverwritesType(i);
    ParsedBody(c, data, true);
    LastProcessed(c, ins, i);
  }

  lemma LastProcessed(c: Suite, ins: seq<Input>, i: Input)
    ensures Run(c, ins + [i]) == Process(c, Run(c, ins), i.m, i.commits).0
  {
    assert (ins + [i])[..|ins|] == ins;
  }
}
