/** The stream parser: message bodies and the counted attachment groups behind them. */
module Parsers {
  import opened Wrappers
  import opened Versions
  import opened Primitives
  import opened Serders
  import opened Counters

  const MAX_COUNT := 4096
  const MIN_PRIMITIVE := 4

  datatype TransGroup = TransGroup(prefix: string, sn: string, said: string, sigs: seq<Siger>)

  datatype Attachment =
    | ControllerSigs(sigs: seq<Siger>)
    | WitnessSigs(sigs: seq<Siger>)
    | ReceiptCouples(receipts: seq<(string, string)>)
    | FirstSeenReplayCouples(pairs: seq<(string, string)>)
    | SealSourceCouples(pairs: seq<(string, string)>)
    | TransIdxSigGroups(groups: seq<TransGroup>)
    | Unknown(code: string, count: nat, raw: string)

  datatype ParsedMessage = ParsedMessage(serder: Serder, attachments: seq<Attachment>)

  // ---------- primitives ----------

  /** One Matter primitive from the front of `text`. */
  function ParseMatter(c: Suite, text: string): (r: Result<(string, nat)>)
    ensures r.Ok? ==> 0 < r.value.1 <= |text| && r.value.0 == text[..r.value.1]
  {
    if text == "" then Err(ParseError)
    else
      var hs :- OkOr(c.hardage(text[0]), ParseError);
      if |text| < hs then Err(ParseError)
      else
        var fs :- OkOr(c.matterSize(text[..hs]), ParseError);
        if fs == 0 || |text| < fs then Err(ParseError) else Ok((text[..fs], fs))
  }

  /** One indexed signature from the front of `text`. */
  function ParseSiger(c: Suite, text: string): (r: Result<(Siger, nat)>)
    ensures r.Ok? ==> r.value.1 <= |text|
  {
    if text == "" then Err(ParseError)
    else
      var hs :- OkOr(c.hardage(text[0]), ParseError);
      if |text| < hs then Err(ParseError)
      else
        var fs :- OkOr(c.indexerSize(text[..hs]), ParseError);
        if |text| < fs then Err(ParseError)
        else
          var siger :- OkOr(c.indexer(text[..fs]), ParseError);
          Ok((siger, fs))
  }

  function Sigers(c: Suite, text: string, count: nat): (r: Result<(seq<Siger>, nat)>)
    ensures r.Ok? ==> r.value.1 <= |text|
    decreases count
  {
    if count == 0 then Ok(([], 0))
    else
      var one :- ParseSiger(c, text);
      var more :- Sigers(c, text[one.1..], count - 1);
      Ok(([one.0] + more.0, one.1 + more.1))
  }

  function CheckGroup(data: string, count: nat, members: nat): Result<()> {
    if count > MAX_COUNT || count * MIN_PRIMITIVE * members > |data| || !Ascii(data) then Err(ParseError) else Ok(())
  }

  function ParseIndexedSigs(c: Suite, data: string, count: nat): (r: Result<(seq<Siger>, nat)>)
    ensures r.Ok? ==> r.value.1 <= |data|
  {
    var _ :- CheckGroup(data, count, 1);
    Sigers(c, data, count)
  }

  function OnePair(c: Suite, text: string): (r: Result<((string, string), nat)>)
    ensures r.Ok? ==> 0 < r.value.1 <= |text|
  {
    var first :- ParseMatter(c, text);
    var second :- ParseMatter(c, text[first.1..]);
    Ok(((first.0, second.0), first.1 + second.1))
  }

  function Pairs(c: Suite, text: string, count: nat): (r: Result<(seq<(string, string)>, nat)>)
    ensures r.Ok? ==> r.value.1 <= |text|
    decreases count
  {
    if count == 0 then Ok(([], 0))
    else
      var one :- OnePair(c, text);
      var more :- Pairs(c, text[one.1..], count - 1);
      Ok(([one.0] + more.0, one.1 + more.1))
  }

  function ParseQb64Pairs(c: Suite, data: string, count: nat): (r: Result<(seq<(string, string)>, nat)>)
    ensures r.Ok? ==> r.value.1 <= |data|
  {
    var _ :- CheckGroup(data, count, 2);
    Pairs(c, data, count)
  }

  /** A witness prefix and the decoded bytes of its signature. */
  function OneReceipt(c: Suite, text: string): (r: Result<((string, string), nat)>)
    ensures r.Ok? ==> 0 < r.value.1 <= |text|
  {
    var couple :- OnePair(c, text);
    var raw :- OkOr(c.matterRaw(couple.0.1), ParseError);
    Ok(((couple.0.0, raw), couple.1))
  }

  function Receipts(c: Suite, text: string, count: nat): (r: Result<(seq<(string, string)>, nat)>)
    ensures r.Ok? ==> r.value.1 <= |text|
    decreases count
  {
    if count == 0 then Ok(([], 0))
    else
      var one :- OneReceipt(c, text);
      var more :- Receipts(c, text[one.1..], count - 1);
      Ok(([one.0] + more.0, one.1 + more.1))
  }

  function ParseReceiptCouples(c: Suite, data: string, count: nat): (r: Result<(seq<(string, string)>, nat)>)
    ensures r.Ok? ==> r.value.1 <= |data|
  {
    var _ :- CheckGroup(data, count, 2);
    Receipts(c, data, count)
  }

  // ---------- groups, nested to any depth ----------

  /** All signatures of a list that holds nothing but controller signatures. */
  function OnlySigs(atts: seq<Attachment>): Option<seq<Siger>> {
    if atts == [] then Some([])
    else if !atts[0].ControllerSigs? then None
    else
      match OnlySigs(atts[1..])
      case Some(rest) => Some(atts[0].sigs + rest)
      case None => None
  }

  function Uninterpreted(code: string, count: nat, data: string, size: nat, strict: bool): Result<(seq<Attachment>,
                         nat)>
    requires size <= |data|
  {
    if strict then Err(ParseError) else Ok(([Unknown(code, count, data[size..])], |data|))
  }

  /** The group at the front of `data`, which starts with a counter. */
  function ParseGroup(c: Suite, data: string, table: Table, strict: bool): (r: Result<(seq<Attachment>, nat)>)
    ensures r.Ok? ==> 0 < r.value.1 <= |data|
    decreases |data|, 1, 0
  {
    if !Ascii(data) then Err(ParseError)
    else
      var counter :- ReadCounter(data);
      var body := data[counter.size..];
      match Classify(counter.code, table)
      case None => Uninterpreted(counter.code, counter.count, data, counter.size, strict)
      case Some(TransReceiptQuadruples) => Uninterpreted(counter.code, counter.count, data, counter.size, strict)
      case Some(AttachedMaterialQuadlets) =>
        var length := counter.count * 4;
        if length > |body| then Err(ParseError)
        else
          var inner :- ParseAttachments(c, body[..length], table, strict);
          if inner.1 != length then Err(ParseError) else Ok((inner.0, counter.size + length))
      case Some(ControllerIdxSigs) =>
        var g :- ParseIndexedSigs(c, body, counter.count);
        Ok(([ControllerSigs(g.0)], counter.size + g.1))
      case Some(WitnessIdxSigs) =>
        var g :- ParseIndexedSigs(c, body, counter.count);
        Ok(([WitnessSigs(g.0)], counter.size + g.1))
      case Some(NonTransReceiptCouples) =>
        var g :- ParseReceiptCouples(c, body, counter.count);
        Ok(([ReceiptCouples(g.0)], counter.size + g.1))
      case Some(FirstSeenReplayCouples) =>
        var g :- ParseQb64Pairs(c, body, counter.count);
        Ok(([Attachment.FirstSeenReplayCouples(g.0)], counter.size + g.1))
      case Some(SealSourceCouples) =>
        var g :- ParseQb64Pairs(c, body, counter.count);
        Ok(([Attachment.SealSourceCouples(g.0)], counter.size + g.1))
      case Some(TransIdxSigGroups) =>
        var g :- ParseTransGroups(c, body, counter.count, table, strict);
        Ok(([Attachment.TransIdxSigGroups(g.0)], counter.size + g.1))
  }

  /** Groups until the data ends or something other than a counter follows. */
  function ParseAttachments(c: Suite, data: string, table: Table, strict: bool): (r: Result<(seq<Attachment>, nat)>)
    ensures r.Ok? ==> r.value.1 <= |data|
    decreases |data|, 2, 0
  {
    if data == "" || data[0] != '-' then Ok(([], 0))
    else
      var group :- ParseGroup(c, data, table, strict);
      var more :- ParseAttachments(c, data[group.1..], table, strict);
      Ok((group.0 + more.0, group.1 + more.1))
  }

  function ParseTransGroups(c: Suite, data: string, count: nat, table: Table, strict: bool)
    : (r: Result<(seq<TransGroup>, nat)>)
    ensures r.Ok? ==> r.value.1 <= |data|
    decreases |data|, 1, count + 1
  {
    if count > MAX_COUNT || !Ascii(data) then Err(ParseError) else TransGroups(c, data, count, table, strict)
  }

  /** (prefix, sn, SAID) and the signatures behind it; the inner parse takes every group that follows. */
  function OneTransGroup(c: Suite, data: string, table: Table, strict: bool): (r: Result<(TransGroup, nat)>)
    ensures r.Ok? ==> 0 < r.value.1 <= |data|
    decreases |data|, 0, 0
  {
    var head :- ParseTriple(c, data);
    var inner :- ParseAttachments(c, data[head.3..], table, strict);
    var sigs :- OkOr(OnlySigs(inner.0), ParseError);
    if sigs == [] then Err(ParseError)
    else Ok((TransGroup(head.0, head.1, head.2, sigs), head.3 + inner.1))
  }

  function TransGroups(c: Suite, data: string, count: nat, table: Table, strict: bool)
    : (r: Result<(seq<TransGroup>, nat)>)
    ensures r.Ok? ==> r.value.1 <= |data|
    decreases |data|, 1, count
  {
    if count == 0 then Ok(([], 0))
    else
      var one :- OneTransGroup(c, data, table, strict);
      var more :- TransGroups(c, data[one.1..], count - 1, table, strict);
      Ok(([one.0] + more.0, one.1 + more.1))
  }

  function ParseTriple(c: Suite, data: string): (r: Result<(string, string, string, nat)>)
    ensures r.Ok? ==> 0 < r.value.3 <= |data|
  {
    var prefix :- ParseMatter(c, data);
    var sn :- ParseMatter(c, data[prefix.1..]);
    var said :- ParseMatter(c, data[prefix.1 + sn.1..]);
    Ok((prefix.0, sn.0, said.0, prefix.1 + sn.1 + said.1))
  }

  // ---------- messages ----------

  function ParseNext(c: Suite, stream: string, strict: bool): (r: Result<(ParsedMessage, nat)>)
    ensures r.Ok? ==> r.value.1 <= |stream|
  {
    if stream == "" || SniffKind(stream[0]).Err? then Err(ParseError)
    else
      var serder :- FromRaw(c, stream);
      var size := |serder.raw|;
      var atts :- ParseAttachments(c, stream[size..], TableOf(serder.version), strict);
      Ok((ParsedMessage(serder, atts.0), size + atts.1))
  }

  /** A parsed message's value is what its own bytes decode to. */
  lemma ParsedBody(c: Suite, stream: string, strict: bool)
    requires ParseNext(c, stream, strict).Ok?
    ensures var s := ParseNext(c, stream, strict).value.0.serder;
      c.decode(s.raw) == Some(s.sad) && s.raw <= stream
  {
    hide ParseAttachments;
    ReadBody(c, stream);
  }

  predicate IsSpace(ch: char) {
    ch == ' ' || ch as int == 9 || ch as int == 10 || ch as int == 12 || ch as int == 13
  }

  function SkipSpace(s: string): (n: nat)
    ensures n <= |s| && (n < |s| ==> !IsSpace(s[n]))
  {
    if s == "" || !IsSpace(s[0]) then 0 else 1 + SkipSpace(s[1..])
  }

  function ParseAll(c: Suite, stream: string, strict: bool): Result<seq<ParsedMessage>>
    decreases |stream|
  {
    var body := stream[SkipSpace(stream)..];
    if body == "" then Ok([])
    else
      var next :- ParseNext(c, body, strict);
      if next.1 == 0 then Err(ParseError)
      else
        var rest :- ParseAll(c, body[next.1..], strict);
        Ok([next.0] + rest)
  }
}
