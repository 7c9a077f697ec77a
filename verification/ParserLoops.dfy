/** The parser as it runs: loops that advance an offset through one buffer. */
module ParserLoops {
  import opened Wrappers
  import opened Versions
  import opened Primitives
  import opened Serders
  import opened Counters
  import opened Parsers

  /** What a loop that has read `items` over `n` bytes will return, if the rest yields `r`. */
  function Join<T>(items: seq<T>, n: nat, r: Result<(seq<T>, nat)>): Result<(seq<T>, nat)> {
    match r
    case Ok(more) => Ok((items + more.0, n + more.1))
    case Err(error) => Err(error)
  }

  lemma JoinJoin<T>(a: seq<T>, n: nat, b: seq<T>, m: nat, r: Result<(seq<T>, nat)>)
    ensures Join(a, n, Join(b, m, r)) == Join(a + b, n + m, r)
  {
    if r.Ok? {
      assert a + (b + r.value.0) == (a + b) + r.value.0;
    }
  }

  lemma JoinNothing<T>(r: Result<(seq<T>, nat)>)
    ensures Join([], 0, r) == r
  {
    if r.Ok? {
      assert [] + r.value.0 == r.value.0;
    }
  }

  lemma Advanced(data: string, offset: nat, n: nat)
    requires offset + n <= |data|
    ensures data[offset..][n..] == data[offset + n..]
  {
  }

  method IndexedSigs(c: Suite, data: string, count: nat) returns (r: Result<(seq<Siger>, nat)>)
    ensures r == ParseIndexedSigs(c, data, count)
  {
    hide ParseSiger, CheckGroup;
    var ok := CheckGroup(data, count, 1);
    if ok.Err? {
      return Err(ok.error);
    }
    var sigers: seq<Siger>, offset, i := [], 0, 0;
    JoinNothing(Sigers(c, data, count));
    assert data[0..] == data;
    while i < count
      invariant 0 <= i <= count && 0 <= offset <= |data|
      invariant Sigers(c, data, count) == Join(sigers, offset, Sigers(c, data[offset..], count - i))
    {
      var one := ParseSiger(c, data[offset..]);
      if one.Err? {
        return Err(one.error);
      }
      Advanced(data, offset, one.value.1);
      JoinJoin(sigers, offset, [one.value.0], one.value.1, Sigers(c, data[offset + one.value.1..], count - i - 1));
      sigers := sigers + [one.value.0];
      offset := offset + one.value.1;
      i := i + 1;
    }
    assert sigers + [] == sigers;
    r := Ok((sigers, offset));
  }

  method Qb64Pairs(c: Suite, data: string, count: nat) returns (r: Result<(seq<(string, string)>, nat)>)
    ensures r == ParseQb64Pairs(c, data, count)
  {
    hide OnePair, CheckGroup;
    var ok := CheckGroup(data, count, 2);
    if ok.Err? {
      return Err(ok.error);
    }
    var couples: seq<(string, string)>, offset, i := [], 0, 0;
    JoinNothing(Pairs(c, data, count));
    assert data[0..] == data;
    while i < count
      invariant 0 <= i <= count && 0 <= offset <= |data|
      invariant Pairs(c, data, count) == Join(couples, offset, Pairs(c, data[offset..], count - i))
    {
      var one := OnePair(c, data[offset..]);
      if one.Err? {
        return Err(one.error);
      }
      Advanced(data, offset, one.value.1);
      JoinJoin(couples, offset, [one.value.0], one.value.1, Pairs(c, data[offset + one.value.1..], count - i - 1));
      couples := couples + [one.value.0];
      offset := offset + one.value.1;
      i := i + 1;
    }
    assert couples + [] == couples;
    r := Ok((couples, offset));
  }

  method ReceiptCouplesOf(c: Suite, data: string, count: nat) returns (r: Result<(seq<(string, string)>, nat)>)
    ensures r == ParseReceiptCouples(c, data, count)
  {
    hide OneReceipt, CheckGroup;
    var ok := CheckGroup(data, count, 2);
    if ok.Err? {
      return Err(ok.error);
    }
    var couples: seq<(string, string)>, offset, i := [], 0, 0;
    JoinNothing(Receipts(c, data, count));
    assert data[0..] == data;
    while i < count
      invariant 0 <= i <= count && 0 <= offset <= |data|
      invariant Receipts(c, data, count) == Join(couples, offset, Receipts(c, data[offset..], count - i))
    {
      var one := OneReceipt(c, data[offset..]);
      if one.Err? {
        return Err(one.error);
      }
      Advanced(data, offset, one.value.1);
      JoinJoin(couples, offset, [one.value.0], one.value.1, Receipts(c, data[offset + one.value.1..], count - i - 1));
      couples := couples + [one.value.0];
      offset := offset + one.value.1;
      i := i + 1;
    }
    assert couples + [] == couples;
    r := Ok((couples, offset));
  }

  /** One group; the wrapper and the transferable groups recurse into strictly shorter spans. */
  method Group(c: Suite, data: string, table: Table, strict: bool) returns (r: Result<(seq<Attachment>, nat)>)
    requires data != ""
    ensures r == ParseGroup(c, data, table, strict)
    decreases |data|, 1, 0
  {
    hide ParseAttachments, ParseTransGroups, ParseIndexedSigs, ParseReceiptCouples, ParseQb64Pairs, Classify,
         ReadCounter, Uninterpreted, Ascii;
    if !Ascii(data) {
      return Err(ParseError);
    }
    var read := ReadCounter(data);
    if read.Err? {
      return Err(read.error);
    }
    var counter := read.value;
    var body := data[counter.size..];
    match Classify(counter.code, table)
    case None =>
      r := Uninterpreted(counter.code, counter.count, data, counter.size, strict);
    case Some(TransReceiptQuadruples) =>
      r := Uninterpreted(counter.code, counter.count, data, counter.size, strict);
    case Some(AttachedMaterialQuadlets) =>
      var length := counter.count * 4;
      if length > |body| {
        return Err(ParseError);
      }
      var inner := Attachments(c, body[..length], table, strict);
      r := match inner
        case Err(error) => Err(error)
        case Ok(v) => if v.1 != length then Err(ParseError) else Ok((v.0, counter.size + length));
    case Some(ControllerIdxSigs) =>
      var g := IndexedSigs(c, body, counter.count);
      r := match g case Ok(v) => Ok(([ControllerSigs(v.0)], counter.size + v.1)) case Err(error) => Err(error);
    case Some(WitnessIdxSigs) =>
      var g := IndexedSigs(c, body, counter.count);
      r := match g case Ok(v) => Ok(([WitnessSigs(v.0)], counter.size + v.1)) case Err(error) => Err(error);
    case Some(NonTransReceiptCouples) =>
      var g := ReceiptCouplesOf(c, body, counter.count);
      r := match g case Ok(v) => Ok(([ReceiptCouples(v.0)], counter.size + v.1)) case Err(error) => Err(error);
    case Some(FirstSeenReplayCouples) =>
      var g := Qb64Pairs(c, body, counter.count);
      r := match g
        case Ok(v) => Ok(([Attachment.FirstSeenReplayCouples(v.0)], counter.size + v.1))
        case Err(error) => Err(error);
    case Some(SealSourceCouples) =>
      var g := Qb64Pairs(c, body, counter.count);
      r := match g
        case Ok(v) => Ok(([Attachment.SealSourceCouples(v.0)], counter.size + v.1))
        case Err(error) => Err(error);
    case Some(TransIdxSigGroups) =>
      var g := TransGroupsOf(c, body, counter.count, table, strict);
      r := match g
        case Ok(v) => Ok(([Attachment.TransIdxSigGroups(v.0)], counter.size + v.1))
        case Err(error) => Err(error);
  }

  /** One turn of the attachment loop. */
  lemma AttachmentsStep(c: Suite, data: string, table: Table, strict: bool)
    ensures data == "" || data[0] != '-' ==> ParseAttachments(c, data, table, strict) == Ok(([], 0))
    ensures data != "" && data[0] == '-' && ParseGroup(c, data, table, strict).Err? ==>
      ParseAttachments(c, data, table, strict) == Err(ParseGroup(c, data, table, strict).error)
    ensures data != "" && data[0] == '-' && ParseGroup(c, data, table, strict).Ok? ==>
      var g := ParseGroup(c, data, table, strict).value;
      ParseAttachments(c, data, table, strict) == Join(g.0, g.1, ParseAttachments(c, data[g.1..], table, strict))
  {
    hide ParseGroup;
  }

  lemma JoinEnd<T>(items: seq<T>, n: nat)
    ensures Join(items, n, Ok(([], 0))) == Ok((items, n))
  {
    assert items + [] == items;
  }

  method Attachments(c: Suite, data: string, table: Table, strict: bool) returns (r: Result<(seq<Attachment>, nat)>)
    ensures r == ParseAttachments(c, data, table, strict)
    decreases |data|, 2, 0
  {
    var attachments: seq<Attachment>, offset := [], 0;
    ghost var rest := data;
    JoinNothing(ParseAttachments(c, data, table, strict));
    hide ParseGroup, ParseAttachments;
    while offset < |data|
      invariant 0 <= offset <= |data| && rest == data[offset..]
      invariant ParseAttachments(c, data, table, strict) ==
        Join(attachments, offset, ParseAttachments(c, rest, table, strict))
    {
      AttachmentsStep(c, rest, table, strict);
      if data[offset] != '-' {
        break;
      }
      var group := Group(c, data[offset..], table, strict);
      if group.Err? {
        return Err(group.error);
      }
      var g, n := group.value.0, group.value.1;
      Advanced(data, offset, n);
      JoinJoin(attachments, offset, g, n, ParseAttachments(c, rest[n..], table, strict));
      attachments := attachments + g;
      offset := offset + n;
      rest := rest[n..];
    }
    AttachmentsStep(c, rest, table, strict);
    JoinEnd(attachments, offset);
    r := Ok((attachments, offset));
  }

  method OneTransGroupOf(c: Suite, data: string, table: Table, strict: bool) returns (r: Result<(TransGroup, nat)>)
    ensures r == OneTransGroup(c, data, table, strict)
    decreases |data|, 0, 0
  {
    hide ParseAttachments, ParseTriple, OnlySigs;
    var triple := ParseTriple(c, data);
    if triple.Err? {
      return Err(triple.error);
    }
    var head := triple.value;
    var inner := Attachments(c, data[head.3..], table, strict);
    if inner.Err? {
      return Err(inner.error);
    }
    var sigs := OnlySigs(inner.value.0);
    if sigs.None? || sigs.value == [] {
      return Err(ParseError);
    }
    r := Ok((TransGroup(head.0, head.1, head.2, sigs.value), head.3 + inner.value.1));
  }

  /** One turn of the transferable group loop. */
  lemma TransGroupsStep(c: Suite, data: string, count: nat, table: Table, strict: bool)
    ensures count == 0 ==> TransGroups(c, data, count, table, strict) == Ok(([], 0))
    ensures count > 0 && OneTransGroup(c, data, table, strict).Err? ==>
      TransGroups(c, data, count, table, strict) == Err(OneTransGroup(c, data, table, strict).error)
    ensures count > 0 && OneTransGroup(c, data, table, strict).Ok? ==>
      var one := OneTransGroup(c, data, table, strict).value;
      TransGroups(c, data, count, table, strict) ==
        Join([one.0], one.1, TransGroups(c, data[one.1..], count - 1, table, strict))
  {
    hide OneTransGroup;
  }

  method TransGroupsOf(c: Suite, data: string, count: nat, table: Table, strict: bool)
    returns (r: Result<(seq<TransGroup>, nat)>)
    ensures r == ParseTransGroups(c, data, count, table, strict)
    decreases |data|, 1, count + 1
  {
    hide OneTransGroup, TransGroups, Ascii;
    if count > MAX_COUNT || !Ascii(data) {
      return Err(ParseError);
    }
    var groups: seq<TransGroup>, offset, i := [], 0, 0;
    ghost var rest := data;
    JoinNothing(TransGroups(c, data, count, table, strict));
    while i < count
      invariant 0 <= i <= count && 0 <= offset <= |data| && rest == data[offset..]
      invariant TransGroups(c, data, count, table, strict)
             == Join(groups, offset, TransGroups(c, rest, count - i, table, strict))
    {
      TransGroupsStep(c, rest, count - i, table, strict);
      var one := OneTransGroupOf(c, data[offset..], table, strict);
      if one.Err? {
        return Err(one.error);
      }
      var group, n := one.value.0, one.value.1;
      Advanced(data, offset, n);
      JoinJoin(groups, offset, [group], n, TransGroups(c, rest[n..], count - i - 1, table, strict));
      groups := groups + [group];
      offset := offset + n;
      rest := rest[n..];
      i := i + 1;
    }
    TransGroupsStep(c, rest, 0, table, strict);
    JoinEnd(groups, offset);
    r := Ok((groups, offset));
  }

  method NextMessage(c: Suite, stream: string, strict: bool) returns (r: Result<(ParsedMessage, nat)>)
    ensures r == ParseNext(c, stream, strict)
  {
    hide ParseAttachments, FromRaw, SniffKind;
    if stream == "" || SniffKind(stream[0]).Err? {
      return Err(ParseError);
    }
    var read := FromRaw(c, stream);
    if read.Err? {
      return Err(read.error);
    }
    var serder := read.value;
    var atts := Attachments(c, stream[|serder.raw|..], TableOf(serder.version), strict);
    r := match atts
      case Ok(v) => Ok((ParsedMessage(serder, v.0), |serder.raw| + v.1))
      case Err(error) => Err(error);
  }

  /** One turn of the message loop, past the whitespace. */
  lemma MessagesStep(c: Suite, stream: string, strict: bool)
    requires SkipSpace(stream) == 0
    ensures stream == "" ==> ParseAll(c, stream, strict) == Ok([])
    ensures stream != "" && ParseNext(c, stream, strict).Err? ==>
      ParseAll(c, stream, strict) == Err(ParseNext(c, stream, strict).error)
    ensures stream != "" && ParseNext(c, stream, strict).Ok? ==>
      var next := ParseNext(c, stream, strict).value;
      ParseAll(c, stream, strict) ==
        if next.1 == 0 then Err(ParseError) else Append([next.0], ParseAll(c, stream[next.1..], strict))
  {
    hide ParseNext;
    assert stream[0..] == stream;
  }

  lemma SpaceStep(c: Suite, stream: string, strict: bool)
    requires stream != "" && IsSpace(stream[0])
    ensures ParseAll(c, stream, strict) == ParseAll(c, stream[1..], strict)
  {
    hide ParseNext;
    Advanced(stream, 1, SkipSpace(stream[1..]));
  }

  /** `parse_all`: messages and whitespace until the buffer is used up. */
  method AllMessages(c: Suite, stream: string, strict: bool) returns (r: Result<seq<ParsedMessage>>)
    ensures r == ParseAll(c, stream, strict)
  {
    var messages: seq<ParsedMessage>, offset := [], 0;
    ghost var rest := stream;
    Appended([], ParseAll(c, stream, strict));
    hide ParseNext, ParseAll;
    while offset < |stream|
      invariant 0 <= offset <= |stream| && rest == stream[offset..]
      invariant ParseAll(c, stream, strict) == Append(messages, ParseAll(c, rest, strict))
    {
      while offset < |stream| && IsSpace(stream[offset])
        invariant 0 <= offset <= |stream| && rest == stream[offset..]
        invariant ParseAll(c, stream, strict) == Append(messages, ParseAll(c, rest, strict))
      {
        SpaceStep(c, rest, strict);
        Advanced(stream, offset, 1);
        rest := rest[1..];
        offset := offset + 1;
      }
      if offset >= |stream| {
        break;
      }
      MessagesStep(c, rest, strict);
      var next := NextMessage(c, stream[offset..], strict);
      if next.Err? {
        return Err(next.error);
      }
      var n := next.value.1;
      if n == 0 {
        return Err(ParseError);
      }
      Advanced(stream, offset, n);
      AppendAppend(messages, [next.value.0], ParseAll(c, rest[n..], strict));
      messages := messages + [next.value.0];
      offset := offset + n;
      rest := rest[n..];
    }
    MessagesStep(c, rest, strict);
    assert messages + [] == messages;
    r := Ok(messages);
  }

  function Append<T>(items: seq<T>, r: Result<seq<T>>): Result<seq<T>> {
    match r
    case Ok(more) => Ok(items + more)
    case Err(error) => Err(error)
  }

  lemma AppendAppend<T>(a: seq<T>, b: seq<T>, r: Result<seq<T>>)
    ensures Append(a, Append(b, r)) == Append(a + b, r)
  {
    if r.Ok? {
      assert a + (b + r.value) == (a + b) + r.value;
    }
  }

  lemma Appended<T>(a: seq<T>, r: Result<seq<T>>)
    ensures a == [] ==> Append(a, r) == r
  {
    if r.Ok? {
      assert [] + r.value == r.value;
    }
  }
}
