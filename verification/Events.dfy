/** The five key event bodies, and how they are read out of a JSON message. */
module Events {
  import opened Wrappers
  import opened JsonValues
  import opened Thresholds

  datatype InceptionEvent = InceptionEvent(
    version: string, ilk: string, said: string, prefix: string, sn: string,
    threshold: Threshold, keys: seq<string>, nextThreshold: Threshold, nextKeys: seq<string>,
    backerThreshold: string, backers: seq<string>, config: seq<string>, anchors: seq<Json>)

  datatype RotationEvent = RotationEvent(
    version: string, ilk: string, said: string, prefix: string, sn: string, prior: string,
    threshold: Threshold, keys: seq<string>, nextThreshold: Threshold, nextKeys: seq<string>,
    backerThreshold: string, backersRemove: seq<string>, backersAdd: seq<string>,
    config: seq<string>, anchors: seq<Json>)

  datatype InteractionEvent = InteractionEvent(
    version: string, ilk: string, said: string, prefix: string, sn: string, prior: string, anchors: seq<Json>)

  /** A delegated event is the plain one with a delegator prefix. */
  datatype DelegatedInceptionEvent = DelegatedInceptionEvent(base: InceptionEvent, delegator: string)

  datatype DelegatedRotationEvent = DelegatedRotationEvent(base: RotationEvent, delegator: string)

  function StrField(sad: Json, key: string): Result<string> {
    OkOr(GetStr(sad, key), Error.Json)
  }

  function StrItems(items: seq<Json>): Option<seq<string>> {
    if items == [] then Some([])
    else
      match (StrOf(items[0]), StrItems(items[1..]))
      case (Some(s), Some(rest)) => Some([s] + rest)
      case _ => None
  }

  function ArrField(sad: Json, key: string): Result<seq<Json>> {
    match Get(sad, key)
    case Some(Arr(items)) => Ok(items)
    case _ => Err(Error.Json)
  }

  /** The anchors of a body; one without a list of them has none. */
  function AnchorsOf(sad: Json): seq<Json> {
    match ArrField(sad, "a")
    case Ok(items) => items
    case Err(_) => []
  }

  function StrArrField(sad: Json, key: string): Result<seq<string>> {
    var items :- ArrField(sad, key);
    OkOr(StrItems(items), Error.Json)
  }

  lemma {:induction false} ItemsExactly(items: seq<Json>, xs: seq<string>)
    ensures StrItems(items) == Some(xs) <==>
      |items| == |xs| && forall i :: 0 <= i < |xs| ==> items[i] == Str(xs[i])
  {
    if items != [] {
      var tail := if xs == [] then [] else xs[1..];
      ItemsExactly(items[1..], tail);
      if xs != [] {
        assert xs == [xs[0]] + tail;
        assert forall i :: 0 <= i < |tail| ==> xs[i + 1] == tail[i];
        assert forall i :: 0 <= i < |items| - 1 ==> items[i + 1] == items[1..][i];
      }
    }
  }

  /** A list of texts is read exactly from an array that holds those texts and nothing else. */
  lemma ListExactly(sad: Json, key: string, xs: seq<string>)
    ensures StrArrField(sad, key) == Ok(xs) <==>
      && Get(sad, key).Some? && Get(sad, key).value.Arr? && |Get(sad, key).value.items| == |xs|
      && forall i :: 0 <= i < |xs| ==> Get(sad, key).value.items[i] == Str(xs[i])
  {
    hide Get, StrItems;
    if ArrField(sad, key).Ok? {
      ItemsExactly(ArrField(sad, key).value, xs);
    }
  }

  function ThresholdField(sad: Json, key: string): (r: Result<Threshold>)
    ensures r.Ok? ==> r.value.Valid()
  {
    match Get(sad, key)
    case None => Err(Error.Json)
    case Some(v) =>
      ParsedThresholdValid(v);
      match FromJson(v)
      case Ok(t) => Ok(t)
      case Err(_) => Err(Error.Json)
  }

  function InceptionOf(sad: Json): (r: Result<InceptionEvent>)
    ensures r.Ok? ==> sad.Obj? && r.value.threshold.Valid()
  {
    var v :- StrField(sad, "v");
    var t :- StrField(sad, "t");
    var d :- StrField(sad, "d");
    var i :- StrField(sad, "i");
    var s :- StrField(sad, "s");
    var kt :- ThresholdField(sad, "kt");
    var k :- StrArrField(sad, "k");
    var nt :- ThresholdField(sad, "nt");
    var n :- StrArrField(sad, "n");
    var bt :- StrField(sad, "bt");
    var b :- StrArrField(sad, "b");
    var cfg :- StrArrField(sad, "c");
    var a :- ArrField(sad, "a");
    Ok(InceptionEvent(v, t, d, i, s, kt, k, nt, n, bt, b, cfg, a))
  }

  function RotationOf(sad: Json): (r: Result<RotationEvent>)
    ensures r.Ok? ==> sad.Obj? && r.value.threshold.Valid()
  {
    var v :- StrField(sad, "v");
    var t :- StrField(sad, "t");
    var d :- StrField(sad, "d");
    var i :- StrField(sad, "i");
    var s :- StrField(sad, "s");
    var p :- StrField(sad, "p");
    var kt :- ThresholdField(sad, "kt");
    var k :- StrArrField(sad, "k");
    var nt :- ThresholdField(sad, "nt");
    var n :- StrArrField(sad, "n");
    var bt :- StrField(sad, "bt");
    var br :- StrArrField(sad, "br");
    var ba :- StrArrField(sad, "ba");
    var cfg :- StrArrField(sad, "c");
    var a :- ArrField(sad, "a");
    Ok(RotationEvent(v, t, d, i, s, p, kt, k, nt, n, bt, br, ba, cfg, a))
  }

  function InteractionOf(sad: Json): (r: Result<InteractionEvent>)
    ensures r.Ok? ==> sad.Obj?
  {
    var v :- StrField(sad, "v");
    var t :- StrField(sad, "t");
    var d :- StrField(sad, "d");
    var i :- StrField(sad, "i");
    var s :- StrField(sad, "s");
    var p :- StrField(sad, "p");
    var a :- ArrField(sad, "a");
    Ok(InteractionEvent(v, t, d, i, s, p, a))
  }

  function DelegatedInceptionOf(sad: Json): Result<DelegatedInceptionEvent> {
    var base :- InceptionOf(sad);
    var di :- StrField(sad, "di");
    Ok(DelegatedInceptionEvent(base, di))
  }

  function DelegatedRotationOf(sad: Json): Result<DelegatedRotationEvent> {
    var base :- RotationOf(sad);
    var di :- StrField(sad, "di");
    Ok(DelegatedRotationEvent(base, di))
  }

  /** What the decoded events say of the message they came from. */
  lemma InceptionFields(sad: Json)
    requires InceptionOf(sad).Ok?
    ensures var e := InceptionOf(sad).value;
      GetStr(sad, "d") == Some(e.said) && GetStr(sad, "i") == Some(e.prefix) && GetStr(sad, "s") == Some(e.sn) &&
      StrArrField(sad, "k") == Ok(e.keys) && StrArrField(sad, "n") == Ok(e.nextKeys) &&
      ThresholdField(sad, "kt") == Ok(e.threshold)
  {
    hide Get, GetStr, StrArrField, ThresholdField;
  }

  lemma RotationFields(sad: Json)
    requires RotationOf(sad).Ok?
    ensures var e := RotationOf(sad).value;
      GetStr(sad, "d") == Some(e.said) && GetStr(sad, "i") == Some(e.prefix) && GetStr(sad, "s") == Some(e.sn) &&
      GetStr(sad, "p") == Some(e.prior) &&
      StrArrField(sad, "k") == Ok(e.keys) && StrArrField(sad, "n") == Ok(e.nextKeys) &&
      ThresholdField(sad, "kt") == Ok(e.threshold)
  {
    hide Get, GetStr, StrArrField, ThresholdField;
  }

  lemma InteractionFields(sad: Json)
    requires InteractionOf(sad).Ok?
    ensures var e := InteractionOf(sad).value;
      GetStr(sad, "d") == Some(e.said) && GetStr(sad, "i") == Some(e.prefix) && GetStr(sad, "s") == Some(e.sn) &&
      GetStr(sad, "p") == Some(e.prior) && ArrField(sad, "a") == Ok(e.anchors)
  {
    hide Get, GetStr;
  }
}
