/** Self-addressing identifiers: the digest of a message that contains the digest. */
module Saids {
  import opened Wrappers
  import opened JsonValues
  import opened Primitives
  import opened Versions

  /** `i` and `d` are both present and equal. */
  predicate SelfAddressing(sad: Json) {
    Get(sad, "d").Some? && Get(sad, "d") == Get(sad, "i")
  }

  /** The message with its own digest replaced by `x`, and its prefix too when `both`. */
  function Fill(sad: Json, x: string, both: bool): (r: Json)
    requires sad.Obj?
    ensures r.Obj?
  {
    var s := Set(sad, "d", Str(x));
    if both then Set(s, "i", Str(x)) else s
  }

  /** What is digested: the message with dummies where its digest goes. */
  function Blank(sad: Json): Json
    requires sad.Obj?
  {
    Fill(sad, DUMMY, SelfAddressing(sad))
  }

  function SaidOf(c: Suite, sad: Json): string
    requires sad.Obj?
  {
    c.digest("E", Print(Blank(sad)))
  }

  /** `compute_said` for field `d` and Blake3-256: the filled-in message and its SAID. */
  function ComputeSaid(c: Suite, sad: Json): Result<(Json, string)> {
    if !sad.Obj? then Err(Validation)
    else if Get(sad, "d").None? then Err(MissingField("d"))
    else Ok((Fill(Blank(sad), SaidOf(c, sad), SelfAddressing(sad)), SaidOf(c, sad)))
  }

  function VerifySaid(c: Suite, sad: Json): Result<()> {
    if !sad.Obj? then Err(Validation)
    else
      var current :- OkOr(GetStr(sad, "d"), MissingField("d"));
      var computed :- ComputeSaid(c, sad);
      if computed.1 != current then Err(SaidMismatch) else Ok(())
  }

  // ---------- any field, code and serialization ----------

  /** The placeholder for a digest of `n` characters. */
  function Placeholder(n: nat): (s: string)
    ensures |s| == n
  {
    seq(n, _ => '#')
  }

  /** The message with its field `field` replaced by `x`, and its prefix too when `both`. */
  function FillAt(sad: Json, field: string, x: string, both: bool): (r: Json)
    requires sad.Obj?
    ensures r.Obj?
  {
    var s := Set(sad, field, Str(x));
    if both then Set(s, "i", Str(x)) else s
  }

  /** Only the field `d` takes the prefix along. */
  predicate TakesPrefix(sad: Json, field: string) {
    field == "d" && SelfAddressing(sad)
  }

  /** `compute_said`: the message as it is left, and its SAID or an error. */
  function ComputeSaidFor(c: Suite, sad: Json, field: string, code: string, kind: Kind): (Json, Result<string>) {
    var size := CodeSize(c, code);
    if !sad.Obj? || size == None || size == Some(0) then (sad, Err(Validation))
    else if Get(sad, field).None? then (sad, Err(MissingField(field)))
    else
      var both := TakesPrefix(sad, field);
      var blank := FillAt(sad, field, Placeholder(size.value), both);
      match Serialize(c, blank, kind)
      case Err(error) => (blank, Err(error))
      case Ok(data) =>
        match Digest(c, code, data)
        case Err(error) => (blank, Err(error))
        case Ok(said) => (FillAt(blank, field, said, both), Ok(said))
  }

  function VerifySaidFor(c: Suite, sad: Json, field: string, code: string, kind: Kind): Result<()> {
    if !sad.Obj? then Err(Validation)
    else
      var current :- OkOr(GetStr(sad, field), MissingField(field));
      var computed :- ComputeSaidFor(c, sad, field, code, kind).1;
      if computed != current then Err(SaidMismatch) else Ok(())
  }

  lemma DummyPlaceholder()
    ensures Placeholder(44) == DUMMY
  {
    assert forall ch :: ch in DUMMY ==> ch == '#';
    forall i | 0 <= i < 44 ensures DUMMY[i] == '#' {
      assert DUMMY[i] in DUMMY;
    }
  }

  /** For `d`, Blake3-256 and JSON these are the functions above. */
  lemma UsualSaid(c: Suite, sad: Json)
    ensures ComputeSaidFor(c, sad, "d", "E", JsonKind) ==
      (match ComputeSaid(c, sad) case Ok((done, said)) => (done, Ok(said)) case Err(error) => (sad, Err(error)))
    ensures VerifySaidFor(c, sad, "d", "E", JsonKind) == VerifySaid(c, sad)
  {
    hide Get, Set, Print, Placeholder;
    DummyPlaceholder();
  }

  lemma FillAtTwice(sad: Json, field: string, x: string, y: string, both: bool)
    requires sad.Obj? && Get(sad, field).Some? && (both ==> field == "d" && Get(sad, "i").Some?)
    ensures FillAt(FillAt(sad, field, x, both), field, y, both) == FillAt(sad, field, y, both)
  {
    hide Get, Set;
    if both {
      FillFill(sad, x, y, both);
    } else {
      SetTwice(sad, field, Str(x), Str(y));
    }
  }

  /**
   * Whatever the field, digest code and serialization, a freshly computed SAID verifies, with the
   * one exception below.
   */
  lemma ComputedSaidVerifiesFor(c: Suite, sad: Json, field: string, code: string, kind: Kind)
    requires ComputeSaidFor(c, sad, field, code, kind).1.Ok?
    requires field == "d" && !SelfAddressing(sad) ==>
      Get(sad, "i") != Some(Str(ComputeSaidFor(c, sad, field, code, kind).1.value))
    ensures VerifySaidFor(c, ComputeSaidFor(c, sad, field, code, kind).0, field, code, kind).Ok?
    ensures GetStr(ComputeSaidFor(c, sad, field, code, kind).0, field) ==
      Some(ComputeSaidFor(c, sad, field, code, kind).1.value)
  {
    hide Get, Set, Print, Placeholder;
    var both, said := TakesPrefix(sad, field), ComputeSaidFor(c, sad, field, code, kind).1.value;
    var done, hole := FillAt(sad, field, said, both), Placeholder(CodeSize(c, code).value);
    FillAtTwice(sad, field, hole, said, both);
    FillAtTwice(sad, field, said, hole, both);
    GetFillAt(sad, field, said, both);
    assert TakesPrefix(done, field) == both;
  }

  lemma GetFillAt(sad: Json, field: string, x: string, both: bool)
    requires sad.Obj? && (both ==> field == "d")
    ensures Get(FillAt(sad, field, x, both), field) == Some(Str(x))
    ensures GetStr(FillAt(sad, field, x, both), field) == Some(x)
    ensures field == "d" ==> Get(FillAt(sad, field, x, both), "i") == if both then Some(Str(x)) else Get(sad, "i")
  {
    if field == "d" {
      GetFill(sad, x, both, "i");
    } else {
      GetSet(sad, field, Str(x), field);
    }
  }

  /** A message body held by reference, as `compute_said` and `fix_version_string` receive it. */
  class Document {
    var value: Json

    constructor (v: Json)
      ensures value == v
    {
      value := v;
    }

    method FillSaid(c: Suite, field: string, code: string, kind: Kind) returns (r: Result<string>)
      modifies this
      ensures (value, r) == ComputeSaidFor(c, old(value), field, code, kind)
    {
      hide Set, Get, Print, Placeholder;
      if !value.Obj? {
        return Err(Validation);
      }
      var size := CodeSize(c, code);
      if size.None? {
        return Err(Validation);
      }
      if size.value == 0 {
        return Err(Validation);
      }
      var dummy := Placeholder(size.value);
      if Get(value, field).None? {
        return Err(MissingField(field));
      }
      var both := TakesPrefix(value, field);
      value := Set(value, field, Str(dummy));
      if both {
        value := Set(value, "i", Str(dummy));
      }
      var data := Serialize(c, value, kind);
      if data.Err? {
        return Err(data.error);
      }
      var said := Digest(c, code, data.value);
      if said.Err? {
        return Err(said.error);
      }
      value := Set(value, field, Str(said.value));
      if both {
        value := Set(value, "i", Str(said.value));
      }
      r := Ok(said.value);
    }

    /** `verify_said`: recompute on a copy and compare. */
    method CheckSaid(c: Suite, field: string, code: string, kind: Kind) returns (r: Result<()>)
      ensures r == VerifySaidFor(c, value, field, code, kind)
    {
      if !value.Obj? {
        return Err(Validation);
      }
      var current := GetStr(value, field);
      if current.None? {
        return Err(MissingField(field));
      }
      var copy := new Document(value);
      var computed := copy.FillSaid(c, field, code, kind);
      hide ComputeSaidFor;
      match computed
      case Err(error) => r := Err(error);
      case Ok(said) => r := if said != current.value then Err(SaidMismatch) else Ok(());
    }
  }

  lemma FillFill(sad: Json, x: string, y: string, both: bool)
    requires sad.Obj? && Get(sad, "d").Some? && (both ==> Get(sad, "i").Some?)
    ensures Fill(Fill(sad, x, both), y, both) == Fill(sad, y, both)
  {
    var s, t := Set(sad, "d", Str(x)), Set(sad, "d", Str(y));
    SetTwice(sad, "d", Str(x), Str(y));
    if both {
      GetSet(sad, "d", Str(x), "i");
      GetSet(sad, "d", Str(x), "d");
      SetCommutes(s, "i", Str(x), "d", Str(y));
      SetTwice(t, "i", Str(x), Str(y));
    }
  }

  lemma GetFill(sad: Json, x: string, both: bool, key: string)
    requires sad.Obj?
    ensures Get(Fill(sad, x, both), "d") == Some(Str(x))
    ensures both ==> Get(Fill(sad, x, both), "i") == Some(Str(x))
    ensures key != "d" && (key != "i" || !both) ==> Get(Fill(sad, x, both), key) == Get(sad, key)
  {
    var s := Set(sad, "d", Str(x));
    GetSet(sad, "d", Str(x), key);
    GetSet(sad, "d", Str(x), "i");
    GetSet(s, "i", Str(x), "d");
    GetSet(s, "i", Str(x), key);
  }

  /** A message is recovered from its blanked form and its SAID. */
  lemma Unblank(sad: Json)
    requires sad.Obj? && GetStr(sad, "d").Some?
    ensures Fill(Blank(sad), GetStr(sad, "d").value, SelfAddressing(sad)) == sad
  {
    var x, both := GetStr(sad, "d").value, SelfAddressing(sad);
    FillFill(sad, DUMMY, x, both);
    SetTwice(sad, "d", Str(x), Str(x));
    SetRestore(sad, "d", Str(x));
    assert Set(sad, "d", Str(x)) == sad;
    if both {
      SetTwice(sad, "i", Str(x), Str(x));
      SetRestore(sad, "i", Str(x));
    }
  }

  /** Messages whose prefix is not literally the dummy are determined by blanked form and SAID. */
  lemma BlankDetermines(a: Json, b: Json)
    requires a.Obj? && b.Obj? && Blank(a) == Blank(b)
    requires GetStr(a, "d").Some? && GetStr(a, "d") == GetStr(b, "d")
    requires GetStr(a, "i") != Some(DUMMY) && GetStr(b, "i") != Some(DUMMY)
    ensures a == b
  {
    Unblank(a);
    Unblank(b);
    GetFill(a, DUMMY, SelfAddressing(a), "i");
    GetFill(b, DUMMY, SelfAddressing(b), "i");
  }

  /**
   * A freshly computed SAID verifies, unless the message carried that very SAID as its prefix
   * without having been self-addressing.
   */
  lemma ComputedSaidVerifies(c: Suite, sad: Json)
    requires ComputeSaid(c, sad).Ok?
    requires SelfAddressing(sad) || Get(sad, "i") != Some(Str(SaidOf(c, sad)))
    ensures VerifySaid(c, ComputeSaid(c, sad).value.0).Ok?
    ensures GetStr(ComputeSaid(c, sad).value.0, "d") == Some(SaidOf(c, sad))
    ensures SelfAddressing(ComputeSaid(c, sad).value.0) == SelfAddressing(sad)
  {
    var said, both := SaidOf(c, sad), SelfAddressing(sad);
    var done := ComputeSaid(c, sad).value.0;
    FillFill(sad, DUMMY, said, both);
    GetFill(sad, said, both, "i");
    FillFill(sad, said, DUMMY, both);
    assert Blank(done) == Blank(sad);
  }

  /** In the excluded case it verifies only if the digest collides on two different messages. */
  lemma ExcludedPrefixNeedsCollision(c: Suite, sad: Json)
    requires ComputeSaid(c, sad).Ok? && SaidOf(c, sad) != DUMMY
    requires !SelfAddressing(sad) && Get(sad, "i") == Some(Str(SaidOf(c, sad)))
    ensures var done := ComputeSaid(c, sad).value.0;
      VerifySaid(c, done).Ok? <==> SaidOf(c, done) == SaidOf(c, sad)
    ensures Blank(ComputeSaid(c, sad).value.0) != Blank(sad)
  {
    var said, done := SaidOf(c, sad), ComputeSaid(c, sad).value.0;
    FillFill(sad, DUMMY, said, false);
    GetFill(sad, said, false, "i");
    GetFill(done, DUMMY, true, "i");
    GetFill(sad, DUMMY, false, "i");
  }
}
