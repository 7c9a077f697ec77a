/** Drafts whose fields are short stay far below the size a version string can declare. */
module ShortDrafts {
  import opened JsonValues
  import opened Primitives
  import opened Saids
  import opened Serders
  import opened Habs

  lemma {:induction false} EscapeBound(s: string)
    ensures |Escape(s)| <= 6 * |s|
  {
    if s != "" {
      EscapeBound(s[1..]);
    }
  }

  predicate SmallText(v: Json) {
    v.Str? && |v.s| <= 200
  }

  /** A short text, or a list of at most two. */
  predicate SmallValue(v: Json) {
    SmallText(v) ||
    (v.Arr? && |v.items| <= 2 && (|v.items| > 0 ==> SmallText(v.items[0])) && (|v.items| > 1 ==> SmallText(v.items[1])))
  }

  predicate SmallField(f: Field) {
    |f.key| <= 2 && SmallValue(f.value)
  }

  predicate ShortTexts(xs: seq<string>) {
    |xs| <= 2 && (|xs| > 0 ==> |xs[0]| <= 200) && (|xs| > 1 ==> |xs[1]| <= 200)
  }

  lemma ShortStrings(xs: seq<string>)
    requires ShortTexts(xs)
    ensures SmallValue(Strings(xs))
  {
  }

  lemma SmallTextBound(v: Json)
    requires SmallText(v)
    ensures |Print(v)| <= 1202
  {
    EscapeBound(v.s);
  }

  lemma SmallValueBound(v: Json)
    requires SmallValue(v)
    ensures |Print(v)| <= 2410
  {
    if SmallText(v) {
      SmallTextBound(v);
    } else {
      SmallItemsBound(v.items);
    }
  }

  lemma {:induction false} SmallItemsBound(items: seq<Json>)
    requires forall x :: x in items ==> SmallText(x)
    ensures |PrintItems(items)| <= 1 + 1203 * |items|
  {
    hide SmallText;
    if items != [] {
      assert items[0] in items;
      SmallTextBound(items[0]);
      forall x | x in items[1..] ensures SmallText(x) { assert x in items; }
      SmallItemsBound(items[1..]);
    }
  }

  lemma SmallFieldBound(f: Field)
    requires SmallField(f)
    ensures |PrintField(f)| <= 3000
  {
    EscapeBound(f.key);
    SmallValueBound(f.value);
    hide Escape, Print, SmallValue;
  }

  lemma {:induction false} FieldsBound(fields: seq<Field>)
    requires forall f :: f in fields ==> SmallField(f)
    ensures |PrintFields(fields)| <= 1 + 3001 * |fields|
  {
    hide SmallField, PrintField;
    if fields != [] {
      assert fields[0] in fields;
      SmallFieldBound(fields[0]);
      forall f | f in fields[1..] ensures SmallField(f) { assert f in fields; }
      FieldsBound(fields[1..]);
    }
  }

  ghost predicate SmallObject(v: Json) {
    v.Obj? && v.fields != [] && |v.fields| <= 20 && forall f :: f in v.fields ==> SmallField(f)
  }

  lemma SetSmall(v: Json, key: string, x: Json)
    requires SmallObject(v) && |v.fields| < 20 && |key| <= 2 && SmallValue(x)
    ensures SmallObject(Set(v, key, x))
    ensures Get(v, key).Some? ==> |Set(v, key, x).fields| == |v.fields|
  {
    hide SmallValue;
    var i := Find(v.fields, key);
    forall f | f in Set(v, key, x).fields ensures SmallField(f) {
      assert f in v.fields || f == Field(key, x);
    }
  }

  /** Drafts of short fields are far below the six-digit size. */
  lemma SmallDraftFits(sad: Json)
    requires Draft(sad) && SmallObject(sad) && |sad.fields| < 19
    ensures DeclaredSize(sad) < 0x100_0000
  {
    hide Get, Find, SmallField;
    var both := SelfAddressing(sad);
    SetSmall(sad, "d", Str(DUMMY));
    var s := Set(sad, "d", Str(DUMMY));
    SetSmall(s, "i", Str(DUMMY));
    var full := Fill(sad, DUMMY, both);
    FieldsBound(full.fields);
    ObjectLength(full.fields);
  }
}
