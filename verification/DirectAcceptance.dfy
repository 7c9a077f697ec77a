/** Exactly which messages direct mode takes into its states. */
module DirectAcceptance {
  import opened Wrappers
  import opened JsonValues
  import opened Primitives
  import opened Events
  import opened KeyStates
  import opened Signatures
  import opened Kevers
  import opened Histories
  import opened Acceptance
  import opened Parsers
  import opened Stores
  import opened DirectMode

  /**
   * The message is a first event of an unknown identifier or a later one of a known identifier, not
   * anchored by a delegator, with its quorum of receipts and no group that was not understood.
   */
  ghost predicate Accepts(c: Suite, kevers: map<string, KeyState>, m: ParsedMessage, h: ProcessResult, st: KeyState) {
    && Header(m.serder.sad) == Ok(h) && !HasUnknown(m.attachments)
    && VerifyReceipts(c, m.serder.raw, ReceiptsOf(m.attachments), st.backers, st.backerThreshold).Ok?
    && if h.prefix in kevers then
         CarriesOn(c, kevers[h.prefix], EntryOf(m), st) && Ilk(EntryOf(m)) != "drt"
       else
         Opens(c, EntryOf(m), st) && Ilk(EntryOf(m)) == "icp" && AsKeys(c, st.keys).Ok?
  }

  lemma {:induction false} AllStrings(items: seq<Json>)
    ensures StrItems(items).Some? ==> StringsIn(items) == StrItems(items).value
  {
    if items != [] {
      AllStrings(items[1..]);
    }
  }

  lemma VerfersExactly(c: Suite, sad: Json, keys: seq<string>)
    requires StrArrField(sad, "k") == Ok(keys)
    ensures VerfersOf(c, sad) == AsKeys(c, keys)
  {
    AllStrings(ArrField(sad, "k").value);
    hide Get, AsKeys;
  }

  lemma EntryHeader(m: ParsedMessage, h: ProcessResult)
    requires Header(m.serder.sad) == Ok(h)
    ensures Ilk(EntryOf(m)) == h.ilk
  {
    hide GetStr, SnOf;
  }

  lemma OpensKeys(c: Suite, e: Entry, st: KeyState)
    requires Opens(c, e, st)
    ensures StrArrField(e.sad, "k") == Ok(st.keys)
  {
    hide EventSaid, VerifySigs, GetStr, StrArrField, Ilk, ThresholdField, ArrField;
  }

  lemma WitnessedExactly(c: Suite, m: ParsedMessage, st: KeyState, r: KeyState)
    ensures Witnessed(c, m, st) == Ok(r) <==>
      r == st && VerifyReceipts(c, m.serder.raw, ReceiptsOf(m.attachments), st.backers, st.backerThreshold).Ok?
  {
    hide VerifyReceipts;
  }

  lemma FirstExactly(c: Suite, kevers: map<string, KeyState>, p: string, m: ParsedMessage, st: KeyState)
    ensures AssessInception(c, kevers, p, m) == Ok(st) <==>
      && p !in kevers && Opens(c, EntryOf(m), st) && Ilk(EntryOf(m)) == "icp" && AsKeys(c, st.keys).Ok?
      && VerifyReceipts(c, m.serder.raw, ReceiptsOf(m.attachments), st.backers, st.backerThreshold).Ok?
  {
    hide VerfersOf, Incept, Opens, Witnessed, VerifyReceipts, Ilk, EntryOf;
    var e := EntryOf(m);
    assert e.sad == m.serder.sad by { EntrySad(m); }
    WitnessedExactly(c, m, st, st);
    if AssessInception(c, kevers, p, m) == Ok(st) {
      var keys := VerfersOf(c, e.sad).value;
      var st0 := Incept(c, e, keys).value;
      WitnessedExactly(c, m, st0, st);
      InceptExactly(c, e, keys, st);
      OpensKeys(c, e, st);
      VerfersExactly(c, e.sad, st.keys);
    }
    if Opens(c, e, st) && Ilk(e) == "icp" && AsKeys(c, st.keys).Ok? {
      OpensKeys(c, e, st);
      VerfersExactly(c, e.sad, st.keys);
      InceptExactly(c, e, st.keys, st);
    }
  }

  lemma EntrySad(m: ParsedMessage)
    ensures EntryOf(m).sad == m.serder.sad
  {
  }

  lemma LaterExactly(c: Suite, st0: KeyState, m: ParsedMessage, st: KeyState)
    ensures AssessUpdate(c, st0, m) == Ok(st) <==>
      && CarriesOn(c, st0, EntryOf(m), st) && Ilk(EntryOf(m)) != "drt"
      && VerifyReceipts(c, m.serder.raw, ReceiptsOf(m.attachments), st.backers, st.backerThreshold).Ok?
  {
    hide NextState, CarriesOn, Witnessed, VerifyReceipts, Ilk, EntryOf;
    NextStateExactly(c, st0, EntryOf(m), Validation, st);
    WitnessedExactly(c, m, st, st);
    if NextState(c, st0, EntryOf(m), Validation).Ok? {
      WitnessedExactly(c, m, NextState(c, st0, EntryOf(m), Validation).value, st);
    }
  }

  lemma CarriedType(c: Suite, st0: KeyState, e: Entry, st: KeyState)
    requires CarriesOn(c, st0, e, st)
    ensures Ilk(e) == "ixn" || Ilk(e) == "rot" || Ilk(e) == "drt"
  {
    hide Links, Establishes, Committed, UpdateBackers, GetStr, StrArrField, VerifySigs, AsKeys, Ilk;
  }

  /** Direct mode accepts exactly those messages, and proposes exactly that state. */
  lemma AssessExactly(c: Suite, kevers: map<string, KeyState>, m: ParsedMessage, h: ProcessResult, st: KeyState)
    ensures Assess(c, kevers, m) == Ok((h, Accept(st))) <==> Accepts(c, kevers, m, h, st)
  {
    hide Header, HasUnknown, AssessInception, AssessUpdate, Opens, CarriesOn, VerifyReceipts, AsKeys, Ilk, ReceiptsOf;
    if Header(m.serder.sad) == Ok(h) {
      EntryHeader(m, h);
      FirstExactly(c, kevers, h.prefix, m, st);
      if h.prefix in kevers {
        LaterExactly(c, kevers[h.prefix], m, st);
        if CarriesOn(c, kevers[h.prefix], EntryOf(m), st) {
          CarriedType(c, kevers[h.prefix], EntryOf(m), st);
        }
      }
    }
  }

  /** What a verifier does with a message it accepts: the state is taken and the event stored. */
  lemma ProcessTakes(c: Suite, v: Verifier, m: ParsedMessage, h: ProcessResult, st: KeyState)
    requires Accepts(c, v.kevers, m, h, st)
    ensures var tables := EventStored(v.tables, h.said, m.serder.raw, h.prefix, h.sn, SigBytes(m));
      Process(c, v, m, true) == (Verifier(v.kevers[h.prefix := st], tables), Ok(h))
  {
    hide Assess, Accepts, EventStored, SigBytes;
    AssessExactly(c, v.kevers, m, h, st);
  }

  /** And it takes nothing else into its states. */
  lemma ProcessTakesOnly(c: Suite, v: Verifier, m: ParsedMessage, commits: bool)
    returns (h: ProcessResult, st: KeyState)
    requires Process(c, v, m, commits).0.kevers != v.kevers
    ensures commits && Accepts(c, v.kevers, m, h, st)
    ensures Process(c, v, m, commits).0.kevers == v.kevers[h.prefix := st]
  {
    hide Assess, Accepts, EventStored, SigBytes;
    h, st := Assess(c, v.kevers, m).value.0, Assess(c, v.kevers, m).value.1.st;
    AssessExactly(c, v.kevers, m, h, st);
  }
}
