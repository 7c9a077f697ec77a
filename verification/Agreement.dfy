/** Two verifiers of one identifier never disagree while too few of its witnesses equivocate. */
module Agreement {
  import opened Wrappers
  import opened Lists
  import opened Numerals
  import opened JsonValues
  import opened Primitives
  import opened Saids
  import opened Events
  import opened KeyStates
  import opened Signatures
  import opened Kevers
  import opened Histories
  import opened Chains
  import opened Parsers
  import opened DirectMode
  import opened Stores
  import opened DirectRuns
  import opened StoreRefinement
  import opened Rebuilding

  // ---------- the assumptions ----------

  /** `b` has receipted this message validly. */
  ghost predicate Endorses(c: Suite, b: string, m: ParsedMessage) {
    exists w :: w in ReceiptsOf(m.attachments) && w.0 == b && c.verify(b, m.serder.raw, w.1) == Check.Valid
  }

  /** Two different events for one identifier and sequence number. */
  predicate Conflict(x: ParsedMessage, y: ParsedMessage, p: string) {
    var a, b := x.serder.sad, y.serder.sad;
    && GetStr(a, "i") == Some(p) == GetStr(b, "i")
    && SnOf(a).Some? && SnOf(a) == SnOf(b)
    && GetStr(a, "d") != GetStr(b, "d")
  }

  ghost predicate Equivocates(c: Suite, ins: seq<Input>, p: string, b: string) {
    exists i, j :: i in ins && j in ins && Conflict(i.m, j.m, p) && Endorses(c, b, i.m) && Endorses(c, b, j.m)
  }

  /** The backers among `backers` that signed two different events for one (prefix, sn). */
  ghost function Equivocators(c: Suite, ins: seq<Input>, p: string, backers: seq<string>): set<string> {
    set b | b in Elements(backers) && Equivocates(c, ins, p, b)
  }

  /** A rotation that adds and removes no backer and keeps the threshold as stated at inception. */
  predicate KeepsBackers(first: Json, sad: Json) {
    GetStr(sad, "t") == Some("ixn") ||
    (StrArrField(sad, "br") == Ok([]) && StrArrField(sad, "ba") == Ok([]) && GetStr(sad, "bt") == GetStr(first, "bt"))
  }

  predicate StaticBackers(log: seq<ParsedMessage>) {
    forall k :: 1 <= k < |log| ==> KeepsBackers(log[0].serder.sad, log[k].serder.sad)
  }

  // ---------- the backers stay what inception made them ----------

  lemma UpdateNothing(s: seq<string>)
    ensures UpdateBackers(s, [], []) == s
  {
    WithoutNothing(s);
  }

  lemma {:induction false} WithoutNothing(s: seq<string>)
    ensures Without(s, []) == s
  {
    if s != [] {
      WithoutNothing(s[..|s| - 1]);
    }
  }

  lemma InceptionThresholdStated(sad: Json)
    requires InceptionOf(sad).Ok?
    ensures GetStr(sad, "bt") == Some(InceptionOf(sad).value.backerThreshold)
  {
    hide StrArrField, ThresholdField, ArrField, GetStr;
  }

  lemma InceptionThreshold(c: Suite, e: Entry)
    requires Start(c, e).Ok?
    ensures GetStr(e.sad, "bt").Some?
    ensures ParseBackerThreshold(GetStr(e.sad, "bt").value) == Ok(Start(c, e).value.backerThreshold)
  {
    hide Start, InceptionOf, ParseBackerThreshold, ParseSn, GetStr, InceptionState;
    FirstAgrees(c, e);
    InceptionThresholdStated(e.sad);
    var icp := InceptionOf(e.sad).value;
    AcceptedThreshold(icp, None);
    AcceptedThreshold(icp, GetStr(e.sad, "di"));
  }

  lemma AcceptedThreshold(icp: InceptionEvent, delegator: Option<string>)
    ensures InceptionState(icp, delegator).Ok? ==>
      ParseBackerThreshold(icp.backerThreshold) == Ok(InceptionState(icp, delegator).value.backerThreshold)
  {
    hide Parse;
  }

  lemma RotationThreshold(c: Suite, st: KeyState, e: Entry)
    requires Advance(c, st, e).Ok? && (Ilk(e) == "rot" || Ilk(e) == "drt")
    ensures GetStr(e.sad, "bt").Some?
    ensures ParseBackerThreshold(GetStr(e.sad, "bt").value) == Ok(Advance(c, st, e).value.backerThreshold)
  {
    NextAgrees(c, st, e);
    RotationThresholdStated(e.sad);
    hide Advance, RotationOf, InteractionOf, ParseBackerThreshold, ApplyRotation, GetStr;
    AppliedThreshold(c, st, RotationOf(e.sad).value);
  }

  lemma AppliedThreshold(c: Suite, st: KeyState, rot: RotationEvent)
    requires ApplyRotation(c, st, rot).Ok?
    ensures ParseBackerThreshold(rot.backerThreshold) == Ok(ApplyRotation(c, st, rot).value.backerThreshold)
  {
    hide CheckLink, Parse, UpdateBackers, Committed;
  }

  lemma RotationThresholdStated(sad: Json)
    requires RotationOf(sad).Ok?
    ensures GetStr(sad, "bt") == Some(RotationOf(sad).value.backerThreshold)
  {
    hide StrArrField, ThresholdField, ArrField, GetStr;
  }

  /** The state after `k` more events of a log with static backers. */
  lemma {:induction false} BackersStay(c: Suite, log: seq<ParsedMessage>, k: nat)
    requires Replay(c, Entries(log)).Ok? && StaticBackers(log) && k < |log|
    ensures Replay(c, Entries(log[..k + 1])).Ok? && Start(c, EntryOf(log[0])).Ok?
    ensures var st, st0 := Replay(c, Entries(log[..k + 1])).value, Start(c, EntryOf(log[0])).value;
      st.backers == st0.backers && st.backerThreshold == st0.backerThreshold
  {
    hide StaticBackers, Start, Advance, Begins, Continues, Vouched, KeepsBackers;
    PrefixReplays(c, Entries(log), k + 1);
    EntriesPrefix(log, k + 1);
    if k == 0 {
      assert log[..1] == [log[0]];
      OneEntry(c, log[0]);
    } else {
      BackersStay(c, log, k - 1);
      var es := Entries(log[..k + 1]);
      assert es[..k] == Entries(log[..k]);
      LastStep(c, es);
      StaticAt(log, k);
      BackerStep(c, EntryOf(log[0]), Replay(c, Entries(log[..k])).value, EntryOf(log[k]));
    }
  }

  lemma StaticAt(log: seq<ParsedMessage>, k: nat)
    requires StaticBackers(log) && 1 <= k < |log|
    ensures KeepsBackers(log[0].serder.sad, log[k].serder.sad)
  {
  }

  lemma BackerStep(c: Suite, first: Entry, st: KeyState, e: Entry)
    requires Start(c, first).Ok? && Advance(c, st, e).Ok? && Continues(c, st, e, Advance(c, st, e).value)
    requires KeepsBackers(first.sad, e.sad)
    requires st.backerThreshold == Start(c, first).value.backerThreshold
    ensures Advance(c, st, e).value.backers == st.backers
    ensures Advance(c, st, e).value.backerThreshold == st.backerThreshold
  {
    if Ilk(e) != "ixn" {
      InceptionThreshold(c, first);
      RotationThreshold(c, st, e);
      UpdateNothing(st.backers);
    }
    hide Vouched, Installs, Start, Advance, Committed, StrArrField, UpdateBackers, Parse;
  }

  // ---------- one sequence number ----------

  /** The `k`-th event of a log: verified, stating sequence number `k`, and receipted by a quorum. */
  lemma LogEventFacts(c: Suite, ins: seq<Input>, p: string, k: nat)
    requires DigestLaw(c) && TextLaw(c) && k < |LogOf(c, ins, p)|
    ensures var log := LogOf(c, ins, p); var sad := log[k].serder.sad;
      && VerifySaid(c, sad).Ok? && GetStr(sad, "i") == Some(p) && p != DUMMY && SnOf(sad) == Some(k)
      && Replay(c, Entries(log[..k + 1])).Ok? && LastQuorate(c, log[..k + 1])
  {
    LogInvariant(c, ins, p);
    var log := LogOf(c, ins, p);
    var es := Entries(log);
    hide Run, LogOf, Replay, VerifyReceipts, EventSaid, VerifySaid, VerifySigs, GetStr;
    PrefixReplays(c, es, k + 1);
    EntriesPrefix(log, k + 1);
    LastStep(c, es[..k + 1]);
    LastKeysInForce(c, es[..k + 1]);
    JsonSaid(c, es[k]);
    PrefixIsNotDummy(c, es);
  }

  lemma QuorumOf(c: Suite, ins: seq<Input>, p: string, k: nat) returns (quorum: set<string>)
    requires DigestLaw(c) && TextLaw(c) && k < |LogOf(c, ins, p)| && StaticBackers(LogOf(c, ins, p))
    ensures Start(c, EntryOf(LogOf(c, ins, p)[0])).Ok?
    ensures var st0 := Start(c, EntryOf(LogOf(c, ins, p)[0])).value;
      quorum <= Elements(st0.backers) && st0.backerThreshold <= |quorum|
    ensures forall b :: b in quorum ==> Endorses(c, b, LogOf(c, ins, p)[k])
  {
    LogEventFacts(c, ins, p, k);
    LogInvariant(c, ins, p);
    var log := LogOf(c, ins, p);
    hide Run, LogOf, Replay, VerifyReceipts, Start, StaticBackers, EventSaid, VerifySaid, Endorses;
    BackersStay(c, log, k);
    var st, m := Replay(c, Entries(log[..k + 1])).value, log[k];
    QuorumReached(c, m.serder.raw, ReceiptsOf(m.attachments), st.backers, st.backerThreshold);
    quorum := Witnesses(c, m.serder.raw, ReceiptsOf(m.attachments), st.backers);
    WitnessesEndorse(c, m, st.backers);
  }

  lemma WitnessesEndorse(c: Suite, m: ParsedMessage, backers: seq<string>)
    ensures forall b :: b in Witnesses(c, m.serder.raw, ReceiptsOf(m.attachments), backers) ==>
      b in Elements(backers) && Endorses(c, b, m)
  {
  }

  /** Two quorums overlap in a witness that does not equivocate. */
  lemma HonestOverlap(a: set<string>, b: set<string>, backers: seq<string>, bad: set<string>, threshold: nat)
    returns (w: string)
    requires a <= Elements(backers) && b <= Elements(backers) && Distinct(backers)
    requires threshold <= |a| && threshold <= |b| && 2 * threshold > |backers| + |bad|
    ensures w in a && w in b && w !in bad
  {
    DistinctSize(backers);
    QuorumOverlap(a, b, Elements(backers));
    if a * b <= bad {
      SubsetSize(a * b, bad);
    }
    w :| w in a * b && w !in bad;
  }

  ghost predicate Agreeable(c: Suite, a: seq<Input>, b: seq<Input>, p: string) {
    && DigestLaw(c) && TextLaw(c) && NoDigestCollision(c, a + b)
    && c.digestCode(p).Some?
    && StaticBackers(LogOf(c, a, p)) && StaticBackers(LogOf(c, b, p))
  }

  lemma SameSaidAcross(c: Suite, a: seq<Input>, b: seq<Input>, p: string, k: nat)
    requires Agreeable(c, a, b, p) && k < |LogOf(c, a, p)| && k < |LogOf(c, b, p)|
    requires GetStr(LogOf(c, a, p)[k].serder.sad, "d") == GetStr(LogOf(c, b, p)[k].serder.sad, "d")
    ensures LogOf(c, a, p)[k].serder.sad == LogOf(c, b, p)[k].serder.sad
  {
    hide Run, LogOf, EventSaid, VerifySaid, GetStr, Separate, Replay, LastQuorate, StaticBackers;
    LogEventFacts(c, a, p, k);
    LogEventFacts(c, b, p, k);
    var i := LogFromInputs(c, a, p, k);
    var j := LogFromInputs(c, b, p, k);
    assert i in a + b && j in a + b;
    SameSaidSameBody(c, LogOf(c, a, p)[k].serder.sad, LogOf(c, b, p)[k].serder.sad);
  }

  /** A self-addressing identifier has one inception event. */
  lemma SameInception(c: Suite, a: seq<Input>, b: seq<Input>, p: string)
    requires Agreeable(c, a, b, p) && LogOf(c, a, p) != [] && LogOf(c, b, p) != []
    ensures LogOf(c, a, p)[0].serder.sad == LogOf(c, b, p)[0].serder.sad
  {
    InceptionNamesItself(c, a, p);
    InceptionNamesItself(c, b, p);
    SameSaidAcross(c, a, b, p, 0);
  }

  lemma InceptionNamesItself(c: Suite, ins: seq<Input>, p: string)
    requires c.digestCode(p).Some? && LogOf(c, ins, p) != []
    ensures GetStr(LogOf(c, ins, p)[0].serder.sad, "d") == Some(p)
    ensures Start(c, EntryOf(LogOf(c, ins, p)[0])).Ok?
  {
    LogInvariant(c, ins, p);
    var log := LogOf(c, ins, p);
    hide Run, LogOf, LastQuorate, EventSaid, VerifySaid, VerifySigs, GetStr, Start, Installs, StrArrField;
    PrefixReplays(c, Entries(log), 1);
    assert Entries(log)[..1] == [EntryOf(log[0])];
    LastStep(c, [EntryOf(log[0])]);
  }

  ghost predicate EnoughHonest(c: Suite, a: seq<Input>, b: seq<Input>, p: string, st0: KeyState, f: nat) {
    && Distinct(st0.backers)
    && |Equivocators(c, a + b, p, st0.backers)| <= f
    && 2 * st0.backerThreshold > |st0.backers| + f
  }

  /** Measured by the backers and threshold that the first verifier's inception states. */
  ghost predicate EnoughHonestFor(c: Suite, a: seq<Input>, b: seq<Input>, p: string, f: nat) {
    LogOf(c, a, p) != [] ==>
      var first := Start(c, EntryOf(LogOf(c, a, p)[0]));
      first.Ok? ==> EnoughHonest(c, a, b, p, first.value, f)
  }

  /** No two verifiers accept different events at one sequence number. */
  lemma SameEvent(c: Suite, a: seq<Input>, b: seq<Input>, p: string, k: nat, f: nat)
    requires Agreeable(c, a, b, p) && k < |LogOf(c, a, p)| && k < |LogOf(c, b, p)|
    requires EnoughHonestFor(c, a, b, p, f)
    ensures LogOf(c, a, p)[k].serder.sad == LogOf(c, b, p)[k].serder.sad
  {
    InceptionNamesItself(c, a, p);
    SameInception(c, a, b, p);
    SameStart(c, EntryOf(LogOf(c, a, p)[0]), EntryOf(LogOf(c, b, p)[0]), a, b, p);
    var x := QuorumOf(c, a, p, k);
    var y := QuorumOf(c, b, p, k);
    var st0 := Start(c, EntryOf(LogOf(c, a, p)[0])).value;
    hide Run, LogOf, Start, StaticBackers, Endorses, Conflict, GetStr, SnOf, NoDigestCollision;
    var w := HonestOverlap(x, y, st0.backers, Equivocators(c, a + b, p, st0.backers), st0.backerThreshold);
    assert Endorses(c, w, LogOf(c, a, p)[k]) && Endorses(c, w, LogOf(c, b, p)[k]);
    NoConflict(c, a, b, p, k, w);
    SameSaidAcross(c, a, b, p, k);
  }

  lemma NoConflict(c: Suite, a: seq<Input>, b: seq<Input>, p: string, k: nat, w: string)
    requires DigestLaw(c) && TextLaw(c) && k < |LogOf(c, a, p)| && k < |LogOf(c, b, p)|
    requires Endorses(c, w, LogOf(c, a, p)[k]) && Endorses(c, w, LogOf(c, b, p)[k])
    requires !Equivocates(c, a + b, p, w)
    ensures GetStr(LogOf(c, a, p)[k].serder.sad, "d") == GetStr(LogOf(c, b, p)[k].serder.sad, "d")
  {
    hide Run, LogOf, Endorses, GetStr, SnOf, EventSaid, VerifySaid, LastQuorate, Replay;
    LogEventFacts(c, a, p, k);
    LogEventFacts(c, b, p, k);
    var i := LogFromInputs(c, a, p, k);
    var j := LogFromInputs(c, b, p, k);
    assert i in a + b && j in a + b;
    assert !Conflict(i.m, j.m, p);
  }

  lemma SameStart(c: Suite, x: Entry, y: Entry, a: seq<Input>, b: seq<Input>, p: string)
    requires Start(c, x).Ok? && x.sad == y.sad
    requires LogOf(c, b, p) != [] && c.digestCode(p).Some? && y == EntryOf(LogOf(c, b, p)[0])
    ensures Start(c, y) == Start(c, x)
  {
    hide Start, LogOf, FirstBody;
    InceptionNamesItself(c, b, p);
    FirstAgrees(c, x);
    FirstAgrees(c, y);
  }

  /**
   * Agreement: one verifier's log of a self-addressing identifier is always a prefix of the
   * other's, and equally long logs mean equal key states, as long as the identifier keeps one
   * repeat-free backer list of n with a threshold T, at most F of those backers ever sign two
   * SAIDs for one sequence number of it, and 2T > n + F.
   */
  lemma VerifiersAgree(c: Suite, a: seq<Input>, b: seq<Input>, p: string, f: nat)
    requires Agreeable(c, a, b, p)
    requires EnoughHonestFor(c, a, b, p, f)
    ensures var x, y := Bodies(Entries(LogOf(c, a, p))), Bodies(Entries(LogOf(c, b, p)));
      && (x <= y || y <= x)
      && (|x| == |y| > 0 ==>
           p in Run(c, a).kevers && p in Run(c, b).kevers && Run(c, a).kevers[p] == Run(c, b).kevers[p])
  {
    LogInvariant(c, a, p);
    LogInvariant(c, b, p);
    var la, lb := LogOf(c, a, p), LogOf(c, b, p);
    var x, y := Bodies(Entries(la)), Bodies(Entries(lb));
    hide Run, LogOf, EnoughHonestFor, Agreeable, Replay, LastQuorate, Rebuild;
    forall k | 0 <= k < |la| && k < |lb| ensures x[k] == y[k] {
      SameEvent(c, a, b, p, k, f);
    }
    assert |x| <= |y| ==> x <= y;
    if |x| == |y| > 0 {
      assert x == y;
      RebuildAgrees(c, Entries(la));
      RebuildAgrees(c, Entries(lb));
    }
  }

  /** The same of what the two stores list: one listing is a prefix of the other. */
  lemma StoresAgree(c: Suite, a: seq<Input>, b: seq<Input>, p: string, f: nat,
                    ra: seq<(nat, string)>, rb: seq<(nat, string)>)
    requires Agreeable(c, a, b, p)
    requires EnoughHonestFor(c, a, b, p, f)
    requires Listing(Run(c, a).tables.kels, p, ra) && Listing(Run(c, b).tables.kels, p, rb)
    ensures ra <= rb || rb <= ra
  {
    hide Run, LogOf, EnoughHonestFor, SaidOfMessage, Listing, StaticBackers, NoDigestCollision, DigestLaw, TextLaw;
    KelListsLog(c, a, p, ra);
    KelListsLog(c, b, p, rb);
    VerifiersAgree(c, a, b, p, f);
    var la, lb := LogOf(c, a, p), LogOf(c, b, p);
    var x, y := Bodies(Entries(la)), Bodies(Entries(lb));
    forall k | 0 <= k < |ra| && k < |rb| ensures ra[k] == rb[k] {
      assert x[k] == y[k];
      SameBodySameSaid(la[k], lb[k]);
    }
    assert |ra| <= |rb| ==> ra <= rb;
  }

  lemma SameBodySameSaid(x: ParsedMessage, y: ParsedMessage)
    requires x.serder.sad == y.serder.sad
    ensures SaidOfMessage(x) == SaidOfMessage(y)
  {
  }
}
