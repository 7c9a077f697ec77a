/** Rebuilding a key state from nothing but the event bodies the store returns. */
module Rebuilding {
  import opened Wrappers
  import opened JsonValues
  import opened Primitives
  import opened Saids
  import opened Events
  import opened KeyStates
  import opened Signatures
  import opened Kevers
  import opened Histories
  import opened Chains
  import opened Parsers
  import opened Stores
  import opened DirectMode
  import opened DirectRuns
  import opened StoreRefinement

  // ---------- folding bodies ----------

  function FirstBody(sad: Json): Result<KeyState> {
    if GetStr(sad, "t") == Some("dip") then
      var dip :- DelegatedInceptionOf(sad);
      FromDelegatedInception(dip)
    else if GetStr(sad, "t") == Some("icp") then
      var icp :- InceptionOf(sad);
      FromInception(icp)
    else Err(UnexpectedIlk)
  }

  function NextBody(c: Suite, st: KeyState, sad: Json): Result<KeyState> {
    if GetStr(sad, "t") == Some("drt") then
      var drt :- DelegatedRotationOf(sad);
      ApplyDelegatedRotation(c, st, drt)
    else if GetStr(sad, "t") == Some("rot") then
      var rot :- RotationOf(sad);
      ApplyRotation(c, st, rot)
    else if GetStr(sad, "t") == Some("ixn") then
      var ixn :- InteractionOf(sad);
      ApplyInteraction(st, ixn)
    else Err(UnexpectedIlk)
  }

  /** `from_*inception` on the first body, then `apply_*` on each later one; no signatures involved. */
  function Rebuild(c: Suite, bodies: seq<Json>): Result<KeyState> {
    if bodies == [] then Err(NotFound)
    else if |bodies| == 1 then FirstBody(bodies[0])
    else
      var st :- Rebuild(c, bodies[..|bodies| - 1]);
      NextBody(c, st, bodies[|bodies| - 1])
  }

  function Bodies(es: seq<Entry>): (r: seq<Json>)
    ensures |r| == |es| && forall i :: 0 <= i < |es| ==> r[i] == es[i].sad
  {
    seq(|es|, i requires 0 <= i < |es| => es[i].sad)
  }

  lemma FirstAgrees(c: Suite, e: Entry)
    requires Start(c, e).Ok?
    ensures FirstBody(e.sad) == Start(c, e)
  {
    hide CheckInception, InceptionOf, FromInception, FromDelegatedInception, ValidatePrefix;
    if Ilk(e) == "dip" {
      CheckedInceptionFacts(c, e, "dip", EventKeys(e.sad));
    } else {
      CheckedInceptionFacts(c, e, "icp", EventKeys(e.sad));
    }
  }

  lemma NextAgrees(c: Suite, st: KeyState, e: Entry)
    requires Advance(c, st, e).Ok?
    ensures NextBody(c, st, e.sad) == Advance(c, st, e)
  {
    hide CheckNext, CheckRotation, CheckInteraction, RotationOf, InteractionOf, ApplyRotation, ApplyInteraction,
         ApplyDelegatedRotation, EventSaid, VerifySaid;
    if Ilk(e) == "drt" {
      CheckedRotationFacts(c, e);
    } else {
      CheckedNextFacts(c, st, e, Validation);
      if Ilk(e) == "rot" {
        CheckedRotationFacts(c, e);
      } else {
        CheckedInteractionFacts(c, st, e);
      }
    }
  }

  /** Replaying with every check, and folding the bodies with none, end in the same state. */
  lemma {:induction false} RebuildAgrees(c: Suite, es: seq<Entry>)
    requires Replay(c, es).Ok?
    ensures Rebuild(c, Bodies(es)) == Replay(c, es)
    decreases |es|
  {
    hide Start, Advance, FirstBody, NextBody;
    if |es| == 1 {
      FirstAgrees(c, es[0]);
    } else {
      var init, bodies := es[..|es| - 1], Bodies(es);
      RebuildAgrees(c, init);
      assert bodies[..|bodies| - 1] == Bodies(init);
      NextAgrees(c, Replay(c, init).value, es[|es| - 1]);
    }
  }

  // ---------- the stored bodies ----------

  predicate KnownType(sad: Json) {
    match GetStr(sad, "t")
    case Some(t) => t in ["icp", "rot", "ixn", "dip", "drt", "rct"]
    case None => true
  }

  /** Messages as the parser delivers them: the body is what the bytes decode to. */
  ghost predicate Genuine(c: Suite, ins: seq<Input>) {
    forall i :: i in ins ==> c.decode(i.m.serder.raw) == Some(i.m.serder.sad)
  }

  /** Each message was parsed off the front of some bytes. */
  ghost predicate FromBytes(c: Suite, ins: seq<Input>) {
    forall i :: i in ins ==> exists data, strict :: ParsedFrom(c, data, strict, i.m)
  }

  predicate ParsedFrom(c: Suite, data: string, strict: bool, m: ParsedMessage) {
    ParseNext(c, data, strict).Ok? && ParseNext(c, data, strict).value.0 == m
  }

  /** Runs over parsed bytes are genuine. */
  lemma ParsedRunsAreGenuine(c: Suite, ins: seq<Input>)
    requires FromBytes(c, ins)
    ensures Genuine(c, ins)
  {
    hide ParseNext;
    forall i | i in ins ensures c.decode(i.m.serder.raw) == Some(i.m.serder.sad) {
      var data, strict :| ParsedFrom(c, data, strict, i.m);
      ParsedBody(c, data, strict);
    }
  }

  ghost predicate Ordinary(ins: seq<Input>) {
    forall i :: i in ins ==> KnownType(i.m.serder.sad)
  }

  /** No two messages of the run collide under the digest. */
  ghost predicate NoDigestCollision(c: Suite, ins: seq<Input>) {
    forall i, j :: i in ins && j in ins ==> Separate(c, i.m.serder.sad, j.m.serder.sad)
  }

  ghost predicate Fair(c: Suite, ins: seq<Input>) {
    DigestLaw(c) && TextLaw(c) && Genuine(c, ins) && NoDigestCollision(c, ins)
  }

  lemma FairBefore(c: Suite, ins: seq<Input>)
    requires Fair(c, ins) && ins != []
    ensures Fair(c, ins[..|ins| - 1])
  {
    hide Separate, DigestLaw, TextLaw;
    var init := ins[..|ins| - 1];
    forall i | i in init ensures i in ins {}
  }

  lemma LastIsGenuine(c: Suite, ins: seq<Input>)
    requires Fair(c, ins) && ins != []
    ensures c.decode(ins[|ins| - 1].m.serder.raw) == Some(ins[|ins| - 1].m.serder.sad)
  {
    hide Separate, DigestLaw, TextLaw;
  }

  lemma {:induction false} LogFromInputs(c: Suite, ins: seq<Input>, p: string, k: nat) returns (i: Input)
    requires k < |LogOf(c, ins, p)|
    ensures i in ins && i.m == LogOf(c, ins, p)[k]
  {
    var init, last := ins[..|ins| - 1], ins[|ins| - 1];
    hide Run, Extends;
    if k < |LogOf(c, init, p)| {
      i := LogFromInputs(c, init, p, k);
    } else {
      i := last;
    }
  }

  /** What is known of the `k`-th event of a log on its own. */
  lemma LogEvent(c: Suite, ins: seq<Input>, p: string, k: nat)
    requires DigestLaw(c) && TextLaw(c) && k < |LogOf(c, ins, p)|
    ensures var sad := LogOf(c, ins, p)[k].serder.sad;
      VerifySaid(c, sad).Ok? && GetStr(sad, "d") == Some(SaidOfMessage(LogOf(c, ins, p)[k])) &&
      GetStr(sad, "i") == Some(p) && p != DUMMY && SnOf(sad) == Some(k)
  {
    hide Run, LogOf, Replay, LastQuorate, EventSaid, VerifySaid, VerifySigs, GetStr, SnOf;
    LogInvariant(c, ins, p);
    var log := LogOf(c, ins, p);
    var es := Entries(log);
    PrefixReplays(c, es, k + 1);
    LastStep(c, es[..k + 1]);
    LastKeysInForce(c, es[..k + 1]);
    PrefixIsNotDummy(c, es);
    SaidFact(c, log[k], Replay(c, es[..k + 1]).value);
    JsonSaid(c, es[k]);
  }

  /** Two log entries with one SAID are one event, in one place. */
  lemma SameSaidInLogs(c: Suite, ins: seq<Input>, p: string, k: nat, q: string, l: nat)
    requires Fair(c, ins) && k < |LogOf(c, ins, p)| && l < |LogOf(c, ins, q)|
    requires SaidOfMessage(LogOf(c, ins, p)[k]) == SaidOfMessage(LogOf(c, ins, q)[l])
    ensures p == q && k == l
  {
    hide Run, LogOf, Replay, EventSaid, VerifySaid, GetStr, Separate, SaidOfMessage, SnOf;
    LogEvent(c, ins, p, k);
    LogEvent(c, ins, q, l);
    var i := LogFromInputs(c, ins, p, k);
    var j := LogFromInputs(c, ins, q, l);
    SameSaidSameBody(c, LogOf(c, ins, p)[k].serder.sad, LogOf(c, ins, q)[l].serder.sad);
  }

  // ---------- what overwrites a stored body ----------

  /** A committed message of any other type, which is stored unchecked under the SAID it claims. */
  predicate Overwrites(i: Input) {
    i.commits && Header(i.m.serder.sad).Ok? && !HasUnknown(i.m.attachments) && !KnownType(i.m.serder.sad)
  }

  lemma OverwriteStep(c: Suite, v: Verifier, i: Input)
    requires Overwrites(i)
    ensures Process(c, v, i.m, i.commits).0 ==
      Verifier(v.kevers, v.tables.(evts := v.tables.evts[SaidOfMessage(i.m) := i.m.serder.raw]))
    ensures Idle(c, v, i)
  {
    hide SnOf, HasUnknown;
  }

  lemma OverwritesType(i: Input)
    requires Overwrites(i)
    ensures !KnownType(i.m.serder.sad)
  {
  }

  lemma KeepBodyOverwrites(c: Suite, v: Verifier, i: Input)
    requires i.commits && Assess(c, v.kevers, i.m).Ok? && Assess(c, v.kevers, i.m).value.1.KeepBody?
    ensures Overwrites(i)
  {
    hide AssessInception, AssessUpdate, SnOf, HasUnknown;
  }

  lemma IdleBodies(c: Suite, v: Verifier, i: Input)
    requires Idle(c, v, i) && !Overwrites(i)
    ensures Process(c, v, i.m, i.commits).0.tables.evts == v.tables.evts
  {
    var a := Assess(c, v.kevers, i.m);
    if i.commits && a.Ok? && a.value.1.KeepBody? {
      KeepBodyOverwrites(c, v, i);
    }
    hide Assess, Overwrites;
    assert a.Ok? ==> !Extends(c, v, i, a.value.0.prefix);
  }

  /** Since the `k`-th event of `p` was accepted, another message has been stored under its SAID. */
  ghost predicate Clobbered(c: Suite, ins: seq<Input>, p: string, k: nat) {
    ins != [] &&
    var init, i := ins[..|ins| - 1], ins[|ins| - 1];
    k < |LogOf(c, init, p)| &&
    (Clobbered(c, init, p, k) || (Overwrites(i) && SaidOfMessage(i.m) == SaidOfMessage(LogOf(c, init, p)[k])))
  }

  ghost predicate Unclobbered(c: Suite, ins: seq<Input>, p: string) {
    forall k :: 0 <= k < |LogOf(c, ins, p)| ==> !Clobbered(c, ins, p, k)
  }

  /** Under its SAID the event table holds the event's body, or else a body of another type. */
  ghost predicate BodyStored(c: Suite, ins: seq<Input>, p: string, k: nat) {
    k < |LogOf(c, ins, p)| ==>
      var m, evts := LogOf(c, ins, p)[k], Run(c, ins).tables.evts;
      && SaidOfMessage(m) in evts && c.decode(evts[SaidOfMessage(m)]).Some?
      && (if Clobbered(c, ins, p, k) then !KnownType(c.decode(evts[SaidOfMessage(m)]).value)
          else c.decode(evts[SaidOfMessage(m)]).value == m.serder.sad)
  }

  lemma {:induction false} BodiesStored(c: Suite, ins: seq<Input>, p: string, k: nat)
    requires Fair(c, ins)
    ensures BodyStored(c, ins, p, k)
    decreases |ins|
  {
    hide Fair, Extends, SaidOfMessage, BodyStored, Idle, Overwrites;
    if ins == [] {
      NothingStored(c, p, k);
    } else {
      var init, i := ins[..|ins| - 1], ins[|ins| - 1];
      FairBefore(c, ins);
      BodiesStored(c, init, p, k);
      if Overwrites(i) {
        OverwrittenBody(c, ins, p, k);
      } else if Idle(c, Run(c, init), i) {
        IdleBody(c, ins, p, k);
      } else {
        var q := Extended(c, Run(c, init), i);
        GrownBody(c, ins, q, p, k);
      }
    }
  }

  lemma Extended(c: Suite, v: Verifier, i: Input) returns (q: string)
    requires !Idle(c, v, i)
    ensures Extends(c, v, i, q)
  {
    hide Extends;
    q :| Extends(c, v, i, q);
  }

  lemma NothingStored(c: Suite, p: string, k: nat)
    ensures BodyStored(c, [], p, k)
  {
  }

  lemma IdleBody(c: Suite, ins: seq<Input>, p: string, k: nat)
    requires ins != [] && BodyStored(c, ins[..|ins| - 1], p, k)
    requires Idle(c, Run(c, ins[..|ins| - 1]), ins[|ins| - 1]) && !Overwrites(ins[|ins| - 1])
    ensures BodyStored(c, ins, p, k)
  {
    hide Extends, SaidOfMessage, Overwrites, KnownType, Process, LogOf, Idle;
    IdleStep(c, ins);
    IdleBodies(c, Run(c, ins[..|ins| - 1]), ins[|ins| - 1]);
  }

  lemma OverwrittenBody(c: Suite, ins: seq<Input>, p: string, k: nat)
    requires Fair(c, ins) && ins != [] && BodyStored(c, ins[..|ins| - 1], p, k) && Overwrites(ins[|ins| - 1])
    ensures BodyStored(c, ins, p, k)
  {
    hide Extends, SaidOfMessage, KnownType, Process, LogOf, Idle, Fair, Overwrites;
    var init, i := ins[..|ins| - 1], ins[|ins| - 1];
    OverwriteStep(c, Run(c, init), i);
    OverwritesType(i);
    LastIsGenuine(c, ins);
    IdleStep(c, ins);
  }

  lemma GrowingIsNoOverwrite(c: Suite, v: Verifier, i: Input, q: string)
    requires Extends(c, v, i, q)
    ensures !Overwrites(i)
  {
    hide SnOf, HasUnknown, AssessInception, AssessUpdate;
  }

  lemma GrownBody(c: Suite, ins: seq<Input>, q: string, p: string, k: nat)
    requires Fair(c, ins) && ins != [] && Extends(c, Run(c, ins[..|ins| - 1]), ins[|ins| - 1], q)
    requires BodyStored(c, ins[..|ins| - 1], p, k)
    ensures BodyStored(c, ins, p, k)
  {
    hide LogOf, Run, SnKey, Extends, SaidOfMessage, Fair, Overwrites, KnownType;
    GrowingStep(c, ins, q);
    GrowingIsNoOverwrite(c, Run(c, ins[..|ins| - 1]), ins[|ins| - 1], q);
    var init, m := ins[..|ins| - 1], ins[|ins| - 1].m;
    var n := |LogOf(c, init, q)|;
    LastIsGenuine(c, ins);
    assert LogOf(c, ins, q)[n] == m;
    if k < |LogOf(c, init, p)| && SaidOfMessage(LogOf(c, ins, p)[k]) == SaidOfMessage(m) {
      SameSaidInLogs(c, ins, p, k, q, n);
    }
  }

  // ---------- the whole store ----------

  /** The bodies behind a listing, as the store returns them. */
  function Fetched(c: Suite, evts: map<string, string>, r: seq<(nat, string)>): Option<seq<Json>> {
    if r == [] then Some([])
    else
      var (init, said) := (Fetched(c, evts, r[..|r| - 1]), r[|r| - 1].1);
      if init.None? || said !in evts || c.decode(evts[said]).None? then None
      else Some(init.value + [c.decode(evts[said]).value])
  }

  lemma {:induction false} FetchedEach(c: Suite, evts: map<string, string>, r: seq<(nat, string)>)
    requires forall i :: 0 <= i < |r| ==> r[i].1 in evts && c.decode(evts[r[i].1]).Some?
    ensures Fetched(c, evts, r).Some? && |Fetched(c, evts, r).value| == |r|
    ensures forall i :: 0 <= i < |r| ==> Fetched(c, evts, r).value[i] == c.decode(evts[r[i].1]).value
  {
    if r != [] {
      FetchedEach(c, evts, r[..|r| - 1]);
    }
  }

  /** A body of another type anywhere makes the fold fail. */
  lemma {:induction false} OtherTypeFails(c: Suite, bodies: seq<Json>, k: nat)
    requires k < |bodies| && !KnownType(bodies[k])
    ensures Rebuild(c, bodies).Err?
    decreases |bodies|
  {
    hide InceptionOf, RotationOf, InteractionOf, ApplyRotation, ApplyInteraction, FromInception;
    if k < |bodies| - 1 {
      OtherTypeFails(c, bodies[..|bodies| - 1], k);
    }
  }

  /** The bodies listed and fetched, one by one. */
  lemma FetchedLog(c: Suite, ins: seq<Input>, p: string, r: seq<(nat, string)>)
    requires Fair(c, ins) && Listing(Run(c, ins).tables.kels, p, r)
    ensures Fetched(c, Run(c, ins).tables.evts, r).Some?
    ensures var bodies, log := Fetched(c, Run(c, ins).tables.evts, r).value, LogOf(c, ins, p);
      |bodies| == |log| && forall k :: 0 <= k < |log| ==>
        if Clobbered(c, ins, p, k) then !KnownType(bodies[k]) else bodies[k] == log[k].serder.sad
  {
    hide LogOf, Run, Listing, SaidOfMessage, Genuine, NoDigestCollision, DigestLaw, TextLaw, KnownType, Clobbered;
    KelListsLog(c, ins, p, r);
    var evts, log := Run(c, ins).tables.evts, LogOf(c, ins, p);
    forall k | 0 <= k < |r|
      ensures r[k].1 in evts && c.decode(evts[r[k].1]).Some?
      ensures if Clobbered(c, ins, p, k) then !KnownType(c.decode(evts[r[k].1]).value)
              else c.decode(evts[r[k].1]).value == log[k].serder.sad
    {
      BodiesStored(c, ins, p, k);
    }
    FetchedEach(c, evts, r);
  }

  /**
   * Store refinement: in every run, listing an identifier's log, fetching the listed bodies and
   * folding them rebuilds the key state held in memory exactly when, since their acceptance, no
   * message of another type has been committed under the SAID of one of them.
   */
  lemma StoreRebuildsExactly(c: Suite, ins: seq<Input>, p: string, r: seq<(nat, string)>)
    requires Fair(c, ins) && Listing(Run(c, ins).tables.kels, p, r) && p in Run(c, ins).kevers
    ensures Fetched(c, Run(c, ins).tables.evts, r).Some?
    ensures Rebuild(c, Fetched(c, Run(c, ins).tables.evts, r).value) == Ok(Run(c, ins).kevers[p])
      <==> Unclobbered(c, ins, p)
  {
    LogInvariant(c, ins, p);
    hide LogOf, Run, Listing, Replay, LastQuorate, Fetched, Fair, KnownType, Overwrites, FirstBody, NextBody;
    FetchedLog(c, ins, p, r);
    var bodies, log := Fetched(c, Run(c, ins).tables.evts, r).value, LogOf(c, ins, p);
    if Unclobbered(c, ins, p) {
      assert bodies == Bodies(Entries(log));
      RebuildAgrees(c, Entries(log));
    } else {
      var k :| 0 <= k < |log| && Clobbered(c, ins, p, k);
      OtherTypeFails(c, bodies, k);
    }
  }

  lemma {:induction false} NeverClobbered(c: Suite, ins: seq<Input>, p: string, k: nat)
    requires Ordinary(ins)
    ensures !Clobbered(c, ins, p, k)
    decreases |ins|
  {
    hide LogOf, KnownType;
    if ins != [] {
      var init := ins[..|ins| - 1];
      forall i | i in init ensures KnownType(i.m.serder.sad) { assert i in ins; }
      NeverClobbered(c, init, p, k);
      assert ins[|ins| - 1] in ins;
    }
  }

  /** Over key events and receipts alone it always rebuilds the state. */
  lemma StoreRebuildsState(c: Suite, ins: seq<Input>, p: string, r: seq<(nat, string)>)
    requires Fair(c, ins) && Ordinary(ins) && Listing(Run(c, ins).tables.kels, p, r) && p in Run(c, ins).kevers
    ensures Fetched(c, Run(c, ins).tables.evts, r).Some?
    ensures Rebuild(c, Fetched(c, Run(c, ins).tables.evts, r).value) == Ok(Run(c, ins).kevers[p])
  {
    hide Clobbered, Fair, Ordinary, Listing, Run, LogOf, Rebuild, Fetched;
    forall k | 0 <= k < |LogOf(c, ins, p)| ensures !Clobbered(c, ins, p, k) {
      NeverClobbered(c, ins, p, k);
    }
    StoreRebuildsExactly(c, ins, p, r);
  }

  /** After one message of another type, exactly the bodies under other SAIDs survive. */
  lemma OtherTypesOverwrite(c: Suite, ins: seq<Input>, i: Input, p: string, k: nat)
    requires Fair(c, ins + [i]) && Ordinary(ins) && Overwrites(i) && k < |LogOf(c, ins, p)|
    ensures LogOf(c, ins + [i], p) == LogOf(c, ins, p)
    ensures var m, evts := LogOf(c, ins, p)[k], Run(c, ins + [i]).tables.evts;
      SaidOfMessage(m) in evts &&
      (c.decode(evts[SaidOfMessage(m)]) == Some(m.serder.sad) <==> SaidOfMessage(m) != SaidOfMessage(i.m))
  {
    var all := ins + [i];
    assert all[..|all| - 1] == ins;
    OverwriteStep(c, Run(c, ins), i);
    var j := LogFromInputs(c, ins, p, k);
    hide Fair, Idle, SaidOfMessage, KnownType, Overwrites, Run, LogOf;
    NeverClobbered(c, ins, p, k);
    IdleStep(c, all);
    BodiesStored(c, all, p, k);
  }
}
