/** What the store keeps of signatures and of receipts. */
module ProofTables {
  import opened Wrappers
  import opened Primitives
  import opened Signatures
  import opened Histories
  import opened Parsers
  import opened Stores
  import opened DirectMode
  import opened DirectRuns
  import opened Rebuilding
  import Composers

  function Lookup(t: map<string, string>, key: string): Option<string> {
    if key in t then Some(t[key]) else None
  }

  // ---------- signatures ----------

  ghost predicate SaidAt(c: Suite, ins: seq<Input>, p: string, k: nat, said: string) {
    k < |LogOf(c, ins, p)| && said == SaidOfMessage(LogOf(c, ins, p)[k])
  }

  ghost function Lines(sigs: seq<Siger>): string {
    if sigs == [] then "" else Lines(sigs[..|sigs| - 1]) + sigs[|sigs| - 1].qb64
  }

  /** The qb64 texts of a message's signatures, in order, if there is any text. */
  ghost function SigTexts(m: ParsedMessage): Option<string> {
    if Lines(ControllerSigsOf(m.attachments)) == "" then None else Some(Lines(ControllerSigsOf(m.attachments)))
  }

  lemma {:induction false} LinesAreTexts(sigs: seq<Siger>, s: Siger)
    ensures Composers.SigText(sigs + [s]) == Composers.SigText(sigs) + s.qb64
  {
    if sigs == [] {
      assert [] + [s] == [s] && [s][1..] == [];
    } else {
      assert (sigs + [s])[0] == sigs[0] && (sigs + [s])[1..] == sigs[1..] + [s];
      LinesAreTexts(sigs[1..], s);
    }
  }

  lemma {:induction false} TextsAreLines(sigs: seq<Siger>)
    ensures Lines(sigs) == Composers.SigText(sigs)
  {
    if sigs != [] {
      var init := sigs[..|sigs| - 1];
      TextsAreLines(init);
      LinesAreTexts(init, sigs[|sigs| - 1]);
      assert sigs == init + [sigs[|sigs| - 1]];
    }
  }

  lemma SigTextsAreStored(m: ParsedMessage)
    ensures SigBytes(m) == SigTexts(m)
  {
    hide ControllerSigsOf;
    TextsAreLines(ControllerSigsOf(m.attachments));
  }

  /** Under the SAID of every accepted event are the qb64 texts of its signatures, and nothing under any other. */
  ghost predicate SigsMatch(c: Suite, ins: seq<Input>) {
    var t := Run(c, ins).tables.sigs;
    && (forall p, k: nat, said :: SaidAt(c, ins, p, k, said) ==> Lookup(t, said) == SigTexts(LogOf(c, ins, p)[k]))
    && (forall said :: said in t ==> exists p, k: nat :: SaidAt(c, ins, p, k, said))
  }

  lemma IdleSigs(c: Suite, v: Verifier, i: Input)
    requires Idle(c, v, i)
    ensures Process(c, v, i.m, i.commits).0.tables.sigs == v.tables.sigs
  {
    var a := Assess(c, v.kevers, i.m);
    hide Assess;
    assert a.Ok? ==> !Extends(c, v, i, a.value.0.prefix);
  }

  lemma GrownSigs(c: Suite, ins: seq<Input>, q: string)
    requires ins != [] && Extends(c, Run(c, ins[..|ins| - 1]), ins[|ins| - 1], q)
    ensures var t, m := Run(c, ins[..|ins| - 1]).tables.sigs, ins[|ins| - 1].m;
      Run(c, ins).tables.sigs == if SigTexts(m).Some? then t[SaidOfMessage(m) := SigTexts(m).value] else t
  {
    var init, i := ins[..|ins| - 1], ins[|ins| - 1];
    LogInvariant(c, init, q);
    CommittedAccept(c, Run(c, init), i, q);
    AcceptTracks(c, Run(c, init), LogOf(c, init, q), i.m);
    SigTextsAreStored(i.m);
    hide Run, LogOf, Assess, SigBytes, SigTexts, SaidOfMessage, Tracks, Vouched, SnKey, Replay, LastQuorate;
    SaidFact(c, i.m, Assess(c, Run(c, init).kevers, i.m).value.1.st);
    LastRunStep(c, ins);
  }

  lemma LastRunStep(c: Suite, ins: seq<Input>)
    requires ins != []
    ensures var init, i := ins[..|ins| - 1], ins[|ins| - 1]; Run(c, ins) == Process(c, Run(c, init), i.m, i.commits).0
  {
  }

  lemma IdleSigsMatch(c: Suite, ins: seq<Input>)
    requires ins != [] && SigsMatch(c, ins[..|ins| - 1]) && Idle(c, Run(c, ins[..|ins| - 1]), ins[|ins| - 1])
    ensures SigsMatch(c, ins)
  {
    var init, i := ins[..|ins| - 1], ins[|ins| - 1];
    IdleStep(c, ins);
    IdleSigs(c, Run(c, init), i);
    LastRunStep(c, ins);
    hide Run, LogOf, SigTexts, SaidOfMessage, Idle, Process;
    forall p, k: nat, said ensures SaidAt(c, ins, p, k, said) <==> SaidAt(c, init, p, k, said) {}
    forall said | said in Run(c, ins).tables.sigs ensures exists p, k: nat :: SaidAt(c, ins, p, k, said) {
      var p, k: nat :| SaidAt(c, init, p, k, said);
      assert SaidAt(c, ins, p, k, said);
    }
  }

  lemma GrownSigsMatch(c: Suite, ins: seq<Input>, q: string)
    requires Fair(c, ins) && ins != [] && SigsMatch(c, ins[..|ins| - 1])
    requires Extends(c, Run(c, ins[..|ins| - 1]), ins[|ins| - 1], q)
    ensures SigsMatch(c, ins)
  {
    hide Run, LogOf, SigTexts, SaidOfMessage, Extends, Fair;
    var init, m := ins[..|ins| - 1], ins[|ins| - 1].m;
    GrownSigs(c, ins, q);
    GrowingStep(c, ins, q);
    var t, t2, n := Run(c, init).tables.sigs, Run(c, ins).tables.sigs, |LogOf(c, init, q)|;
    assert LogOf(c, ins, q)[n] == m;
    forall p, k: nat, said | SaidAt(c, ins, p, k, said)
      ensures Lookup(t2, said) == SigTexts(LogOf(c, ins, p)[k])
    {
      if said == SaidOfMessage(m) {
        SameSaidInLogs(c, ins, p, k, q, n);
        NotStoredYet(c, ins, q, n);
      } else {
        assert SaidAt(c, init, p, k, said);
      }
    }
    forall said | said in t2 ensures exists p, k: nat :: SaidAt(c, ins, p, k, said) {
      if said == SaidOfMessage(m) {
        assert SaidAt(c, ins, q, n, said);
      } else {
        var p, k: nat :| SaidAt(c, init, p, k, said);
        assert SaidAt(c, ins, p, k, said);
      }
    }
  }

  /** No signatures are under the SAID of the event that has just been accepted. */
  lemma NotStoredYet(c: Suite, ins: seq<Input>, q: string, n: nat)
    requires Fair(c, ins) && ins != [] && SigsMatch(c, ins[..|ins| - 1])
    requires Extends(c, Run(c, ins[..|ins| - 1]), ins[|ins| - 1], q) && n == |LogOf(c, ins[..|ins| - 1], q)|
    ensures SaidOfMessage(ins[|ins| - 1].m) !in Run(c, ins[..|ins| - 1]).tables.sigs
  {
    hide Run, LogOf, SigTexts, SaidOfMessage, Extends, Fair;
    var init, m := ins[..|ins| - 1], ins[|ins| - 1].m;
    GrowingStep(c, ins, q);
    assert LogOf(c, ins, q)[n] == m;
    if SaidOfMessage(m) in Run(c, init).tables.sigs {
      var p, k: nat :| SaidAt(c, init, p, k, SaidOfMessage(m));
      assert LogOf(c, ins, p)[k] == LogOf(c, init, p)[k];
      SameSaidInLogs(c, ins, p, k, q, n);
    }
  }

  /** In every fair run the signature table holds exactly the signatures of the accepted events. */
  lemma {:induction false} SigsStored(c: Suite, ins: seq<Input>)
    requires Fair(c, ins)
    ensures SigsMatch(c, ins)
  {
    hide Fair, SigsMatch, Run, LogOf, Extends, Idle;
    if ins == [] {
      NoSigs(c);
    } else {
      FairBefore(c, ins);
      SigsStored(c, ins[..|ins| - 1]);
      if Idle(c, Run(c, ins[..|ins| - 1]), ins[|ins| - 1]) {
        IdleSigsMatch(c, ins);
      } else {
        var q := Extended(c, Run(c, ins[..|ins| - 1]), ins[|ins| - 1]);
        GrownSigsMatch(c, ins, q);
      }
    }
  }

  lemma NoSigs(c: Suite)
    ensures SigsMatch(c, [])
  {
  }

  // ---------- receipts ----------

  /** A committed receipt message that carries couples. */
  predicate CarriesReceipts(i: Input) {
    && i.commits && Header(i.m.serder.sad).Ok? && Header(i.m.serder.sad).value.ilk == "rct"
    && !HasUnknown(i.m.attachments) && ReceiptsOf(i.m.attachments) != []
  }

  /** The couples of the last such message under this SAID. */
  ghost function LastReceipts(ins: seq<Input>, said: string): Option<seq<Couple>> {
    if ins == [] then None
    else
      var i := ins[|ins| - 1];
      if CarriesReceipts(i) && SaidOfMessage(i.m) == said then Some(ReceiptsOf(i.m.attachments))
      else LastReceipts(ins[..|ins| - 1], said)
  }

  /** Witness by witness, the prefix and then its signature. */
  lemma {:induction false} CouplesInOrder(couples: seq<Couple>, w: Couple)
    ensures CoupleTexts(couples + [w]) == CoupleTexts(couples) + (w.0 + w.1)
  {
    if couples == [] {
      assert [] + [w] == [w] && [w][1..] == [];
      assert (w.0 + w.1) + "" == w.0 + w.1 == "" + (w.0 + w.1);
    } else {
      assert (couples + [w])[1..] == couples[1..] + [w];
      CouplesInOrder(couples[1..], w);
      var a, b, d := couples[0].0 + couples[0].1, CoupleTexts(couples[1..]), w.0 + w.1;
      assert (a + b) + d == a + (b + d);
    }
  }

  /** Only a receipt message with couples is assessed to keep receipts. */
  lemma ReceiptsAssessed(c: Suite, v: Verifier, m: ParsedMessage)
    ensures var a := Assess(c, v.kevers, m);
      (a.Ok? && a.value.1.KeepReceipts?) <==>
        (Header(m.serder.sad).Ok? && Header(m.serder.sad).value.ilk == "rct" && !HasUnknown(m.attachments) &&
         ReceiptsOf(m.attachments) != [])
    ensures var a := Assess(c, v.kevers, m); a.Ok? ==> Header(m.serder.sad) == Ok(a.value.0)
  {
    hide HasUnknown, AssessInception, AssessUpdate, ReceiptsOf, Header;
  }

  lemma SaidFromHeader(m: ParsedMessage)
    requires Header(m.serder.sad).Ok?
    ensures Header(m.serder.sad).value.said == SaidOfMessage(m)
  {
    hide SnOf;
  }

  lemma ReceiptStep(c: Suite, v: Verifier, i: Input)
    ensures Process(c, v, i.m, i.commits).0.tables.rcts ==
      if CarriesReceipts(i)
      then v.tables.rcts[SaidOfMessage(i.m) := CoupleTexts(ReceiptsOf(i.m.attachments))] else v.tables.rcts
  {
    ReceiptsAssessed(c, v, i.m);
    hide Assess, Header, HasUnknown, CoupleTexts, ReceiptsOf, SnKey, SigBytes, SaidOfMessage;
    if Header(i.m.serder.sad).Ok? {
      SaidFromHeader(i.m);
    }
  }

  /**
   * In every run the receipt table holds, under each SAID, the couples of the last committed receipt
   * message that named it and carried any, and nothing else.
   */
  lemma {:induction false} ReceiptsStored(c: Suite, ins: seq<Input>, said: string)
    ensures Lookup(Run(c, ins).tables.rcts, said) ==
      match LastReceipts(ins, said) case Some(couples) => Some(CoupleTexts(couples)) case None => None
  {
    hide Process, CarriesReceipts, SaidOfMessage, CoupleTexts;
    if ins != [] {
      ReceiptsStored(c, ins[..|ins| - 1], said);
      ReceiptStep(c, Run(c, ins[..|ins| - 1]), ins[|ins| - 1]);
    }
  }
}
