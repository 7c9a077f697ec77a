/** Exactly when a controller's calls succeed. */
module Emissions {
  import opened JsonValues
  import opened Primitives
  import opened Versions
  import opened Serders
  import opened Counters
  import opened Composers
  import opened Habs

  /** The first `count` keys of a generation can all be derived. */
  ghost predicate Derivable(kr: Keyring, salt: string, code: string, transferable: bool, generation: nat, count: nat) {
    forall i: nat :: i < count ==> kr.derive(salt, code, Path(generation, i), transferable).Some?
  }

  lemma {:induction false} DeriveExactly(kr: Keyring, salt: string, code: string, transferable: bool, generation: nat,
                                         count: nat)
    ensures Derive(kr, salt, code, transferable, generation, count).Ok? <==>
      Derivable(kr, salt, code, transferable, generation, count)
  {
    hide Path;
    if count > 0 {
      DeriveExactly(kr, salt, code, transferable, generation, count - 1);
    }
  }

  /** Every signer signs the message under its own index, and a counter can count them. */
  ghost predicate Signable(kr: Keyring, signers: seq<Signer>, message: string) {
    |signers| < 4096 && forall i :: 0 <= i < |signers| ==> kr.sign(signers[i], message, i).Some?
  }

  lemma {:induction false} SignExactly(kr: Keyring, signers: seq<Signer>, message: string, n: nat)
    requires n <= |signers|
    ensures SignFirst(kr, signers, message, n).Ok? <==> forall i :: 0 <= i < n ==> kr.sign(signers[i], message, i).Some?
  {
    if n > 0 {
      SignExactly(kr, signers, message, n - 1);
    }
  }

  lemma AssembleExactly(serder: Serder, said: string, sigs: seq<Siger>)
    ensures Assemble(serder, said, sigs).Ok? <==> |sigs| < 4096
  {
    hide SigText, ReadCounter, Classify;
    SigKindsHaveCodes(ControllerIdxSigs, TableOf(serder.version));
    if |sigs| < 4096 {
      GroupOpens(ControllerIdxSigs, TableOf(serder.version), |sigs|, "");
    } else {
      assert Capacity(2) == 4096 by { assert Capacity(0) == 1 && Capacity(1) == 64; }
    }
  }

  /** The bytes of the finished body of a draft. */
  function EventText(c: Suite, sad: Json): string
    requires Draft(sad)
  {
    DraftBuilds(c, sad);
    Build(c, sad).value.0.raw
  }

  lemma DraftBuilds(c: Suite, sad: Json)
    requires Draft(sad)
    ensures Build(c, sad).Ok?
  {
    hide Get, Set, Print, ToVersionString, FixVersionString, New;
    FixedDraft(sad);
    KeepsIdentity(sad, Stamp(sad));
  }

  /** A draft is finished exactly when its body can be signed. */
  lemma FinishExactly(c: Suite, kr: Keyring, sad: Json, signers: seq<Signer>)
    requires Draft(sad)
    ensures Finish(c, kr, sad, signers).Ok? <==> Signable(kr, signers, EventText(c, sad))
  {
    hide Build, SignFirst, Assemble;
    DraftBuilds(c, sad);
    var built := Build(c, sad).value;
    SignExactly(kr, signers, built.0.raw, |signers|);
    OneEach(kr, signers, built.0.raw, |signers|);
    if SignFirst(kr, signers, built.0.raw, |signers|).Ok? {
      AssembleExactly(built.0, built.1, SignFirst(kr, signers, built.0.raw, |signers|).value);
    }
  }

  /** An inception succeeds exactly when its keys can be derived and sign it, and the store commits. */
  lemma InceptionExactly(c: Suite, kr: Keyring, name: string, cfg: InceptionConfig, commits: bool)
    ensures Incepted(c, kr, name, cfg, commits).Ok? <==>
      commits && SaltOf(kr, cfg.salt).Ok? &&
      var salt := SaltOf(kr, cfg.salt).value;
      && Derivable(kr, salt, cfg.code, cfg.transferable, 0, cfg.count)
      && Derivable(kr, salt, cfg.code, cfg.transferable, 1, cfg.nextCount)
      && var now, next := Derive(kr, salt, cfg.code, cfg.transferable, 0, cfg.count),
                          Derive(kr, salt, cfg.code, cfg.transferable, 1, cfg.nextCount);
         now.Ok? && next.Ok? &&
         Signable(kr, now.value, EventText(c, InceptionDraft(cfg, KeysOf(now.value), DigestsOf(c, next.value))))
  {
    hide Derive, Derivable, Finish, Signable, EventText, InceptionDraft;
    if SaltOf(kr, cfg.salt).Ok? {
      var salt := SaltOf(kr, cfg.salt).value;
      DeriveExactly(kr, salt, cfg.code, cfg.transferable, 0, cfg.count);
      DeriveExactly(kr, salt, cfg.code, cfg.transferable, 1, cfg.nextCount);
      var now, next := Derive(kr, salt, cfg.code, cfg.transferable, 0, cfg.count),
                       Derive(kr, salt, cfg.code, cfg.transferable, 1, cfg.nextCount);
      if now.Ok? && next.Ok? {
        FinishExactly(c, kr, InceptionDraft(cfg, KeysOf(now.value), DigestsOf(c, next.value)), now.value);
      }
    }
  }

  /** A rotation exactly when the identifier is transferable, the new next keys can be derived and the old ones sign. */
  lemma RotationExactly(c: Suite, kr: Keyring, h: Habitat, cfg: RotationConfig, commits: bool)
    ensures Rotated(c, kr, h, cfg, commits).1.Ok? <==>
      && commits && h.transferable
      && Derivable(kr, h.salt, h.code, h.transferable, h.keyGen + 1, cfg.nextCount)
      && var next := Derive(kr, h.salt, h.code, h.transferable, h.keyGen + 1, cfg.nextCount);
         next.Ok? &&
         Signable(kr, h.nextSigners,
                  EventText(c, RotationDraft(h, cfg, KeysOf(h.nextSigners), DigestsOf(c, next.value))))
  {
    hide Derive, Derivable, Finish, Signable, EventText, RotationDraft, Installed;
    DeriveExactly(kr, h.salt, h.code, h.transferable, h.keyGen + 1, cfg.nextCount);
    var next := Derive(kr, h.salt, h.code, h.transferable, h.keyGen + 1, cfg.nextCount);
    if next.Ok? {
      FinishExactly(c, kr, RotationDraft(h, cfg, KeysOf(h.nextSigners), DigestsOf(c, next.value)), h.nextSigners);
    }
  }

  /** An interaction exactly when the keys in force sign it. */
  lemma InteractionExactly(c: Suite, kr: Keyring, h: Habitat, anchors: seq<Json>, commits: bool)
    ensures Interacted(c, kr, h, anchors, commits).1.Ok? <==>
      commits && Signable(kr, h.signers, EventText(c, InteractionDraft(h, anchors)))
  {
    hide Finish, Signable, EventText, InteractionDraft;
    FinishExactly(c, kr, InteractionDraft(h, anchors), h.signers);
  }
}
