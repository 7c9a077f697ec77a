/** Whole lives of an identifier: its key generations, resumption at any point, and failed rotations. */
module HabRuns {
  import opened Wrappers
  import opened Numerals
  import opened JsonValues
  import opened Primitives
  import opened Habs

  datatype Command =
    | Rotate(cfg: RotationConfig, commits: bool)
    | Interact(anchors: seq<Json>, commits: bool)
    | Resume

  /** One call; `Resume` replaces the identifier by what its saved state and salt give back. */
  function Perform(c: Suite, kr: Keyring, h: Habitat, cmd: Command): Habitat {
    match cmd
    case Rotate(cfg, commits) => Rotated(c, kr, h, cfg, commits).0
    case Interact(anchors, commits) => Interacted(c, kr, h, anchors, commits).0
    case Resume => if Resumed(kr, StateOf(h), h.salt).Ok? then Resumed(kr, StateOf(h), h.salt).value else h
  }

  /** What a call returns; nothing for `Resume`. */
  function Returned(c: Suite, kr: Keyring, h: Habitat, cmd: Command): seq<Result<SignedEvent>> {
    match cmd
    case Rotate(cfg, commits) => [Rotated(c, kr, h, cfg, commits).1]
    case Interact(anchors, commits) => [Interacted(c, kr, h, anchors, commits).1]
    case Resume => []
  }

  function After(c: Suite, kr: Keyring, h: Habitat, cmds: seq<Command>): Habitat {
    if cmds == [] then h else Perform(c, kr, After(c, kr, h, cmds[..|cmds| - 1]), cmds[|cmds| - 1])
  }

  function Outputs(c: Suite, kr: Keyring, h: Habitat, cmds: seq<Command>): seq<Result<SignedEvent>> {
    if cmds == [] then []
    else
      var init := cmds[..|cmds| - 1];
      Outputs(c, kr, h, init) + Returned(c, kr, After(c, kr, h, init), cmds[|cmds| - 1])
  }

  /** Successful rotations. */
  function Rotations(c: Suite, kr: Keyring, h: Habitat, cmds: seq<Command>): nat {
    if cmds == [] then 0
    else
      var init, cmd := cmds[..|cmds| - 1], cmds[|cmds| - 1];
      Rotations(c, kr, h, init) +
        if cmd.Rotate? && Rotated(c, kr, After(c, kr, h, init), cmd.cfg, cmd.commits).1.Ok? then 1 else 0
  }

  // ---------- key generations ----------

  /** Both lists of signers are what the salt yields at the recorded generations. */
  ghost predicate Derived(kr: Keyring, h: Habitat) {
    && kr.isSalt(h.salt)
    && Derive(kr, h.salt, h.code, h.transferable, h.signerGen, |h.signers|) == Ok(h.signers)
    && Derive(kr, h.salt, h.code, h.transferable, h.nextGen, |h.nextSigners|) == Ok(h.nextSigners)
  }

  predicate Generations(h: Habitat, r: nat) {
    h.keyGen == 2 * r + 2 && h.nextGen == 2 * r + 1 && h.signerGen == if r == 0 then 0 else 2 * r - 1
  }

  lemma InceptionDerives(c: Suite, kr: Keyring, name: string, cfg: InceptionConfig, commits: bool)
    requires Incepted(c, kr, name, cfg, commits).Ok?
    ensures Derived(kr, Incepted(c, kr, name, cfg, commits).value.0)
    ensures Generations(Incepted(c, kr, name, cfg, commits).value.0, 0)
  {
    hide Finish, InceptionDraft, Derive;
    var salt := SaltOf(kr, cfg.salt).value;
    DeriveLength(kr, salt, cfg.code, cfg.transferable, 0, cfg.count);
    DeriveLength(kr, salt, cfg.code, cfg.transferable, 1, cfg.nextCount);
  }

  lemma StartsAtZero(c: Suite, kr: Keyring, name: string, cfg: InceptionConfig, commits: bool)
    requires Incepted(c, kr, name, cfg, commits).Ok?
    ensures Incepted(c, kr, name, cfg, commits).value.0.sn == 0
  {
    hide Derive, Finish, InceptionDraft;
  }

  lemma RotationDerives(c: Suite, kr: Keyring, h: Habitat, cfg: RotationConfig, commits: bool, r: nat)
    requires Derived(kr, h) && Generations(h, r)
    ensures Derived(kr, Rotated(c, kr, h, cfg, commits).0)
    ensures Generations(Rotated(c, kr, h, cfg, commits).0, if Rotated(c, kr, h, cfg, commits).1.Ok? then r + 1 else r)
  {
    hide Finish, RotationDraft;
    assert Derive(kr, h.salt, h.code, h.transferable, h.nextGen, 0) == Ok([]);
    hide Derive;
    DeriveLength(kr, h.salt, h.code, h.transferable, h.keyGen + 1, cfg.nextCount);
  }

  /** Resuming from the saved state and the salt gives back the very same identifier. */
  lemma ResumeIsIdentity(kr: Keyring, h: Habitat)
    requires Derived(kr, h)
    ensures Resumed(kr, StateOf(h), h.salt) == Ok(h)
  {
  }

  lemma StepDerives(c: Suite, kr: Keyring, h: Habitat, cmd: Command, r: nat)
    requires Derived(kr, h) && Generations(h, r)
    ensures Derived(kr, Perform(c, kr, h, cmd))
    ensures Generations(Perform(c, kr, h, cmd),
                        r + if cmd.Rotate? && Rotated(c, kr, h, cmd.cfg, cmd.commits).1.Ok? then 1 else 0)
  {
    hide Rotated, Interacted, Derived, Generations, Resumed;
    match cmd
    case Rotate(cfg, commits) =>
      RotationDerives(c, kr, h, cfg, commits, r);
    case Resume =>
      ResumeIsIdentity(kr, h);
    case Interact(anchors, commits) =>
      InteractionDerives(c, kr, h, anchors, commits, r);
  }

  lemma InteractionDerives(c: Suite, kr: Keyring, h: Habitat, anchors: seq<Json>, commits: bool, r: nat)
    requires Derived(kr, h) && Generations(h, r)
    ensures Derived(kr, Interacted(c, kr, h, anchors, commits).0)
    ensures Generations(Interacted(c, kr, h, anchors, commits).0, r)
  {
    hide Finish, InteractionDraft, Derive;
  }

  /**
   * After r successful rotations, and any interactions, failures and resumptions among them, the
   * counter is at 2r+2, the next keys at 2r+1, the signing keys at max(0, 2r-1), and both lists are
   * exactly what the salt yields there.
   */
  lemma {:induction false} GenerationLaw(c: Suite, kr: Keyring, h: Habitat, cmds: seq<Command>)
    requires Derived(kr, h) && Generations(h, 0)
    ensures Derived(kr, After(c, kr, h, cmds)) && Generations(After(c, kr, h, cmds), Rotations(c, kr, h, cmds))
  {
    hide Perform, Derived, Generations, Rotated;
    if cmds != [] {
      var init := cmds[..|cmds| - 1];
      GenerationLaw(c, kr, h, init);
      StepDerives(c, kr, After(c, kr, h, init), cmds[|cmds| - 1], Rotations(c, kr, h, init));
    }
  }

  // ---------- no key comes back ----------

  /** Different (generation, index) pairs have different derivation paths. */
  lemma PathInjective(g: nat, i: nat, h: nat, j: nat)
    requires Path(g, i) == Path(h, j)
    ensures g == h && i == j
  {
    var a, b, s, t := Format(g, 10), Format(h, 10), Format(i, 10), Format(j, 10);
    FormatValue(g, 10);
    FormatValue(h, 10);
    FormatValue(i, 10);
    FormatValue(j, 10);
    hide Format, Value, DigitValue;
    assert Path(g, i) == a + ("." + s) && Path(h, j) == b + ("." + t);
    SameHead(a, s, b, t);
  }

  /** Texts without a dot before the first dot agree. */
  lemma SameHead(a: string, s: string, b: string, t: string)
    requires '.' !in a && '.' !in b && a + ("." + s) == b + ("." + t)
    ensures a == b && s == t
  {
    var whole := a + ("." + s);
    assert forall k :: 0 <= k < |a| ==> whole[k] in a;
    assert forall k :: 0 <= k < |b| ==> whole[k] in b;
    assert whole[|a|] == '.' && whole[|b|] == '.';
    assert |a| == |b|;
    assert a == whole[..|a|] && b == whole[..|b|];
    assert s == whole[|a| + 1..] && t == whole[|b| + 1..];
  }

  /** From one salt, the first `width` paths of each of the first `gens` generations give different keys. */
  ghost predicate DistinctKeys(kr: Keyring, salt: string, code: string, transferable: bool, gens: nat, width: nat) {
    forall g: nat, i: nat, h: nat, j: nat | g < gens && h < gens && i < width && j < width ::
      var s, t := kr.derive(salt, code, Path(g, i), transferable), kr.derive(salt, code, Path(h, j), transferable);
      s.Some? && t.Some? && s.value.key == t.value.key ==> Path(g, i) == Path(h, j)
  }

  ghost predicate NoCommonKey(a: seq<Signer>, b: seq<Signer>) {
    forall i, j :: 0 <= i < |a| && 0 <= j < |b| ==> a[i].key != b[j].key
  }

  lemma {:induction false} DerivedAt(kr: Keyring, salt: string, code: string, transferable: bool, generation: nat,
                                     count: nat, i: nat)
    requires Derive(kr, salt, code, transferable, generation, count).Ok? && i < count
    ensures i < |Derive(kr, salt, code, transferable, generation, count).value|
    ensures kr.derive(salt, code, Path(generation, i), transferable) ==
      Some(Derive(kr, salt, code, transferable, generation, count).value[i])
  {
    DeriveLength(kr, salt, code, transferable, generation, count);
    DeriveLength(kr, salt, code, transferable, generation, count - 1);
    if i < count - 1 {
      DerivedAt(kr, salt, code, transferable, generation, count - 1, i);
    }
  }

  /** Two generations of one salt have no key in common. */
  lemma GenerationsApart(kr: Keyring, salt: string, code: string, transferable: bool, gens: nat, width: nat,
                         g: nat, m: nat, h: nat, n: nat)
    requires DistinctKeys(kr, salt, code, transferable, gens, width) && g < gens && h < gens && g != h
    requires m <= width && n <= width
    requires Derive(kr, salt, code, transferable, g, m).Ok? && Derive(kr, salt, code, transferable, h, n).Ok?
    ensures NoCommonKey(Derive(kr, salt, code, transferable, g, m).value,
                        Derive(kr, salt, code, transferable, h, n).value)
  {
    var a, b := Derive(kr, salt, code, transferable, g, m).value, Derive(kr, salt, code, transferable, h, n).value;
    DeriveLength(kr, salt, code, transferable, g, m);
    DeriveLength(kr, salt, code, transferable, h, n);
    hide Derive, Path;
    forall i: nat, j: nat | i < |a| && j < |b| ensures a[i].key != b[j].key {
      DerivedAt(kr, salt, code, transferable, g, m, i);
      DerivedAt(kr, salt, code, transferable, h, n, j);
      if Path(g, i) == Path(h, j) {
        PathInjective(g, i, h, j);
      }
    }
  }

  /** What no call changes, and how the keys in force change. */
  lemma StepKeepsSource(c: Suite, kr: Keyring, h: Habitat, cmd: Command)
    requires cmd.Resume? ==> Derived(kr, h)
    ensures var h2 := Perform(c, kr, h, cmd);
      && h2.salt == h.salt && h2.code == h.code && h2.transferable == h.transferable
      && h2.signers ==
           if cmd.Rotate? && Rotated(c, kr, h, cmd.cfg, cmd.commits).1.Ok? then h.nextSigners else h.signers
  {
    hide RotationOutcome, Finish, InteractionDraft, Derive;
    if cmd.Resume? {
      ResumeIsIdentity(kr, h);
    }
  }

  /** From one point of a life to a later one: the same salt, and the same keys until a rotation succeeds. */
  lemma {:induction false} SourceStays(c: Suite, kr: Keyring, h: Habitat, cmds: seq<Command>, m: nat)
    requires Derived(kr, h) && Generations(h, 0) && m <= |cmds|
    ensures var early, late := After(c, kr, h, cmds[..m]), After(c, kr, h, cmds);
      && late.salt == early.salt && late.code == early.code && late.transferable == early.transferable
      && Rotations(c, kr, h, cmds[..m]) <= Rotations(c, kr, h, cmds)
      && (Rotations(c, kr, h, cmds[..m]) == Rotations(c, kr, h, cmds) ==> late.signers == early.signers)
    decreases |cmds|
  {
    hide Perform, Derived, Generations, Rotated;
    if m == |cmds| {
      assert cmds[..m] == cmds;
    } else {
      var init := cmds[..|cmds| - 1];
      assert init[..m] == cmds[..m];
      SourceStays(c, kr, h, init, m);
      GenerationLaw(c, kr, h, init);
      StepKeepsSource(c, kr, After(c, kr, h, init), cmds[|cmds| - 1]);
    }
  }

  predicate Narrow(h: Habitat, width: nat) {
    |h.signers| <= width && |h.nextSigners| <= width
  }

  /**
   * No key comes back: in every life of an identifier whose salt gives different keys on different
   * paths, as far as it gets, the keys committed to at any point have never been in force up to
   * then, and the keys in force, like those committed to, have none in common with those before any
   * rotation that succeeded in between; without one the keys in force stay.
   */
  lemma NoKeyComesBack(c: Suite, kr: Keyring, h: Habitat, cmds: seq<Command>, m: nat, gens: nat, width: nat)
    requires Derived(kr, h) && Generations(h, 0) && m <= |cmds|
    requires 2 * Rotations(c, kr, h, cmds) + 1 < gens
    requires Narrow(After(c, kr, h, cmds[..m]), width) && Narrow(After(c, kr, h, cmds), width)
    requires DistinctKeys(kr, h.salt, h.code, h.transferable, gens, width)
    ensures var early, late := After(c, kr, h, cmds[..m]), After(c, kr, h, cmds);
      && NoCommonKey(late.nextSigners, early.signers)
      && (if Rotations(c, kr, h, cmds[..m]) == Rotations(c, kr, h, cmds) then late.signers == early.signers
          else NoCommonKey(late.signers, early.signers) && NoCommonKey(late.nextSigners, early.nextSigners))
  {
    hide Rotations, Derive, NoCommonKey, DistinctKeys, Perform;
    GenerationLaw(c, kr, h, cmds);
    GenerationLaw(c, kr, h, cmds[..m]);
    SourceStays(c, kr, h, cmds, m);
    SourceStays(c, kr, h, cmds, 0);
    assert cmds[..0] == [];
    var a, b := After(c, kr, h, cmds[..m]), After(c, kr, h, cmds);
    GenerationsApart(kr, h.salt, h.code, h.transferable, gens, width,
                     b.nextGen, |b.nextSigners|, a.signerGen, |a.signers|);
    if Rotations(c, kr, h, cmds[..m]) < Rotations(c, kr, h, cmds) {
      GenerationsApart(kr, h.salt, h.code, h.transferable, gens, width,
                       b.signerGen, |b.signers|, a.signerGen, |a.signers|);
      GenerationsApart(kr, h.salt, h.code, h.transferable, gens, width,
                       b.nextGen, |b.nextSigners|, a.nextGen, |a.nextSigners|);
    }
  }

  /** A successful rotation puts in force exactly the keys that were committed to. */
  lemma RotationInstalls(c: Suite, kr: Keyring, h: Habitat, cfg: RotationConfig, commits: bool)
    requires Rotated(c, kr, h, cfg, commits).1.Ok?
    ensures Rotated(c, kr, h, cfg, commits).0.signers == h.nextSigners
    ensures |Rotated(c, kr, h, cfg, commits).0.nextSigners| == cfg.nextCount
  {
    hide Derive, Finish, RotationDraft;
    DeriveLength(kr, h.salt, h.code, h.transferable, h.keyGen + 1, cfg.nextCount);
  }

  // ---------- resuming anywhere ----------

  function WithoutResumes(cmds: seq<Command>): seq<Command> {
    if cmds == [] then []
    else
      var init := WithoutResumes(cmds[..|cmds| - 1]);
      if cmds[|cmds| - 1].Resume? then init else init + [cmds[|cmds| - 1]]
  }

  /** Saving and resuming an identifier, anywhere and any number of times, changes no returned byte. */
  lemma {:induction false} ResumeAnywhere(c: Suite, kr: Keyring, name: string, cfg: InceptionConfig, commits: bool,
                                          cmds: seq<Command>)
    requires Incepted(c, kr, name, cfg, commits).Ok?
    ensures var h := Incepted(c, kr, name, cfg, commits).value.0;
      && After(c, kr, h, cmds) == After(c, kr, h, WithoutResumes(cmds))
      && Outputs(c, kr, h, cmds) == Outputs(c, kr, h, WithoutResumes(cmds))
    decreases |cmds|
  {
    hide Incepted, Derived, Generations, Rotated, Interacted, Resumed;
    var h := Incepted(c, kr, name, cfg, commits).value.0;
    if cmds != [] {
      var init, cmd := cmds[..|cmds| - 1], cmds[|cmds| - 1];
      ResumeAnywhere(c, kr, name, cfg, commits, init);
      InceptionDerives(c, kr, name, cfg, commits);
      GenerationLaw(c, kr, h, init);
      var plain := WithoutResumes(cmds);
      if cmd.Resume? {
        ResumeIsIdentity(kr, After(c, kr, h, init));
      } else {
        assert plain[..|plain| - 1] == WithoutResumes(init);
      }
    }
  }

  // ---------- failed calls ----------

  /**
   * A failed rotation leaves the identifier as it was exactly when it could not rotate anyway, or
   * had no next keys left to lose; otherwise its next keys are gone, from the saved state too.
   */
  lemma FailedRotation(c: Suite, kr: Keyring, h: Habitat, cfg: RotationConfig, commits: bool)
    requires Rotated(c, kr, h, cfg, commits).1.Err?
    ensures Rotated(c, kr, h, cfg, commits).0 == h <==> !h.transferable || h.nextSigners == []
    ensures h.transferable ==>
      Rotated(c, kr, h, cfg, commits).0 == h.(nextSigners := []) &&
      StateOf(Rotated(c, kr, h, cfg, commits).0).nextCount == 0
  {
    hide RotationOutcome;
  }

  /** For instance when the store cannot commit: an identifier with next keys loses them. */
  lemma StoreFailureLosesNextKeys(c: Suite, kr: Keyring, h: Habitat, cfg: RotationConfig)
    requires h.transferable && h.nextSigners != []
    ensures Rotated(c, kr, h, cfg, false).1.Err? && Rotated(c, kr, h, cfg, false).0 != h
  {
    hide RotationOutcome;
  }
}
