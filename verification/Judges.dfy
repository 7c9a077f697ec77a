/** The judge: a direct-mode verifier that enforces the first-seen policy and keeps duplicity evidence. */
module Judges {
  import opened Wrappers
  import opened Primitives
  import opened KeyStates
  import opened Signatures
  import opened Kevers
  import opened Parsers
  import opened ParserLoops
  import opened Stores
  import opened DirectMode

  datatype Verdict = Trusted | Duplicitous | Unseen

  datatype Evidence = Evidence(
    prefix: string, sn: nat, firstSaid: string, otherSaid: string, firstEvent: string, otherEvent: string)

  datatype JudgeResult = Accepted(result: ProcessResult) | DuplicateAccepted | DuplicityDetected(evidence: Evidence)

  const MAX_PER_PREFIX := 100
  const MAX_TOTAL := 10000

  datatype JudgeState = JudgeState(v: Verifier, duplicitous: set<string>, del: seq<Evidence>)

  const FRESH_JUDGE := JudgeState(EMPTY_VERIFIER, {}, [])

  // ---------- recording ----------

  function EvidenceFor(del: seq<Evidence>, prefix: string): seq<Evidence> {
    if del == [] then []
    else
      var init := EvidenceFor(del[..|del| - 1], prefix);
      if del[|del| - 1].prefix == prefix then init + [del[|del| - 1]] else init
  }

  /** `record_duplicity`: always flag the prefix, keep the evidence while both caps allow. */
  function Recorded(s: JudgeState, e: Evidence): JudgeState {
    var flagged := s.(duplicitous := s.duplicitous + {e.prefix});
    if |s.del| >= MAX_TOTAL || |EvidenceFor(s.del, e.prefix)| >= MAX_PER_PREFIX then flagged
    else flagged.(del := s.del + [e])
  }

  // ---------- judging ----------

  /** The judge tries a message whole, its SAID under its own serialization. */
  function WholeEntryOf(m: ParsedMessage): Entry {
    EntryOf(m).(kind := m.serder.kind)
  }

  /** Is the conflicting event valid on its own? Later events are only checked for signatures by the current keys. */
  function TrialVerify(c: Suite, kevers: map<string, KeyState>, p: ProcessResult, m: ParsedMessage): Result<()> {
    if p.ilk == "icp" || p.ilk == "dip" then
      var verfers :- VerfersOf(c, m.serder.sad);
      var _ :- Incept(c, WholeEntryOf(m), verfers);
      Ok(())
    else if p.ilk == "rot" || p.ilk == "ixn" || p.ilk == "drt" then
      if p.prefix !in kevers then Err(NotFound)
      else
        var keys :- AsKeys(c, kevers[p.prefix].keys);
        VerifySigs(c, m.serder.raw, ControllerSigsOf(m.attachments), keys, kevers[p.prefix].threshold)
    else Err(Config)
  }

  function Evident(c: Suite, v: Verifier, p: ProcessResult, m: ParsedMessage, existing: string): Result<Evidence> {
    var _ :- TrialVerify(c, v.kevers, p, m);
    if existing !in v.tables.evts then Err(NotFound)
    else Ok(Evidence(p.prefix, p.sn, existing, p.said, v.tables.evts[existing], m.serder.raw))
  }

  datatype Route = Refuse(error: Error) | PassOn | Repeat | Challenge(p: ProcessResult, existing: string)

  /** What the judge does with a message before anything is verified. */
  function RouteOf(s: JudgeState, m: ParsedMessage): Route {
    match Header(m.serder.sad)
    case Err(error) => Refuse(error)
    case Ok(p) =>
      if p.ilk == "rct" then PassOn
      else if p.prefix in s.duplicitous then Refuse(Validation)
      else
        match FirstSeen(s.v.tables, p.prefix, p.sn)
        case None => PassOn
        case Some(existing) => if existing == p.said then Repeat else Challenge(p, existing)
  }

  function Passed(r: Result<ProcessResult>): Result<JudgeResult> {
    match r
    case Ok(p) => Ok(Accepted(p))
    case Err(error) => Err(error)
  }

  /** `Judge::process` on a parsed message. */
  function Judged(c: Suite, s: JudgeState, m: ParsedMessage, commits: bool): (r: (JudgeState, Result<JudgeResult>))
    ensures r.1.Err? ==> r.0 == s
  {
    match RouteOf(s, m)
    case Refuse(error) => (s, Err(error))
    case PassOn =>
      var step := Process(c, s.v, m, commits);
      (s.(v := step.0), Passed(step.1))
    case Repeat => (s, Ok(DuplicateAccepted))
    case Challenge(p, existing) =>
      match Evident(c, s.v, p, m, existing)
      case Err(error) => (s, Err(error))
      case Ok(e) => (Recorded(s, e), Ok(DuplicityDetected(e)))
  }

  function VerdictOf(s: JudgeState, prefix: string): Verdict {
    if prefix in s.duplicitous then Duplicitous else if prefix in s.v.kevers then Trusted else Unseen
  }

  // ---------- the object ----------

  class Judge {
    const direct: DirectVerifier
    var duplicitous: set<string>
    var del: seq<Evidence>

    function State(): JudgeState
      reads this, direct, direct.store
    {
      JudgeState(direct.State(), duplicitous, del)
    }

    constructor (direct: DirectVerifier)
      ensures this.direct == direct && duplicitous == {} && del == []
    {
      this.direct := direct;
      duplicitous, del := {}, [];
    }

    method CountFor(prefix: string) returns (n: nat)
      ensures n == |EvidenceFor(del, prefix)|
    {
      n := 0;
      var i := 0;
      while i < |del|
        invariant 0 <= i <= |del|
        invariant n == |EvidenceFor(del[..i], prefix)|
      {
        assert del[..i + 1][..i] == del[..i];
        if del[i].prefix == prefix {
          n := n + 1;
        }
        i := i + 1;
      }
      assert del[..i] == del;
    }

    method RecordDuplicity(e: Evidence)
      modifies this
      ensures State() == Recorded(old(State()), e)
    {
      duplicitous := duplicitous + {e.prefix};
      if |del| >= MAX_TOTAL {
        return;
      }
      var n := CountFor(e.prefix);
      if n >= MAX_PER_PREFIX {
        return;
      }
      del := del + [e];
    }

    method VerifyForDuplicity(c: Suite, p: ProcessResult, m: ParsedMessage, existing: string)
      returns (r: Result<JudgeResult>)
      requires direct.Valid()
      modifies this
      ensures var e := Evident(c, old(State()).v, p, m, existing);
        State() == (if e.Ok? then Recorded(old(State()), e.value) else old(State())) &&
        r == (if e.Ok? then Ok(DuplicityDetected(e.value)) else Err(e.error))
    {
      var trial := Trial(c, p, m);
      if trial.Err? {
        return Err(trial.error);
      }
      if existing !in direct.store.evts {
        return Err(NotFound);
      }
      var e := Evidence(p.prefix, p.sn, existing, p.said, direct.store.evts[existing], m.serder.raw);
      RecordDuplicity(e);
      r := Ok(DuplicityDetected(e));
    }

    method Trial(c: Suite, p: ProcessResult, m: ParsedMessage) returns (r: Result<()>)
      requires direct.Valid()
      ensures r == TrialVerify(c, direct.kevers, p, m)
    {
      var sigs, _, _ := CollectAttachments(m.attachments);
      hide Incept, VerfersOf, VerifySigs;
      if p.ilk == "icp" || p.ilk == "dip" {
        var verfers := VerfersOf(c, m.serder.sad);
        if verfers.Err? {
          return Err(verfers.error);
        }
        var st := CheckedIncept(c, Entry(m.serder.raw, m.serder.sad, sigs, m.serder.kind), verfers.value);
        r := if st.Err? then Err(st.error) else Ok(());
      } else if p.ilk == "rot" || p.ilk == "ixn" || p.ilk == "drt" {
        if p.prefix !in direct.kevers {
          return Err(NotFound);
        }
        var st := direct.kevers[p.prefix];
        var keys := AsKeys(c, st.keys);
        if keys.Err? {
          return Err(keys.error);
        }
        r := VerifySigsStatic(c, m.serder.raw, sigs, keys.value, st.threshold);
      } else {
        r := Err(Config);
      }
    }

    /** Judge one parsed message, looking at the first-seen log before anything is stored. */
    method ProcessParsed(c: Suite, m: ParsedMessage, commits: bool) returns (r: Result<JudgeResult>)
      requires direct.Valid()
      modifies this, direct, direct.store
      ensures direct.Valid()
      ensures State() == Judged(c, old(State()), m, commits).0 && r == Judged(c, old(State()), m, commits).1
    {
      hide Header, DirectMode.Process, Evident, Recorded, SnKey;
      var header := Header(m.serder.sad);
      if header.Err? {
        return Err(header.error);
      }
      var p := header.value;
      if p.ilk != "rct" {
        if p.prefix in duplicitous {
          return Err(Validation);
        }
        var first := FirstSeen(direct.store.Snapshot(), p.prefix, p.sn);
        if first.Some? {
          if first.value == p.said {
            return Ok(DuplicateAccepted);
          }
          r := VerifyForDuplicity(c, p, m, first.value);
          return;
        }
      }
      var result := direct.ProcessParsed(c, m, commits);
      r := Passed(result);
    }

    method Process(c: Suite, data: string, commits: bool) returns (r: Result<JudgeResult>)
      requires direct.Valid()
      modifies this, direct, direct.store
      ensures direct.Valid()
      ensures var parsed := ParseNext(c, data, true);
        if parsed.Err? then State() == old(State()) && r == Err(parsed.error)
        else (State(), r) == Judged(c, old(State()), parsed.value.0, commits)
    {
      hide ParseNext, Judged;
      var parsed := NextMessage(c, data, true);
      if parsed.Err? {
        return Err(parsed.error);
      }
      r := ProcessParsed(c, parsed.value.0, commits);
    }

    method VerdictFor(prefix: string) returns (verdict: Verdict)
      ensures verdict == VerdictOf(State(), prefix)
    {
      verdict := if prefix in duplicitous then Duplicitous else if prefix in direct.kevers then Trusted else Unseen;
    }
  }
}
