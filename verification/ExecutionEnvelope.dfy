/** The execution envelope and its gate (governance/execution_envelope.py). */
module ExecutionEnvelope {
  import opened Prelude
  import opened Authority

  datatype OutcomeClass = Artifact | SystemState | ExternalState | HumanState | UnsupportedOutcome

  datatype Plane = Why | What | How | Now | Proof

  /** CURRENT_FACT is the only truth type the gate treats specially. */
  datatype TruthType = CurrentFact | OtherTruthType | UnsupportedTruthType

  datatype Posture = Observed | Derived | Claimed | Assumed | Stale | Unknown | UnsupportedPosture

  datatype DependencyState = KnownDependency | BlockedDependency | NoDependency | UnknownDependency
    | UnsupportedDependency

  datatype Claim = Claim(
    statement: string, truthType: TruthType, posture: Posture, sourceRefs: seq<string>, blocking: bool)

  datatype AuthorityClaim = AuthorityClaim(
    actionClass: ActionClass, authorized: bool, requiresHuman: bool, sourceRef: string)

  datatype Acceptance = Acceptance(
    outcome: OutcomeClass, condition: string, evidence: seq<string>, artifactIsNotCompletion: bool)

  datatype NextDependency = NextDependency(state: DependencyState, description: string, sourceRef: string)

  /** An envelope document, its enumerated words read by what they upper-case to. How those words were
      written, and members nobody reads, is kept apart: only the fingerprint depends on it. */
  datatype Envelope = Envelope(
    description: string, outcome: OutcomeClass, activeObject: string, scope: seq<string>,
    upstream: seq<string>, downstream: seq<string>, owners: map<Plane, string>, claims: seq<Claim>,
    requiredFunctions: seq<string>, invokedFunctions: seq<string>, authority: AuthorityClaim,
    acceptance: Acceptance, next: NextDependency, spelling: string)

  predicate Blocks(p: Posture) {
    p.Claimed? || p.Assumed? || p.Stale? || p.Unknown?
  }

  /** Postures a material current fact may not have. */
  predicate Unmaterial(p: Posture) {
    p.Stale? || p.Assumed? || p.Unknown?
  }

  /** Every truth plane has a named owner. */
  predicate OwnersOk(owners: map<Plane, string>) {
    forall p: Plane :: p in owners && owners[p] != ""
  }

  /** _string_list: no empty text, no repetition and, unless allowed, not empty. */
  predicate StringList(xs: seq<string>, allowEmpty: bool) {
    "" !in xs && Distinct(xs) && (allowEmpty || xs != [])
  }

  /** The loop of _string_list, which returns its values or refuses them. */
  method CheckStringList(xs: seq<string>, allowEmpty: bool) returns (r: Option<seq<string>>)
    ensures r == if StringList(xs, allowEmpty) then Some(xs) else None
  {
    var result: seq<string> := [];
    for i := 0 to |xs|
      invariant result == xs[..i] && "" !in result && Distinct(result)
    {
      if xs[i] == "" || xs[i] in result {
        assert xs[i] == "" || exists j :: 0 <= j < i && xs[j] == xs[i];
        return None;
      }
      result := result + [xs[i]];
    }
    assert result == xs;
    return if !allowEmpty && result == [] then None else Some(result);
  }

  /** Every needed text is among those given. */
  predicate Covers(given: seq<string>, needed: seq<string>) {
    forall i :: 0 <= i < |needed| ==> needed[i] in given
  }

  predicate ClaimOk(c: Claim) {
    && c.statement != "" && c.truthType != UnsupportedTruthType && c.posture != UnsupportedPosture
    && StringList(c.sourceRefs, true)
    && (c.posture.Observed? || c.posture.Derived? || c.posture.Claimed? || c.posture.Stale? ==> c.sourceRefs != [])
  }

  /** validate_execution_envelope accepts. */
  predicate ValidEnvelope(e: Envelope) {
    && e.description != "" && e.outcome != UnsupportedOutcome && e.activeObject != ""
    && StringList(e.scope, false) && StringList(e.upstream, true) && StringList(e.downstream, true)
    && OwnersOk(e.owners)
    && e.claims != [] && (forall i :: 0 <= i < |e.claims| ==> ClaimOk(e.claims[i]))
    && StringList(e.requiredFunctions, false) && StringList(e.invokedFunctions, true)
    && Covers(e.invokedFunctions, e.requiredFunctions)
    && e.authority.actionClass != UnsupportedClass && e.authority.sourceRef != ""
    && e.acceptance.outcome == e.outcome && e.acceptance.condition != ""
    && StringList(e.acceptance.evidence, false)
    && (e.outcome.ExternalState? || e.outcome.HumanState? ==> e.acceptance.artifactIsNotCompletion)
    && e.next.state != UnsupportedDependency && e.next.description != "" && e.next.sourceRef != ""
  }

  datatype Blocker =
    | BlockingClaim(index: nat, posture: Posture) | MaterialFact(fact: nat, factPosture: Posture)
    | NotAuthorized | HumanAuthorityMissing | InvalidEnvelope

  datatype Gate = Gate(valid: bool, allowed: bool, fingerprint: Option<Digest<Envelope>>, blockers: seq<Blocker>)

  /** When a valid envelope may execute, said without the list of blockers. */
  predicate Executable(e: Envelope) {
    && ValidEnvelope(e)
    && (forall i :: 0 <= i < |e.claims| ==> !(e.claims[i].blocking && Blocks(e.claims[i].posture)))
    && (forall i :: 0 <= i < |e.claims| ==>
          !(e.claims[i].truthType == CurrentFact && Unmaterial(e.claims[i].posture)))
    && (e.authority.actionClass != ReadOnly ==> e.authority.authorized)
    && (e.authority.actionClass == Irreversible ==> e.authority.requiresHuman)
  }

  /** What each reason against a valid envelope says. */
  predicate Blames(e: Envelope, b: Blocker) {
    match b
    case BlockingClaim(i, posture) =>
      i < |e.claims| && e.claims[i].blocking && e.claims[i].posture == posture && Blocks(posture)
    case MaterialFact(i, posture) =>
      i < |e.claims| && e.claims[i].truthType == CurrentFact && e.claims[i].posture == posture && Unmaterial(posture)
    case NotAuthorized => e.authority.actionClass != ReadOnly && !e.authority.authorized
    case HumanAuthorityMissing => e.authority.actionClass == Irreversible && !e.authority.requiresHuman
    case InvalidEnvelope => false
  }

  predicate BlamesClaim(e: Envelope, b: Blocker, upTo: nat) {
    Blames(e, b) && ((b.BlockingClaim? && b.index < upTo) || (b.MaterialFact? && b.fact < upTo))
  }

  /** evaluate_execution_envelope: execution is allowed exactly for executable envelopes, and the reasons
      against a valid one are exactly those that hold of it. */
  method EvaluateExecutionEnvelope(e: Envelope) returns (gate: Gate)
    ensures gate.valid == ValidEnvelope(e) && gate.allowed == Executable(e)
    ensures gate.allowed <==> gate.blockers == []
    ensures gate.fingerprint == if gate.valid then Some(Sha256(e)) else None
    ensures gate.valid ==> forall b :: b in gate.blockers <==> Blames(e, b)
    ensures !gate.valid ==> gate.blockers == [InvalidEnvelope]
  {
    if !ValidEnvelope(e) {
      return Gate(false, false, None, [InvalidEnvelope]);
    }
    var blockers: seq<Blocker> := [];
    for i := 0 to |e.claims|
      invariant forall b :: b in blockers <==> BlamesClaim(e, b, i)
    {
      var claim := e.claims[i];
      if claim.blocking && Blocks(claim.posture) {
        blockers := blockers + [BlockingClaim(i, claim.posture)];
      }
      if claim.truthType == CurrentFact && Unmaterial(claim.posture) {
        blockers := blockers + [MaterialFact(i, claim.posture)];
      }
    }
    if e.authority.actionClass != ReadOnly && !e.authority.authorized {
      blockers := blockers + [NotAuthorized];
    }
    if e.authority.actionClass == Irreversible && !e.authority.requiresHuman {
      blockers := blockers + [HumanAuthorityMissing];
    }
    NothingBlamed(e, blockers);
    return Gate(true, blockers == [], Some(Sha256(e)), blockers);
  }

  lemma NothingBlamed(e: Envelope, blockers: seq<Blocker>)
    requires ValidEnvelope(e) && forall b :: b in blockers <==> Blames(e, b)
    ensures blockers == [] <==> Executable(e)
  {
    if blockers == [] {
      forall i | 0 <= i < |e.claims|
        ensures !(e.claims[i].blocking && Blocks(e.claims[i].posture))
        ensures !(e.claims[i].truthType == CurrentFact && Unmaterial(e.claims[i].posture))
      {
        assert !Blames(e, BlockingClaim(i, e.claims[i].posture));
        assert !Blames(e, MaterialFact(i, e.claims[i].posture));
      }
      assert !Blames(e, NotAuthorized) && !Blames(e, HumanAuthorityMissing);
    } else {
      assert Blames(e, blockers[0]);
    }
  }
}
