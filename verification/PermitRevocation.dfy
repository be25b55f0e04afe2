/** An approval withdrawn before the executor is called, step by step (n0te/coordinator_gateway.py). */
module PermitRevocation {
  import opened Prelude
  import opened Authority
  import opened ExecutionEnvelope
  import opened TrustedContext
  import opened PermitProtocol
  import opened PermitSchedules

  // ----- An irreversible action with a recorded approval

  const OWNERS: map<Plane, string> := map[Why := "w", What := "w", How := "w", Now := "w", Proof := "w"]

  const ENVELOPE: Envelope := Envelope(
    "erase", Artifact, "work", ["scope"], [], [], OWNERS, [Claim("it is there", CurrentFact, Observed, ["ref"], true)],
    ["check"], ["check"], AuthorityClaim(Irreversible, true, true, "policy"),
    Acceptance(Artifact, "it is gone", ["listing"], true), NextDependency(NoDependency, "none", "policy"), "")

  const INTENT: ActionIntent :=
    ActionIntent("erase-1", "job", Irreversible, "erase it", "target", "1", "{}", None, None, [])

  const PROFILE: RawProfile := RawProfile("IRREVERSIBLE", Irreversible, true, ["policy"])

  const POLICY: RawPolicy :=
    RawPolicy(["check"], [], [], [OutcomeText("ARTIFACT", Some(Artifact))], [PROFILE])

  const APPROVAL: RawApproval := RawApproval("yes", OfIntent(INTENT), "human")

  /** The snapshot the sync process writes, with some approvals. */
  function Written(approvals: seq<RawApproval>): RawSnapshot {
    RawSnapshot("now", "source", 0, 100, ["scope"], OWNERS, map["work" := POLICY], approvals)
  }

  function Serving(approvals: seq<RawApproval>): Store {
    Store(Some("now"), [Entry(Written(approvals))])
  }

  function Current(approvals: seq<RawApproval>): Snapshot {
    Snapshot("now", 100, {"scope"}, OWNERS, Policies(map["work" := POLICY]), ApprovalTable(approvals),
             Sha256(Written(approvals)))
  }

  function Asked(): IssueRequest {
    IssueRequest(ENVELOPE, INTENT, Current([APPROVAL]), Some(ApprovalBinding("yes", OfIntent(INTENT), "human")), 60)
  }

  lemma EveryPlaneIsOwned(p: Plane)
    ensures p in OWNERS && OWNERS[p] == "w"
  {
    match p {
      case Why => case What => case How => case Now => case Proof =>
    }
  }

  lemma OwnersAreOk()
    ensures OwnersOk(OWNERS)
  {
    forall p: Plane ensures p in OWNERS && OWNERS[p] != "" {
      EveryPlaneIsOwned(p);
    }
  }

  lemma PolicyIsOk()
    ensures PolicyOk(POLICY)
    ensures PolicyAgrees(ENVELOPE, NormalPolicy(POLICY))
  {
    assert Spellings(POLICY.outcomes) == ["ARTIFACT"] && Classes([PROFILE]) == [Irreversible];
    ProfilesMean([PROFILE], 0);
    assert POLICY.outcomes[0].names == Some(Artifact);
    assert Artifact in NamedClasses(POLICY.outcomes);
  }

  lemma WrittenIsValid(approvals: seq<RawApproval>)
    requires ApprovalsOk(approvals)
    ensures Validated(Written(approvals)) == Some(Current(approvals))
  {
    PolicyIsOk();
    OwnersAreOk();
    hide PolicyOk, ApprovalsOk, OwnersOk, ApprovalTable, NormalPolicy;
    var raw := Written(approvals);
    assert "work" in raw.policies && Elements(raw.scope) == {"scope"};
    assert PoliciesOk(raw.policies);
  }

  lemma WrittenIsServed(approvals: seq<RawApproval>)
    requires ApprovalsOk(approvals)
    ensures Get(Serving(approvals), "now") == Some(Current(approvals))
  {
    WrittenIsValid(approvals);
    hide ApprovalsOk, Validated, Current;
    var entries := Serving(approvals).snapshots;
    assert entries[1..] == [] && Matches([], "now") == [];
    assert Matches(entries, "now") == [Written(approvals)] + [];
  }

  lemma EnvelopeIsExecutable()
    ensures Executable(ENVELOPE)
  {
    OwnersAreOk();
    hide OwnersOk;
  }

  lemma EnvelopeAgrees(approvals: seq<RawApproval>)
    ensures Agrees(ENVELOPE, Current(approvals), 0)
  {
    EnvelopeIsExecutable();
    PolicyIsOk();
    forall p: Plane ensures p in OWNERS {
      EveryPlaneIsOwned(p);
    }
    hide ValidEnvelope, PolicyAgrees, NormalPolicy, ApprovalTable;
  }

  lemma ApprovalsAreOk()
    ensures ApprovalsOk([APPROVAL]) && ApprovalsOk([])
    ensures ApprovalTable([APPROVAL]) == map["yes" := Approval(OfIntent(INTENT), "human")]
  {
    assert Ids([APPROVAL]) == ["yes"];
    assert [APPROVAL][..0] == [] && ApprovalTable([]) == map[];
  }

  lemma AskedIsIssued(uuid: string)
    ensures Issued(Asked(), Clocks(0, 0), uuid) == Success(PayloadFor(Asked(), 0, uuid))
  {
    EnvelopeIsExecutable();
    EnvelopeAgrees([APPROVAL]);
    ApprovalsAreOk();
    hide Executable, Agrees, Policies;
  }

  // ----- The run

  /** The permit is issued and spent, then the store is replaced by one that serves the same snapshot id
      without the approval, then the executor is called. */
  function RevokedRun(key: string, name: string, uuid: string): seq<Step> {
    var call := CallFor(key, PayloadFor(Asked(), 0, uuid), name, "now", Asked());
    Preparation(name, Asked(), Clocks(0, 0), uuid) + LateSteps(call, Clocks(0, 0), Serving([]), Clocks(0, 0))
  }

  /** An irreversible action that needs a human runs although its approval is withdrawn by then: allowed steps
      only, a well-formed intent, an approval when the call began, and a current snapshot without it when the
      executor is called. */
  lemma RevokedApprovalStillRuns(key: string, name: string, uuid: string)
    requires name != ""
    ensures
      var steps := RevokedRun(key, name, uuid);
      var calls := Run(key, Initial(Serving([APPROVAL])), steps).calls;
      && MakeIntent(INTENT) == Some(INTENT) && ENVELOPE.authority.requiresHuman
      && AllowedRun(key, Initial(Serving([APPROVAL])), steps)
      && |calls| == 1 && Called(calls[0]) && calls[0].call.action == INTENT && calls[0].call.envelope == ENVELOPE
      && ApprovedBy(calls[0].begun, calls[0])
      && Get(calls[0].stage.ran.store, "now").Some? && !ApprovedBy(calls[0].stage.ran.store, calls[0])
  {
    AskedIsIssued(uuid);
    ApprovalsAreOk();
    WrittenIsServed([APPROVAL]);
    WrittenIsServed([]);
    assert NormalizedCategories([]) == [];
    hide Run, AllowedRun, Get, Issued, Preparation, LateSteps, HoldsAtTheExecutor;
    ExecutorMayBeLate(key, Serving([APPROVAL]), "now", Asked(), Clocks(0, 0), uuid, PayloadFor(Asked(), 0, uuid), name,
                      Serving([]), Clocks(0, 0));
    assert "yes" in Current([APPROVAL]).approvals;
  }
}
