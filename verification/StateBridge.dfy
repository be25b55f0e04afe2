/** Snapshots compiled from execution state (governance/execution_state_bridge.py). */
module StateBridge {
  import opened Prelude
  import opened Ordering
  import opened Authority
  import opened ExecutionEnvelope
  import opened TrustedContext

  /** Tables in insertion order, with distinct keys. */
  datatype CompiledState = CompiledState(
    jobId: string, sourceFingerprint: string, fingerprint: string, compiledAt: int, scope: seq<string>,
    owners: map<Plane, string>, graph: seq<(string, seq<string>)>, dispatch: seq<(string, seq<string>)>)

  predicate DistinctKeys(table: seq<(string, seq<string>)>) {
    forall i, j :: 0 <= i < j < |table| ==> table[i].0 != table[j].0
  }

  predicate StateOk(state: CompiledState) {
    DistinctKeys(state.graph) && DistinctKeys(state.dispatch)
  }

  /** table.get(key, ()). */
  function Lookup(table: seq<(string, seq<string>)>, key: string): seq<string> {
    if table == [] then []
    else if table[0].0 == key then table[0].1
    else Lookup(table[1..], key)
  }

  function Predecessors(graph: seq<(string, seq<string>)>, active: string): seq<string> {
    if graph == [] then []
    else
      var rest := Predecessors(graph[1..], active);
      if active in graph[0].1 then [graph[0].0] + rest else rest
  }

  function Upstream(state: CompiledState, active: string): seq<string> {
    Sort(TextLeq, Predecessors(state.graph, active))
  }

  lemma {:induction false} LookupAbsent(table: seq<(string, seq<string>)>, key: string)
    requires forall i :: 0 <= i < |table| ==> table[i].0 != key
    ensures Lookup(table, key) == []
  {
    if table != [] {
      LookupAbsent(table[1..], key);
    }
  }

  lemma {:induction false} PredecessorsInvertLookup(graph: seq<(string, seq<string>)>, node: string, active: string)
    requires DistinctKeys(graph)
    ensures node in Predecessors(graph, active) <==> active in Lookup(graph, node)
  {
    if graph != [] {
      PredecessorsInvertLookup(graph[1..], node, active);
      if graph[0].0 == node {
        LookupAbsent(graph[1..], node);
      }
    }
  }

  /** The upstream list a policy requires is exactly the inverse of the downstream lists. */
  lemma UpstreamInvertsDownstream(state: CompiledState, node: string, active: string)
    requires StateOk(state)
    ensures node in Upstream(state, active) <==> active in Lookup(state.graph, node)
    ensures SortedBy(TextLeq, Upstream(state, active))
  {
    PredecessorsInvertLookup(state.graph, node, active);
    SameMembers(Upstream(state, active), Predecessors(state.graph, active));
    TextOrder(Predecessors(state.graph, active));
    SortSorts(TextLeq, Predecessors(state.graph, active));
  }

  const ALL_OUTCOMES: seq<OutcomeText> := [
    OutcomeText("ARTIFACT", Some(Artifact)), OutcomeText("EXTERNAL_STATE", Some(ExternalState)),
    OutcomeText("HUMAN_STATE", Some(HumanState)), OutcomeText("SYSTEM_STATE", Some(SystemState))]

  function AuthoritySource(state: CompiledState): string {
    "compiled-context:" + state.sourceFingerprint
  }

  function StandingAuthority(state: CompiledState): seq<RawProfile> {
    [RawProfile("REVERSIBLE", Reversible, false, [AuthoritySource(state)])]
  }

  function BridgePolicy(state: CompiledState, active: string): RawPolicy {
    RawPolicy(Lookup(state.dispatch, active), Upstream(state, active), Lookup(state.graph, active),
              ALL_OUTCOMES, StandingAuthority(state))
  }

  function SnapshotId(state: CompiledState): string {
    "compiled:" + state.jobId + ":" + if |state.fingerprint| < 16 then state.fingerprint else state.fingerprint[..16]
  }

  function BridgeRaw(state: CompiledState, ttl: int): RawSnapshot {
    RawSnapshot(SnapshotId(state), state.sourceFingerprint, state.compiledAt, state.compiledAt + ttl,
                state.scope, state.owners, map o | o in state.scope :: BridgePolicy(state, o), [])
  }

  /** compiled_state_to_trusted_snapshot; None is a refused ttl or a refused snapshot. */
  method CompiledStateToTrustedSnapshot(state: CompiledState, ttl: int) returns (r: Option<Snapshot>)
    ensures r == if ttl < 1 then None else Validated(BridgeRaw(state, ttl))
  {
    hide Validated, BridgePolicy, SnapshotId;
    if ttl < 1 {
      return None;
    }
    var policies: map<string, RawPolicy> := map[];
    for i := 0 to |state.scope|
      invariant policies == map o | o in state.scope[..i] :: BridgePolicy(state, o)
    {
      assert state.scope[..i + 1] == state.scope[..i] + [state.scope[i]];
      policies := policies[state.scope[i] := BridgePolicy(state, state.scope[i])];
    }
    assert state.scope[..|state.scope|] == state.scope;
    r := ValidateSnapshot(RawSnapshot(
      SnapshotId(state), state.sourceFingerprint, state.compiledAt, state.compiledAt + ttl,
      state.scope, state.owners, policies, []));
  }

  ghost predicate FromBridge(s: Snapshot) {
    Trusted(s) && exists state, ttl :: BridgeRaw(state, ttl) == s.fingerprint.preimage
  }

  lemma StandingProfiles(state: CompiledState)
    ensures Profiles(StandingAuthority(state)) == map[Reversible := Profile(false, {AuthoritySource(state)})]
  {
    var only := StandingAuthority(state);
    assert only[..0] == [] && Profiles(only[..0]) == map[];
    assert NormalProfile(only[0]) == Profile(false, {AuthoritySource(state)});
  }

  lemma BridgePolicies(state: CompiledState, ttl: int, s: Snapshot, active: string)
    requires Validated(BridgeRaw(state, ttl)) == Some(s) && active in s.policies
    ensures s.policies[active].authority == map[Reversible := Profile(false, {AuthoritySource(state)})]
  {
    var raw := BridgeRaw(state, ttl).policies;
    assert s.policies == Policies(raw);
    assert raw[active] == BridgePolicy(state, active);
    StandingProfiles(state);
  }

  lemma ValidatedApprovals(raw: RawSnapshot)
    requires Validated(raw).Some?
    ensures Validated(raw).value.approvals == ApprovalTable(raw.approvals)
  {
  }

  /** Compiled context carries standing authority for reversible work only, and no approval at all. */
  lemma BridgeAllowsOnlyReversible(e: Envelope, s: Snapshot, now: int)
    requires FromBridge(s) && Agrees(e, s, now)
    ensures e.authority.actionClass == Reversible && !e.authority.requiresHuman
    ensures s.approvals == map[]
  {
    hide ValidEnvelope, RawOk, Validated, Policies, BridgePolicy;
    var state, ttl :| BridgeRaw(state, ttl) == s.fingerprint.preimage;
    BridgePolicies(state, ttl, s, e.activeObject);
    ValidatedApprovals(s.fingerprint.preimage);
  }
}
