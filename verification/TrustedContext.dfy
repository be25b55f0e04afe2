/** Trusted context snapshots, their agreement with an envelope, and the file provider
    (governance/trusted_context.py). */
module TrustedContext {
  import opened Prelude
  import opened Authority
  import opened ExecutionEnvelope

  // ----- Raw snapshots, as the sync process writes them

  /** An entry of authority_by_action_class: its key is some spelling that upper-cases to a class. */
  datatype RawProfile = RawProfile(
    spelling: string, actionClass: ActionClass, requiresHuman: bool, sourceRefs: seq<string>)

  datatype RawPolicy = RawPolicy(
    requiredFunctions: seq<string>, upstream: seq<string>, downstream: seq<string>,
    outcomes: seq<OutcomeText>, authority: seq<RawProfile>)

  /** An entry of allowed_outcome_classes: some spelling and the class it upper-cases to, if any. Two
      spellings of one class are different entries; one that names no class never matches. */
  datatype OutcomeText = OutcomeText(spelling: string, names: Option<OutcomeClass>)

  datatype RawApproval = RawApproval(approvalId: string, fingerprint: IntentFingerprint, sourceRef: string)

  datatype RawSnapshot = RawSnapshot(
    snapshotId: string, sourceFingerprint: string, observedAt: int, expiresAt: int, scope: seq<string>,
    owners: map<Plane, string>, policies: map<string, RawPolicy>, approvals: seq<RawApproval>)

  // ----- Validated snapshots

  datatype Profile = Profile(requiresHuman: bool, sourceRefs: set<string>)

  datatype Policy = Policy(
    requiredFunctions: set<string>, upstream: set<string>, downstream: set<string>,
    outcomes: set<OutcomeClass>, authority: map<ActionClass, Profile>)

  datatype Approval = Approval(fingerprint: IntentFingerprint, sourceRef: string)

  datatype Snapshot = Snapshot(
    snapshotId: string, expiresAt: int, scope: set<string>, owners: map<Plane, string>,
    policies: map<string, Policy>, approvals: map<string, Approval>, fingerprint: Digest<RawSnapshot>)

  predicate TextSet(xs: seq<string>, allowEmpty: bool) {
    StringList(xs, allowEmpty)
  }

  // ----- Approvals

  predicate ApprovalOk(a: RawApproval) {
    a.approvalId != "" && a.sourceRef != "" && a.fingerprint != OtherText("")
  }

  function Ids(raw: seq<RawApproval>): seq<string> {
    seq(|raw|, i requires 0 <= i < |raw| => raw[i].approvalId)
  }

  predicate ApprovalsOk(raw: seq<RawApproval>) {
    (forall i :: 0 <= i < |raw| ==> ApprovalOk(raw[i])) && Distinct(Ids(raw))
  }

  function ApprovalTable(raw: seq<RawApproval>): (table: map<string, Approval>)
    ensures forall id :: id in table <==> id in Ids(raw)
  {
    if raw == [] then map[]
    else
      var rest, last := raw[..|raw| - 1], raw[|raw| - 1];
      assert Ids(raw) == Ids(rest) + [last.approvalId];
      ApprovalTable(rest)[last.approvalId := Approval(last.fingerprint, last.sourceRef)]
  }

  /** Every listed approval is found under its own id. */
  lemma {:induction false} ApprovalTableMeans(raw: seq<RawApproval>, i: nat)
    requires ApprovalsOk(raw) && i < |raw|
    ensures raw[i].approvalId in ApprovalTable(raw)
    ensures ApprovalTable(raw)[raw[i].approvalId] == Approval(raw[i].fingerprint, raw[i].sourceRef)
  {
    var rest, last := raw[..|raw| - 1], raw[|raw| - 1];
    assert Ids(raw) == Ids(rest) + [last.approvalId];
    if i < |rest| {
      assert forall k :: 0 <= k < |rest| ==> Ids(rest)[k] == Ids(raw)[k];
      ApprovalTableMeans(rest, i);
      assert Ids(raw)[i] != Ids(raw)[|rest|];
    }
  }

  /** The loop of _approval_records. */
  method ApprovalRecords(raw: seq<RawApproval>) returns (r: Option<map<string, Approval>>)
    ensures r == if ApprovalsOk(raw) then Some(ApprovalTable(raw)) else None
  {
    var approvals: map<string, Approval> := map[];
    for i := 0 to |raw|
      invariant forall k :: 0 <= k < i ==> ApprovalOk(raw[k])
      invariant Distinct(Ids(raw[..i])) && approvals == ApprovalTable(raw[..i])
    {
      var item := raw[i];
      ghost var done := raw[..i];
      ghost var next := raw[..i + 1];
      assert next[..i] == done && Ids(next) == Ids(done) + [item.approvalId];
      if item.approvalId in approvals || !ApprovalOk(item) {
        if item.approvalId in Ids(done) {
          var k :| 0 <= k < i && Ids(done)[k] == item.approvalId;
          assert Ids(raw)[k] == Ids(raw)[i];
        }
        return None;
      }
      approvals := approvals[item.approvalId := Approval(item.fingerprint, item.sourceRef)];
    }
    assert raw[..|raw|] == raw;
    return Some(approvals);
  }

  // ----- Authority profiles

  predicate StatefulClass(c: ActionClass) {
    c.Reversible? || c.Compensatable? || c.Irreversible?
  }

  predicate ProfileOk(raw: RawProfile) {
    StatefulClass(raw.actionClass) && TextSet(raw.sourceRefs, false)
  }

  function Classes(raw: seq<RawProfile>): seq<ActionClass> {
    seq(|raw|, i requires 0 <= i < |raw| => raw[i].actionClass)
  }

  /** Only stateful classes, each spelled once, each with at least one source. */
  predicate ProfilesOk(raw: seq<RawProfile>) {
    raw != [] && (forall i :: 0 <= i < |raw| ==> ProfileOk(raw[i])) && Distinct(Classes(raw))
  }

  function NormalProfile(raw: RawProfile): Profile {
    Profile(raw.requiresHuman, Elements(raw.sourceRefs))
  }

  function Profiles(raw: seq<RawProfile>): (profiles: map<ActionClass, Profile>)
    ensures forall c :: c in profiles <==> c in Classes(raw)
  {
    if raw == [] then map[]
    else
      var rest, last := raw[..|raw| - 1], raw[|raw| - 1];
      assert Classes(raw) == Classes(rest) + [last.actionClass];
      Profiles(rest)[last.actionClass := NormalProfile(last)]
  }

  /** Every listed profile is found under its own class. */
  lemma {:induction false} ProfilesMean(raw: seq<RawProfile>, i: nat)
    requires ProfilesOk(raw) && i < |raw|
    ensures raw[i].actionClass in Profiles(raw) && Profiles(raw)[raw[i].actionClass] == NormalProfile(raw[i])
  {
    var rest, last := raw[..|raw| - 1], raw[|raw| - 1];
    assert Classes(raw) == Classes(rest) + [last.actionClass];
    if i < |rest| {
      assert forall k :: 0 <= k < |rest| ==> Classes(rest)[k] == Classes(raw)[k];
      ProfilesMean(rest, i);
      assert Classes(raw)[i] != Classes(raw)[|rest|];
    }
  }

  /** The loop of _authority_profiles. */
  method AuthorityProfiles(raw: seq<RawProfile>) returns (r: Option<map<ActionClass, Profile>>)
    ensures r == if ProfilesOk(raw) then Some(Profiles(raw)) else None
  {
    hide TextSet, StatefulClass, NormalProfile;
    if raw == [] {
      return None;
    }
    var profiles: map<ActionClass, Profile> := map[];
    for i := 0 to |raw|
      invariant forall k :: 0 <= k < i ==> ProfileOk(raw[k])
      invariant Distinct(Classes(raw[..i])) && profiles == Profiles(raw[..i])
    {
      var item := raw[i];
      ghost var done := raw[..i];
      ghost var next := raw[..i + 1];
      assert next[..i] == done && Classes(next) == Classes(done) + [item.actionClass];
      if item.actionClass in profiles || !ProfileOk(item) {
        if item.actionClass in Classes(done) {
          var k :| 0 <= k < i && Classes(done)[k] == item.actionClass;
          assert Classes(raw)[k] == Classes(raw)[i];
        }
        return None;
      }
      profiles := profiles[item.actionClass := NormalProfile(item)];
    }
    assert raw[..|raw|] == raw;
    return Some(profiles);
  }

  // ----- Policies and whole snapshots

  function Spellings(outcomes: seq<OutcomeText>): seq<string> {
    seq(|outcomes|, i requires 0 <= i < |outcomes| => outcomes[i].spelling)
  }

  function NamedClasses(outcomes: seq<OutcomeText>): set<OutcomeClass> {
    set i | 0 <= i < |outcomes| && outcomes[i].names.Some? :: outcomes[i].names.value
  }

  predicate ListsOk(raw: RawPolicy) {
    && TextSet(raw.requiredFunctions, false) && TextSet(raw.upstream, true) && TextSet(raw.downstream, true)
    && TextSet(Spellings(raw.outcomes), false)
  }

  predicate PolicyOk(raw: RawPolicy) {
    ListsOk(raw) && ProfilesOk(raw.authority)
  }

  function NormalPolicy(raw: RawPolicy): Policy {
    Policy(Elements(raw.requiredFunctions), Elements(raw.upstream), Elements(raw.downstream),
           NamedClasses(raw.outcomes), Profiles(raw.authority))
  }

  predicate PoliciesOk(raw: map<string, RawPolicy>) {
    raw != map[] && "" !in raw && forall o :: o in raw ==> PolicyOk(raw[o])
  }

  function Policies(raw: map<string, RawPolicy>): map<string, Policy> {
    map o | o in raw :: NormalPolicy(raw[o])
  }

  predicate HeaderOk(raw: RawSnapshot) {
    && raw.snapshotId != "" && raw.sourceFingerprint != "" && raw.observedAt < raw.expiresAt
    && TextSet(raw.scope, false) && OwnersOk(raw.owners)
  }

  predicate RawOk(raw: RawSnapshot) {
    HeaderOk(raw) && PoliciesOk(raw.policies) && ApprovalsOk(raw.approvals)
  }

  function Validated(raw: RawSnapshot): Option<Snapshot> {
    if RawOk(raw) then
      Some(Snapshot(raw.snapshotId, raw.expiresAt, Elements(raw.scope), raw.owners,
                    Policies(raw.policies), ApprovalTable(raw.approvals), Sha256(raw)))
    else None
  }

  method NormalizePolicy(raw: RawPolicy) returns (r: Option<Policy>)
    ensures r == if PolicyOk(raw) then Some(NormalPolicy(raw)) else None
  {
    var profiles := AuthorityProfiles(raw.authority);
    if !ListsOk(raw) || profiles.None? {
      return None;
    }
    return Some(Policy(Elements(raw.requiredFunctions), Elements(raw.upstream), Elements(raw.downstream),
                       NamedClasses(raw.outcomes), profiles.value));
  }

  /** The policy loop of validate_trusted_context_snapshot. */
  method NormalizePolicies(raw: map<string, RawPolicy>) returns (r: Option<map<string, Policy>>)
    ensures r == if PoliciesOk(raw) then Some(Policies(raw)) else None
  {
    hide PolicyOk, NormalPolicy;
    if raw == map[] {
      return None;
    }
    var policies: map<string, Policy> := map[];
    var remaining := raw.Keys;
    while remaining != {}
      invariant remaining <= raw.Keys && policies.Keys == raw.Keys - remaining && "" !in policies
      invariant forall o :: o in policies ==> PolicyOk(raw[o]) && policies[o] == NormalPolicy(raw[o])
      decreases remaining
    {
      var active :| active in remaining;
      var policy := NormalizePolicy(raw[active]);
      if active == "" || policy.None? {
        return None;
      }
      policies := policies[active := policy.value];
      remaining := remaining - {active};
    }
    assert policies == Policies(raw);
    return Some(policies);
  }

  /** validate_trusted_context_snapshot. */
  method ValidateSnapshot(raw: RawSnapshot) returns (r: Option<Snapshot>)
    ensures r == Validated(raw)
  {
    if !HeaderOk(raw) {
      return None;
    }
    var policies := NormalizePolicies(raw.policies);
    var approvals := ApprovalRecords(raw.approvals);
    if policies.None? || approvals.None? {
      return None;
    }
    return Some(Snapshot(raw.snapshotId, raw.expiresAt, Elements(raw.scope), raw.owners,
                         policies.value, approvals.value, Sha256(raw)));
  }

  /** A snapshot object that validate_trusted_context_snapshot returned. */
  predicate Trusted(s: Snapshot) {
    Validated(s.fingerprint.preimage) == Some(s)
  }

  // ----- Agreement between an envelope and a snapshot

  /** The list holds every needed text. */
  predicate Includes(given: seq<string>, needed: set<string>) {
    forall x :: x in needed ==> x in given
  }

  predicate PolicyAgrees(e: Envelope, policy: Policy) {
    && Includes(e.requiredFunctions, policy.requiredFunctions)
    && Includes(e.upstream, policy.upstream) && Includes(e.downstream, policy.downstream)
    && e.outcome in policy.outcomes
    && e.authority.actionClass in policy.authority
    && e.authority.requiresHuman == policy.authority[e.authority.actionClass].requiresHuman
    && e.authority.sourceRef in policy.authority[e.authority.actionClass].sourceRefs
  }

  /** crosscheck_execution_envelope accepts. */
  predicate Agrees(e: Envelope, s: Snapshot, now: int) {
    && ValidEnvelope(e) && now <= s.expiresAt
    && e.activeObject in s.policies && Includes(e.scope, s.scope)
    && (forall i :: 0 <= i < |e.scope| ==> e.scope[i] in s.scope)
    && (forall p: Plane :: p in s.owners && e.owners[p] == s.owners[p])
    && PolicyAgrees(e, s.policies[e.activeObject])
  }

  /** require_trusted_approval accepts; its text checks are those of ApprovalOk. */
  predicate TrustedApproval(s: Snapshot, approval: ApprovalBinding) {
    && ApprovalOk(RawApproval(approval.approvalId, approval.fingerprint, approval.sourceRef))
    && approval.approvalId in s.approvals
    && s.approvals[approval.approvalId] == Approval(approval.fingerprint, approval.sourceRef)
  }

  lemma PolicyClasses(raw: RawPolicy, c: ActionClass)
    requires PolicyOk(raw) && c in NormalPolicy(raw).authority
    ensures StatefulClass(c)
  {
    hide ListsOk;
    var i :| 0 <= i < |raw.authority| && Classes(raw.authority)[i] == c;
    assert ProfileOk(raw.authority[i]);
  }

  /** A read-only or unknown action class never agrees with any validated snapshot, whatever its policies:
      the later READ_ONLY refusal of permit issuance cannot be reached. */
  lemma OnlyStatefulClassesAgree(e: Envelope, s: Snapshot, now: int)
    requires Trusted(s) && Agrees(e, s, now)
    ensures StatefulClass(e.authority.actionClass)
  {
    hide ValidEnvelope, HeaderOk, PolicyOk, NormalPolicy, ApprovalTable;
    var raw := s.fingerprint.preimage;
    PolicyClasses(raw.policies[e.activeObject], e.authority.actionClass);
  }

  // ----- The file provider

  datatype Entry = NotAnObject | Entry(raw: RawSnapshot)

  datatype Store = Unavailable | Store(current: Option<string>, snapshots: seq<Entry>)

  /** The one snapshot id a store serves. */
  function CurrentId(store: Store): Option<string> {
    if store.Unavailable? then None
    else match store.current
      case Some(id) => if id == "" then None else Some(id)
      case None =>
        if |store.snapshots| == 1 && store.snapshots[0].Entry? && store.snapshots[0].raw.snapshotId != ""
        then Some(store.snapshots[0].raw.snapshotId)
        else None
  }

  predicate Carries(entry: Entry, id: string) {
    entry.Entry? && entry.raw.snapshotId == id
  }

  predicate OnlyCarrier(entries: seq<Entry>, id: string, i: int) {
    && 0 <= i < |entries| && Carries(entries[i], id)
    && forall j :: 0 <= j < |entries| && Carries(entries[j], id) ==> j == i
  }

  function Matches(entries: seq<Entry>, id: string): seq<RawSnapshot> {
    if entries == [] then []
    else
      var rest := Matches(entries[1..], id);
      if Carries(entries[0], id) then [entries[0].raw] + rest else rest
  }

  function Get(store: Store, id: string): Option<Snapshot> {
    if id == "" || CurrentId(store) != Some(id) then None
    else
      var matches := Matches(store.snapshots, id);
      if |matches| != 1 then None else Validated(matches[0])
  }

  lemma {:induction false} MatchesAreCarriers(entries: seq<Entry>, id: string)
    ensures forall raw :: raw in Matches(entries, id) <==> Entry(raw) in entries && raw.snapshotId == id
    ensures |Matches(entries, id)| == 0 <==> forall i :: 0 <= i < |entries| ==> !Carries(entries[i], id)
    ensures |Matches(entries, id)| == 1 <==> exists i :: OnlyCarrier(entries, id, i)
  {
    if entries != [] {
      var rest := entries[1..];
      MatchesAreCarriers(rest, id);
      assert entries == [entries[0]] + rest;
      assert forall j :: 0 < j < |entries| ==> entries[j] == rest[j - 1];
      assert forall j :: 0 <= j < |rest| ==> rest[j] == entries[j + 1];
      if Carries(entries[0], id) {
        assert |Matches(entries, id)| == 1 + |Matches(rest, id)|;
        if |Matches(rest, id)| != 0 {
          var k :| 0 <= k < |rest| && Carries(rest[k], id);
          assert Carries(entries[k + 1], id);
        } else {
          assert OnlyCarrier(entries, id, 0);
        }
      } else if |Matches(rest, id)| == 1 {
        var k :| OnlyCarrier(rest, id, k);
        assert Carries(entries[k + 1], id);
        forall j | 0 <= j < |entries| && Carries(entries[j], id) ensures j == k + 1 {
          assert Carries(rest[j - 1], id);
        }
        assert OnlyCarrier(entries, id, k + 1);
      } else if exists i :: OnlyCarrier(entries, id, i) {
        var i :| OnlyCarrier(entries, id, i);
        assert Carries(rest[i - 1], id);
        forall j | 0 <= j < |rest| && Carries(rest[j], id) ensures j == i - 1 {
          assert Carries(entries[j + 1], id);
        }
        assert OnlyCarrier(rest, id, i - 1);
      }
    }
  }

  /** What the provider serves: under the store's one current id, the one entry that carries it, and only
      when that entry validates. So no caller can revive a superseded snapshot by naming it. */
  lemma ServesOnlyTheCurrentSnapshot(store: Store, id: string)
    ensures Get(store, id).Some? <==>
      && id != "" && CurrentId(store) == Some(id)
      && exists i :: OnlyCarrier(store.snapshots, id, i) && RawOk(store.snapshots[i].raw)
    ensures Get(store, id).Some? ==>
      && Trusted(Get(store, id).value) && Get(store, id).value.snapshotId == id
      && Entry(Get(store, id).value.fingerprint.preimage) in store.snapshots
  {
    if id != "" && CurrentId(store) == Some(id) {
      MatchesAreCarriers(store.snapshots, id);
      var matches := Matches(store.snapshots, id);
      if |matches| == 1 {
        assert matches[0] in matches;
        var i :| 0 <= i < |store.snapshots| && store.snapshots[i] == Entry(matches[0]);
        assert Carries(store.snapshots[i], id);
      }
    }
  }

  /** A store serves at most one id. */
  lemma OneIdIsCurrent(store: Store, a: string, b: string)
    requires Get(store, a).Some? && Get(store, b).Some?
    ensures a == b
  {
    ServesOnlyTheCurrentSnapshot(store, a);
    ServesOnlyTheCurrentSnapshot(store, b);
  }
}
