/** Construction programs, their validation and their scheduler (governance/model.py). */
module ConstructionProgram {
  import opened Prelude
  import opened DependencySearch

  datatype Dimension =
    | Mapped | Implemented | Integrated | Reachable | Verified
    | Recoverable | AuthoritySafe | ConsumerAccepted | ValueEvidenced

  /** A recorded state; every text other than the two exact ones is Other. */
  datatype CellState = Proven | Unproven | Other(text: string)

  datatype Cell = Cell(state: CellState, refs: seq<string>, observed: Option<string>)

  type Evidence = map<Dimension, Cell>

  /** claim_state: only an explicit PROVEN counts, whatever other completion words a record uses. */
  predicate ClaimProven(evidence: Evidence, dimension: Dimension) {
    dimension in evidence && evidence[dimension].state == Proven
  }

  datatype Obligation =
    | Required | Conditional(applies: bool)
    | Optional(advertised: bool, profileRequires: bool)
    | AdvertisedCapability(isAdvertised: bool) | AcceptanceProfile(isRequired: bool)
    | UnknownClass

  datatype Child = Child(obligation: Obligation, evidence: Evidence)

  function ObligationIsRequired(o: Obligation): Option<bool> {
    match o
    case Required => Some(true)
    case Conditional(applies) => Some(applies)
    case Optional(advertised, profile) => Some(advertised || profile)
    case AdvertisedCapability(advertised) => Some(advertised)
    case AcceptanceProfile(required) => Some(required)
    case UnknownClass => None
  }

  /** derive_parent_state: None is the error for an unknown obligation class. */
  function DeriveParentState(children: seq<Child>, dimension: Dimension): Option<bool> {
    if exists k :: 0 <= k < |children| && ObligationIsRequired(children[k].obligation) == None then None
    else Some(
      && (exists k :: 0 <= k < |children| && ObligationIsRequired(children[k].obligation) == Some(true))
      && (forall k :: 0 <= k < |children| && ObligationIsRequired(children[k].obligation) == Some(true) ==>
            ClaimProven(children[k].evidence, dimension)))
  }

  datatype State = Active | Waiting | Blocked | Complete | InvalidState

  datatype Package = Package(
    workId: string, parent: string, state: State, paths: seq<string>, requirements: seq<string>,
    authorityClass: string, dependencies: seq<string>, evidence: Evidence, allowlist: set<Dimension>)

  datatype Program = Program(
    id: string, state: State, authoritySource: string, allowedPaths: seq<string>,
    allowedRequirements: seq<string>, allowedAuthority: seq<string>, packages: seq<Package>)

  datatype ProgramError =
    | InvalidProgram | InvalidPackage(work: string) | DuplicatePackage(dup: string)
    | UnknownDependency(dependent: string) | SelfDependency(self: string) | DependencyCycle(through: string)
    | InvalidIncident

  // ----- Validation

  /** _as_set accepts a list without empty or repeated values. */
  predicate CleanList(xs: seq<string>) {
    Distinct(xs) && "" !in xs
  }

  predicate PackageOk(p: Package, program: Program) {
    && p.workId != "" && p.parent == program.id && p.state != InvalidState
    && CleanList(p.paths) && CleanList(p.requirements) && p.paths != [] && p.requirements != []
    && Elements(p.paths) <= Elements(program.allowedPaths)
    && Elements(p.requirements) <= Elements(program.allowedRequirements)
    && p.authorityClass in program.allowedAuthority
    && CleanList(p.dependencies)
  }

  predicate HeaderOk(program: Program) {
    && program.id != "" && program.state != InvalidState && program.authoritySource != ""
    && CleanList(program.allowedPaths) && CleanList(program.allowedRequirements)
    && CleanList(program.allowedAuthority)
  }

  predicate DistinctIds(ps: seq<Package>) {
    forall i, j :: 0 <= i < j < |ps| ==> ps[i].workId != ps[j].workId
  }

  predicate HasId(ps: seq<Package>, w: string) {
    exists i :: 0 <= i < |ps| && ps[i].workId == w
  }

  predicate DependenciesOk(ps: seq<Package>) {
    && (forall i, k :: 0 <= i < |ps| && 0 <= k < |ps[i].dependencies| ==> HasId(ps, ps[i].dependencies[k]))
    && (forall i :: 0 <= i < |ps| ==> ps[i].workId !in ps[i].dependencies)
  }

  /** Everything the validator checks before it looks for cycles. */
  predicate EarlierChecks(program: Program) {
    && HeaderOk(program)
    && (forall i :: 0 <= i < |program.packages| ==> PackageOk(program.packages[i], program))
    && DistinctIds(program.packages)
    && DependenciesOk(program.packages)
  }

  function Ids(ps: seq<Package>): seq<string> {
    seq(|ps|, i requires 0 <= i < |ps| => ps[i].workId)
  }

  /** The package an id names; the first one when ids repeat. */
  function Lookup(ps: seq<Package>, w: string): (p: Package)
    requires HasId(ps, w)
    ensures p in ps && p.workId == w
  {
    if ps[0].workId == w then ps[0]
    else
      assert HasId(ps[1..], w) by {
        var i :| 0 <= i < |ps| && ps[i].workId == w;
        assert ps[1..][i - 1].workId == w;
      }
      Lookup(ps[1..], w)
  }

  lemma LookupIs(ps: seq<Package>, i: nat)
    requires DistinctIds(ps) && i < |ps|
    ensures HasId(ps, ps[i].workId) && Lookup(ps, ps[i].workId) == ps[i]
  {
    var p := Lookup(ps, ps[i].workId);
    var j :| 0 <= j < |ps| && ps[j] == p;
  }

  function IdSet(ps: seq<Package>): set<string> {
    set i | 0 <= i < |ps| :: ps[i].workId
  }

  function GraphOf(ps: seq<Package>): (g: Graph)
    ensures g.Keys == IdSet(ps)
  {
    map w | w in IdSet(ps) :: Lookup(ps, w).dependencies
  }

  lemma GraphIsClosed(ps: seq<Package>)
    requires DistinctIds(ps) && DependenciesOk(ps)
    ensures Closed(GraphOf(ps))
  {
    var g := GraphOf(ps);
    forall w, k | w in g && 0 <= k < |g[w]| ensures g[w][k] in g {
      var i :| 0 <= i < |ps| && ps[i].workId == w;
      LookupIs(ps, i);
      assert HasId(ps, ps[i].dependencies[k]);
    }
  }

  ghost predicate ValidProgram(program: Program) {
    EarlierChecks(program) && Acyclic(GraphOf(program.packages))
  }

  /** The loop over packages with its set of ids already seen. */
  method CheckPackages(program: Program) returns (error: Option<ProgramError>)
    ensures error.None? <==>
      && (forall i :: 0 <= i < |program.packages| ==> PackageOk(program.packages[i], program))
      && DistinctIds(program.packages)
    ensures error.Some? ==> !error.value.DependencyCycle?
  {
    var ps := program.packages;
    var seen: set<string> := {};
    for i := 0 to |ps|
      invariant forall k :: 0 <= k < i ==> PackageOk(ps[k], program)
      invariant seen == IdSet(ps[..i]) && DistinctIds(ps[..i])
    {
      if !PackageOk(ps[i], program) {
        return Some(InvalidPackage(ps[i].workId));
      }
      if ps[i].workId in seen {
        var k :| 0 <= k < i && ps[..i][k].workId == ps[i].workId;
        assert ps[k].workId == ps[i].workId;
        return Some(DuplicatePackage(ps[i].workId));
      }
      seen := seen + {ps[i].workId};
    }
    assert ps[..|ps|] == ps;
    return None;
  }

  /** The loop over dependencies: known ones only, and never the package itself. */
  method CheckDependencies(ps: seq<Package>) returns (error: Option<ProgramError>)
    ensures error.None? <==> DependenciesOk(ps)
    ensures error.Some? ==> !error.value.DependencyCycle?
  {
    var seen := IdSet(ps);
    for i := 0 to |ps|
      invariant forall j, k :: 0 <= j < i && 0 <= k < |ps[j].dependencies| ==> HasId(ps, ps[j].dependencies[k])
      invariant forall j :: 0 <= j < i ==> ps[j].workId !in ps[j].dependencies
    {
      if exists k :: 0 <= k < |ps[i].dependencies| && ps[i].dependencies[k] !in seen {
        return Some(UnknownDependency(ps[i].workId));
      }
      if ps[i].workId in ps[i].dependencies {
        return Some(SelfDependency(ps[i].workId));
      }
    }
    return None;
  }

  /** validate_construction_program: accepts exactly the valid programs; a cycle is reported only for a
      program that passes every earlier check, and the id it names lies on a cycle. */
  method ValidateConstructionProgram(program: Program) returns (error: Option<ProgramError>)
    ensures error.None? <==> ValidProgram(program)
    ensures error.Some? && error.value.DependencyCycle? ==>
      EarlierChecks(program) && OnCycle(GraphOf(program.packages), error.value.through)
    ensures EarlierChecks(program) && error.Some? ==> error.value.DependencyCycle?
  {
    if !HeaderOk(program) {
      return Some(InvalidProgram);
    }
    var ps := program.packages;
    error := CheckPackages(program);
    if error.Some? {
      return;
    }
    error := CheckDependencies(ps);
    if error.Some? {
      return;
    }
    GraphIsClosed(ps);
    IdsAreKeys(ps);
    var cycle, _ := FindCycle(GraphOf(ps), Ids(ps));
    return if cycle.None? then None else Some(DependencyCycle(cycle.value));
  }

  lemma IdsAreKeys(ps: seq<Package>)
    ensures Elements(Ids(ps)) == GraphOf(ps).Keys
  {
    forall w | w in IdSet(ps) ensures w in Elements(Ids(ps)) {
      var i :| 0 <= i < |ps| && ps[i].workId == w;
      assert Ids(ps)[i] == w;
    }
  }

  // ----- Incidents and blockers

  datatype Incident = Incident(
    id: string, open: bool, isGlobal: bool, globalRefs: seq<string>,
    workIds: seq<string>, paths: seq<string>, requirements: seq<string>)

  /** An open incident the hit test refuses to interpret. */
  predicate Malformed(incident: Incident) {
    incident.open &&
    (if incident.isGlobal then !CleanList(incident.globalRefs) || incident.globalRefs == []
     else !CleanList(incident.workIds) || !CleanList(incident.paths) || !CleanList(incident.requirements))
  }

  predicate Overlap(a: seq<string>, b: seq<string>) {
    Elements(a) * Elements(b) != {}
  }

  predicate Hits(incident: Incident, p: Package) {
    && incident.open
    && (incident.isGlobal || p.workId in incident.workIds || Overlap(incident.paths, p.paths)
        || Overlap(incident.requirements, p.requirements))
  }

  datatype Blocker = DependencyBlocker(on: string) | IncidentBlocker(incident: string) | PathConflict(other: string)

  function ActiveOf(ps: seq<Package>): (active: seq<Package>)
    ensures forall p :: p in active <==> p in ps && p.state == Active
  {
    if ps == [] then []
    else
      var last := ps[|ps| - 1];
      assert ps == ps[..|ps| - 1] + [last];
      ActiveOf(ps[..|ps| - 1]) + (if last.state == Active then [last] else [])
  }

  function DependencyBlockers(ps: seq<Package>, dependencies: seq<string>): seq<Blocker>
    requires forall k :: 0 <= k < |dependencies| ==> HasId(ps, dependencies[k])
  {
    if dependencies == [] then []
    else
      var last := dependencies[|dependencies| - 1];
      DependencyBlockers(ps, dependencies[..|dependencies| - 1])
      + (if Lookup(ps, last).state != Complete then [DependencyBlocker(last)] else [])
  }

  function IncidentBlockers(incidents: seq<Incident>, p: Package): seq<Blocker> {
    if incidents == [] then []
    else
      var last := incidents[|incidents| - 1];
      IncidentBlockers(incidents[..|incidents| - 1], p) + (if Hits(last, p) then [IncidentBlocker(last.id)] else [])
  }

  /** The conflicts of active[k] with the first `upto` active packages, in their order. */
  function ConflictBlockers(active: seq<Package>, k: nat, upto: nat): seq<Blocker>
    requires k < |active| && upto <= |active|
  {
    if upto == 0 then []
    else
      ConflictBlockers(active, k, upto - 1)
      + (if upto - 1 != k && Overlap(active[k].paths, active[upto - 1].paths)
         then [PathConflict(active[upto - 1].workId)] else [])
  }

  function BlockersOf(ps: seq<Package>, incidents: seq<Incident>, active: seq<Package>, k: nat): seq<Blocker>
    requires k < |active| && DependenciesOk(ps) && active[k] in ps
  {
    DependencyBlockers(ps, active[k].dependencies) + IncidentBlockers(incidents, active[k])
    + ConflictBlockers(active, k, |active|)
  }

  /** What makes a package eligible, said without lists of reasons. */
  predicate EligiblePackage(ps: seq<Package>, incidents: seq<Incident>, p: Package) {
    && p.state == Active
    && (forall d :: d in p.dependencies ==> HasId(ps, d) && Lookup(ps, d).state == Complete)
    && (forall incident :: incident in incidents ==> !Hits(incident, p))
    && (forall q :: q in ps && q.state == Active && q.workId != p.workId ==> !Overlap(p.paths, q.paths))
  }

  predicate Eligible(ps: seq<Package>, incidents: seq<Incident>, w: string) {
    HasId(ps, w) && EligiblePackage(ps, incidents, Lookup(ps, w))
  }

  lemma {:induction false} NoDependencyBlockers(ps: seq<Package>, dependencies: seq<string>)
    requires forall k :: 0 <= k < |dependencies| ==> HasId(ps, dependencies[k])
    ensures DependencyBlockers(ps, dependencies) == []
       <==> forall d :: d in dependencies ==> HasId(ps, d) && Lookup(ps, d).state == Complete
  {
    if dependencies != [] {
      NoDependencyBlockers(ps, dependencies[..|dependencies| - 1]);
      assert dependencies == dependencies[..|dependencies| - 1] + [dependencies[|dependencies| - 1]];
    }
  }

  lemma {:induction false} NoIncidentBlockers(incidents: seq<Incident>, p: Package)
    ensures IncidentBlockers(incidents, p) == [] <==> forall incident :: incident in incidents ==> !Hits(incident, p)
  {
    if incidents != [] {
      NoIncidentBlockers(incidents[..|incidents| - 1], p);
      assert incidents == incidents[..|incidents| - 1] + [incidents[|incidents| - 1]];
    }
  }

  lemma {:induction false} NoConflictBlockers(active: seq<Package>, k: nat, upto: nat)
    requires k < |active| && upto <= |active|
    ensures ConflictBlockers(active, k, upto) == []
       <==> forall j :: 0 <= j < upto && j != k ==> !Overlap(active[k].paths, active[j].paths)
  {
    if upto > 0 {
      NoConflictBlockers(active, k, upto - 1);
    }
  }

  lemma {:induction false} ActiveDistinct(ps: seq<Package>)
    requires DistinctIds(ps)
    ensures DistinctIds(ActiveOf(ps))
  {
    if ps != [] {
      var rest, last := ps[..|ps| - 1], ps[|ps| - 1];
      ActiveDistinct(rest);
      forall i | 0 <= i < |ActiveOf(rest)| ensures ActiveOf(rest)[i].workId != last.workId {
        assert ActiveOf(rest)[i] in rest;
      }
    }
  }

  lemma AllEmpty<T>(a: seq<T>, b: seq<T>, c: seq<T>)
    ensures a + b + c == [] <==> a == [] && b == [] && c == []
  {
  }

  lemma MemberLookup(ps: seq<Package>, p: Package)
    requires DistinctIds(ps) && p in ps
    ensures HasId(ps, p.workId) && Lookup(ps, p.workId) == p
  {
    var i :| 0 <= i < |ps| && ps[i] == p;
    LookupIs(ps, i);
  }

  /** An active package has no recorded reason against it exactly when it is eligible. */
  lemma UnblockedIsEligible(ps: seq<Package>, incidents: seq<Incident>, k: nat)
    requires DistinctIds(ps) && DependenciesOk(ps) && k < |ActiveOf(ps)|
    ensures ActiveOf(ps)[k] in ps
    ensures BlockersOf(ps, incidents, ActiveOf(ps), k) == []
       <==> EligiblePackage(ps, incidents, ActiveOf(ps)[k])
  {
    var active := ActiveOf(ps);
    var p := active[k];
    assert p in active;
    AllEmpty(DependencyBlockers(ps, p.dependencies), IncidentBlockers(incidents, p),
             ConflictBlockers(active, k, |active|));
    NoDependencyBlockers(ps, p.dependencies);
    NoIncidentBlockers(incidents, p);
    NoConflictBlockers(active, k, |active|);
    ConflictsAreAgainstOthers(ps, k);
  }

  lemma ConflictsAreAgainstOthers(ps: seq<Package>, k: nat)
    requires DistinctIds(ps) && k < |ActiveOf(ps)|
    ensures
      var active := ActiveOf(ps);
      (forall j :: 0 <= j < |active| && j != k ==> !Overlap(active[k].paths, active[j].paths))
      <==> (forall q :: q in ps && q.state == Active && q.workId != active[k].workId ==>
              !Overlap(active[k].paths, q.paths))
  {
    var active := ActiveOf(ps);
    ActiveDistinct(ps);
    forall j | 0 <= j < |active| && j != k
      ensures active[j] in ps && active[j].state == Active && active[j].workId != active[k].workId
    {
      assert active[j] in active;
    }
    forall q | q in ps && q.state == Active && q.workId != active[k].workId
      ensures exists j :: 0 <= j < |active| && j != k && active[j] == q
    {
      assert q in active;
    }
  }

  // ----- Evaluation

  /** What a package's recorded evidence proves; a COMPLETE package may prove neither. */
  datatype PackageState = PackageState(implementation: bool, acceptance: bool)

  datatype Evaluation = Evaluation(
    eligible: seq<string>, blocked: map<string, seq<Blocker>>, states: map<string, PackageState>)

  function StateOf(p: Package): PackageState {
    PackageState(ClaimProven(p.evidence, Implemented), ClaimProven(p.evidence, ConsumerAccepted))
  }

  /** The evaluation gives an answer: a valid program, and no malformed open incident met with active work. */
  ghost predicate CanEvaluate(program: Program, incidents: seq<Incident>) {
    && ValidProgram(program)
    && (ActiveOf(program.packages) != [] ==> forall incident :: incident in incidents ==> !Malformed(incident))
  }

  method DependencyReasons(ps: seq<Package>, p: Package) returns (reasons: seq<Blocker>)
    requires forall k :: 0 <= k < |p.dependencies| ==> HasId(ps, p.dependencies[k])
    ensures reasons == DependencyBlockers(ps, p.dependencies)
  {
    reasons := [];
    for k := 0 to |p.dependencies|
      invariant reasons == DependencyBlockers(ps, p.dependencies[..k])
    {
      if Lookup(ps, p.dependencies[k]).state != Complete {
        reasons := reasons + [DependencyBlocker(p.dependencies[k])];
      }
      assert p.dependencies[..k + 1][..k] == p.dependencies[..k];
    }
    assert p.dependencies[..|p.dependencies|] == p.dependencies;
  }

  method IncidentReasons(incidents: seq<Incident>, p: Package) returns (r: Result<seq<Blocker>, ProgramError>)
    ensures r.Failure? <==> exists incident :: incident in incidents && Malformed(incident)
    ensures r.Failure? ==> r.error == InvalidIncident
    ensures r.Success? ==> r.value == IncidentBlockers(incidents, p)
  {
    var reasons := [];
    for k := 0 to |incidents|
      invariant forall j :: 0 <= j < k ==> !Malformed(incidents[j])
      invariant reasons == IncidentBlockers(incidents[..k], p)
    {
      if Malformed(incidents[k]) {
        assert incidents[k] in incidents;
        return Failure(InvalidIncident);
      }
      if Hits(incidents[k], p) {
        reasons := reasons + [IncidentBlocker(incidents[k].id)];
      }
      assert incidents[..k + 1][..k] == incidents[..k];
    }
    assert incidents[..|incidents|] == incidents;
    return Success(reasons);
  }

  /** The first pass: dependency and incident reasons of every active package. */
  method FirstPass(ps: seq<Package>, active: seq<Package>, incidents: seq<Incident>)
    returns (r: Result<map<string, seq<Blocker>>, ProgramError>)
    requires DependenciesOk(ps) && DistinctIds(active) && forall p :: p in active ==> p in ps
    ensures r.Failure? <==> active != [] && exists incident :: incident in incidents && Malformed(incident)
    ensures r.Failure? ==> r.error == InvalidIncident
    ensures r.Success? ==>
      && r.value.Keys == IdSet(active)
      && forall k :: 0 <= k < |active| ==>
           active[k].workId in r.value && active[k] in ps
           && r.value[active[k].workId] == DependencyBlockers(ps, active[k].dependencies)
                                           + IncidentBlockers(incidents, active[k])
  {
    hide DependencyBlockers, IncidentBlockers, Malformed;
    var blockers: map<string, seq<Blocker>> := map[];
    for i := 0 to |active|
      invariant blockers.Keys == IdSet(active[..i])
      invariant i > 0 ==> forall incident :: incident in incidents ==> !Malformed(incident)
      invariant forall k :: 0 <= k < i ==>
        active[k].workId in blockers && active[k] in ps
        && blockers[active[k].workId] == DependencyBlockers(ps, active[k].dependencies)
                                         + IncidentBlockers(incidents, active[k])
    {
      assert active[i] in active;
      var dependencies := DependencyReasons(ps, active[i]);
      var hits := IncidentReasons(incidents, active[i]);
      if hits.Failure? {
        return Failure(hits.error);
      }
      blockers := blockers[active[i].workId := dependencies + hits.value];
    }
    assert active[..|active|] == active;
    return Success(blockers);
  }

  /** How many of the other active packages the pairwise pass has compared active[k] with, when it is
      about to compare `left` with `right`. */
  function Compared(n: nat, left: nat, right: nat, k: nat): nat {
    if k < left then n else if k == left then right else if k < right then left + 1 else left
  }

  /** active[k] carries its earlier reasons and its conflicts with the packages compared so far. */
  ghost predicate PairsOf(active: seq<Package>, before: map<string, seq<Blocker>>,
                          blockers: map<string, seq<Blocker>>, left: nat, right: nat, k: nat)
    requires left < |active| && right <= |active| && k < |active|
  {
    && active[k].workId in before && active[k].workId in blockers
    && blockers[active[k].workId]
       == before[active[k].workId] + ConflictBlockers(active, k, Compared(|active|, left, right, k))
  }

  ghost predicate PairsSeen(active: seq<Package>, before: map<string, seq<Blocker>>,
                            blockers: map<string, seq<Blocker>>, left: nat, right: nat)
    requires left < |active| && right <= |active|
  {
    && blockers.Keys == before.Keys
    && forall k :: 0 <= k < |active| ==> PairsOf(active, before, blockers, left, right, k)
  }

  /** The quadratic pass: each conflicting pair is noted on both sides, yet every package ends up with
      its conflicts in the order of the active list. */
  method PairwisePass(active: seq<Package>, before: map<string, seq<Blocker>>)
    returns (blockers: map<string, seq<Blocker>>)
    requires active != [] && DistinctIds(active) && before.Keys == IdSet(active)
    ensures PairsSeen(active, before, blockers, |active| - 1, |active|)
  {
    blockers := before;
    NothingCompared(active, before);
    var left := 0;
    while left < |active|
      invariant 0 <= left <= |active|
      invariant left < |active| ==> PairsSeen(active, before, blockers, left, left + 1)
      invariant left == |active| ==> PairsSeen(active, before, blockers, left - 1, |active|)
    {
      blockers := PairwiseRow(active, before, blockers, left);
      if left + 1 < |active| {
        NextRow(active, before, blockers, left);
      }
      left := left + 1;
    }
  }

  /** One row of the quadratic pass: `left` against everything after it. */
  method PairwiseRow(active: seq<Package>, ghost before: map<string, seq<Blocker>>,
                     start: map<string, seq<Blocker>>, left: nat)
    returns (blockers: map<string, seq<Blocker>>)
    requires left < |active| && DistinctIds(active) && PairsSeen(active, before, start, left, left + 1)
    ensures PairsSeen(active, before, blockers, left, |active|)
  {
    blockers := start;
    for right := left + 1 to |active|
      invariant PairsSeen(active, before, blockers, left, right)
    {
      assert PairsOf(active, before, blockers, left, right, left);
      assert PairsOf(active, before, blockers, left, right, right);
      ghost var earlier := blockers;
      if Overlap(active[left].paths, active[right].paths) {
        blockers := NoteConflict(blockers, active[left].workId, active[right].workId);
      }
      ghost var next := right + 1;
      forall k | 0 <= k < |active| ensures PairsOf(active, before, blockers, left, next, k) {
        assert PairsOf(active, before, earlier, left, right, k);
        OnePairMore(active, before, earlier, left, right, k);
      }
    }
  }

  /** Each side of a conflict is told about the other. */
  function NoteConflict(blockers: map<string, seq<Blocker>>, l: string, r: string): map<string, seq<Blocker>>
    requires l in blockers && r in blockers && l != r
  {
    blockers[l := blockers[l] + [PathConflict(r)]][r := blockers[r] + [PathConflict(l)]]
  }

  lemma NothingCompared(active: seq<Package>, before: map<string, seq<Blocker>>)
    requires active != [] && before.Keys == IdSet(active)
    ensures PairsSeen(active, before, before, 0, 1)
  {
    forall k | 0 <= k < |active| ensures PairsOf(active, before, before, 0, 1, k) {
      assert active[k].workId in IdSet(active);
      assert ConflictBlockers(active, k, Compared(|active|, 0, 1, k)) == [];
    }
  }

  lemma OnePairMore(active: seq<Package>, before: map<string, seq<Blocker>>, earlier: map<string, seq<Blocker>>,
                    left: nat, right: nat, k: nat)
    requires left < right < |active| && k < |active| && DistinctIds(active)
    requires PairsOf(active, before, earlier, left, right, k)
    requires active[left].workId in earlier && active[right].workId in earlier
    ensures
      var l, r := active[left], active[right];
      PairsOf(active, before, if Overlap(l.paths, r.paths) then NoteConflict(earlier, l.workId, r.workId) else earlier,
              left, right + 1, k)
  {
    var l, r := active[left], active[right];
    assert Overlap(l.paths, r.paths) == Overlap(r.paths, l.paths);
    if k == left {
      ConflictStep(active, k, right);
    } else if k == right {
      ConflictStep(active, k, left);
    } else {
      assert active[k].workId != l.workId && active[k].workId != r.workId;
      assert Compared(|active|, left, right, k) == Compared(|active|, left, right + 1, k);
    }
  }

  lemma ConflictStep(active: seq<Package>, k: nat, other: nat)
    requires k < |active| && other < |active| && k != other
    ensures ConflictBlockers(active, k, other + 1)
         == ConflictBlockers(active, k, other)
            + (if Overlap(active[k].paths, active[other].paths) then [PathConflict(active[other].workId)] else [])
  {
  }

  lemma NextRow(active: seq<Package>, before: map<string, seq<Blocker>>, blockers: map<string, seq<Blocker>>, left: nat)
    requires left + 1 < |active| && PairsSeen(active, before, blockers, left, |active|)
    ensures PairsSeen(active, before, blockers, left + 1, left + 2)
  {
    var row, column := left + 1, left + 2;
    forall k | 0 <= k < |active| ensures PairsOf(active, before, blockers, row, column, k) {
      assert PairsOf(active, before, blockers, left, |active|, k);
      assert ConflictBlockers(active, k, Compared(|active|, left + 1, left + 2, k))
          == ConflictBlockers(active, k, Compared(|active|, left, |active|, k));
    }
  }

  /** The reasons the evaluation records for each active package. */
  ghost predicate ReasonsRecorded(ps: seq<Package>, incidents: seq<Incident>, blockers: map<string, seq<Blocker>>)
    requires DependenciesOk(ps)
  {
    && blockers.Keys == IdSet(ActiveOf(ps))
    && forall k :: 0 <= k < |ActiveOf(ps)| ==> ReasonsOf(ps, incidents, blockers, k)
  }

  ghost predicate ReasonsOf(ps: seq<Package>, incidents: seq<Incident>, blockers: map<string, seq<Blocker>>, k: nat)
    requires DependenciesOk(ps) && k < |ActiveOf(ps)|
  {
    && ActiveOf(ps)[k] in ps && ActiveOf(ps)[k].workId in blockers
    && blockers[ActiveOf(ps)[k].workId] == BlockersOf(ps, incidents, ActiveOf(ps), k)
  }

  /** Both passes together. */
  method CollectBlockers(ps: seq<Package>, incidents: seq<Incident>)
    returns (r: Result<map<string, seq<Blocker>>, ProgramError>)
    requires DependenciesOk(ps) && DistinctIds(ps)
    ensures r.Failure? <==> ActiveOf(ps) != [] && exists incident :: incident in incidents && Malformed(incident)
    ensures r.Success? ==> ReasonsRecorded(ps, incidents, r.value)
  {
    var active := ActiveOf(ps);
    ActiveDistinct(ps);
    r := FirstPass(ps, active, incidents);
    if r.Failure? || active == [] {
      return;
    }
    var first := r.value;
    var blockers := PairwisePass(active, first);
    forall k | 0 <= k < |active| ensures ReasonsOf(ps, incidents, blockers, k) {
      assert active[k] in active;
      assert PairsOf(active, first, blockers, |active| - 1, |active|, k);
    }
    return Success(blockers);
  }

  /** evaluate_construction_program: fails only for an invalid program or a malformed open incident met
      while some package is active; otherwise it lists exactly the eligible packages and gives every
      other active package its reasons. */
  method EvaluateConstructionProgram(program: Program, incidents: seq<Incident>)
    returns (r: Result<Evaluation, ProgramError>)
    ensures r.Success? <==> CanEvaluate(program, incidents)
    ensures r.Success? ==>
      && Distinct(r.value.eligible)
      && (forall w :: w in r.value.eligible <==> Eligible(program.packages, incidents, w))
      && (exists blockers ::
            && ReasonsRecorded(program.packages, incidents, blockers)
            && r.value.blocked == map w | w in blockers && blockers[w] != [] :: blockers[w])
    ensures r.Success? ==>
      && r.value.states.Keys == IdSet(program.packages)
      && forall k :: 0 <= k < |program.packages| ==>
           && program.packages[k].workId in r.value.states
           && r.value.states[program.packages[k].workId] == StateOf(program.packages[k])
  {
    var error := ValidateConstructionProgram(program);
    if error.Some? {
      return Failure(error.value);
    }
    var ps := program.packages;
    var collected := CollectBlockers(ps, incidents);
    if collected.Failure? {
      return Failure(collected.error);
    }
    var blockers := collected.value;
    ActiveDistinct(ps);
    var eligible := EligibleIds(ActiveOf(ps), blockers);
    EligibleList(ps, incidents, blockers, eligible);
    var states := PackageStates(ps);
    return Success(Evaluation(eligible, map w | w in blockers && blockers[w] != [] :: blockers[w], states));
  }

  method PackageStates(ps: seq<Package>) returns (states: map<string, PackageState>)
    requires DistinctIds(ps)
    ensures states.Keys == IdSet(ps)
    ensures forall k :: 0 <= k < |ps| ==> ps[k].workId in states && states[ps[k].workId] == StateOf(ps[k])
  {
    states := map[];
    for i := 0 to |ps|
      invariant states.Keys == IdSet(ps[..i])
      invariant forall k :: 0 <= k < i ==> ps[k].workId in states && states[ps[k].workId] == StateOf(ps[k])
    {
      states := states[ps[i].workId := StateOf(ps[i])];
    }
    assert ps[..|ps|] == ps;
  }

  method EligibleIds(active: seq<Package>, blockers: map<string, seq<Blocker>>)
    returns (eligible: seq<string>)
    requires DistinctIds(active) && blockers.Keys == IdSet(active)
    ensures Distinct(eligible)
    ensures forall w :: w in eligible <==> w in blockers && blockers[w] == []
  {
    eligible := [];
    assert forall j :: 0 <= j < |active| ==> active[j].workId in IdSet(active);
    for k := 0 to |active|
      invariant forall j :: 0 <= j < k && blockers[active[j].workId] == [] ==> active[j].workId in eligible
      invariant forall i :: 0 <= i < |eligible| ==> eligible[i] in blockers && blockers[eligible[i]] == []
      invariant forall i :: 0 <= i < |eligible| ==> exists j :: 0 <= j < k && active[j].workId == eligible[i]
      invariant Distinct(eligible)
    {
      if blockers[active[k].workId] == [] {
        eligible := eligible + [active[k].workId];
      }
    }
  }

  lemma EligibleList(ps: seq<Package>, incidents: seq<Incident>, blockers: map<string, seq<Blocker>>,
                     eligible: seq<string>)
    requires DistinctIds(ps) && DependenciesOk(ps) && ReasonsRecorded(ps, incidents, blockers)
    requires forall w :: w in eligible <==> w in blockers && blockers[w] == []
    ensures forall w :: w in eligible <==> Eligible(ps, incidents, w)
  {
    var active := ActiveOf(ps);
    forall w | w in eligible ensures Eligible(ps, incidents, w) {
      var k :| 0 <= k < |active| && active[k].workId == w;
      assert ReasonsOf(ps, incidents, blockers, k);
      UnblockedIsEligible(ps, incidents, k);
      MemberLookup(ps, active[k]);
    }
    forall w | Eligible(ps, incidents, w) ensures w in eligible {
      var k :| 0 <= k < |active| && active[k] == Lookup(ps, w);
      assert ReasonsOf(ps, incidents, blockers, k);
      UnblockedIsEligible(ps, incidents, k);
    }
  }
}
