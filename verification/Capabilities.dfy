/** The capability resolver (n0te/capabilities.py). Scores are exact reals. */
module Capabilities {
  import opened Prelude
  import opened Ordering

  datatype RouteKind = HostNative | N0teNative | OwnedTool | Provider | Guided

  datatype Merits = Merits(
    taskFit: real, editability: real, locality: real, privacy: real, latency: real, reversibility: real,
    costEfficiency: real, portability: real, userPreference: real)

  datatype Candidate = Candidate(
    id: string, kind: RouteKind, capability: string, displayName: string, brand: Option<string>, verified: bool,
    compatible: bool, evidenceRef: Option<string>, evidenceAge: Option<nat>, merits: Merits, paid: bool)

  datatype Job = Job(id: string, capability: string, description: string)

  datatype Constraints = Constraints(
    minLocality: real, minPrivacy: real, requireReversible: bool, allowPaid: bool, maxEvidenceAge: Option<nat>)

  // ----- Legitimacy

  /** Reason codes; their texts matter only for the order in which gaps are listed. */
  datatype Code =
    | CapabilityMismatch | Unverified | MissingEvidenceRef | Incompatible | StaleOrUnknownEvidence
    | LocalityBelowMinimum | PrivacyBelowMinimum | ReversibilityRequired | PaidRouteNotAllowed
    | GuidedFallbackOnly | NoLegitimateRoute | NoCandidates | RecommendedHighest | GuidedWasExcluded | TieBroken

  function Text(code: Code): string {
    match code
    case CapabilityMismatch => "CAPABILITY_MISMATCH"
    case Unverified => "UNVERIFIED"
    case MissingEvidenceRef => "MISSING_EVIDENCE_REF"
    case Incompatible => "INCOMPATIBLE"
    case StaleOrUnknownEvidence => "STALE_OR_UNKNOWN_EVIDENCE"
    case LocalityBelowMinimum => "LOCALITY_BELOW_MINIMUM"
    case PrivacyBelowMinimum => "PRIVACY_BELOW_MINIMUM"
    case ReversibilityRequired => "REVERSIBILITY_REQUIRED"
    case PaidRouteNotAllowed => "PAID_ROUTE_NOT_ALLOWED"
    case GuidedFallbackOnly => "GUIDED_FALLBACK_ONLY_AUTOMATION_AVAILABLE"
    case NoLegitimateRoute => "NO_LEGITIMATE_ROUTE"
    case NoCandidates => "NO_CANDIDATES"
    case RecommendedHighest => "RECOMMENDED_HIGHEST_EXPLICIT_SCORE"
    case GuidedWasExcluded => "AUTOMATION_AVAILABLE_GUIDED_EXCLUDED"
    case TieBroken => "SCORE_TIE_BROKEN_BY_CANDIDATE_ID"
  }

  predicate ByText(a: Code, b: Code) {
    TextLeq(Text(a), Text(b))
  }

  predicate EvidenceFresh(c: Candidate, k: Constraints) {
    k.maxEvidenceAge.Some? ==> c.evidenceAge.Some? && c.evidenceAge.value <= k.maxEvidenceAge.value
  }

  predicate Legitimate(job: Job, c: Candidate, k: Constraints) {
    && c.capability == job.capability && c.verified && c.evidenceRef.Some? && c.compatible && EvidenceFresh(c, k)
    && c.merits.locality >= k.minLocality && c.merits.privacy >= k.minPrivacy
    && (k.requireReversible ==> c.merits.reversibility >= 1.0) && (c.paid ==> k.allowPaid)
  }

  function Unless(reasons: seq<Code>, holds: bool, code: Code): seq<Code> {
    if holds then reasons else reasons + [code]
  }

  /** What the route itself lacks. */
  function Shortcomings(job: Job, c: Candidate, k: Constraints): seq<Code> {
    var r := Unless([], c.capability == job.capability, CapabilityMismatch);
    var r := if c.verified then Unless(r, c.evidenceRef.Some?, MissingEvidenceRef) else r + [Unverified];
    var r := Unless(r, c.compatible, Incompatible);
    Unless(r, EvidenceFresh(c, k), StaleOrUnknownEvidence)
  }

  /** What the constraints forbid, after other reasons. */
  function Forbidden(reasons: seq<Code>, c: Candidate, k: Constraints): seq<Code> {
    var r := Unless(reasons, c.merits.locality >= k.minLocality, LocalityBelowMinimum);
    var r := Unless(r, c.merits.privacy >= k.minPrivacy, PrivacyBelowMinimum);
    var r := Unless(r, k.requireReversible ==> c.merits.reversibility >= 1.0, ReversibilityRequired);
    Unless(r, c.paid ==> k.allowPaid, PaidRouteNotAllowed)
  }

  function Reasons(job: Job, c: Candidate, k: Constraints): (r: seq<Code>)
    ensures r == [] <==> Legitimate(job, c, k)
  {
    Forbidden(Shortcomings(job, c, k), c, k)
  }

  /** _reject_reasons. */
  method RejectReasons(job: Job, c: Candidate, k: Constraints) returns (reasons: seq<Code>)
    ensures reasons == Reasons(job, c, k)
  {
    hide Forbidden, Shortcomings;
    reasons := RouteReasons(job, c, k);
    reasons := ConstraintReasons(reasons, c, k);
  }

  method RouteReasons(job: Job, c: Candidate, k: Constraints) returns (reasons: seq<Code>)
    ensures reasons == Shortcomings(job, c, k)
  {
    reasons := [];
    if c.capability != job.capability {
      reasons := reasons + [CapabilityMismatch];
    }
    if !c.verified {
      reasons := reasons + [Unverified];
    } else if c.evidenceRef.None? {
      reasons := reasons + [MissingEvidenceRef];
    }
    if !c.compatible {
      reasons := reasons + [Incompatible];
    }
    if k.maxEvidenceAge.Some? && (c.evidenceAge.None? || c.evidenceAge.value > k.maxEvidenceAge.value) {
      reasons := reasons + [StaleOrUnknownEvidence];
    }
  }

  method ConstraintReasons(before: seq<Code>, c: Candidate, k: Constraints) returns (reasons: seq<Code>)
    ensures reasons == Forbidden(before, c, k)
  {
    reasons := before;
    if c.merits.locality < k.minLocality {
      reasons := reasons + [LocalityBelowMinimum];
    }
    if c.merits.privacy < k.minPrivacy {
      reasons := reasons + [PrivacyBelowMinimum];
    }
    if k.requireReversible && c.merits.reversibility < 1.0 {
      reasons := reasons + [ReversibilityRequired];
    }
    if !k.allowPaid && c.paid {
      reasons := reasons + [PaidRouteNotAllowed];
    }
  }

  // ----- Scores

  function Score(m: Merits): real {
    0.30 * m.taskFit + 0.10 * m.editability + 0.10 * m.locality + 0.10 * m.privacy + 0.10 * m.latency
    + 0.10 * m.reversibility + 0.10 * m.costEfficiency + 0.05 * m.portability + 0.05 * m.userPreference
  }

  predicate UnitMerits(m: Merits) {
    && 0.0 <= m.taskFit <= 1.0 && 0.0 <= m.editability <= 1.0 && 0.0 <= m.locality <= 1.0
    && 0.0 <= m.privacy <= 1.0 && 0.0 <= m.latency <= 1.0 && 0.0 <= m.reversibility <= 1.0
    && 0.0 <= m.costEfficiency <= 1.0 && 0.0 <= m.portability <= 1.0 && 0.0 <= m.userPreference <= 1.0
  }

  datatype Assessment = Assessment(candidate: Candidate, score: real)

  datatype Rejection = Rejection(id: string, kind: RouteKind, displayName: string, reasons: seq<Code>)

  function Assess(c: Candidate): Assessment {
    Assessment(c, Score(c.merits))
  }

  /** Higher score first, then smaller id. */
  predicate Ranks(a: Assessment, b: Assessment) {
    a.score > b.score || (a.score == b.score && TextLeq(a.candidate.id, b.candidate.id))
  }

  predicate ById(a: Rejection, b: Rejection) {
    TextLeq(a.id, b.id)
  }

  // ----- Resolving

  datatype Resolution = Resolution(
    recommended: Option<Assessment>, fallbacks: seq<Assessment>, rejected: seq<Rejection>, codes: seq<Code>)

  function CandidateId(c: Candidate): Option<string> {
    Some(c.id)
  }

  function Ids(cs: seq<Candidate>): seq<string> {
    Collect(CandidateId, cs)
  }

  predicate UniqueIds(cs: seq<Candidate>) {
    Distinct(Ids(cs))
  }

  function Automated(job: Job, k: Constraints): Candidate -> Option<Assessment> {
    c => if Legitimate(job, c, k) && c.kind != Guided then Some(Assess(c)) else None
  }

  function Manual(job: Job, k: Constraints): Candidate -> Option<Assessment> {
    c => if Legitimate(job, c, k) && c.kind == Guided then Some(Assess(c)) else None
  }

  function Unfit(job: Job, k: Constraints): Candidate -> Option<Rejection> {
    c => if Legitimate(job, c, k) then None else Some(Rejection(c.id, c.kind, c.displayName, Reasons(job, c, k)))
  }

  function Excluded(a: Assessment): Rejection {
    Rejection(a.candidate.id, a.candidate.kind, a.candidate.displayName, [GuidedFallbackOnly])
  }

  function ManualRejections(job: Job, k: Constraints): Candidate -> Option<Rejection> {
    c => if Legitimate(job, c, k) && c.kind == Guided then Some(Excluded(Assess(c))) else None
  }

  /** Automated routes when there is one, else the guided ones. */
  function Contenders(job: Job, cs: seq<Candidate>, k: Constraints): seq<Assessment> {
    var automated := Collect(Automated(job, k), cs);
    if automated != [] then automated else Collect(Manual(job, k), cs)
  }

  function Ranked(job: Job, cs: seq<Candidate>, k: Constraints): seq<Assessment> {
    Sort(Ranks, Contenders(job, cs, k))
  }

  function ExcludedGuided(job: Job, cs: seq<Candidate>, k: Constraints): seq<Rejection> {
    if Collect(Automated(job, k), cs) == [] then [] else Sort(ById, Collect(ManualRejections(job, k), cs))
  }

  function Rejected(job: Job, cs: seq<Candidate>, k: Constraints): seq<Rejection> {
    Sort(ById, Collect(Unfit(job, k), cs)) + ExcludedGuided(job, cs, k)
  }

  function AllReasons(rs: seq<Rejection>): seq<Code> {
    if rs == [] then [] else AllReasons(rs[..|rs| - 1]) + rs[|rs| - 1].reasons
  }

  function GapCodes(rejected: seq<Rejection>): seq<Code> {
    [NoLegitimateRoute] + Sort(ByText, Dedup(AllReasons(rejected)))
    + if rejected == [] then [NoCandidates] else []
  }

  predicate Ties(a: Assessment, top: Assessment) {
    -0.000000000001 <= a.score - top.score <= 0.000000000001
  }

  function WinCodes(ranked: seq<Assessment>, guidedExcluded: bool): seq<Code>
    requires ranked != []
  {
    [RecommendedHighest] + (if guidedExcluded then [GuidedWasExcluded] else [])
    + if exists i :: 0 < i < |ranked| && Ties(ranked[i], ranked[0]) then [TieBroken] else []
  }

  function Resolved(job: Job, cs: seq<Candidate>, k: Constraints): Resolution {
    var ranked, rejected := Ranked(job, cs, k), Rejected(job, cs, k);
    if ranked == [] then Resolution(None, [], rejected, GapCodes(rejected))
    else Resolution(Some(ranked[0]), ranked[1..], rejected, WinCodes(ranked, ExcludedGuided(job, cs, k) != []))
  }

  function Fit(job: Job, k: Constraints): Candidate -> Option<Assessment> {
    c => if Legitimate(job, c, k) then Some(Assess(c)) else None
  }

  function IsAutomated(a: Assessment): Option<Assessment> {
    if a.candidate.kind != Guided then Some(a) else None
  }

  function IsGuided(a: Assessment): Option<Rejection> {
    if a.candidate.kind == Guided then Some(Excluded(a)) else None
  }

  /** Filtering the legitimate routes afterwards is filtering the candidates at once. */
  lemma {:induction false} FilteredTwice(job: Job, cs: seq<Candidate>, k: Constraints)
    ensures Collect(IsAutomated, Collect(Fit(job, k), cs)) == Collect(Automated(job, k), cs)
    ensures Collect(IsGuided, Collect(Fit(job, k), cs)) == Collect(ManualRejections(job, k), cs)
    ensures Collect(Automated(job, k), cs) == [] ==> Collect(Fit(job, k), cs) == Collect(Manual(job, k), cs)
  {
    hide Legitimate;
    if cs != [] {
      var rest, last := cs[..|cs| - 1], cs[|cs| - 1];
      assert cs == rest + [last];
      FilteredTwice(job, rest, k);
      CollectTwice(Fit(job, k), IsAutomated, rest, last);
      CollectTwice(Fit(job, k), IsGuided, rest, last);
      CollectMore(Fit(job, k), rest, last);
      CollectMore(Automated(job, k), rest, last);
      CollectMore(Manual(job, k), rest, last);
      CollectMore(ManualRejections(job, k), rest, last);
      hide Collect;
    }
  }

  /** resolve; None is the error for repeated candidate ids. The recommendation's own reason codes are the
      resolution's. */
  method Resolve(job: Job, cs: seq<Candidate>, k: Constraints) returns (r: Option<Resolution>)
    ensures r == if UniqueIds(cs) then Some(Resolved(job, cs, k)) else None
  {
    hide Legitimate, Reasons, Sort, GapCodes, WinCodes, Collect, Distinct, Elements;
    var ids := Ids(cs);
    DistinctCount(ids);
    if |Elements(ids)| != |ids| {
      return None;
    }
    var legitimate, rejected := Partition(job, cs, k);
    rejected := Sort(ById, rejected);
    FilteredTwice(job, cs, k);
    var automated := Collect(IsAutomated, legitimate);
    var guidedExcluded := false;
    if automated != [] {
      var guided := Sort(ById, Collect(IsGuided, legitimate));
      guidedExcluded := guided != [];
      rejected := rejected + guided;
      legitimate := automated;
    } else {
      assert rejected + [] == rejected;
    }
    legitimate := Sort(Ranks, legitimate);
    if legitimate == [] {
      return Some(Resolution(None, [], rejected, GapCodes(rejected)));
    }
    var codes := ResolutionCodes(legitimate, guidedExcluded);
    return Some(Resolution(Some(legitimate[0]), legitimate[1..], rejected, codes));
  }

  method ResolutionCodes(ranked: seq<Assessment>, guidedExcluded: bool) returns (codes: seq<Code>)
    requires ranked != []
    ensures codes == WinCodes(ranked, guidedExcluded)
  {
    codes := [RecommendedHighest];
    if guidedExcluded {
      codes := codes + [GuidedWasExcluded];
    }
    if exists i :: 0 < i < |ranked| && Ties(ranked[i], ranked[0]) {
      codes := codes + [TieBroken];
    }
  }

  /** The partition loop of resolve. */
  method Partition(job: Job, cs: seq<Candidate>, k: Constraints)
    returns (legitimate: seq<Assessment>, rejected: seq<Rejection>)
    ensures legitimate == Collect(Fit(job, k), cs) && rejected == Collect(Unfit(job, k), cs)
  {
    hide Legitimate;
    legitimate, rejected := [], [];
    for i := 0 to |cs|
      invariant legitimate == Collect(Fit(job, k), cs[..i]) && rejected == Collect(Unfit(job, k), cs[..i])
    {
      var c := cs[i];
      assert cs[..i + 1][..i] == cs[..i];
      var reasons := RejectReasons(job, c, k);
      if reasons != [] {
        rejected := rejected + [Rejection(c.id, c.kind, c.displayName, reasons)];
      } else {
        legitimate := legitimate + [Assess(c)];
      }
    }
    assert cs[..|cs|] == cs;
  }

  // ----- Order independence

  lemma RanksIsAnOrder()
    ensures Transitive(Ranks) && Total(Ranks) && Transitive(ById) && Total(ById)
  {
    TextOrder([]);
    hide TextLeq;
  }

  lemma SameIdSameCandidate(cs: seq<Candidate>, a: Candidate, b: Candidate)
    requires UniqueIds(cs) && a in cs && b in cs && a.id == b.id
    ensures a == b
  {
    IdsByIndex(cs);
    var i :| 0 <= i < |cs| && cs[i] == a;
    var j :| 0 <= j < |cs| && cs[j] == b;
    assert Ids(cs)[i] == Ids(cs)[j];
  }

  lemma {:induction false} IdsByIndex(cs: seq<Candidate>)
    ensures |Ids(cs)| == |cs| && forall i :: 0 <= i < |cs| ==> Ids(cs)[i] == cs[i].id
  {
    if cs != [] {
      IdsByIndex(cs[..|cs| - 1]);
    }
  }

  ghost predicate AssessedFrom(cs: seq<Candidate>, xs: seq<Assessment>) {
    forall a :: a in xs ==> a.candidate in cs && a == Assess(a.candidate)
  }

  lemma AssessmentsSeparated(cs: seq<Candidate>, xs: seq<Assessment>)
    requires UniqueIds(cs) && AssessedFrom(cs, xs)
    ensures Separated(Ranks, xs)
  {
    forall a, b | a in xs && b in xs && Ranks(a, b) && Ranks(b, a) ensures a == b {
      TextLeqAntisymmetric(a.candidate.id, b.candidate.id);
      SameIdSameCandidate(cs, a.candidate, b.candidate);
    }
  }

  lemma RejectionsSeparated(pick: Candidate -> Option<Rejection>, cs: seq<Candidate>)
    requires UniqueIds(cs) && forall c :: c in cs && pick(c).Some? ==> pick(c).value.id == c.id
    ensures Separated(ById, Collect(pick, cs))
  {
    var xs := Collect(pick, cs);
    CollectMembers(pick, cs);
    forall a, b | a in xs && b in xs && ById(a, b) && ById(b, a) ensures a == b {
      TextLeqAntisymmetric(a.id, b.id);
      var c :| c in cs && pick(c) == Some(a);
      var d :| d in cs && pick(d) == Some(b);
      SameIdSameCandidate(cs, c, d);
    }
  }

  lemma ContendersAssessed(job: Job, cs: seq<Candidate>, k: Constraints)
    ensures AssessedFrom(cs, Collect(Automated(job, k), cs)) && AssessedFrom(cs, Collect(Manual(job, k), cs))
    ensures AssessedFrom(cs, Contenders(job, cs, k))
  {
    CollectMembers(Automated(job, k), cs);
    CollectMembers(Manual(job, k), cs);
    hide Legitimate, Collect;
  }

  lemma SortedRejections(pick: Candidate -> Option<Rejection>, cs: seq<Candidate>, cs': seq<Candidate>)
    requires UniqueIds(cs) && multiset(cs) == multiset(cs')
    requires forall c :: c in cs && pick(c).Some? ==> pick(c).value.id == c.id
    ensures Sort(ById, Collect(pick, cs)) == Sort(ById, Collect(pick, cs'))
  {
    RanksIsAnOrder();
    RejectionsSeparated(pick, cs);
    CollectIgnoresOrder(pick, cs, cs');
    SortIgnoresArrival(ById, Collect(pick, cs), Collect(pick, cs'));
  }

  /** Resolution does not depend on the order in which candidates are listed: recommendation, fallbacks,
      rejections and every code are the same. */
  lemma OrderDoesNotMatter(job: Job, cs: seq<Candidate>, cs': seq<Candidate>, k: Constraints)
    requires UniqueIds(cs) && multiset(cs) == multiset(cs')
    ensures UniqueIds(cs') && Resolved(job, cs, k) == Resolved(job, cs', k)
  {
    SameIds(cs, cs');
    RankedIgnoresOrder(job, cs, cs', k);
    RejectedIgnoresOrder(job, cs, cs', k);
    hide Ranked, Rejected, ExcludedGuided, GapCodes, WinCodes;
  }

  lemma RejectedIgnoresOrder(job: Job, cs: seq<Candidate>, cs': seq<Candidate>, k: Constraints)
    requires UniqueIds(cs) && multiset(cs) == multiset(cs')
    ensures Rejected(job, cs, k) == Rejected(job, cs', k) && ExcludedGuided(job, cs, k) == ExcludedGuided(job, cs', k)
  {
    hide Legitimate, Reasons, Sort, Collect;
    SortedRejections(Unfit(job, k), cs, cs');
    SortedRejections(ManualRejections(job, k), cs, cs');
    CollectIgnoresOrder(Automated(job, k), cs, cs');
    SameMembers(Collect(Automated(job, k), cs), Collect(Automated(job, k), cs'));
  }

  lemma SameIds(cs: seq<Candidate>, cs': seq<Candidate>)
    requires UniqueIds(cs) && multiset(cs) == multiset(cs')
    ensures UniqueIds(cs')
  {
    CollectIgnoresOrder(CandidateId, cs, cs');
    SameMembers(Ids(cs), Ids(cs'));
    DistinctCount(Ids(cs));
    DistinctCount(Ids(cs'));
    assert Elements(Ids(cs)) == Elements(Ids(cs'));
  }

  lemma RankedIgnoresOrder(job: Job, cs: seq<Candidate>, cs': seq<Candidate>, k: Constraints)
    requires UniqueIds(cs) && multiset(cs) == multiset(cs')
    ensures Ranked(job, cs, k) == Ranked(job, cs', k)
  {
    CollectIgnoresOrder(Automated(job, k), cs, cs');
    CollectIgnoresOrder(Manual(job, k), cs, cs');
    SameMembers(Collect(Automated(job, k), cs), Collect(Automated(job, k), cs'));
    RanksIsAnOrder();
    ContendersAssessed(job, cs, k);
    AssessmentsSeparated(cs, Contenders(job, cs, k));
    hide Legitimate, Collect;
    SortIgnoresArrival(Ranks, Contenders(job, cs, k), Contenders(job, cs', k));
  }

  // ----- Every candidate exactly once

  function AssessedId(a: Assessment): Option<string> {
    Some(a.candidate.id)
  }

  function RejectedId(r: Rejection): Option<string> {
    Some(r.id)
  }

  function ResolutionIds(r: Resolution): seq<string> {
    (if r.recommended.Some? then [r.recommended.value.candidate.id] else [])
    + Collect(AssessedId, r.fallbacks) + Collect(RejectedId, r.rejected)
  }

  lemma {:induction false} EachIsOneOfThree(job: Job, cs: seq<Candidate>, k: Constraints)
    ensures multiset(Ids(cs)) ==
      multiset(Collect(AssessedId, Collect(Automated(job, k), cs)))
      + multiset(Collect(RejectedId, Collect(ManualRejections(job, k), cs)))
      + multiset(Collect(RejectedId, Collect(Unfit(job, k), cs)))
    ensures Collect(AssessedId, Collect(Manual(job, k), cs))
      == Collect(RejectedId, Collect(ManualRejections(job, k), cs))
  {
    hide Legitimate, Reasons;
    if cs != [] {
      var rest, last := cs[..|cs| - 1], cs[|cs| - 1];
      assert cs == rest + [last];
      EachIsOneOfThree(job, rest, k);
      hide Collect;
      CollectMore(CandidateId, rest, last);
      CollectTwice(Automated(job, k), AssessedId, rest, last);
      CollectTwice(Manual(job, k), AssessedId, rest, last);
      CollectTwice(ManualRejections(job, k), RejectedId, rest, last);
      CollectTwice(Unfit(job, k), RejectedId, rest, last);
      hide Unfit, Automated, Manual, ManualRejections, AssessedId, RejectedId, PickedTwice;
      OnePick(job, last, k);
      AddedToOne(Ids(rest), Collect(AssessedId, Collect(Automated(job, k), rest)),
                 Collect(RejectedId, Collect(ManualRejections(job, k), rest)),
                 Collect(RejectedId, Collect(Unfit(job, k), rest)),
                 PickedTwice(Automated(job, k)(last), AssessedId),
                 PickedTwice(ManualRejections(job, k)(last), RejectedId),
                 PickedTwice(Unfit(job, k)(last), RejectedId), last.id);
    }
  }

  /** A candidate is picked by exactly one of the three. */
  lemma OnePick(job: Job, c: Candidate, k: Constraints)
    ensures PickedTwice(Automated(job, k)(c), AssessedId) + PickedTwice(ManualRejections(job, k)(c), RejectedId)
      + PickedTwice(Unfit(job, k)(c), RejectedId) == [c.id]
    ensures PickedTwice(Manual(job, k)(c), AssessedId) == PickedTwice(ManualRejections(job, k)(c), RejectedId)
    ensures Picked(CandidateId(c)) == [c.id]
  {
    hide Legitimate, Reasons;
  }

  lemma AddedToOne(ids: seq<string>, a: seq<string>, m: seq<string>, u: seq<string>,
                   a': seq<string>, m': seq<string>, u': seq<string>, id: string)
    requires multiset(ids) == multiset(a) + multiset(m) + multiset(u) && a' + m' + u' == [id]
    ensures multiset(ids + [id]) == multiset(a + a') + multiset(m + m') + multiset(u + u')
  {
    assert multiset(a') + multiset(m') + multiset(u') == multiset(a' + m' + u');
  }

  /** Every candidate id is placed exactly once among recommendation, fallbacks and rejections. */
  lemma EveryIdPlacedOnce(job: Job, cs: seq<Candidate>, k: Constraints)
    ensures multiset(ResolutionIds(Resolved(job, cs, k))) == multiset(Ids(cs))
  {
    EachIsOneOfThree(job, cs, k);
    hide Legitimate, Automated, Manual, ManualRejections, Unfit, GapCodes, WinCodes, Collect, Sort;
    var ranked, rejected := Ranked(job, cs, k), Rejected(job, cs, k);
    var unfit, excluded := Sort(ById, Collect(Unfit(job, k), cs)), ExcludedGuided(job, cs, k);
    CollectIgnoresOrder(AssessedId, ranked, Contenders(job, cs, k));
    CollectIgnoresOrder(RejectedId, unfit, Collect(Unfit(job, k), cs));
    CollectIgnoresOrder(RejectedId, Sort(ById, Collect(ManualRejections(job, k), cs)),
                        Collect(ManualRejections(job, k), cs));
    CollectConcat(RejectedId, unfit, excluded);
    CollectNothing(AssessedId);
    CollectNothing(RejectedId);
    if ranked != [] {
      assert ranked == [ranked[0]] + ranked[1..];
      CollectConcat(AssessedId, [ranked[0]], ranked[1..]);
      CollectOne(AssessedId, ranked[0]);
    }
    var r := Resolved(job, cs, k);
    assert ResolutionIds(r) == Collect(AssessedId, ranked) + Collect(RejectedId, rejected);
  }

  // ----- Which route is recommended

  /** Legitimate, and guided only if every legitimate candidate is. */
  predicate Contends(job: Job, cs: seq<Candidate>, k: Constraints, c: Candidate) {
    c in cs && Legitimate(job, c, k)
    && (c.kind == Guided ==> forall d :: d in cs && Legitimate(job, d, k) ==> d.kind == Guided)
  }

  lemma ContendersContend(job: Job, cs: seq<Candidate>, k: Constraints)
    ensures forall c :: Contends(job, cs, k, c) ==> Assess(c) in Contenders(job, cs, k)
    ensures forall a :: a in Contenders(job, cs, k) ==> Contends(job, cs, k, a.candidate) && a == Assess(a.candidate)
    ensures Contenders(job, cs, k) == [] <==> forall c :: c in cs ==> !Legitimate(job, c, k)
  {
    CollectMembers(Automated(job, k), cs);
    CollectMembers(Manual(job, k), cs);
    hide Legitimate, Collect;
    var automated, contenders := Collect(Automated(job, k), cs), Contenders(job, cs, k);
    assert automated != [] ==> automated[0] in automated;
    assert contenders != [] ==> contenders[0] in contenders;
    forall c | c in cs && Legitimate(job, c, k) ensures contenders != [] {
      assert Automated(job, k)(c).Some? || Manual(job, k)(c).Some?;
    }
  }

  /** Nothing is recommended exactly when no candidate is legitimate. A recommendation is legitimate and ranks
      before every contender, and it is guided exactly when every legitimate candidate is: no automated route is
      ever passed over for a manual one. */
  lemma RecommendsTheBest(job: Job, cs: seq<Candidate>, k: Constraints)
    ensures var r := Resolved(job, cs, k).recommended;
      && (r.None? <==> forall c :: c in cs ==> !Legitimate(job, c, k))
      && (r.Some? ==>
            && r.value == Assess(r.value.candidate) && Contends(job, cs, k, r.value.candidate)
            && forall c :: Contends(job, cs, k, c) ==> Ranks(r.value, Assess(c)))
  {
    ContendersContend(job, cs, k);
    RanksIsAnOrder();
    hide Contends, Contenders, Ranks, Sort, Legitimate, Assess, Rejected, GapCodes, WinCodes;
    var contenders, ranked := Contenders(job, cs, k), Ranked(job, cs, k);
    SortSorts(Ranks, contenders);
    SameMembers(ranked, contenders);
    if ranked != [] {
      assert ranked[0] in contenders;
      forall c | Contends(job, cs, k, c) ensures Ranks(ranked[0], Assess(c)) {
        HeadIsLeast(Ranks, ranked, Assess(c));
      }
    }
  }

  /** Scores stay between 0 and 1, and nothing but the nine merits enters them: candidates that differ in
      kind, brand, names, evidence or price alone score the same. */
  lemma ScoresComeFromMerits(a: Candidate, b: Candidate)
    requires UnitMerits(a.merits) && a.merits == b.merits
    ensures 0.0 <= Assess(a).score == Assess(b).score <= 1.0
  {
  }

  /** Preference cannot make an illegitimate candidate eligible. */
  lemma PreferenceDoesNotResurrect(job: Job, c: Candidate, k: Constraints, preference: real)
    ensures Legitimate(job, c.(merits := c.merits.(userPreference := preference)), k) == Legitimate(job, c, k)
  {
  }

  // ----- Fallbacks

  function Except(id: string): Candidate -> Option<Candidate> {
    (c: Candidate) => if c.id == id then None else Some(c)
  }

  function Without(cs: seq<Candidate>, id: string): seq<Candidate> {
    Collect(Except(id), cs)
  }

  lemma {:induction false} NothingRemoved(cs: seq<Candidate>, id: string)
    requires forall c :: c in cs ==> c.id != id
    ensures Without(cs, id) == cs
  {
    if cs != [] {
      NothingRemoved(cs[..|cs| - 1], id);
      assert cs == cs[..|cs| - 1] + [cs[|cs| - 1]];
    }
  }

  /** Taking a candidate out leaves the others. */
  lemma {:induction false} OneRemoved(cs: seq<Candidate>, c: Candidate)
    requires UniqueIds(cs) && c in cs
    ensures multiset(cs) == multiset(Without(cs, c.id) + [c])
  {
    var rest, last := cs[..|cs| - 1], cs[|cs| - 1];
    assert cs == rest + [last];
    UniqueRest(cs);
    CollectMore(Except(c.id), rest, last);
    if last == c {
      LastIdIsNew(cs);
      NothingRemoved(rest, c.id);
      hide Collect, Distinct;
      assert Without(cs, c.id) == rest;
    } else {
      OneRemoved(rest, c);
      if last.id == c.id {
        SameIdSameCandidate(cs, last, c);
      }
      hide Collect, Distinct;
      assert Without(cs, c.id) == Without(rest, c.id) + [last];
    }
  }

  lemma LastIdIsNew(cs: seq<Candidate>)
    requires UniqueIds(cs) && cs != []
    ensures forall d :: d in cs[..|cs| - 1] ==> d.id != cs[|cs| - 1].id
  {
    IdsByIndex(cs);
    hide Collect;
    forall d | d in cs[..|cs| - 1] ensures d.id != cs[|cs| - 1].id {
      var i :| 0 <= i < |cs| - 1 && cs[i] == d;
      DistinctAt(Ids(cs), i, |cs| - 1);
    }
  }

  lemma WithoutIsUnique(cs: seq<Candidate>, c: Candidate)
    requires UniqueIds(cs) && c in cs
    ensures UniqueIds(Without(cs, c.id))
  {
    OneRemoved(cs, c);
    var rest := Without(cs, c.id);
    SameIds(cs, rest + [c]);
    UniqueRest(rest + [c]);
    assert (rest + [c])[..|rest|] == rest;
  }

  lemma DistinctAt(ids: seq<string>, i: nat, j: nat)
    requires Distinct(ids) && i < j < |ids|
    ensures ids[i] != ids[j]
  {
  }

  lemma UniqueRest(cs: seq<Candidate>)
    requires UniqueIds(cs) && cs != []
    ensures UniqueIds(cs[..|cs| - 1])
  {
    IdsByIndex(cs);
    IdsByIndex(cs[..|cs| - 1]);
  }

  /** What is left to recommend once every ranked route is gone: the guided routes that automated ones excluded. */
  function Encore(job: Job, cs: seq<Candidate>, k: Constraints): seq<Assessment> {
    if Collect(Automated(job, k), cs) == [] then [] else Sort(Ranks, Collect(Manual(job, k), cs))
  }

  /** Resolving again with the winner removed ranks what was ranked behind it, or the encore when nothing was. */
  lemma WithoutTheWinner(job: Job, cs: seq<Candidate>, k: Constraints)
    requires UniqueIds(cs) && Ranked(job, cs, k) != []
    ensures var ranked := Ranked(job, cs, k);
      var rest := Without(cs, ranked[0].candidate.id);
      && UniqueIds(rest)
      && Ranked(job, rest, k) == (if |ranked| > 1 then ranked[1..] else Encore(job, cs, k))
      && (|ranked| > 1 ==> Encore(job, rest, k) == Encore(job, cs, k))
  {
    RecommendsTheBest(job, cs, k);
    var ranked := Ranked(job, cs, k);
    var best := ranked[0].candidate;
    var rest := Without(cs, best.id);
    OneRemoved(cs, best);
    WithoutIsUnique(cs, best);
    hide Legitimate, Rejected, Resolved, Collect, Sort, Contends, Ranks;
    RankedIgnoresOrder(job, cs, rest + [best], k);
    CollectMore(Automated(job, k), rest, best);
    CollectMore(Manual(job, k), rest, best);
    CollectIgnoresOrder(Manual(job, k), cs, rest + [best]);
    CollectIgnoresOrder(Automated(job, k), cs, rest + [best]);
    SameMembers(Collect(Automated(job, k), cs), Collect(Automated(job, k), rest + [best]));
    SameMembers(ranked, Contenders(job, rest + [best], k));
    SameIds(cs, rest + [best]);
    ContendersAssessed(job, rest + [best], k);
    AssessmentsSeparated(rest + [best], Contenders(job, rest + [best], k));
    RanksIsAnOrder();
    if best.kind == Guided {
      GuidedWinnerStandsAlone(job, cs, k);
      SortWithoutFirst(Ranks, Collect(Manual(job, k), rest), Assess(best));
    } else {
      SortWithoutFirst(Ranks, Collect(Automated(job, k), rest), Assess(best));
      ContendersAssessed(job, cs, k);
      AssessmentsSeparated(cs, Collect(Manual(job, k), cs));
      SortIgnoresArrival(Ranks, Collect(Manual(job, k), cs), Collect(Manual(job, k), rest));
    }
  }

  lemma GuidedWinnerStandsAlone(job: Job, cs: seq<Candidate>, k: Constraints)
    requires Ranked(job, cs, k) != [] && Ranked(job, cs, k)[0].candidate.kind == Guided
    ensures Collect(Automated(job, k), cs) == []
  {
    CollectMembers(Automated(job, k), cs);
    hide Legitimate, Collect, Sort;
    SameMembers(Ranked(job, cs, k), Contenders(job, cs, k));
    assert Ranked(job, cs, k)[0] in Contenders(job, cs, k);
  }

  /** The candidates left after the first n recommendations were taken away one by one. */
  function AfterRemoving(job: Job, cs: seq<Candidate>, k: Constraints, n: nat): seq<Candidate>
    decreases n
  {
    if n == 0 || Ranked(job, cs, k) == [] then cs
    else AfterRemoving(job, Without(cs, Ranked(job, cs, k)[0].candidate.id), k, n - 1)
  }

  /** The fallbacks are, in order, what resolving again and again with each winner removed recommends; after
      the last of them comes the encore. */
  lemma {:induction false} FallbacksComeNext(job: Job, cs: seq<Candidate>, k: Constraints, n: nat)
    requires UniqueIds(cs) && n <= |Ranked(job, cs, k)|
    ensures Ranked(job, AfterRemoving(job, cs, k, n), k) ==
      if n < |Ranked(job, cs, k)| then Ranked(job, cs, k)[n..] else Encore(job, cs, k)
    decreases n
  {
    var ranked := Ranked(job, cs, k);
    hide Collect, Legitimate, Sort, Ranked, Encore;
    if n > 0 {
      WithoutTheWinner(job, cs, k);
      FallbacksComeNext(job, Without(cs, ranked[0].candidate.id), k, n - 1);
    } else if ranked == [] {
      NothingRanked(job, cs, k);
    }
  }

  lemma NothingRanked(job: Job, cs: seq<Candidate>, k: Constraints)
    requires Ranked(job, cs, k) == []
    ensures Encore(job, cs, k) == []
  {
    hide Collect, Sort;
    SameMembers(Ranked(job, cs, k), Contenders(job, cs, k));
  }

  /** A legitimate guided route stands beside a legitimate automated one. */
  predicate BothKinds(job: Job, cs: seq<Candidate>, k: Constraints) {
    && (exists a :: a in cs && Legitimate(job, a, k) && a.kind != Guided)
    && (exists g :: g in cs && Legitimate(job, g, k) && g.kind == Guided)
  }

  lemma BothKindsCollected(job: Job, cs: seq<Candidate>, k: Constraints)
    ensures BothKinds(job, cs, k) <==> Collect(Automated(job, k), cs) != [] && Collect(Manual(job, k), cs) != []
  {
    CollectedWhen(Automated(job, k), cs);
    CollectedWhen(Manual(job, k), cs);
    hide Collect, Legitimate;
    if BothKinds(job, cs, k) {
      var a :| a in cs && Legitimate(job, a, k) && a.kind != Guided;
      var g :| g in cs && Legitimate(job, g, k) && g.kind == Guided;
      assert Automated(job, k)(a).Some? && Manual(job, k)(g).Some?;
    }
  }

  /** So the fallbacks are all there is exactly when the legitimate candidates are of one kind. */
  lemma FallbacksAreComplete(job: Job, cs: seq<Candidate>, k: Constraints)
    requires UniqueIds(cs)
    ensures Ranked(job, AfterRemoving(job, cs, k, |Ranked(job, cs, k)|), k) == [] <==> !BothKinds(job, cs, k)
  {
    FallbacksComeNext(job, cs, k, |Ranked(job, cs, k)|);
    BothKindsCollected(job, cs, k);
    hide Collect, Sort, AfterRemoving, Ranked, BothKinds, Automated, Manual;
    SameMembers(Sort(Ranks, Collect(Manual(job, k), cs)), Collect(Manual(job, k), cs));
  }

  /** Any automated and any guided route: no fallback is listed, yet the guided route is what remains. */
  lemma GuidedIsAnUnlistedFallback(job: Job, k: Constraints, a: Candidate, g: Candidate)
    requires Legitimate(job, a, k) && Legitimate(job, g, k) && a.id != g.id && a.kind != Guided && g.kind == Guided
    ensures Resolved(job, [a, g], k).recommended == Some(Assess(a)) && Resolved(job, [a, g], k).fallbacks == []
    ensures Resolved(job, Without([a, g], a.id), k).recommended == Some(Assess(g))
  {
    hide Legitimate, Collect, Rejected, GapCodes, WinCodes, Sort;
    CollectPair(Automated(job, k), a, g);
    CollectPair(Except(a.id), a, g);
    CollectOne(Automated(job, k), g);
    CollectOne(Manual(job, k), g);
    SortOne(Ranks, Assess(a));
    SortOne(Ranks, Assess(g));
    assert [Assess(a)] + [] == [Assess(a)] && [] + [g] == [g];
  }

  /** A native route and a manual instruction for one job. */
  lemma GuidedComesBack()
    ensures
      var job, k := Job("j", "stem-split", "split"), Constraints(0.0, 0.0, false, true, None);
      var merits := Merits(1.0, 1.0, 1.0, 1.0, 1.0, 1.0, 1.0, 1.0, 0.5);
      var native := Candidate("native", HostNative, "stem-split", "Native", None, true, true, Some("e"), None,
                              merits, false);
      var manual := native.(id := "manual", kind := Guided);
      && Resolved(job, [native, manual], k).recommended == Some(Assess(native))
      && Resolved(job, [native, manual], k).fallbacks == []
      && Resolved(job, Without([native, manual], "native"), k).recommended == Some(Assess(manual))
  {
    var job, k := Job("j", "stem-split", "split"), Constraints(0.0, 0.0, false, true, None);
    var merits := Merits(1.0, 1.0, 1.0, 1.0, 1.0, 1.0, 1.0, 1.0, 0.5);
    var native := Candidate("native", HostNative, "stem-split", "Native", None, true, true, Some("e"), None,
                              merits, false);
    var manual := native.(id := "manual", kind := Guided);
    assert "native"[0] != "manual"[0];
    assert Legitimate(job, native, k) && Legitimate(job, manual, k);
    hide Resolved, Assess, Legitimate, Without;
    GuidedIsAnUnlistedFallback(job, k, native, manual);
  }
}
