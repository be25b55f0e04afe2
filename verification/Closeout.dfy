/** Mechanical closeout of work packages (governance/closeout.py). */
module Closeout {
  import opened Prelude
  import opened ConstructionProgram
  import opened Ordering

  const NEVER_AUTOMATE: set<Dimension> := {ConsumerAccepted, ValueEvidenced}

  const DIMENSIONS: set<Dimension> :=
    {Mapped, Implemented, Integrated, Reachable, Verified, Recoverable, AuthoritySafe, ConsumerAccepted, ValueEvidenced}

  const LEDGER_PREFIX := "N0TE_PRODUCT_DB/SCOPE_LEDGER:"
  const CURRENT_STATE := "governance/current_state.json"

  /** A file under governance/evidence: a receipt with claims, or anything else (a completion receipt). */
  datatype Document = Receipt(claims: Evidence) | NoClaims

  /** One requested claim; an absent list of refs is an empty one. */
  datatype Claim = Claim(state: CellState, refs: seq<string>, observed: Option<string>)

  datatype Request = Request(
    schemaVersion: int, programId: string, workId: string, complete: bool,
    claims: map<Dimension, Claim>, unknownDimensions: set<string>)

  datatype CloseoutError =
    | NoActiveProgram | InvalidProgramFile | UnknownPackage | RequestMismatch | NotActive
    | AllowlistAutomatesConsumer | NoClaimsRequested | UnknownDimension | ForbiddenDimension
    | OutsideAllowlist | BadClaim | BadSha | MalformedEvidence

  /** Everything a closeout reads and writes. */
  datatype Files = Files(
    refs: map<string, string>, activeProgram: Option<string>, lastCompleted: Option<string>,
    programs: map<string, Program>, evidence: map<string, Document>)

  // ----- Names of generated files

  predicate SafeChar(c: char) {
    'A' <= c <= 'Z' || 'a' <= c <= 'z' || '0' <= c <= '9' || c in "._-"
  }

  /** Every run of other characters becomes one dash. */
  function Squash(w: string, inRun: bool): string {
    if w == [] then []
    else if SafeChar(w[0]) then [w[0]] + Squash(w[1..], false)
    else if inRun then Squash(w[1..], true)
    else "-" + Squash(w[1..], true)
  }

  function StripLeft(w: string): string {
    if w != [] && w[0] == '-' then StripLeft(w[1..]) else w
  }

  function StripRight(w: string): string {
    if w != [] && w[|w| - 1] == '-' then StripRight(w[..|w| - 1]) else w
  }

  function SafeWork(work: string): string {
    StripRight(StripLeft(Squash(work, false)))
  }

  function Suffix(sha: string): string
    requires |sha| >= 12
  {
    "-" + sha[..12] + ".json"
  }

  function ReceiptRef(requirement: string, work: string, sha: string): string
    requires |sha| >= 12
  {
    "governance/evidence/" + (requirement + ("-" + SafeWork(work)) + Suffix(sha))
  }

  function CompletionRef(program: string, sha: string): string
    requires |sha| >= 12
  {
    "governance/evidence/" + (program + "-completion" + Suffix(sha))
  }

  // ----- Claims

  const NO_EVIDENCE: Evidence := map d | d in DIMENSIONS :: Cell(Unproven, [], None)

  /** _current_claims: no receipt yet means nothing proven; a receipt must record every dimension. */
  function CurrentClaims(files: Files, requirement: string): Result<Evidence, CloseoutError> {
    if requirement !in files.refs || files.refs[requirement] == "" then Success(NO_EVIDENCE)
    else if files.refs[requirement] !in files.evidence then Failure(MalformedEvidence)
    else match files.evidence[files.refs[requirement]]
      case NoClaims => Failure(MalformedEvidence)
      case Receipt(claims) => if claims.Keys == DIMENSIONS then Success(claims) else Failure(MalformedEvidence)
  }

  function MergedCell(prior: Cell, claim: Claim, sha: string, ciRun: string): Cell {
    Cell(Proven, Dedup(prior.refs + claim.refs + ["main:" + sha, "ci-run:" + ciRun]), claim.observed)
  }

  function Promoted(claims: Evidence, proven: map<Dimension, Claim>, sha: string, ciRun: string): (e: Evidence)
    ensures e.Keys == claims.Keys
  {
    map d | d in claims :: if d in proven then MergedCell(claims[d], proven[d], sha, ciRun) else claims[d]
  }

  // ----- Request validation

  predicate RefAllowed(ref: string, paths: seq<string>) {
    ref != "" && (LEDGER_PREFIX <= ref || ref in paths)
  }

  predicate ClaimOk(claim: Claim, paths: seq<string>) {
    && claim.state == Proven
    && (forall k :: 0 <= k < |claim.refs| ==> RefAllowed(claim.refs[k], paths))
    && claim.observed != Some("")
  }

  function Normalized(claims: map<Dimension, Claim>): map<Dimension, Claim> {
    map d | d in claims :: claims[d].(refs := Dedup(claims[d].refs))
  }

  /** _validate_request. */
  function ValidateRequest(request: Request, program: Program, package: Package)
    : (r: Result<map<Dimension, Claim>, CloseoutError>)
  {
    if request.schemaVersion != 1 || request.programId != program.id || request.workId != package.workId
       || !request.complete then Failure(RequestMismatch)
    else if package.state != Active then Failure(NotActive)
    else if package.allowlist * NEVER_AUTOMATE != {} then Failure(AllowlistAutomatesConsumer)
    else if request.claims == map[] && request.unknownDimensions == {} then Failure(NoClaimsRequested)
    else if request.unknownDimensions != {} then Failure(UnknownDimension)
    else if request.claims.Keys * NEVER_AUTOMATE != {} then Failure(ForbiddenDimension)
    else if request.claims.Keys - package.allowlist != {} then Failure(OutsideAllowlist)
    else if exists d :: d in request.claims && !ClaimOk(request.claims[d], package.paths) then Failure(BadClaim)
    else Success(Normalized(request.claims))
  }

  // ----- The closeout step

  /** Merge the claims into one requirement's receipt, write it under its new name and point to it. */
  function PromoteOne(files: Files, requirement: string, proven: map<Dimension, Claim>, work: string,
                      sha: string, ciRun: string): Result<Files, CloseoutError>
    requires |sha| >= 12
  {
    match CurrentClaims(files, requirement)
    case Failure(e) => Failure(e)
    case Success(claims) =>
      var ref := ReceiptRef(requirement, work, sha);
      Success(files.(refs := files.refs[requirement := ref],
                     evidence := files.evidence[ref := Receipt(Promoted(claims, proven, sha, ciRun))]))
  }

  /** How far the loop over requirements gets: what it has written, and the error that stopped it. */
  function PromoteAll(files: Files, requirements: seq<string>, proven: map<Dimension, Claim>, work: string,
                      sha: string, ciRun: string): (Files, Option<CloseoutError>)
    requires |sha| >= 12
  {
    if requirements == [] then (files, None)
    else
      var (sofar, error) := PromoteAll(files, requirements[..|requirements| - 1], proven, work, sha, ciRun);
      if error.Some? then (sofar, error)
      else match PromoteOne(sofar, requirements[|requirements| - 1], proven, work, sha, ciRun)
        case Failure(e) => (sofar, Some(e))
        case Success(next) => (next, None)
  }

  function ReceiptRefs(requirements: seq<string>, work: string, sha: string): (refs: seq<string>)
    requires |sha| >= 12
    ensures |refs| == |requirements|
  {
    seq(|requirements|, i requires 0 <= i < |requirements| => ReceiptRef(requirements[i], work, sha))
  }

  function ClosePackage(p: Package, proven: map<Dimension, Claim>, receipts: seq<string>): Package {
    p.(state := Complete,
       evidence := map d | d in p.evidence.Keys + proven.Keys ::
         if d in proven then Cell(Proven, receipts, None) else p.evidence[d])
  }

  function ClosePackages(ps: seq<Package>, w: string, proven: map<Dimension, Claim>, receipts: seq<string>)
    : (ps': seq<Package>)
    ensures |ps'| == |ps|
  {
    seq(|ps|, i requires 0 <= i < |ps| =>
      if ps[i].workId == w then ClosePackage(ps[i], proven, receipts) else ps[i])
  }

  predicate AllComplete(ps: seq<Package>) {
    forall i :: 0 <= i < |ps| ==> ps[i].state == Complete
  }

  /** The program file and pointers after every receipt has been written. */
  function Finished(files: Files, ref: string, program: Program, package: Package, proven: map<Dimension, Claim>,
                    sha: string): Files
    requires |sha| >= 12
  {
    var ps := ClosePackages(program.packages, package.workId, proven,
                            ReceiptRefs(package.requirements, package.workId, sha));
    if AllComplete(ps) then
      files.(programs := files.programs[ref := program.(packages := ps, state := Complete)],
             evidence := files.evidence[CompletionRef(program.id, sha) := NoClaims],
             activeProgram := None,
             lastCompleted := Some(ref))
    else
      files.(programs := files.programs[ref := program.(packages := ps)])
  }

  /** The package a closeout would work on, when nothing before the receipts stands in its way. */
  ghost function Admitted(files: Files, request: Request, sha: string)
    : Result<(string, Program, Package, map<Dimension, Claim>), CloseoutError>
  {
    if files.activeProgram.None? || files.activeProgram.value !in files.programs then Failure(NoActiveProgram)
    else
      var ref := files.activeProgram.value;
      var program := files.programs[ref];
      if !ValidProgram(program) then Failure(InvalidProgramFile)
      else if !HasId(program.packages, request.workId) then Failure(UnknownPackage)
      else
        var package := Lookup(program.packages, request.workId);
        match ValidateRequest(request, program, package)
        case Failure(e) => Failure(e)
        case Success(proven) => if |sha| < 12 then Failure(BadSha) else Success((ref, program, package, proven))
  }

  /** apply_closeout: the files it leaves behind and what it reports. A receipt loop that fails leaves
      the receipts it already wrote, but moves no pointer and closes nothing. */
  ghost function Apply(files: Files, request: Request, sha: string, ciRun: string)
    : (Files, Option<CloseoutError>)
  {
    match Admitted(files, request, sha)
    case Failure(e) => (files, Some(e))
    case Success((ref, program, package, proven)) =>
      var (written, error) := PromoteAll(files, package.requirements, proven, package.workId, sha, ciRun);
      if error.Some? then (files.(evidence := written.evidence), error)
      else (Finished(written, ref, program, package, proven, sha), None)
  }

  /** The files a successful closeout reports as changed, first mention first. */
  ghost function Changed(files: Files, request: Request, sha: string): seq<string>
    requires Admitted(files, request, sha).Success? && |sha| >= 12
  {
    var (ref, program, package, proven) := Admitted(files, request, sha).value;
    ChangedBy(ref, program, package, proven, sha)
  }

  function ChangedBy(ref: string, program: Program, package: Package, proven: map<Dimension, Claim>, sha: string)
    : seq<string>
    requires |sha| >= 12
  {
    var receipts := ReceiptRefs(package.requirements, package.workId, sha);
    var closed := ClosePackages(program.packages, package.workId, proven, receipts);
    Dedup(receipts + (if AllComplete(closed) then [CompletionRef(program.id, sha)] else []) + [ref, CURRENT_STATE])
  }

  class Repository {
    var refs: map<string, string>
    var activeProgram: Option<string>
    var lastCompleted: Option<string>
    var programs: map<string, Program>
    var evidence: map<string, Document>

    constructor (files: Files)
      ensures State() == files
    {
      refs, activeProgram, lastCompleted := files.refs, files.activeProgram, files.lastCompleted;
      programs, evidence := files.programs, files.evidence;
    }

    function State(): Files
      reads this
    {
      Files(refs, activeProgram, lastCompleted, programs, evidence)
    }

    /** Everything checked before the first file is written. */
    method Admit(request: Request, sha: string)
      returns (r: Result<(string, Program, Package, map<Dimension, Claim>), CloseoutError>)
      ensures r == Admitted(State(), request, sha)
    {
      if activeProgram.None? || activeProgram.value !in programs {
        return Failure(NoActiveProgram);
      }
      var program := programs[activeProgram.value];
      var invalid := ValidateConstructionProgram(program);
      if invalid.Some? {
        return Failure(InvalidProgramFile);
      }
      if !HasId(program.packages, request.workId) {
        return Failure(UnknownPackage);
      }
      var package := Lookup(program.packages, request.workId);
      var normalized := ValidateRequest(request, program, package);
      if normalized.Failure? {
        return Failure(normalized.error);
      }
      if |sha| < 12 {
        return Failure(BadSha);
      }
      return Success((activeProgram.value, program, package, normalized.value));
    }

    /** The loop over requirements: each receipt is written at once, the pointers only in memory. */
    method WriteReceipts(requirements: seq<string>, proven: map<Dimension, Claim>, work: string, sha: string,
                         ciRun: string)
      returns (currentRefs: map<string, string>, generated: seq<string>, error: Option<CloseoutError>)
      requires |sha| >= 12
      modifies `evidence
      ensures error == PromoteAll(old(State()), requirements, proven, work, sha, ciRun).1
      ensures evidence == PromoteAll(old(State()), requirements, proven, work, sha, ciRun).0.evidence
      ensures error.None? ==>
        && generated == ReceiptRefs(requirements, work, sha)
        && State().(refs := currentRefs) == PromoteAll(old(State()), requirements, proven, work, sha, ciRun).0
    {
      hide PromoteOne, ReceiptRef;
      currentRefs, generated, error := refs, [], None;
      ghost var start := State();
      for i := 0 to |requirements|
        invariant (State().(refs := currentRefs), None)
               == PromoteAll(start, requirements[..i], proven, work, sha, ciRun)
        invariant |generated| == i
        invariant forall k :: 0 <= k < i ==> generated[k] == ReceiptRef(requirements[k], work, sha)
      {
        PromotionStep(start, requirements, i, proven, work, sha, ciRun);
        var written := WriteReceipt(currentRefs, requirements[i], proven, work, sha, ciRun);
        if written.Failure? {
          PromotionStops(start, requirements, i + 1, proven, work, sha, ciRun);
          error := Some(written.error);
          return;
        }
        currentRefs := currentRefs[requirements[i] := written.value];
        generated := generated + [written.value];
      }
      assert requirements[..|requirements|] == requirements;
    }

    /** One turn of that loop: the merged receipt of one requirement. */
    method WriteReceipt(currentRefs: map<string, string>, requirement: string, proven: map<Dimension, Claim>,
                        work: string, sha: string, ciRun: string)
      returns (r: Result<string, CloseoutError>)
      requires |sha| >= 12
      modifies `evidence
      ensures r.Success? ==>
        && r.value == ReceiptRef(requirement, work, sha)
        && PromoteOne(old(State()).(refs := currentRefs), requirement, proven, work, sha, ciRun)
           == Success(State().(refs := currentRefs[requirement := r.value]))
      ensures r.Failure? ==>
        && evidence == old(evidence)
        && PromoteOne(old(State()).(refs := currentRefs), requirement, proven, work, sha, ciRun) == Failure(r.error)
    {
      var claims := CurrentClaims(State().(refs := currentRefs), requirement);
      if claims.Failure? {
        return Failure(claims.error);
      }
      var receiptRef := ReceiptRef(requirement, work, sha);
      evidence := evidence[receiptRef := Receipt(Promoted(claims.value, proven, sha, ciRun))];
      return Success(receiptRef);
    }

    /** apply_closeout: the files it leaves behind, and the changed files it reports when it succeeds. */
    method ApplyCloseout(request: Request, sha: string, ciRun: string)
      returns (r: Result<seq<string>, CloseoutError>)
      modifies this
      ensures (State(), if r.Success? then None else Some(r.error)) == Apply(old(State()), request, sha, ciRun)
      ensures r.Success? ==>
        && Admitted(old(State()), request, sha).Success? && |sha| >= 12
        && r.value == Changed(old(State()), request, sha)
    {
      var admitted := Admit(request, sha);
      if admitted.Failure? {
        return Failure(admitted.error);
      }
      var (programRef, program, package, proven) := admitted.value;
      var currentRefs, generated, error := WriteReceipts(package.requirements, proven, package.workId, sha, ciRun);
      if error.Some? {
        return Failure(error.value);
      }
      var changed := Close(programRef, program, package, proven, sha, currentRefs, generated);
      return Success(changed);
    }

    /** What follows the receipt loop: the program file, the completion receipt and the pointers. */
    method Close(programRef: string, program: Program, package: Package, proven: map<Dimension, Claim>, sha: string,
                 currentRefs: map<string, string>, generated: seq<string>)
      returns (changed: seq<string>)
      requires |sha| >= 12 && generated == ReceiptRefs(package.requirements, package.workId, sha)
      modifies this
      ensures State() == Finished(old(State()).(refs := currentRefs), programRef, program, package, proven, sha)
      ensures changed == ChangedBy(programRef, program, package, proven, sha)
    {
      refs := currentRefs;
      var closed := program.(packages := ClosePackages(program.packages, package.workId, proven, generated));
      changed := generated;
      if AllComplete(closed.packages) {
        closed := closed.(state := Complete);
        var completionRef := CompletionRef(program.id, sha);
        evidence := evidence[completionRef := NoClaims];
        changed := changed + [completionRef];
        activeProgram, lastCompleted := None, Some(programRef);
      }
      programs := programs[programRef := closed];
      changed := Dedup(changed + [programRef, CURRENT_STATE]);
      assert generated + [] + [programRef, CURRENT_STATE] == generated + [programRef, CURRENT_STATE];
    }
  }

  lemma PromotionStep(files: Files, rs: seq<string>, i: nat, proven: map<Dimension, Claim>, work: string,
                      sha: string, ciRun: string)
    requires |sha| >= 12 && i < |rs|
    requires PromoteAll(files, rs[..i], proven, work, sha, ciRun).1.None?
    ensures
      var sofar := PromoteAll(files, rs[..i], proven, work, sha, ciRun).0;
      PromoteAll(files, rs[..i + 1], proven, work, sha, ciRun)
      == match PromoteOne(sofar, rs[i], proven, work, sha, ciRun)
         case Failure(e) => (sofar, Some(e))
         case Success(next) => (next, None)
  {
    assert rs[..i + 1][..i] == rs[..i];
  }

  /** An error in the receipt loop is final. */
  lemma {:induction false} PromotionStops(files: Files, rs: seq<string>, n: nat, proven: map<Dimension, Claim>,
                                          work: string, sha: string, ciRun: string)
    requires |sha| >= 12 && n <= |rs|
    requires PromoteAll(files, rs[..n], proven, work, sha, ciRun).1.Some?
    ensures PromoteAll(files, rs, proven, work, sha, ciRun) == PromoteAll(files, rs[..n], proven, work, sha, ciRun)
  {
    if n < |rs| {
      assert rs[..|rs| - 1][..n] == rs[..n];
      PromotionStops(files, rs[..|rs| - 1], n, proven, work, sha, ciRun);
    } else {
      assert rs[..n] == rs;
    }
  }
}
