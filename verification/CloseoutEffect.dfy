/** What one closeout does to every requirement's claims, whatever the generated file names, which are
    built without escaping and may coincide (governance/closeout.py). */
module CloseoutEffect {
  import opened Prelude
  import opened DependencySearch
  import opened ConstructionProgram
  import opened Ordering
  import opened Closeout

  // ----- What may happen to a claim

  predicate CellKept(before: Cell, after: Cell, d: Dimension) {
    && (before.state == Proven ==> after.state == Proven)
    && Elements(before.refs) <= Elements(after.refs)
    && (d in NEVER_AUTOMATE ==> after == before)
    && (after == before || Distinct(after.refs))
  }

  predicate Kept(before: Evidence, after: Evidence) {
    && before.Keys == DIMENSIONS && after.Keys == DIMENSIONS
    && forall d :: d in DIMENSIONS ==> CellKept(before[d], after[d], d)
  }

  lemma PromotedIsKept(claims: Evidence, proven: map<Dimension, Claim>, sha: string, ciRun: string)
    requires claims.Keys == DIMENSIONS && proven.Keys !! NEVER_AUTOMATE
    ensures Kept(claims, Promoted(claims, proven, sha, ciRun))
    ensures forall d :: d in proven && d in DIMENSIONS ==> Promoted(claims, proven, sha, ciRun)[d].state == Proven
  {
    var after := Promoted(claims, proven, sha, ciRun);
    forall d | d in DIMENSIONS ensures CellKept(claims[d], after[d], d) {
      if d in proven {
        forall x | x in claims[d].refs ensures x in after[d].refs {
          assert x in claims[d].refs + proven[d].refs + ["main:" + sha, "ci-run:" + ciRun];
        }
      }
    }
  }

  lemma KeptTrans(a: Evidence, b: Evidence, c: Evidence)
    requires Kept(a, b) && Kept(b, c)
    ensures Kept(a, c)
  {
    forall d | d in DIMENSIONS ensures CellKept(a[d], c[d], d) {
      assert CellKept(a[d], b[d], d) && CellKept(b[d], c[d], d);
    }
  }

  /** Merging the same claims a second time changes nothing. */
  lemma PromotedTwice(claims: Evidence, proven: map<Dimension, Claim>, sha: string, ciRun: string)
    ensures Promoted(Promoted(claims, proven, sha, ciRun), proven, sha, ciRun) == Promoted(claims, proven, sha, ciRun)
  {
    var once := Promoted(claims, proven, sha, ciRun);
    forall d | d in claims && d in proven
      ensures MergedCell(once[d], proven[d], sha, ciRun) == once[d]
    {
      var more := proven[d].refs + ["main:" + sha, "ci-run:" + ciRun];
      assert claims[d].refs + proven[d].refs + ["main:" + sha, "ci-run:" + ciRun] == claims[d].refs + more;
      assert once[d].refs + proven[d].refs + ["main:" + sha, "ci-run:" + ciRun] == once[d].refs + more;
      DedupAbsorbs(once[d].refs, more);
    }
  }

  lemma {:induction false} DedupAbsorbs(kept: seq<string>, more: seq<string>)
    requires Distinct(kept) && forall x :: x in more ==> x in kept
    ensures Dedup(kept + more) == kept
  {
    if more != [] {
      var rest := more[..|more| - 1];
      assert (kept + more)[..|kept + more| - 1] == kept + rest;
      assert more[|more| - 1] in more;
      DedupAbsorbs(kept, rest);
    } else {
      assert kept + more == kept;
      DedupOfDistinct(kept);
    }
  }

  lemma {:induction false} DedupOfDistinct(xs: seq<string>)
    requires Distinct(xs)
    ensures Dedup(xs) == xs
  {
    if xs != [] {
      assert xs == xs[..|xs| - 1] + [xs[|xs| - 1]];
      DedupOfDistinct(xs[..|xs| - 1]);
    }
  }

  // ----- Receipt names

  lemma CancelPrefix(p: string, a: string, b: string)
    requires p + a == p + b
    ensures a == b
  {
    assert (p + a)[|p|..] == a && (p + b)[|p|..] == b;
  }

  lemma CancelSuffix(a: string, b: string, t: string)
    requires a + t == b + t
    ensures a == b
  {
    assert |a + t| == |b + t|;
    assert (a + t)[..|a|] == a && (b + t)[..|b|] == b;
  }

  lemma ReceiptRefInjective(a: string, b: string, work: string, sha: string)
    requires |sha| >= 12 && ReceiptRef(a, work, sha) == ReceiptRef(b, work, sha)
    ensures a == b
  {
    var tail := "-" + SafeWork(work);
    CancelPrefix("governance/evidence/", a + tail + Suffix(sha), b + tail + Suffix(sha));
    CancelSuffix(a + tail, b + tail, Suffix(sha));
    CancelSuffix(a, b, tail);
  }

  lemma ReceiptIsNamed(r: string, work: string, sha: string)
    requires |sha| >= 12
    ensures ReceiptRef(r, work, sha) != ""
  {
    assert ReceiptRef(r, work, sha)[0] == 'g';
  }

  lemma NamesCollide(r: string, programId: string, work: string, sha: string)
    requires |sha| >= 12
    ensures ReceiptRef(r, work, sha) == CompletionRef(programId, sha)
       <==> r + ("-" + SafeWork(work)) == programId + "-completion"
  {
    var a, b := r + ("-" + SafeWork(work)), programId + "-completion";
    if ReceiptRef(r, work, sha) == CompletionRef(programId, sha) {
      CancelPrefix("governance/evidence/", a + Suffix(sha), b + Suffix(sha));
      CancelSuffix(a, b, Suffix(sha));
    }
  }

  // ----- Where a file's claims come from

  /** The receipt a requirement points to, if any. */
  function Pointer(refs: map<string, string>, q: string): Option<string> {
    if q in refs && refs[q] != "" then Some(refs[q]) else None
  }

  /** The claims found behind a pointer. */
  function ClaimsAt(evidence: map<string, Document>, at: Option<string>): Result<Evidence, CloseoutError> {
    if at.None? then Success(NO_EVIDENCE)
    else if at.value !in evidence then Failure(MalformedEvidence)
    else match evidence[at.value]
      case NoClaims => Failure(MalformedEvidence)
      case Receipt(claims) => if claims.Keys == DIMENSIONS then Success(claims) else Failure(MalformedEvidence)
  }

  lemma CurrentIsAtPointer(files: Files, q: string)
    ensures CurrentClaims(files, q) == ClaimsAt(files.evidence, Pointer(files.refs, q))
    ensures CurrentClaims(files, q).Success? ==> CurrentClaims(files, q).value.Keys == DIMENSIONS
  {
  }

  predicate Rewritten(at: Option<string>, rs: seq<string>, work: string, sha: string)
    requires |sha| >= 12
  {
    exists i :: 0 <= i < |rs| && at == Some(ReceiptRef(rs[i], work, sha))
  }

  /** The file, as it was before the receipt loop over rs, whose claims stand at a pointer after it. */
  function Origin(refs: map<string, string>, rs: seq<string>, work: string, sha: string, at: Option<string>)
    : (from: Option<string>)
    requires |sha| >= 12
    ensures at.None? ==> from.None?
    ensures !Rewritten(at, rs, work, sha) ==> from == at
    decreases |rs|
  {
    if rs == [] then at
    else
      var rest, last := rs[..|rs| - 1], rs[|rs| - 1];
      assert rs == rest + [last];
      if at == Some(ReceiptRef(last, work, sha)) then Origin(refs, rest, work, sha, Pointer(refs, last))
      else Origin(refs, rest, work, sha, at)
  }

  /** The receipt written for rs[i] carries what rs[i] read at its turn. */
  lemma {:induction false} OriginOfReceipt(refs: map<string, string>, rs: seq<string>, work: string, sha: string,
                                           i: nat)
    requires |sha| >= 12 && Distinct(rs) && i < |rs|
    ensures Origin(refs, rs, work, sha, Some(ReceiptRef(rs[i], work, sha)))
         == Origin(refs, rs[..i], work, sha, Pointer(refs, rs[i]))
  {
    var rest, last := rs[..|rs| - 1], rs[|rs| - 1];
    assert rs == rest + [last];
    if i < |rest| {
      if ReceiptRef(rs[i], work, sha) == ReceiptRef(last, work, sha) {
        ReceiptRefInjective(rs[i], last, work, sha);
        assert false;
      }
      assert rest[..i] == rs[..i];
      OriginOfReceipt(refs, rest, work, sha, i);
    }
  }

  // ----- The receipt loop

  lemma {:induction false} PromotionEffect(files: Files, rs: seq<string>, proven: map<Dimension, Claim>,
                                           work: string, sha: string, ciRun: string, q: string)
    requires |sha| >= 12 && Distinct(rs)
    requires PromoteAll(files, rs, proven, work, sha, ciRun).1.None?
    ensures
      var after := PromoteAll(files, rs, proven, work, sha, ciRun).0;
      && after == files.(refs := after.refs, evidence := after.evidence)
      && (q in rs ==> q in after.refs && after.refs[q] == ReceiptRef(q, work, sha))
      && (q !in rs ==> (q in after.refs <==> q in files.refs) && (q in files.refs ==> after.refs[q] == files.refs[q]))
  {
    if rs != [] {
      var rest, last := rs[..|rs| - 1], rs[|rs| - 1];
      assert rs == rest + [last];
      PromotionEffect(files, rest, proven, work, sha, ciRun, q);
    }
  }

  /** One turn of the loop changes what stands behind one pointer. */
  lemma StepContent(files: Files, r: string, proven: map<Dimension, Claim>, work: string, sha: string,
                    ciRun: string, at: Option<string>)
    requires |sha| >= 12 && PromoteOne(files, r, proven, work, sha, ciRun).Success?
    ensures
      var after := PromoteOne(files, r, proven, work, sha, ciRun).value;
      var read := ClaimsAt(files.evidence, Pointer(files.refs, r));
      if at == Some(ReceiptRef(r, work, sha))
      then read.Success? && ClaimsAt(after.evidence, at) == Success(Promoted(read.value, proven, sha, ciRun))
      else ClaimsAt(after.evidence, at) == ClaimsAt(files.evidence, at)
  {
    CurrentIsAtPointer(files, r);
  }

  lemma RewrittenByOne(at: Option<string>, rs: seq<string>, work: string, sha: string)
    requires |sha| >= 12 && rs != []
    ensures Rewritten(at, rs, work, sha)
       <==> Rewritten(at, rs[..|rs| - 1], work, sha) || at == Some(ReceiptRef(rs[|rs| - 1], work, sha))
  {
    var rest := rs[..|rs| - 1];
    if at == Some(ReceiptRef(rs[|rs| - 1], work, sha)) {
      assert Rewritten(at, rs, work, sha);
    } else if Rewritten(at, rest, work, sha) {
      var i :| 0 <= i < |rest| && at == Some(ReceiptRef(rest[i], work, sha));
      assert at == Some(ReceiptRef(rs[i], work, sha));
    }
  }

  ghost predicate StandsBehind(files: Files, after: Files, rs: seq<string>, proven: map<Dimension, Claim>,
                               work: string, sha: string, ciRun: string, at: Option<string>)
    requires |sha| >= 12
  {
    var source := ClaimsAt(files.evidence, Origin(files.refs, rs, work, sha, at));
    if Rewritten(at, rs, work, sha)
    then source.Success? && ClaimsAt(after.evidence, at) == Success(Promoted(source.value, proven, sha, ciRun))
    else ClaimsAt(after.evidence, at) == ClaimsAt(files.evidence, at)
  }

  /** The claims behind every pointer once the loop is through: those of the file they originate from,
      merged once if the loop wrote the file and untouched otherwise. */
  lemma {:induction false} LoopContent(files: Files, rs: seq<string>, proven: map<Dimension, Claim>,
                                       work: string, sha: string, ciRun: string, at: Option<string>)
    requires |sha| >= 12 && Distinct(rs)
    requires PromoteAll(files, rs, proven, work, sha, ciRun).1.None?
    ensures StandsBehind(files, PromoteAll(files, rs, proven, work, sha, ciRun).0, rs, proven, work, sha, ciRun, at)
    decreases |rs|
  {
    if rs != [] {
      hide ClaimsAt, Pointer, Promoted, Rewritten, ReceiptRef, PromoteOne;
      var rest, last := rs[..|rs| - 1], rs[|rs| - 1];
      assert rs == rest + [last];
      assert last !in rest;
      var sofar := PromoteAll(files, rest, proven, work, sha, ciRun).0;
      RewrittenByOne(at, rs, work, sha);
      StepContent(sofar, last, proven, work, sha, ciRun, at);
      if at == Some(ReceiptRef(last, work, sha)) {
        var read := Pointer(files.refs, last);
        LoopContent(files, rest, proven, work, sha, ciRun, read);
        PointerStays(files, rest, proven, work, sha, ciRun, last);
        var source := ClaimsAt(files.evidence, Origin(files.refs, rest, work, sha, read));
        if Rewritten(read, rest, work, sha) {
          PromotedTwice(source.value, proven, sha, ciRun);
        }
      } else {
        LoopContent(files, rest, proven, work, sha, ciRun, at);
      }
    }
  }

  lemma PointerStays(files: Files, rs: seq<string>, proven: map<Dimension, Claim>, work: string, sha: string,
                     ciRun: string, q: string)
    requires |sha| >= 12 && Distinct(rs) && q !in rs
    requires PromoteAll(files, rs, proven, work, sha, ciRun).1.None?
    ensures Pointer(PromoteAll(files, rs, proven, work, sha, ciRun).0.refs, q) == Pointer(files.refs, q)
  {
    PromotionEffect(files, rs, proven, work, sha, ciRun, q);
  }

  /** The loop goes through when every requirement's own receipt can be read. */
  lemma {:induction false} LoopSucceeds(files: Files, rs: seq<string>, proven: map<Dimension, Claim>,
                                        work: string, sha: string, ciRun: string)
    requires |sha| >= 12 && Distinct(rs)
    requires forall i :: 0 <= i < |rs| ==> CurrentClaims(files, rs[i]).Success?
    ensures PromoteAll(files, rs, proven, work, sha, ciRun).1.None?
  {
    if rs != [] {
      var rest, last := rs[..|rs| - 1], rs[|rs| - 1];
      assert rs == rest + [last];
      assert forall i :: 0 <= i < |rest| ==> rest[i] == rs[i];
      LoopSucceeds(files, rest, proven, work, sha, ciRun);
      var sofar := PromoteAll(files, rest, proven, work, sha, ciRun).0;
      PromotionEffect(files, rest, proven, work, sha, ciRun, last);
      LoopContent(files, rest, proven, work, sha, ciRun, Pointer(files.refs, last));
      CurrentIsAtPointer(files, last);
      CurrentIsAtPointer(sofar, last);
    }
  }

  // ----- One closeout

  ghost predicate Succeeds(files: Files, request: Request, sha: string, ciRun: string) {
    Apply(files, request, sha, ciRun).1.None?
  }

  ghost function After(files: Files, request: Request, sha: string, ciRun: string): Files {
    Apply(files, request, sha, ciRun).0
  }

  ghost predicate Completing(files: Files, request: Request, sha: string)
    requires Admitted(files, request, sha).Success?
  {
    var (ref, program, package, proven) := Admitted(files, request, sha).value;
    forall i :: 0 <= i < |program.packages| ==>
      program.packages[i].state == Complete || program.packages[i].workId == package.workId
  }

  lemma AdmittedFacts(files: Files, request: Request, sha: string)
    requires Admitted(files, request, sha).Success?
    ensures
      var (ref, program, package, proven) := Admitted(files, request, sha).value;
      && files.activeProgram == Some(ref) && ref in files.programs && program == files.programs[ref]
      && ValidProgram(program) && |sha| >= 12
      && HasId(program.packages, request.workId) && package == Lookup(program.packages, request.workId)
      && package.state == Active && package.workId == request.workId
      && proven.Keys !! NEVER_AUTOMATE && proven.Keys <= package.allowlist
      && Distinct(package.requirements)
  {
    var (ref, program, package, proven) := Admitted(files, request, sha).value;
    RequestFacts(request, program, package);
    hide ValidateRequest, Acyclic;
    var i :| 0 <= i < |program.packages| && program.packages[i] == package;
    assert PackageOk(program.packages[i], program);
  }

  lemma RequestFacts(request: Request, program: Program, package: Package)
    requires ValidateRequest(request, program, package).Success?
    ensures var proven := ValidateRequest(request, program, package).value;
      package.state == Active && package.workId == request.workId
      && proven.Keys !! NEVER_AUTOMATE && proven.Keys <= package.allowlist
  {
    var asked := request.claims.Keys;
    assert Normalized(request.claims).Keys == asked;
    assert forall d :: d in asked && d in NEVER_AUTOMATE ==> d in asked * NEVER_AUTOMATE;
    assert forall d :: d in asked && d !in package.allowlist ==> d in asked - package.allowlist;
  }

  lemma CompletesExactly(ps: seq<Package>, w: string, proven: map<Dimension, Claim>, receipts: seq<string>)
    ensures AllComplete(ClosePackages(ps, w, proven, receipts))
       <==> forall i :: 0 <= i < |ps| ==> ps[i].state == Complete || ps[i].workId == w
  {
    var ps' := ClosePackages(ps, w, proven, receipts);
    assert forall i :: 0 <= i < |ps| ==> (ps'[i].state == Complete <==> ps[i].state == Complete || ps[i].workId == w);
  }

  /** The receipt a requirement points to once the closeout is through. */
  function PointerAfter(refs: map<string, string>, rs: seq<string>, work: string, sha: string, q: string)
    : Option<string>
    requires |sha| >= 12
  {
    if q in rs then Some(ReceiptRef(q, work, sha)) else Pointer(refs, q)
  }

  ghost predicate LosesToCompletion(files: Files, request: Request, sha: string, q: string)
    requires Admitted(files, request, sha).Success? && |sha| >= 12
  {
    var (ref, program, package, proven) := Admitted(files, request, sha).value;
    && Completing(files, request, sha)
    && PointerAfter(files.refs, package.requirements, package.workId, sha, q) == Some(CompletionRef(program.id, sha))
  }

  /** The file, before the closeout, that a requirement's claims come from after it. */
  ghost function Source(files: Files, request: Request, sha: string, q: string): Option<string>
    requires Admitted(files, request, sha).Success? && |sha| >= 12
  {
    var (ref, program, package, proven) := Admitted(files, request, sha).value;
    Origin(files.refs, package.requirements, package.workId, sha,
           PointerAfter(files.refs, package.requirements, package.workId, sha, q))
  }

  ghost predicate Merged(files: Files, request: Request, sha: string, q: string)
    requires Admitted(files, request, sha).Success? && |sha| >= 12
  {
    var (ref, program, package, proven) := Admitted(files, request, sha).value;
    Rewritten(PointerAfter(files.refs, package.requirements, package.workId, sha, q), package.requirements,
              package.workId, sha)
  }

  /** The claims of every requirement after a successful closeout, whatever the file names: unreadable
      exactly when the completion receipt took their file, else those of their source, merged once if
      their file was written. */
  lemma CloseoutClaims(files: Files, request: Request, sha: string, ciRun: string, q: string)
    requires Succeeds(files, request, sha, ciRun)
    ensures |sha| >= 12
    ensures
      var (ref, program, package, proven) := Admitted(files, request, sha).value;
      var after := CurrentClaims(After(files, request, sha, ciRun), q);
      var source := ClaimsAt(files.evidence, Source(files, request, sha, q));
      if LosesToCompletion(files, request, sha, q) then after == Failure(MalformedEvidence)
      else if Merged(files, request, sha, q)
      then source.Success? && after == Success(Promoted(source.value, proven, sha, ciRun))
      else after == CurrentClaims(files, q)
    ensures
      var (ref, program, package, proven) := Admitted(files, request, sha).value;
      q in package.requirements ==> Merged(files, request, sha, q)
  {
    hide ValidProgram, Promoted, Origin, ReceiptRef, CompletionRef, Finished;
    AdmittedFacts(files, request, sha);
    var (ref, program, package, proven) := Admitted(files, request, sha).value;
    var rs, work := package.requirements, package.workId;
    var written := PromoteAll(files, rs, proven, work, sha, ciRun).0;
    var at := PointerAfter(files.refs, rs, work, sha, q);
    LoopContent(files, rs, proven, work, sha, ciRun, at);
    PromotionEffect(files, rs, proven, work, sha, ciRun, q);
    ReceiptIsNamed(q, work, sha);
    assert Pointer(written.refs, q) == at;
    FinishingClaims(written, ref, program, package, proven, sha, q);
    CurrentIsAtPointer(files, q);
    if q in rs {
      var i :| 0 <= i < |rs| && rs[i] == q;
      assert at == Some(ReceiptRef(rs[i], work, sha));
    }
  }

  /** A successful closeout makes a requirement unreadable exactly when it completes the program and the
      receipt the requirement ends up with is the completion receipt. */
  lemma UnreadableExactly(files: Files, request: Request, sha: string, ciRun: string, q: string)
    requires Succeeds(files, request, sha, ciRun) && CurrentClaims(files, q).Success?
    ensures |sha| >= 12
    ensures CurrentClaims(After(files, request, sha, ciRun), q).Failure? <==> LosesToCompletion(files, request, sha, q)
  {
    CloseoutClaims(files, request, sha, ciRun, q);
  }

  /** Writing the program and the completion receipt touches one evidence file at most. */
  lemma FinishingClaims(files: Files, ref: string, program: Program, package: Package,
                        proven: map<Dimension, Claim>, sha: string, q: string)
    requires |sha| >= 12
    ensures CurrentClaims(Finished(files, ref, program, package, proven, sha), q)
         == if (forall i :: 0 <= i < |program.packages| ==>
                  program.packages[i].state == Complete || program.packages[i].workId == package.workId)
               && Pointer(files.refs, q) == Some(CompletionRef(program.id, sha))
            then Failure(MalformedEvidence)
            else ClaimsAt(files.evidence, Pointer(files.refs, q))
  {
    CompletesExactly(program.packages, package.workId, proven, ReceiptRefs(package.requirements, package.workId, sha));
    CurrentIsAtPointer(Finished(files, ref, program, package, proven, sha), q);
  }
}
