/** Exactly when each requirement keeps its own claims through a closeout, as a condition on file names
    that can be checked before the call (governance/closeout.py). */
module CloseoutNames {
  import opened Prelude
  import opened ConstructionProgram
  import opened Closeout
  import opened CloseoutEffect

  // ----- Exactly when a requirement keeps its own claims

  /** Whatever a requirement had proven it still has, and its consumer dimensions are untouched. */
  ghost predicate Spares(files: Files, request: Request, sha: string, ciRun: string, q: string) {
    CurrentClaims(files, q).Success? ==>
      && CurrentClaims(After(files, request, sha, ciRun), q).Success?
      && Kept(CurrentClaims(files, q).value, CurrentClaims(After(files, request, sha, ciRun), q).value)
  }

  ghost predicate SparesIfItSucceeds(files: Files, evidence: map<string, Document>, request: Request, sha: string,
                                     ciRun: string, q: string)
  {
    var given := files.(evidence := evidence);
    Succeeds(given, request, sha, ciRun) ==> Spares(given, request, sha, ciRun, q)
  }

  /** Whatever the receipts say, a successful closeout spares q. */
  ghost predicate SuccessAlwaysSpares(files: Files, request: Request, sha: string, ciRun: string, q: string) {
    forall evidence :: SparesIfItSucceeds(files, evidence, request, sha, ciRun, q)
  }

  /** Whatever the receipts say, a failing closeout spares q. */
  ghost predicate FailureAlwaysSpares(files: Files, request: Request, sha: string, ciRun: string, q: string) {
    forall evidence :: SparesIfItFails(files, evidence, request, sha, ciRun, q)
  }

  ghost predicate SparesIfItFails(files: Files, evidence: map<string, Document>, request: Request, sha: string,
                                  ciRun: string, q: string)
  {
    var given := files.(evidence := evidence);
    !Succeeds(given, request, sha, ciRun) ==> Spares(given, request, sha, ciRun, q)
  }

  /** The claims a requirement has after the closeout come from the receipt it had before. */
  ghost predicate KeepsSource(files: Files, request: Request, sha: string, q: string) {
    Admitted(files, request, sha).Success? && |sha| >= 12 ==>
      && Source(files, request, sha, q) == Pointer(files.refs, q)
      && !LosesToCompletion(files, request, sha, q)
  }

  const ALL_PROVEN: Evidence := map d | d in DIMENSIONS :: Cell(Proven, ["seen"], None)

  /** Receipts under every name in use: one is fully proven, the others prove nothing, one is missing. */
  ghost function Receipts(refs: map<string, string>, mark: string, missing: Option<string>): map<string, Document> {
    map v | v in refs.Values && missing != Some(v) :: Receipt(if v == mark then ALL_PROVEN else NO_EVIDENCE)
  }

  lemma ReceiptsAt(refs: map<string, string>, mark: string, missing: Option<string>, q: string)
    ensures var at := Pointer(refs, q);
      ClaimsAt(Receipts(refs, mark, missing), at)
      == if at.Some? && at == missing then Failure(MalformedEvidence)
         else if at == Some(mark) then Success(ALL_PROVEN) else Success(NO_EVIDENCE)
  {
    if q in refs {
      assert refs[q] in refs.Values;
    }
  }

  lemma OriginIsReadable(refs: map<string, string>, mark: string, missing: Option<string>, from: Option<string>)
    requires ClaimsAt(Receipts(refs, mark, missing), from).Success? && from != Some(mark)
    ensures ClaimsAt(Receipts(refs, mark, missing), from) == Success(NO_EVIDENCE)
  {
  }

  lemma MarkIsLost(proven: map<Dimension, Claim>, sha: string, ciRun: string)
    requires proven.Keys !! NEVER_AUTOMATE
    ensures !Kept(ALL_PROVEN, Promoted(NO_EVIDENCE, proven, sha, ciRun))
  {
    var after := Promoted(NO_EVIDENCE, proven, sha, ciRun);
    assert ConsumerAccepted in NEVER_AUTOMATE && after[ConsumerAccepted] == NO_EVIDENCE[ConsumerAccepted];
    assert !CellKept(ALL_PROVEN[ConsumerAccepted], after[ConsumerAccepted], ConsumerAccepted);
  }

  /** A successful closeout spares a requirement whose claims keep their source. */
  lemma SuccessSpares(files: Files, request: Request, sha: string, ciRun: string, q: string)
    requires Succeeds(files, request, sha, ciRun) && KeepsSource(files, request, sha, q)
    ensures Spares(files, request, sha, ciRun, q)
  {
    hide Admitted, Source, Merged, LosesToCompletion, CurrentClaims, Promoted, ClaimsAt, ValidProgram, Pointer;
    AdmittedFacts(files, request, sha);
    CloseoutClaims(files, request, sha, ciRun, q);
    CurrentIsAtPointer(files, q);
    var (ref, program, package, proven) := Admitted(files, request, sha).value;
    hide Apply;
    if CurrentClaims(files, q).Success? {
      PromotedIsKept(CurrentClaims(files, q).value, proven, sha, ciRun);
    }
  }

  /** The names a closeout meets do not depend on what the receipts say. */
  lemma NamesIgnoreContents(files: Files, evidence: map<string, Document>, request: Request, sha: string, q: string)
    ensures var given := files.(evidence := evidence);
      && Admitted(given, request, sha) == Admitted(files, request, sha)
      && (Admitted(files, request, sha).Success? && |sha| >= 12 ==>
            && Source(given, request, sha, q) == Source(files, request, sha, q)
            && Merged(given, request, sha, q) == Merged(files, request, sha, q)
            && LosesToCompletion(given, request, sha, q) == LosesToCompletion(files, request, sha, q))
  {
  }

  lemma ReadableCloseoutSucceeds(files: Files, mark: string, request: Request, sha: string, ciRun: string)
    requires Admitted(files, request, sha).Success?
    ensures Succeeds(files.(evidence := Receipts(files.refs, mark, None)), request, sha, ciRun)
  {
    AdmittedFacts(files, request, sha);
    var given := files.(evidence := Receipts(files.refs, mark, None));
    var (ref, program, package, proven) := Admitted(files, request, sha).value;
    NamesIgnoreContents(files, given.evidence, request, sha, "");
    forall i | 0 <= i < |package.requirements| ensures CurrentClaims(given, package.requirements[i]).Success? {
      CurrentIsAtPointer(given, package.requirements[i]);
      ReceiptsAt(files.refs, mark, None, package.requirements[i]);
    }
    LoopSucceeds(given, package.requirements, proven, package.workId, sha, ciRun);
  }

  /** A successful closeout spares a requirement, whatever the receipts say, if and only if the claims
      the requirement ends up with come from its own receipt and survive the completion receipt. */
  lemma SuccessKeepsExactly(files: Files, request: Request, sha: string, ciRun: string, q: string)
    requires Admitted(files, request, sha).Success?
    ensures SuccessAlwaysSpares(files, request, sha, ciRun, q) <==> KeepsSource(files, request, sha, q)
  {
    AdmittedFacts(files, request, sha);
    if KeepsSource(files, request, sha, q) {
      forall evidence ensures SparesIfItSucceeds(files, evidence, request, sha, ciRun, q) {
        var given := files.(evidence := evidence);
        NamesIgnoreContents(files, evidence, request, sha, q);
        if Succeeds(given, request, sha, ciRun) {
          SuccessSpares(given, request, sha, ciRun, q);
        }
      }
    } else {
      LosingReceipts(files, request, sha, ciRun, q);
    }
  }

  lemma LosingReceipts(files: Files, request: Request, sha: string, ciRun: string, q: string)
    requires Admitted(files, request, sha).Success? && !KeepsSource(files, request, sha, q)
    ensures exists evidence :: !SparesIfItSucceeds(files, evidence, request, sha, ciRun, q)
  {
    AdmittedFacts(files, request, sha);
    var at := Pointer(files.refs, q);
    var mark := if at.Some? then at.value else "";
    var evidence := Receipts(files.refs, mark, None);
    var given := files.(evidence := evidence);
    NamesIgnoreContents(files, evidence, request, sha, q);
    ReadableCloseoutSucceeds(files, mark, request, sha, ciRun);
    CloseoutClaims(given, request, sha, ciRun, q);
    CurrentIsAtPointer(given, q);
    ReceiptsAt(files.refs, mark, None, q);
    var (ref, program, package, proven) := Admitted(files, request, sha).value;
    if !LosesToCompletion(files, request, sha, q) {
      SourceNeedsAPointer(files, request, sha, q);
      OriginIsReadable(files.refs, mark, None, Source(files, request, sha, q));
      MarkIsLost(proven, sha, ciRun);
    }
    assert !SparesIfItSucceeds(files, evidence, request, sha, ciRun, q);
  }

  /** Only a written file changes its source, and a requirement without a receipt keeps having none. */
  lemma SourceNeedsAPointer(files: Files, request: Request, sha: string, q: string)
    requires Admitted(files, request, sha).Success? && |sha| >= 12
    ensures !Merged(files, request, sha, q) ==> Source(files, request, sha, q) == Pointer(files.refs, q)
    ensures Pointer(files.refs, q).None? ==> Source(files, request, sha, q).None?
  {
    AdmittedFacts(files, request, sha);
    var (ref, program, package, proven) := Admitted(files, request, sha).value;
    var rs := package.requirements;
    if q in rs {
      var i :| 0 <= i < |rs| && rs[i] == q;
      assert Some(ReceiptRef(q, package.workId, sha)) == Some(ReceiptRef(rs[i], package.workId, sha));
      OriginOfReceipt(files.refs, rs, package.workId, sha, i);
    }
  }

  // ----- Closeouts that stop in the receipt loop

  /** The loop can stop at rs[n]: nothing read or written before it vouches for the receipt it needs. */
  predicate CanStopAt(refs: map<string, string>, rs: seq<string>, work: string, sha: string, n: nat)
    requires |sha| >= 12
  {
    && n < |rs| && Pointer(refs, rs[n]).Some?
    && !Rewritten(Pointer(refs, rs[n]), rs[..n], work, sha)
    && forall k :: 0 <= k < n ==> Pointer(refs, rs[k]) != Pointer(refs, rs[n])
  }

  /** A closeout that stops has written some receipts; none of them took the place of this requirement's. */
  ghost predicate KeepsSourceWhenStopped(files: Files, request: Request, sha: string, q: string) {
    Admitted(files, request, sha).Success? && |sha| >= 12 ==>
      var (ref, program, package, proven) := Admitted(files, request, sha).value;
      var rs, at := package.requirements, Pointer(files.refs, q);
      forall n :: 0 <= n < |rs| && CanStopAt(files.refs, rs, package.workId, sha, n)
                  && at != Pointer(files.refs, rs[n]) ==>
        Origin(files.refs, rs[..n], package.workId, sha, at) == at
  }

  /** Where the loop stopped. */
  lemma {:induction false} StoppedLoop(files: Files, rs: seq<string>, proven: map<Dimension, Claim>,
                                       work: string, sha: string, ciRun: string) returns (n: nat)
    requires |sha| >= 12 && Distinct(rs)
    requires PromoteAll(files, rs, proven, work, sha, ciRun).1.Some?
    ensures n < |rs| && PromoteAll(files, rs[..n], proven, work, sha, ciRun).1.None?
    ensures PromoteAll(files, rs, proven, work, sha, ciRun).0 == PromoteAll(files, rs[..n], proven, work, sha, ciRun).0
    ensures PromoteOne(PromoteAll(files, rs[..n], proven, work, sha, ciRun).0, rs[n], proven, work, sha, ciRun).Failure?
  {
    var rest := rs[..|rs| - 1];
    assert rs == rest + [rs[|rs| - 1]];
    if PromoteAll(files, rest, proven, work, sha, ciRun).1.Some? {
      n := StoppedLoop(files, rest, proven, work, sha, ciRun);
      assert rest[..n] == rs[..n];
    } else {
      n := |rest|;
    }
  }

  lemma StopNeedsAnUnread(files: Files, rs: seq<string>, proven: map<Dimension, Claim>, work: string, sha: string,
                          ciRun: string, n: nat)
    requires |sha| >= 12 && Distinct(rs) && n < |rs|
    requires PromoteAll(files, rs[..n], proven, work, sha, ciRun).1.None?
    requires
      var sofar := PromoteAll(files, rs[..n], proven, work, sha, ciRun).0;
      PromoteOne(sofar, rs[n], proven, work, sha, ciRun).Failure?
    ensures CanStopAt(files.refs, rs, work, sha, n)
    ensures ClaimsAt(files.evidence, Pointer(files.refs, rs[n])).Failure?
  {
    var done := rs[..n];
    var sofar := PromoteAll(files, done, proven, work, sha, ciRun).0;
    var at := Pointer(files.refs, rs[n]);
    assert rs[n] !in done;
    PointerStays(files, done, proven, work, sha, ciRun, rs[n]);
    CurrentIsAtPointer(sofar, rs[n]);
    LoopContent(files, done, proven, work, sha, ciRun, at);
    forall k | 0 <= k < n ensures Pointer(files.refs, rs[k]) != at {
      if Pointer(files.refs, rs[k]) == at {
        LoopContent(files, done, proven, work, sha, ciRun, Some(ReceiptRef(done[k], work, sha)));
        OriginOfReceipt(files.refs, done, work, sha, k);
        NotRewrittenEarlier(at, done, k, work, sha);
        assert false;
      }
    }
  }

  lemma NotRewrittenEarlier(at: Option<string>, rs: seq<string>, k: nat, work: string, sha: string)
    requires |sha| >= 12 && k <= |rs| && !Rewritten(at, rs, work, sha)
    ensures !Rewritten(at, rs[..k], work, sha)
  {
    assert forall i :: 0 <= i < k ==> rs[..k][i] == rs[i];
  }

  lemma StoppedFacts(files: Files, request: Request, sha: string, ciRun: string) returns (n: nat)
    requires Admitted(files, request, sha).Success? && !Succeeds(files, request, sha, ciRun) && |sha| >= 12
    ensures
      var (ref, program, package, proven) := Admitted(files, request, sha).value;
      var rs, work := package.requirements, package.workId;
      && n < |rs| && CanStopAt(files.refs, rs, work, sha, n)
      && ClaimsAt(files.evidence, Pointer(files.refs, rs[n])).Failure?
      && PromoteAll(files, rs[..n], proven, work, sha, ciRun).1.None?
      && After(files, request, sha, ciRun)
         == files.(evidence := PromoteAll(files, rs[..n], proven, work, sha, ciRun).0.evidence)
  {
    AdmittedFacts(files, request, sha);
    var (ref, program, package, proven) := Admitted(files, request, sha).value;
    n := StoppedLoop(files, package.requirements, proven, package.workId, sha, ciRun);
    StopNeedsAnUnread(files, package.requirements, proven, package.workId, sha, ciRun, n);
  }

  lemma FailureSpares(files: Files, request: Request, sha: string, ciRun: string, q: string)
    requires !Succeeds(files, request, sha, ciRun) && KeepsSourceWhenStopped(files, request, sha, q)
    ensures Spares(files, request, sha, ciRun, q)
  {
    if CurrentClaims(files, q).Success? {
      var after := After(files, request, sha, ciRun);
      CurrentIsAtPointer(files, q);
      CurrentIsAtPointer(after, q);
      if Admitted(files, request, sha).Success? {
        AdmittedFacts(files, request, sha);
        var (ref, program, package, proven) := Admitted(files, request, sha).value;
        var rs, work, at := package.requirements, package.workId, Pointer(files.refs, q);
        var n := StoppedFacts(files, request, sha, ciRun);
        LoopContent(files, rs[..n], proven, work, sha, ciRun, at);
        PromotedIsKept(CurrentClaims(files, q).value, proven, sha, ciRun);
      }
      assert Kept(CurrentClaims(files, q).value, CurrentClaims(files, q).value);
    }
  }

  /** A closeout that stops in its receipt loop spares a requirement, whatever the receipts say, if and
      only if no receipt it can have written by then replaces that requirement's claims. */
  lemma FailureKeepsExactly(files: Files, request: Request, sha: string, ciRun: string, q: string)
    requires Admitted(files, request, sha).Success?
    ensures FailureAlwaysSpares(files, request, sha, ciRun, q) <==> KeepsSourceWhenStopped(files, request, sha, q)
  {
    AdmittedFacts(files, request, sha);
    if KeepsSourceWhenStopped(files, request, sha, q) {
      forall evidence ensures SparesIfItFails(files, evidence, request, sha, ciRun, q) {
        var given := files.(evidence := evidence);
        NamesIgnoreContents(files, evidence, request, sha, q);
        if !Succeeds(given, request, sha, ciRun) {
          FailureSpares(given, request, sha, ciRun, q);
        }
      }
    } else {
      var (ref, program, package, proven) := Admitted(files, request, sha).value;
      var rs, at := package.requirements, Pointer(files.refs, q);
      var n :| 0 <= n < |rs| && CanStopAt(files.refs, rs, package.workId, sha, n)
               && at != Pointer(files.refs, rs[n]) && Origin(files.refs, rs[..n], package.workId, sha, at) != at;
      StoppingReceipts(files, request, sha, ciRun, q, n);
    }
  }

  lemma StoppingReceipts(files: Files, request: Request, sha: string, ciRun: string, q: string, n: nat)
    requires Admitted(files, request, sha).Success? && |sha| >= 12
    requires
      var (ref, program, package, proven) := Admitted(files, request, sha).value;
      var rs, work, at := package.requirements, package.workId, Pointer(files.refs, q);
      && CanStopAt(files.refs, rs, work, sha, n) && at != Pointer(files.refs, rs[n])
      && Origin(files.refs, rs[..n], work, sha, at) != at
    ensures exists evidence :: !SparesIfItFails(files, evidence, request, sha, ciRun, q)
  {
    AdmittedFacts(files, request, sha);
    var (ref, program, package, proven) := Admitted(files, request, sha).value;
    var rs, work, at := package.requirements, package.workId, Pointer(files.refs, q);
    var evidence := Receipts(files.refs, at.value, Pointer(files.refs, rs[n]));
    var given := files.(evidence := evidence);
    StopsAfter(files, request, sha, ciRun, at.value, n);
    hide Apply, Admitted, CanStopAt, Rewritten, Promoted, CurrentClaims, ClaimsAt, Pointer, PromoteAll, Receipts;
    LoopContent(given, rs[..n], proven, work, sha, ciRun, at);
    ReceiptsAt(files.refs, at.value, Pointer(files.refs, rs[n]), q);
    CurrentIsAtPointer(given, q);
    CurrentIsAtPointer(After(given, request, sha, ciRun), q);
    OriginIsReadable(files.refs, at.value, Pointer(files.refs, rs[n]), Origin(files.refs, rs[..n], work, sha, at));
    MarkIsLost(proven, sha, ciRun);
    assert !SparesIfItFails(files, evidence, request, sha, ciRun, q);
  }

  lemma StopsAfter(files: Files, request: Request, sha: string, ciRun: string, mark: string, n: nat)
    requires Admitted(files, request, sha).Success? && |sha| >= 12
    requires
      var (ref, program, package, proven) := Admitted(files, request, sha).value;
      CanStopAt(files.refs, package.requirements, package.workId, sha, n)
    ensures
      var (ref, program, package, proven) := Admitted(files, request, sha).value;
      var rs, work := package.requirements, package.workId;
      var given := files.(evidence := Receipts(files.refs, mark, Pointer(files.refs, rs[n])));
      && PromoteAll(given, rs[..n], proven, work, sha, ciRun).1.None?
      && !Succeeds(given, request, sha, ciRun)
      && After(given, request, sha, ciRun)
         == given.(evidence := PromoteAll(given, rs[..n], proven, work, sha, ciRun).0.evidence)
  {
    AdmittedFacts(files, request, sha);
    var (ref, program, package, proven) := Admitted(files, request, sha).value;
    var rs := package.requirements;
    NamesIgnoreContents(files, Receipts(files.refs, mark, Pointer(files.refs, rs[n])), request, sha, "");
    StopsThere(files, rs, proven, package.workId, sha, ciRun, mark, n);
  }

  lemma StopsThere(files: Files, rs: seq<string>, proven: map<Dimension, Claim>, work: string, sha: string,
                   ciRun: string, mark: string, n: nat)
    requires |sha| >= 12 && Distinct(rs) && CanStopAt(files.refs, rs, work, sha, n)
    ensures
      var given := files.(evidence := Receipts(files.refs, mark, Pointer(files.refs, rs[n])));
      var done := PromoteAll(given, rs[..n], proven, work, sha, ciRun);
      && done.1.None?
      && PromoteAll(given, rs, proven, work, sha, ciRun) == (done.0, Some(MalformedEvidence))
  {
    var missing := Pointer(files.refs, rs[n]);
    var given := files.(evidence := Receipts(files.refs, mark, missing));
    var done := rs[..n];
    forall k | 0 <= k < |done| ensures CurrentClaims(given, done[k]).Success? {
      CurrentIsAtPointer(given, done[k]);
      ReceiptsAt(files.refs, mark, missing, done[k]);
    }
    LoopSucceeds(given, done, proven, work, sha, ciRun);
    var sofar := PromoteAll(given, done, proven, work, sha, ciRun).0;
    PointerStays(given, done, proven, work, sha, ciRun, rs[n]);
    LoopContent(given, done, proven, work, sha, ciRun, missing);
    CurrentIsAtPointer(sofar, rs[n]);
    ReceiptsAt(files.refs, mark, missing, rs[n]);
    PromotionStep(given, rs, n, proven, work, sha, ciRun);
    PromotionStops(given, rs, n + 1, proven, work, sha, ciRun);
  }

  // ----- The condition on names alone

  /** No receipt this closeout writes is, before or at its turn, the receipt of another requirement
      whose turn has not come, unless the two share their receipt already. */
  ghost predicate Apart(refs: map<string, string>, rs: seq<string>, work: string, sha: string)
    requires |sha| >= 12
  {
    forall i, q :: 0 <= i < |rs| && q != rs[i] && q !in rs[..i]
                   && Pointer(refs, q) == Some(ReceiptRef(rs[i], work, sha)) ==>
      Pointer(refs, rs[i]) == Pointer(refs, q)
  }

  ghost predicate NamesApart(files: Files, request: Request, sha: string)
    requires Admitted(files, request, sha).Success? && |sha| >= 12
  {
    var (ref, program, package, proven) := Admitted(files, request, sha).value;
    var rs, work := package.requirements, package.workId;
    && Apart(files.refs, rs, work, sha)
    && (Completing(files, request, sha) ==>
          && (forall i :: 0 <= i < |rs| ==> rs[i] + ("-" + SafeWork(work)) != program.id + "-completion")
          && (forall q :: q in files.refs && q !in rs ==> files.refs[q] != CompletionRef(program.id, sha)))
  }

  lemma OwnOrigin(refs: map<string, string>, rs: seq<string>, work: string, sha: string, q: string)
    requires |sha| >= 12 && Distinct(rs) && Apart(refs, rs, work, sha)
    ensures Origin(refs, rs, work, sha, PointerAfter(refs, rs, work, sha, q)) == Pointer(refs, q)
  {
    var at, upTo := Pointer(refs, q), |rs|;
    if q in rs {
      upTo :| 0 <= upTo < |rs| && rs[upTo] == q;
      OriginOfReceipt(refs, rs, work, sha, upTo);
    } else {
      assert rs[..upTo] == rs;
    }
    var done := rs[..upTo];
    if Rewritten(at, done, work, sha) {
      var i :| 0 <= i < |done| && at == Some(ReceiptRef(done[i], work, sha));
      assert q !in rs[..i];
      assert Pointer(refs, rs[i]) == at;
      OriginOfReceipt(refs, done, work, sha, i);
      assert done[..i] == rs[..i];
      OnlyOneWrites(rs, i, work, sha);
    }
  }

  lemma OnlyOneWrites(rs: seq<string>, i: nat, work: string, sha: string)
    requires |sha| >= 12 && Distinct(rs) && i < |rs|
    ensures !Rewritten(Some(ReceiptRef(rs[i], work, sha)), rs[..i], work, sha)
  {
    forall k | 0 <= k < i ensures ReceiptRef(rs[k], work, sha) != ReceiptRef(rs[i], work, sha) {
      if ReceiptRef(rs[k], work, sha) == ReceiptRef(rs[i], work, sha) {
        ReceiptRefInjective(rs[k], rs[i], work, sha);
        assert false;
      }
    }
  }

  lemma ApartIsNecessary(refs: map<string, string>, rs: seq<string>, work: string, sha: string)
    requires |sha| >= 12 && Distinct(rs)
    requires forall q :: Origin(refs, rs, work, sha, PointerAfter(refs, rs, work, sha, q)) == Pointer(refs, q)
    ensures Apart(refs, rs, work, sha)
  {
    forall i, q | 0 <= i < |rs| && q != rs[i] && q !in rs[..i] && Pointer(refs, q) == Some(ReceiptRef(rs[i], work, sha))
      ensures Pointer(refs, rs[i]) == Pointer(refs, q)
    {
      OriginOfReceipt(refs, rs, work, sha, i);
      assert Origin(refs, rs, work, sha, PointerAfter(refs, rs, work, sha, rs[i])) == Pointer(refs, rs[i]);
      assert Origin(refs, rs, work, sha, PointerAfter(refs, rs, work, sha, q)) == Pointer(refs, q);
      if q in rs {
        var j :| 0 <= j < |rs| && rs[j] == q;
        OriginOfReceipt(refs, rs, work, sha, j);
        LaterReadsOrigin(refs, rs, work, sha, i, j);
      }
    }
  }

  /** A requirement whose turn comes after that of rs[i] and who points to its receipt reads its claims. */
  lemma {:induction false} LaterReadsOrigin(refs: map<string, string>, rs: seq<string>, work: string, sha: string,
                                            i: nat, j: nat)
    requires |sha| >= 12 && Distinct(rs) && i < j <= |rs|
    ensures Origin(refs, rs[..j], work, sha, Some(ReceiptRef(rs[i], work, sha)))
         == Origin(refs, rs[..i], work, sha, Pointer(refs, rs[i]))
  {
    var done := rs[..j];
    OriginOfReceipt(refs, done, work, sha, i);
    assert done[..i] == rs[..i];
  }

  lemma OriginsApart(refs: map<string, string>, rs: seq<string>, work: string, sha: string)
    requires |sha| >= 12 && Distinct(rs)
    ensures (forall q :: Origin(refs, rs, work, sha, PointerAfter(refs, rs, work, sha, q)) == Pointer(refs, q))
       <==> Apart(refs, rs, work, sha)
  {
    if Apart(refs, rs, work, sha) {
      forall q ensures Origin(refs, rs, work, sha, PointerAfter(refs, rs, work, sha, q)) == Pointer(refs, q) {
        OwnOrigin(refs, rs, work, sha, q);
      }
    } else if forall q :: Origin(refs, rs, work, sha, PointerAfter(refs, rs, work, sha, q)) == Pointer(refs, q) {
      ApartIsNecessary(refs, rs, work, sha);
    }
  }

  /** Every requirement keeps its own claims exactly when the generated names are apart. */
  lemma AllKeepExactly(files: Files, request: Request, sha: string)
    requires Admitted(files, request, sha).Success? && |sha| >= 12
    ensures (forall q :: KeepsSource(files, request, sha, q)) <==> NamesApart(files, request, sha)
  {
    AdmittedFacts(files, request, sha);
    var (ref, program, package, proven) := Admitted(files, request, sha).value;
    var rs, work := package.requirements, package.workId;
    CompletionApart(files, request, sha);
    OriginsApart(files.refs, rs, work, sha);
    hide Origin, PointerAfter, Pointer, Apart, Admitted, LosesToCompletion, Completing, SafeWork, CompletionRef;
    assert forall q :: KeepsSource(files, request, sha, q) <==>
      && Origin(files.refs, rs, work, sha, PointerAfter(files.refs, rs, work, sha, q)) == Pointer(files.refs, q)
      && !LosesToCompletion(files, request, sha, q);
  }

  /** Successful closeouts spare every requirement, whatever the receipts say, if and only if the generated
      names are apart. */
  lemma EveryoneIsSparedExactly(files: Files, request: Request, sha: string, ciRun: string)
    requires Admitted(files, request, sha).Success? && |sha| >= 12
    ensures (forall q :: SuccessAlwaysSpares(files, request, sha, ciRun, q)) <==> NamesApart(files, request, sha)
  {
    AllKeepExactly(files, request, sha);
    hide NamesApart, KeepsSource, SuccessAlwaysSpares, Admitted;
    forall q ensures SuccessAlwaysSpares(files, request, sha, ciRun, q) <==> KeepsSource(files, request, sha, q)
    {
      SuccessKeepsExactly(files, request, sha, ciRun, q);
    }
  }

  lemma CompletionApart(files: Files, request: Request, sha: string)
    requires Admitted(files, request, sha).Success? && |sha| >= 12
    ensures
      var (ref, program, package, proven) := Admitted(files, request, sha).value;
      var rs, work := package.requirements, package.workId;
      (forall q :: !LosesToCompletion(files, request, sha, q)) <==>
      (Completing(files, request, sha) ==>
          && (forall i :: 0 <= i < |rs| ==> rs[i] + ("-" + SafeWork(work)) != program.id + "-completion")
          && (forall q :: q in files.refs && q !in rs ==> files.refs[q] != CompletionRef(program.id, sha)))
  {
    var (ref, program, package, proven) := Admitted(files, request, sha).value;
    var rs, work := package.requirements, package.workId;
    assert CompletionRef(program.id, sha)[0] == 'g';
    forall i | 0 <= i < |rs|
      ensures PointerAfter(files.refs, rs, work, sha, rs[i]) == Some(CompletionRef(program.id, sha))
         <==> rs[i] + ("-" + SafeWork(work)) == program.id + "-completion"
    {
      NamesCollide(rs[i], program.id, work, sha);
    }
    if forall q :: !LosesToCompletion(files, request, sha, q) {
      forall i | 0 <= i < |rs| ensures !LosesToCompletion(files, request, sha, rs[i]) { }
      forall q | q in files.refs && q !in rs ensures !LosesToCompletion(files, request, sha, q) { }
    }
  }

  predicate EndsWith(s: string, t: string) {
    |s| >= |t| && s[|s| - |t|..] == t
  }

  /** With a commit whose first twelve characters no current receipt name ends in, only a receipt that is
      named like the completion receipt can lose claims. */
  lemma FreshCommitKeepsExactly(files: Files, request: Request, sha: string)
    requires Admitted(files, request, sha).Success? && |sha| >= 12
    requires forall q :: q in files.refs ==> !EndsWith(files.refs[q], Suffix(sha))
    ensures
      var (ref, program, package, proven) := Admitted(files, request, sha).value;
      (forall q :: KeepsSource(files, request, sha, q)) <==>
      (Completing(files, request, sha) ==> forall i :: 0 <= i < |package.requirements| ==>
         package.requirements[i] + ("-" + SafeWork(package.workId)) != program.id + "-completion")
    ensures forall q :: KeepsSourceWhenStopped(files, request, sha, q)
  {
    AdmittedFacts(files, request, sha);
    var (ref, program, package, proven) := Admitted(files, request, sha).value;
    var rs, work := package.requirements, package.workId;
    AllKeepExactly(files, request, sha);
    hide Admitted, Completing, KeepsSource, SafeWork, Origin, Rewritten, ValidProgram, CanStopAt, Suffix;
    EndsInCommit(work, program.id, sha);
    assert Apart(files.refs, rs, work, sha);
    forall q, n | 0 <= n < |rs|
      ensures Origin(files.refs, rs[..n], work, sha, Pointer(files.refs, q)) == Pointer(files.refs, q)
    {
      NotRewrittenFresh(files.refs, rs[..n], work, sha, q);
    }
  }

  lemma EndsInCommit(work: string, programId: string, sha: string)
    requires |sha| >= 12
    ensures forall r: string :: EndsWith(ReceiptRef(r, work, sha), Suffix(sha))
    ensures EndsWith(CompletionRef(programId, sha), Suffix(sha))
  {
    forall r: string ensures EndsWith(ReceiptRef(r, work, sha), Suffix(sha)) {
      assert ReceiptRef(r, work, sha) == "governance/evidence/" + (r + ("-" + SafeWork(work))) + Suffix(sha);
    }
    assert CompletionRef(programId, sha) == "governance/evidence/" + (programId + "-completion") + Suffix(sha);
  }

  lemma NotRewrittenFresh(refs: map<string, string>, rs: seq<string>, work: string, sha: string, q: string)
    requires |sha| >= 12
    requires forall q :: q in refs ==> !EndsWith(refs[q], Suffix(sha))
    ensures !Rewritten(Pointer(refs, q), rs, work, sha)
  {
    EndsInCommit(work, "", sha);
  }
}
