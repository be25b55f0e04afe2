/** What runs of closeouts keep, failing ones included, and how closeouts and the scheduler fit together
    (governance/closeout.py and governance/model.py). */
module CloseoutHistory {
  import opened Prelude
  import opened ConstructionProgram
  import opened Ordering
  import opened Scheduler
  import opened Closeout
  import opened CloseoutEffect
  import opened CloseoutNames

  // ----- The program file

  /** The program file: package w became COMPLETE, nothing else a scheduler looks at changed, and the
      pointer is dropped exactly when that completed the last package. */
  ghost predicate ProgramClosed(before: Files, after: Files, ref: string, w: string) {
    && ref in before.programs && ref in after.programs
    && ClosedOne(before.programs[ref].packages, after.programs[ref].packages, w)
    && after.programs - {ref} == before.programs - {ref}
    && (after.activeProgram == None <==> AllComplete(after.programs[ref].packages))
    && (after.activeProgram != None ==> after.activeProgram == before.activeProgram)
    && (after.activeProgram == None ==> after.lastCompleted == Some(ref) && after.programs[ref].state == Complete)
  }

  /** A successful closeout completes exactly the requested package of the active program and drops the pointer
      exactly when nothing else was left open. */
  lemma CloseoutProgram(files: Files, request: Request, sha: string, ciRun: string)
    requires Succeeds(files, request, sha, ciRun)
    ensures files.activeProgram.Some?
    ensures ProgramClosed(files, After(files, request, sha, ciRun), files.activeProgram.value, request.workId)
  {
    AdmittedFacts(files, request, sha);
    var (ref, program, package, proven) := Admitted(files, request, sha).value;
    PromotionEffect(files, package.requirements, proven, package.workId, sha, ciRun, "");
    var written := PromoteAll(files, package.requirements, proven, package.workId, sha, ciRun).0;
    FinishedProgram(written, ref, package, proven, sha);
  }

  lemma FinishedProgram(files: Files, ref: string, package: Package, proven: map<Dimension, Claim>, sha: string)
    requires |sha| >= 12 && ref in files.programs && files.activeProgram.Some?
    ensures ProgramClosed(files, Finished(files, ref, files.programs[ref], package, proven, sha), ref, package.workId)
  {
    ClosesOne(files.programs[ref].packages, package.workId, proven,
              ReceiptRefs(package.requirements, package.workId, sha));
  }

  lemma ClosesOne(ps: seq<Package>, w: string, proven: map<Dimension, Claim>, receipts: seq<string>)
    ensures ClosedOne(ps, ClosePackages(ps, w, proven, receipts), w)
  {
  }

  /** Once the pointer is dropped no closeout succeeds any more, and none changes anything. */
  lemma NothingAfterCompletion(files: Files, request: Request, sha: string, ciRun: string)
    requires files.activeProgram.None?
    ensures Apply(files, request, sha, ciRun) == (files, Some(NoActiveProgram))
  {
  }

  /** A failed closeout moves no pointer and closes no package. */
  lemma FailureKeepsPointers(files: Files, request: Request, sha: string, ciRun: string)
    requires !Succeeds(files, request, sha, ciRun)
    ensures After(files, request, sha, ciRun) == files.(evidence := After(files, request, sha, ciRun).evidence)
  {
  }

  // ----- The report

  predicate SameDocument(before: map<string, Document>, after: map<string, Document>, name: string) {
    (name in after <==> name in before) && (name in before ==> after[name] == before[name])
  }

  /** The changed files a closeout reports name every file that differs afterwards, each once. */
  lemma ReportIsComplete(files: Files, request: Request, sha: string, ciRun: string, name: string)
    requires Succeeds(files, request, sha, ciRun)
    ensures Admitted(files, request, sha).Success? && |sha| >= 12
    ensures
      var after := After(files, request, sha, ciRun);
      && Distinct(Changed(files, request, sha))
      && (name !in Changed(files, request, sha) ==>
            && SameDocument(files.evidence, after.evidence, name)
            && (name in after.programs <==> name in files.programs)
            && (name in files.programs ==> after.programs[name] == files.programs[name]))
      && (name == CURRENT_STATE ==> name in Changed(files, request, sha))
  {
    AdmittedFacts(files, request, sha);
    var (ref, program, package, proven) := Admitted(files, request, sha).value;
    var rs, work := package.requirements, package.workId;
    var receipts := ReceiptRefs(rs, work, sha);
    var all := receipts
               + (if AllComplete(ClosePackages(program.packages, work, proven, receipts))
                  then [CompletionRef(program.id, sha)] else [])
               + [ref, CURRENT_STATE];
    assert Changed(files, request, sha) == Dedup(all);
    PromotionEffect(files, rs, proven, work, sha, ciRun, "");
    assert CURRENT_STATE in all && ref in all;
    if name !in all {
      forall i | 0 <= i < |rs| ensures name != ReceiptRef(rs[i], work, sha) {
        assert receipts[i] in all;
      }
      LoopWrites(files, rs, proven, work, sha, ciRun, name);
    }
  }

  lemma {:induction false} LoopWrites(files: Files, rs: seq<string>, proven: map<Dimension, Claim>, work: string,
                                      sha: string, ciRun: string, name: string)
    requires |sha| >= 12 && forall i :: 0 <= i < |rs| ==> name != ReceiptRef(rs[i], work, sha)
    ensures SameDocument(files.evidence, PromoteAll(files, rs, proven, work, sha, ciRun).0.evidence, name)
  {
    if rs != [] {
      var rest := rs[..|rs| - 1];
      assert forall i :: 0 <= i < |rest| ==> rest[i] == rs[i];
      LoopWrites(files, rest, proven, work, sha, ciRun, name);
    }
  }

  // ----- Whole histories

  datatype Call = Call(request: Request, sha: string, ciRun: string)

  ghost predicate Closes(files: Files, call: Call) {
    Succeeds(files, call.request, call.sha, call.ciRun)
  }

  /** Any run of closeouts, successful or not. */
  ghost predicate History(trace: seq<Files>, calls: seq<Call>) {
    && |trace| == |calls| + 1
    && forall i :: 0 <= i < |calls| ==> Step(trace[i], trace[i + 1], calls[i])
  }

  ghost predicate Step(before: Files, after: Files, call: Call) {
    after == After(before, call.request, call.sha, call.ciRun)
  }

  /** The names this call meets leave q its own claims. */
  ghost predicate LeavesOwn(files: Files, call: Call, q: string) {
    if Closes(files, call) then KeepsSource(files, call.request, call.sha, q)
    else KeepsSourceWhenStopped(files, call.request, call.sha, q)
  }

  ghost predicate OwnThroughout(trace: seq<Files>, calls: seq<Call>, q: string)
    requires |trace| == |calls| + 1
  {
    forall i :: 0 <= i < |calls| ==> LeavesOwn(trace[i], calls[i], q)
  }

  /** Over any run of closeouts, successful or not, a requirement that keeps its own receipt keeps every
      proven claim; its evidence refs only grow and are duplicate-free once written, and its two consumer
      dimensions are never touched. */
  lemma {:induction false} ClaimsOverHistory(trace: seq<Files>, calls: seq<Call>, q: string)
    requires History(trace, calls) && OwnThroughout(trace, calls, q)
    requires CurrentClaims(trace[0], q).Success?
    ensures CurrentClaims(trace[|calls|], q).Success?
    ensures Kept(CurrentClaims(trace[0], q).value, CurrentClaims(trace[|calls|], q).value)
  {
    if calls != [] {
      var n := |calls| - 1;
      assert Step(trace[n], trace[n + 1], calls[n]) && LeavesOwn(trace[n], calls[n], q);
      HistoryPrefix(trace, calls, q);
      ClaimsOverHistory(trace[..n + 1], calls[..n], q);
      StepSpares(trace[n], calls[n], q);
      KeptTrans(CurrentClaims(trace[0], q).value, CurrentClaims(trace[n], q).value,
                CurrentClaims(trace[n + 1], q).value);
    } else {
      CurrentIsAtPointer(trace[0], q);
    }
  }

  lemma StepSpares(files: Files, call: Call, q: string)
    requires LeavesOwn(files, call, q)
    ensures Spares(files, call.request, call.sha, call.ciRun, q)
  {
    if Closes(files, call) {
      SuccessSpares(files, call.request, call.sha, call.ciRun, q);
    } else {
      FailureSpares(files, call.request, call.sha, call.ciRun, q);
    }
  }

  lemma HistoryPrefix(trace: seq<Files>, calls: seq<Call>, q: string)
    requires History(trace, calls) && OwnThroughout(trace, calls, q) && calls != []
    ensures History(trace[..|calls|], calls[..|calls| - 1])
    ensures OwnThroughout(trace[..|calls|], calls[..|calls| - 1], q)
  {
    var t, c := trace[..|calls|], calls[..|calls| - 1];
    forall i | 0 <= i < |c| ensures Step(t[i], t[i + 1], c[i]) && LeavesOwn(t[i], c[i], q) {
      assert Step(trace[i], trace[i + 1], calls[i]) && LeavesOwn(trace[i], calls[i], q);
    }
  }

  /** Children whose evidence is the current claims of a requirement. */
  function ChildrenAt(files: Files, kids: seq<(Obligation, string)>): seq<Child>
    requires forall k :: 0 <= k < |kids| ==> CurrentClaims(files, kids[k].1).Success?
  {
    seq(|kids|, k requires 0 <= k < |kids| => Child(kids[k].0, CurrentClaims(files, kids[k].1).value))
  }

  /** Parent acceptance, derived at its default dimension, never changes by mechanical closeout. */
  lemma ParentAcceptanceOverHistory(trace: seq<Files>, calls: seq<Call>, kids: seq<(Obligation, string)>, d: Dimension)
    requires History(trace, calls) && d in NEVER_AUTOMATE
    requires forall k :: 0 <= k < |kids| ==> CurrentClaims(trace[0], kids[k].1).Success?
    requires forall k :: 0 <= k < |kids| ==> OwnThroughout(trace, calls, kids[k].1)
    ensures forall k :: 0 <= k < |kids| ==> CurrentClaims(trace[|calls|], kids[k].1).Success?
    ensures DeriveParentState(ChildrenAt(trace[|calls|], kids), d) == DeriveParentState(ChildrenAt(trace[0], kids), d)
  {
    forall k | 0 <= k < |kids|
      ensures SameAt(trace[0], trace[|calls|], kids[k].1, d)
    {
      ClaimsOverHistory(trace, calls, kids[k].1);
    }
    SameChildren(trace[0], trace[|calls|], kids, d);
  }

  predicate SameAt(before: Files, after: Files, q: string, d: Dimension) {
    && CurrentClaims(before, q).Success? && CurrentClaims(after, q).Success?
    && ClaimProven(CurrentClaims(before, q).value, d) == ClaimProven(CurrentClaims(after, q).value, d)
  }

  lemma SameChildren(before: Files, after: Files, kids: seq<(Obligation, string)>, d: Dimension)
    requires forall k :: 0 <= k < |kids| ==> SameAt(before, after, kids[k].1, d)
    ensures forall k :: 0 <= k < |kids| ==> CurrentClaims(before, kids[k].1).Success?
    ensures forall k :: 0 <= k < |kids| ==> CurrentClaims(after, kids[k].1).Success?
    ensures DeriveParentState(ChildrenAt(after, kids), d) == DeriveParentState(ChildrenAt(before, kids), d)
  {
    assert forall k :: 0 <= k < |kids| ==> SameAt(before, after, kids[k].1, d);
    SameParent(ChildrenAt(before, kids), ChildrenAt(after, kids), d);
  }

  lemma SameParent(before: seq<Child>, after: seq<Child>, d: Dimension)
    requires |before| == |after|
    requires forall k :: 0 <= k < |before| ==>
      && after[k].obligation == before[k].obligation
      && ClaimProven(after[k].evidence, d) == ClaimProven(before[k].evidence, d)
    ensures DeriveParentState(after, d) == DeriveParentState(before, d)
  {
  }

  ghost predicate DoneIn(files: Files, ref: string, w: string) {
    && ref in files.programs && DistinctIds(files.programs[ref].packages)
    && HasId(files.programs[ref].packages, w) && Lookup(files.programs[ref].packages, w).state == Complete
  }

  lemma ClosedKeepsDone(before: Files, after: Files, active: string, closed: string, ref: string, w: string)
    requires ProgramClosed(before, after, active, closed)
    requires DistinctIds(before.programs[active].packages) && HasId(before.programs[active].packages, closed)
    ensures DoneIn(before, ref, w) ==> DoneIn(after, ref, w)
    ensures DoneIn(after, active, closed)
  {
    var ps, ps' := before.programs[active].packages, after.programs[active].packages;
    ClosedLookup(ps, ps', closed, closed);
    if DoneIn(before, ref, w) {
      if ref == active {
        ClosedLookup(ps, ps', closed, w);
      } else {
        assert ref in before.programs - {active} && (after.programs - {active})[ref] == before.programs[ref];
      }
    }
  }

  lemma StepKeepsDone(before: Files, after: Files, call: Call, ref: string, w: string)
    requires Step(before, after, call)
    ensures DoneIn(before, ref, w) ==> DoneIn(after, ref, w)
    ensures Closes(before, call) ==>
      && before.activeProgram.Some?
      && DoneIn(after, before.activeProgram.value, call.request.workId)
      && !DoneIn(before, before.activeProgram.value, call.request.workId)
  {
    if Closes(before, call) {
      AdmittedFacts(before, call.request, call.sha);
      CloseoutProgram(before, call.request, call.sha, call.ciRun);
      ClosedKeepsDone(before, after, before.activeProgram.value, call.request.workId, ref, w);
    } else {
      FailureKeepsPointers(before, call.request, call.sha, call.ciRun);
    }
  }

  lemma {:induction false} DoneStaysDone(trace: seq<Files>, calls: seq<Call>, i: nat, j: nat, ref: string, w: string)
    requires History(trace, calls) && i <= j <= |calls| && DoneIn(trace[i], ref, w)
    ensures DoneIn(trace[j], ref, w)
    decreases j - i
  {
    if i < j {
      StepKeepsDone(trace[i], trace[i + 1], calls[i], ref, w);
      DoneStaysDone(trace, calls, i + 1, j, ref, w);
    }
  }

  lemma StepKeepsPointer(before: Files, after: Files, call: Call)
    requires Step(before, after, call)
    ensures after.activeProgram.Some? ==> after.activeProgram == before.activeProgram
  {
    if Closes(before, call) {
      CloseoutProgram(before, call.request, call.sha, call.ciRun);
    } else {
      FailureKeepsPointers(before, call.request, call.sha, call.ciRun);
    }
  }

  lemma {:induction false} OneProgram(trace: seq<Files>, calls: seq<Call>, i: nat, j: nat)
    requires History(trace, calls) && i <= j <= |calls|
    ensures trace[j].activeProgram.Some? ==> trace[j].activeProgram == trace[i].activeProgram
    decreases j - i
  {
    if i < j {
      OneProgram(trace, calls, i + 1, j);
      StepKeepsPointer(trace[i], trace[i + 1], calls[i]);
    }
  }

  /** Each package closes at most once in a run. */
  lemma ClosesOnce(trace: seq<Files>, calls: seq<Call>, i: nat, j: nat)
    requires History(trace, calls) && i < j < |calls|
    requires Closes(trace[i], calls[i]) && Closes(trace[j], calls[j])
    ensures calls[i].request.workId != calls[j].request.workId
  {
    var ref, w := trace[i].activeProgram, calls[i].request.workId;
    StepKeepsDone(trace[i], trace[i + 1], calls[i], "", w);
    StepKeepsDone(trace[j], trace[j + 1], calls[j], "", w);
    DoneStaysDone(trace, calls, i + 1, j, ref.value, w);
    OneProgram(trace, calls, i, j);
  }

  // ----- Closing what the scheduler calls eligible

  /** The active program is one the scheduler can finish. */
  ghost predicate ReadyFiles(files: Files, incidents: seq<Incident>) {
    && files.activeProgram.Some? && files.activeProgram.value in files.programs
    && ValidProgram(files.programs[files.activeProgram.value])
    && Ready(files.programs[files.activeProgram.value].packages, incidents)
  }

  /** Closing a package keeps the program file acceptable to the validator. */
  lemma ClosingKeepsValid(program: Program, package: Package, proven: map<Dimension, Claim>, receipts: seq<string>,
                          state: State)
    requires ValidProgram(program) && state != InvalidState
    ensures ValidProgram(program.(packages := ClosePackages(program.packages, package.workId, proven, receipts),
                                  state := state))
  {
    var ps, ps' := program.packages, ClosePackages(program.packages, package.workId, proven, receipts);
    var closed := program.(packages := ps', state := state);
    ClosesOne(ps, package.workId, proven, receipts);
    ClosingKeepsIds(ps, ps', package.workId);
    ClosingKeepsGraph(ps, ps', package.workId);
    ClosingKeepsDependencies(ps, ps', package.workId);
    forall i | 0 <= i < |ps'| ensures PackageOk(ps'[i], closed) {
      assert PackageOk(ps[i], program);
    }
  }

  lemma CloseoutKeepsValid(files: Files, request: Request, sha: string, ciRun: string)
    requires Succeeds(files, request, sha, ciRun)
    ensures files.activeProgram.Some?
    ensures files.activeProgram.value in After(files, request, sha, ciRun).programs
    ensures ValidProgram(After(files, request, sha, ciRun).programs[files.activeProgram.value])
  {
    AdmittedFacts(files, request, sha);
    var (ref, program, package, proven) := Admitted(files, request, sha).value;
    var receipts := ReceiptRefs(package.requirements, package.workId, sha);
    ClosingKeepsValid(program, package, proven, receipts, program.state);
    ClosingKeepsValid(program, package, proven, receipts, Complete);
  }

  lemma {:induction false} AllCompleteCounts(ps: seq<Package>)
    requires OnlyActiveOrComplete(ps)
    ensures AllComplete(ps) <==> CountActive(ps) == 0
  {
    if ps != [] {
      var rest := ps[..|ps| - 1];
      assert forall i :: 0 <= i < |rest| ==> rest[i] == ps[i];
      AllCompleteCounts(rest);
      if AllComplete(rest) && ps[|ps| - 1].state == Complete {
        assert forall i :: 0 <= i < |ps| ==> ps[i] == if i < |rest| then rest[i] else ps[|ps| - 1];
      }
    }
  }

  /** Closing an eligible package of a ready program through the closeout leaves a valid program that can
      be evaluated again, with one active package less; the pointer is dropped with the last one. */
  lemma EligibleCloseout(files: Files, call: Call, incidents: seq<Incident>)
    requires ReadyFiles(files, incidents) && Closes(files, call)
    requires Eligible(files.programs[files.activeProgram.value].packages, incidents, call.request.workId)
    ensures
      var ref, after := files.activeProgram.value, After(files, call.request, call.sha, call.ciRun);
      && ref in after.programs
      && ProgramClosed(files, after, ref, call.request.workId)
      && ValidProgram(after.programs[ref]) && Ready(after.programs[ref].packages, incidents)
      && CanEvaluate(after.programs[ref], incidents)
      && CountActive(after.programs[ref].packages) + 1 == CountActive(files.programs[ref].packages)
      && (after.activeProgram == Some(ref) <==> CountActive(after.programs[ref].packages) > 0)
      && (after.activeProgram == None <==> CountActive(after.programs[ref].packages) == 0)
      && (DependencyClosed(files.programs[ref].packages) ==> DependencyClosed(after.programs[ref].packages))
  {
    var ref, after := files.activeProgram.value, After(files, call.request, call.sha, call.ciRun);
    CloseoutProgram(files, call.request, call.sha, call.ciRun);
    CloseoutKeepsValid(files, call.request, call.sha, call.ciRun);
    StepFinishes(files.programs[ref].packages, after.programs[ref].packages, incidents, call.request.workId);
    ReadyEvaluates(after.programs[ref], incidents);
    AllCompleteCounts(after.programs[ref].packages);
  }

  /** A run of successful closeouts, each of a package that is eligible at its turn. */
  ghost predicate Scheduled(trace: seq<Files>, calls: seq<Call>, incidents: seq<Incident>, ref: string)
    requires History(trace, calls)
  {
    forall i :: 0 <= i < |calls| ==>
      && Closes(trace[i], calls[i]) && ref in trace[i].programs
      && Eligible(trace[i].programs[ref].packages, incidents, calls[i].request.workId)
  }

  /** Where a run stands after closing n eligible packages of the program that was active at its start. */
  ghost predicate Progress(first: Files, last: Files, ref: string, incidents: seq<Incident>, n: nat)
    requires ref in first.programs
  {
    && ref in last.programs
    && ValidProgram(last.programs[ref]) && Ready(last.programs[ref].packages, incidents)
    && CanEvaluate(last.programs[ref], incidents)
    && CountActive(last.programs[ref].packages) + n == CountActive(first.programs[ref].packages)
    && (n < CountActive(first.programs[ref].packages) ==> last.activeProgram == Some(ref))
    && (0 < n == CountActive(first.programs[ref].packages) ==> last.activeProgram == None)
    && ((exists w :: Eligible(last.programs[ref].packages, incidents, w))
        <==> n < CountActive(first.programs[ref].packages))
    && (DependencyClosed(first.programs[ref].packages) ==> DependencyClosed(last.programs[ref].packages))
  }

  /** Alternating evaluation and closeout finishes a ready program: after any number of closeouts of
      eligible packages the program is valid and can be evaluated, each closeout took one active package,
      and as long as one is left the program is still the active one and some package is eligible. So the
      run can go on until it has taken exactly the initial number of active packages, and with the last of
      them the pointer is dropped. */
  lemma {:induction false} ScheduledCloseoutsFinish(trace: seq<Files>, calls: seq<Call>, incidents: seq<Incident>)
    requires History(trace, calls) && ReadyFiles(trace[0], incidents)
    requires Scheduled(trace, calls, incidents, trace[0].activeProgram.value)
    ensures Progress(trace[0], trace[|calls|], trace[0].activeProgram.value, incidents, |calls|)
  {
    if calls == [] {
      ProgressStarts(trace[0], incidents);
    } else {
      var ref, n := trace[0].activeProgram.value, |calls| - 1;
      hide ReadyFiles, Step, Closes, Progress, Eligible;
      ScheduledPrefix(trace, calls, incidents, ref);
      ScheduledCloseoutsFinish(trace[..n + 1], calls[..n], incidents);
      ProgressStep(trace[0], trace[n], trace[n + 1], calls[n], ref, incidents, n);
    }
  }

  lemma ProgressStarts(files: Files, incidents: seq<Incident>)
    requires ReadyFiles(files, incidents)
    ensures Progress(files, files, files.activeProgram.value, incidents, 0)
  {
    var program := files.programs[files.activeProgram.value];
    hide CanEvaluate, DependencyClosed, CountActive, Eligible, ValidProgram, Ready;
    NeverStuck(program.packages, incidents);
    ReadyEvaluates(program, incidents);
  }

  lemma ScheduledPrefix(trace: seq<Files>, calls: seq<Call>, incidents: seq<Incident>, ref: string)
    requires History(trace, calls) && Scheduled(trace, calls, incidents, ref) && calls != []
    ensures
      var n := |calls| - 1;
      && History(trace[..n + 1], calls[..n]) && Scheduled(trace[..n + 1], calls[..n], incidents, ref)
      && Step(trace[n], trace[n + 1], calls[n]) && Closes(trace[n], calls[n]) && ref in trace[n].programs
      && Eligible(trace[n].programs[ref].packages, incidents, calls[n].request.workId)
  {
    hide Step, Closes, Eligible;
    var n := |calls| - 1;
    forall i | 0 <= i < n ensures Step(trace[..n + 1][i], trace[..n + 1][i + 1], calls[..n][i]) {
      assert Step(trace[i], trace[i + 1], calls[i]);
    }
    forall i | 0 <= i < n
      ensures Closes(trace[..n + 1][i], calls[..n][i])
      ensures ref in trace[..n + 1][i].programs
      ensures Eligible(trace[..n + 1][i].programs[ref].packages, incidents, calls[..n][i].request.workId)
    {
      assert Closes(trace[i], calls[i]);
    }
    assert Closes(trace[n], calls[n]);
  }

  lemma ProgressStep(first: Files, before: Files, after: Files, call: Call, ref: string, incidents: seq<Incident>,
                     n: nat)
    requires ref in first.programs && Progress(first, before, ref, incidents, n)
    requires Step(before, after, call) && Closes(before, call)
    requires Eligible(before.programs[ref].packages, incidents, call.request.workId)
    ensures Progress(first, after, ref, incidents, n + 1)
  {
    hide Succeeds, After, CanEvaluate, DependencyClosed, CountActive, Eligible, ValidProgram, Ready;
    assert before.activeProgram == Some(ref);
    EligibleCloseout(before, call, incidents);
    NeverStuck(after.programs[ref].packages, incidents);
  }
}
