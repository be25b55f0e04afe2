/** When some closeout of a package succeeds, and that scheduled closeouts can always go on
    (governance/closeout.py, governance/model.py). */
module CloseoutSchedule {
  import opened Prelude
  import opened DependencySearch
  import opened ConstructionProgram
  import opened Ordering
  import opened Scheduler
  import opened Closeout
  import opened CloseoutEffect
  import opened CloseoutNames
  import opened CloseoutHistory

  // ----- When some request succeeds

  /** Every requirement whose receipt was not replaced earlier in the same loop has a readable one. */
  ghost predicate LoopReads(files: Files, rs: seq<string>, work: string, sha: string)
    requires |sha| >= 12
  {
    forall n :: 0 <= n < |rs| && !Rewritten(Pointer(files.refs, rs[n]), rs[..n], work, sha) ==>
      CurrentClaims(files, rs[n]).Success?
  }

  /** The receipt loop goes through exactly under that condition. */
  lemma LoopSucceedsExactly(files: Files, rs: seq<string>, proven: map<Dimension, Claim>, work: string, sha: string,
                            ciRun: string)
    requires |sha| >= 12 && Distinct(rs)
    ensures PromoteAll(files, rs, proven, work, sha, ciRun).1.None? <==> LoopReads(files, rs, work, sha)
  {
    hide PromoteAll, PromoteOne, Rewritten, CurrentClaims, ReceiptRef;
    if PromoteAll(files, rs, proven, work, sha, ciRun).1.None? {
      forall n | 0 <= n < |rs| && !Rewritten(Pointer(files.refs, rs[n]), rs[..n], work, sha)
        ensures CurrentClaims(files, rs[n]).Success?
      {
        ReadAtItsTurn(files, rs, proven, work, sha, ciRun, n);
      }
    } else {
      var n := StoppedLoop(files, rs, proven, work, sha, ciRun);
      StopNeedsAnUnread(files, rs, proven, work, sha, ciRun, n);
      CurrentIsAtPointer(files, rs[n]);
    }
  }

  lemma ReadAtItsTurn(files: Files, rs: seq<string>, proven: map<Dimension, Claim>, work: string, sha: string,
                      ciRun: string, n: nat)
    requires |sha| >= 12 && Distinct(rs) && n < |rs|
    requires PromoteAll(files, rs, proven, work, sha, ciRun).1.None?
    requires !Rewritten(Pointer(files.refs, rs[n]), rs[..n], work, sha)
    ensures CurrentClaims(files, rs[n]).Success?
  {
    hide PromoteAll, PromoteOne, Rewritten, CurrentClaims, ClaimsAt, Pointer, ReceiptRef;
    var done := rs[..n];
    TurnSucceeds(files, rs, proven, work, sha, ciRun, n);
    var sofar := PromoteAll(files, done, proven, work, sha, ciRun).0;
    assert rs[n] !in done;
    PointerStays(files, done, proven, work, sha, ciRun, rs[n]);
    LoopContent(files, done, proven, work, sha, ciRun, Pointer(files.refs, rs[n]));
    CurrentIsAtPointer(files, rs[n]);
    CurrentIsAtPointer(sofar, rs[n]);
  }

  lemma TurnSucceeds(files: Files, rs: seq<string>, proven: map<Dimension, Claim>, work: string, sha: string,
                     ciRun: string, n: nat)
    requires |sha| >= 12 && n < |rs|
    requires PromoteAll(files, rs, proven, work, sha, ciRun).1.None?
    ensures PromoteAll(files, rs[..n], proven, work, sha, ciRun).1.None?
    ensures CurrentClaims(PromoteAll(files, rs[..n], proven, work, sha, ciRun).0, rs[n]).Success?
  {
    hide PromoteAll, CurrentClaims, ReceiptRef;
    if PromoteAll(files, rs[..n], proven, work, sha, ciRun).1.Some? {
      PromotionStops(files, rs, n, proven, work, sha, ciRun);
    }
    PromotionStep(files, rs, n, proven, work, sha, ciRun);
    var sofar := PromoteAll(files, rs[..n], proven, work, sha, ciRun).0;
    if PromoteOne(sofar, rs[n], proven, work, sha, ciRun).Failure? {
      PromotionStops(files, rs, n + 1, proven, work, sha, ciRun);
    }
  }

  /** Some dimension may be closed mechanically, and none that never may. */
  predicate Automatable(p: Package) {
    p.allowlist != {} && p.allowlist * NEVER_AUTOMATE == {}
  }

  /** A program the closeout can load, with a package of that id. */
  ghost predicate Loaded(files: Files, w: string) {
    && files.activeProgram.Some? && files.activeProgram.value in files.programs
    && ValidProgram(files.programs[files.activeProgram.value])
    && HasId(files.programs[files.activeProgram.value].packages, w)
  }

  ghost function PackageOf(files: Files, w: string): Package
    requires Loaded(files, w)
  {
    Lookup(files.programs[files.activeProgram.value].packages, w)
  }

  /** What a caller can look up before asking for a closeout. */
  ghost predicate Closable(files: Files, w: string, sha: string)
    requires Loaded(files, w)
  {
    var p := PackageOf(files, w);
    && p.state == Active && Automatable(p) && |sha| >= 12
    && LoopReads(files, p.requirements, w, sha)
  }

  ghost predicate SomeCloseout(files: Files, w: string, sha: string, ciRun: string) {
    exists request :: ClosesWork(files, request, w, sha, ciRun)
  }

  ghost predicate ClosesWork(files: Files, request: Request, w: string, sha: string, ciRun: string) {
    request.workId == w && Succeeds(files, request, sha, ciRun)
  }

  function AskFor(programId: string, w: string, d: Dimension): Request {
    Request(1, programId, w, true, map[d := Claim(Proven, [], None)], {})
  }

  lemma AskedIsAccepted(program: Program, p: Package, d: Dimension)
    requires p.state == Active && Automatable(p) && d in p.allowlist
    ensures ValidateRequest(AskFor(program.id, p.workId, d), program, p)
         == Success(AskFor(program.id, p.workId, d).claims)
  {
    var request := AskFor(program.id, p.workId, d);
    assert request.claims.Keys == {d} && ClaimOk(request.claims[d], p.paths);
    assert d !in NEVER_AUTOMATE by { assert d in NEVER_AUTOMATE ==> d in p.allowlist * NEVER_AUTOMATE; }
    assert Dedup<string>([]) == [];
    assert Normalized(request.claims) == request.claims;
  }

  lemma AskedIsAdmitted(files: Files, w: string, d: Dimension, sha: string)
    requires Loaded(files, w) && |sha| >= 12
    requires PackageOf(files, w).state == Active && Automatable(PackageOf(files, w))
    requires d in PackageOf(files, w).allowlist
    ensures
      var ref := files.activeProgram.value;
      var request := AskFor(files.programs[ref].id, w, d);
      Admitted(files, request, sha) == Success((ref, files.programs[ref], PackageOf(files, w), request.claims))
  {
    hide ValidateRequest, ValidProgram, Automatable;
    AskedIsAccepted(files.programs[files.activeProgram.value], PackageOf(files, w), d);
  }

  /** Some request for a package succeeds exactly when the package is active, its allowlist holds a
      dimension and no forbidden one, the commit has twelve characters, and the loop finds its receipts. */
  lemma SomeRequestSucceedsExactly(files: Files, w: string, sha: string, ciRun: string)
    requires Loaded(files, w)
    ensures SomeCloseout(files, w, sha, ciRun) <==> Closable(files, w, sha)
  {
    var ref, p := files.activeProgram.value, PackageOf(files, w);
    RequirementsDistinct(files, w);
    if request :| ClosesWork(files, request, w, sha, ciRun) {
      SuccessIsClosable(files, request, sha, ciRun);
    }
    if Closable(files, w, sha) {
      var d :| d in p.allowlist;
      var request := AskFor(files.programs[ref].id, w, d);
      AskedIsAdmitted(files, w, d, sha);
      LoopSucceedsExactly(files, p.requirements, request.claims, w, sha, ciRun);
      assert ClosesWork(files, request, w, sha, ciRun);
    }
  }

  lemma RequirementsDistinct(files: Files, w: string)
    requires Loaded(files, w)
    ensures Distinct(PackageOf(files, w).requirements)
  {
    var program := files.programs[files.activeProgram.value];
    var i :| 0 <= i < |program.packages| && program.packages[i] == PackageOf(files, w);
    assert PackageOk(program.packages[i], program);
  }

  lemma SuccessIsClosable(files: Files, request: Request, sha: string, ciRun: string)
    requires Succeeds(files, request, sha, ciRun)
    ensures Loaded(files, request.workId) && Closable(files, request.workId, sha)
  {
    AdmittedFacts(files, request, sha);
    var (ref, program, package, proven) := Admitted(files, request, sha).value;
    LoopSucceedsExactly(files, package.requirements, proven, package.workId, sha, ciRun);
    AcceptedNeedsAllowlist(request, program, package);
  }

  lemma AcceptedNeedsAllowlist(request: Request, program: Program, package: Package)
    requires ValidateRequest(request, program, package).Success?
    ensures Automatable(package)
  {
    RequestFacts(request, program, package);
    assert request.claims.Keys == Normalized(request.claims).Keys;
    assert request.claims != map[];
  }

  // ----- Active is not eligible

  /** A successful closeout keeps completed work closed under dependencies exactly when everything the closed
      package depends on was complete; the closeout itself does not look. */
  lemma ClosureKeptExactly(files: Files, request: Request, sha: string, ciRun: string)
    requires Succeeds(files, request, sha, ciRun)
    ensures Loaded(files, request.workId) && files.activeProgram.value in After(files, request, sha, ciRun).programs
    ensures
      var ref := files.activeProgram.value;
      var ps, ps' := files.programs[ref].packages, After(files, request, sha, ciRun).programs[ref].packages;
      DependencyClosed(ps) ==> (DependencyClosed(ps') <==> DependenciesDone(ps, request.workId))
  {
    AdmittedFacts(files, request, sha);
    CloseoutProgram(files, request, sha, ciRun);
    hide Succeeds, After, DependencyClosed, DependenciesDone, Acyclic;
    var ref := files.activeProgram.value;
    var ps, ps' := files.programs[ref].packages, After(files, request, sha, ciRun).programs[ref].packages;
    if DependencyClosed(ps) {
      ClosingKeepsClosure(ps, ps', request.workId);
    }
  }

  const FIRST := Package("first", "P", Active, ["a"], ["R"], "k", [], map[], {Mapped})
  const SECOND := Package("second", "P", Active, ["b"], ["S"], "k", ["first"], map[], {Mapped})

  /** Two active packages on different paths, the second depending on the first. */
  const TWO: Program := Program("P", Active, "owner", ["a", "b"], ["R", "S"], ["k"], [FIRST, SECOND])

  const TWO_FILES: Files := Files(map[], Some("p.json"), None, map["p.json" := TWO], map[])

  lemma TwoIds()
    ensures DistinctIds(TWO.packages) && IdSet(TWO.packages) == {"first", "second"}
    ensures HasId(TWO.packages, "first") && Lookup(TWO.packages, "first") == FIRST
    ensures HasId(TWO.packages, "second") && Lookup(TWO.packages, "second") == SECOND
  {
    var ps := TWO.packages;
    assert ps[0] == FIRST && ps[1] == SECOND && |FIRST.workId| != |SECOND.workId|;
    assert forall i :: 0 <= i < |ps| ==> ps[i] == FIRST || ps[i] == SECOND;
    LookupIs(ps, 0);
    LookupIs(ps, 1);
  }

  lemma TwoIsAcyclic()
    ensures Acyclic(GraphOf(TWO.packages))
  {
    TwoIds();
    var g, order := GraphOf(TWO.packages), ["first", "second"];
    assert g["first"] == [] && g["second"] == ["first"];
    hide GraphOf, Lookup, HasId;
    assert order[0] == "first" && order[1] == "second" && |order[0]| != |order[1]|;
    TopologicalMeansAcyclic(g, order);
  }

  lemma TwoIsValid()
    ensures ValidProgram(TWO)
  {
    TwoIds();
    TwoIsAcyclic();
    hide Acyclic, GraphOf, Lookup, HasId;
    var ps := TWO.packages;
    assert ps[0] == FIRST && ps[1] == SECOND;
    assert forall i, k :: 0 <= i < |ps| && 0 <= k < |ps[i].dependencies| ==> ps[i].dependencies[k] == "first";
    assert PackageOk(FIRST, TWO) && PackageOk(SECOND, TWO);
  }

  /** A valid program where a closeout of an ACTIVE package succeeds and leaves a COMPLETE one that depends on
      unfinished work. */
  lemma ActiveIsNotEnough(sha: string, ciRun: string)
    requires |sha| >= 12
    ensures
      var request := AskFor("P", "second", Mapped);
      && ValidProgram(TWO) && DependencyClosed(TWO.packages)
      && Succeeds(TWO_FILES, request, sha, ciRun)
      && "p.json" in After(TWO_FILES, request, sha, ciRun).programs
      && !DependencyClosed(After(TWO_FILES, request, sha, ciRun).programs["p.json"].packages)
  {
    TwoIds();
    TwoIsValid();
    TwoSucceeds(sha, ciRun);
    assert DependencyClosed(TWO.packages);
    hide Succeeds, After, DependencyClosed, ValidProgram;
    ClosureKeptExactly(TWO_FILES, AskFor("P", "second", Mapped), sha, ciRun);
    assert "first" in SECOND.dependencies;
  }

  lemma TwoSucceeds(sha: string, ciRun: string)
    requires |sha| >= 12
    ensures Succeeds(TWO_FILES, AskFor("P", "second", Mapped), sha, ciRun)
  {
    TwoIds();
    TwoIsValid();
    hide ValidProgram, ReceiptRef;
    AskedIsAdmitted(TWO_FILES, "second", Mapped, sha);
    assert LoopReads(TWO_FILES, ["S"], "second", sha);
    LoopSucceedsExactly(TWO_FILES, ["S"], AskFor("P", "second", Mapped).claims, "second", sha, ciRun);
  }

  // ----- Scheduled closeouts can go on

  predicate WorkFits(ps: seq<Package>) {
    forall i :: 0 <= i < |ps| && ps[i].state == Active ==> Automatable(ps[i])
  }

  predicate WorkReads(files: Files, ps: seq<Package>) {
    forall i :: 0 <= i < |ps| && ps[i].state == Active ==> AllReadable(files, ps[i].requirements)
  }

  predicate AllReadable(files: Files, rs: seq<string>) {
    forall k :: 0 <= k < |rs| ==> CurrentClaims(files, rs[k]).Success?
  }

  predicate SameWork(ps: seq<Package>, ps': seq<Package>) {
    && |ps'| == |ps|
    && forall i :: 0 <= i < |ps| ==>
         && ps'[i].allowlist == ps[i].allowlist && ps'[i].requirements == ps[i].requirements
         && (ps'[i].state == Active ==> ps[i].state == Active)
  }

  /** A closeout changes no allowlist and makes nothing active. */
  lemma WorkStaysTheSame(files: Files, request: Request, sha: string, ciRun: string)
    requires Succeeds(files, request, sha, ciRun)
    ensures
      var after := After(files, request, sha, ciRun);
      && files.activeProgram.Some?
      && var ref := files.activeProgram.value;
      && ref in files.programs && ref in after.programs
      && SameWork(files.programs[ref].packages, after.programs[ref].packages)
  {
    hide ValidProgram, ClosePackages, Admitted, Completing, Acyclic, SameWork;
    AdmittedFacts(files, request, sha);
    var (ref, program, package, proven) := Admitted(files, request, sha).value;
    var receipts := ReceiptRefs(package.requirements, package.workId, sha);
    PromotionEffect(files, package.requirements, proven, package.workId, sha, ciRun, "");
    ClosingKeepsWork(program.packages, package.workId, proven, receipts);
  }

  lemma ClosingKeepsWork(ps: seq<Package>, w: string, proven: map<Dimension, Claim>, receipts: seq<string>)
    ensures SameWork(ps, ClosePackages(ps, w, proven, receipts))
  {
  }

  /** Only the closeout that completes the program can make a receipt unreadable. */
  lemma ReadableStays(files: Files, request: Request, sha: string, ciRun: string, rs: seq<string>)
    requires Succeeds(files, request, sha, ciRun) && AllReadable(files, rs)
    requires After(files, request, sha, ciRun).activeProgram.Some?
    ensures AllReadable(After(files, request, sha, ciRun), rs)
  {
    AdmittedFacts(files, request, sha);
    var (ref, program, package, proven) := Admitted(files, request, sha).value;
    CompletesExactly(program.packages, package.workId, proven,
                     ReceiptRefs(package.requirements, package.workId, sha));
    assert !Completing(files, request, sha);
    forall k | 0 <= k < |rs| ensures CurrentClaims(After(files, request, sha, ciRun), rs[k]).Success? {
      hide CurrentClaims, After, Succeeds, Completing, Admitted;
      UnreadableExactly(files, request, sha, ciRun, rs[k]);
    }
  }

  /** Every package still to be closed may be closed mechanically and has readable receipts. */
  ghost predicate WorkOk(files: Files, ref: string) {
    && ref in files.programs && WorkFits(files.programs[ref].packages)
    && WorkReads(files, files.programs[ref].packages)
  }

  lemma StepKeepsWork(before: Files, after: Files, call: Call, ref: string)
    requires Step(before, after, call) && Closes(before, call)
    requires before.activeProgram == Some(ref) && WorkOk(before, ref)
    ensures WorkOk(after, ref)
  {
    hide Succeeds, After, AllReadable, Automatable;
    WorkStaysTheSame(before, call.request, call.sha, call.ciRun);
    CloseoutProgram(before, call.request, call.sha, call.ciRun);
    var ps, ps' := before.programs[ref].packages, after.programs[ref].packages;
    forall i | 0 <= i < |ps'| && ps'[i].state == Active
      ensures Automatable(ps'[i]) && AllReadable(after, ps'[i].requirements)
    {
      assert Automatable(ps[i]) && AllReadable(before, ps[i].requirements);
      SameAllowlist(ps[i], ps'[i]);
      ReadableStays(before, call.request, call.sha, call.ciRun, ps[i].requirements);
    }
  }

  lemma SameAllowlist(p: Package, p': Package)
    requires p'.allowlist == p.allowlist
    ensures Automatable(p') <==> Automatable(p)
  {
  }

  /** The last call of a scheduled run closes a package of the program that was active at its start. */
  lemma LastStep(trace: seq<Files>, calls: seq<Call>, incidents: seq<Incident>, ref: string)
    requires History(trace, calls) && Scheduled(trace, calls, incidents, ref) && calls != []
    requires trace[0].activeProgram == Some(ref)
    ensures
      var n := |calls| - 1;
      && History(trace[..n + 1], calls[..n]) && Scheduled(trace[..n + 1], calls[..n], incidents, ref)
      && Step(trace[n], trace[n + 1], calls[n]) && Closes(trace[n], calls[n])
      && trace[n].activeProgram == Some(ref)
  {
    var n := |calls| - 1;
    ScheduledPrefix(trace, calls, incidents, ref);
    OneProgram(trace, calls, 0, n);
    ClosesTheActiveProgram(trace[n], calls[n]);
  }

  lemma ClosesTheActiveProgram(files: Files, call: Call)
    requires Closes(files, call)
    ensures files.activeProgram.Some?
  {
  }

  lemma {:induction false} RunKeepsWork(trace: seq<Files>, calls: seq<Call>, incidents: seq<Incident>)
    requires History(trace, calls) && ReadyFiles(trace[0], incidents)
    requires Scheduled(trace, calls, incidents, trace[0].activeProgram.value)
    requires WorkOk(trace[0], trace[0].activeProgram.value)
    ensures WorkOk(trace[|calls|], trace[0].activeProgram.value)
  {
    if calls != [] {
      var ref, n := trace[0].activeProgram.value, |calls| - 1;
      assert |trace| == n + 2;
      hide ReadyFiles, History, Scheduled, WorkOk, Step, Closes, Eligible;
      LastStep(trace, calls, incidents, ref);
      RunKeepsWork(trace[..n + 1], calls[..n], incidents);
      StepKeepsWork(trace[n], trace[n + 1], calls[n], ref);
    }
  }

  /** After any number of scheduled closeouts, whatever is eligible can be closed at any commit. */
  lemma EligibleCanBeClosed(trace: seq<Files>, calls: seq<Call>, incidents: seq<Incident>, w: string, sha: string,
                            ciRun: string)
    requires History(trace, calls) && ReadyFiles(trace[0], incidents)
    requires Scheduled(trace, calls, incidents, trace[0].activeProgram.value)
    requires WorkOk(trace[0], trace[0].activeProgram.value) && |sha| >= 12
    requires
      var ref, last := trace[0].activeProgram.value, trace[|calls|];
      ref in last.programs && Eligible(last.programs[ref].packages, incidents, w)
    ensures SomeCloseout(trace[|calls|], w, sha, ciRun)
  {
    var ref, last := trace[0].activeProgram.value, trace[|calls|];
    hide History, Scheduled, ReadyFiles, SomeCloseout, Eligible, Ready, ValidProgram;
    RunKeepsWork(trace, calls, incidents);
    ScheduledCloseoutsFinish(trace, calls, incidents);
    assert last.activeProgram == Some(ref) && ValidProgram(last.programs[ref]);
    EligibleIsActive(last.programs[ref].packages, incidents, w);
    OkIsClosable(last, w, sha);
    SomeRequestSucceedsExactly(last, w, sha, ciRun);
  }

  lemma EligibleIsActive(ps: seq<Package>, incidents: seq<Incident>, w: string)
    requires Eligible(ps, incidents, w)
    ensures HasId(ps, w) && Lookup(ps, w).state == Active
  {
  }

  lemma OkIsClosable(files: Files, w: string, sha: string)
    requires Loaded(files, w) && WorkOk(files, files.activeProgram.value) && |sha| >= 12
    requires PackageOf(files, w).state == Active
    ensures Closable(files, w, sha)
  {
    hide ValidProgram, Automatable, Rewritten, CurrentClaims;
    var ps, p := files.programs[files.activeProgram.value].packages, PackageOf(files, w);
    var i :| 0 <= i < |ps| && ps[i] == p;
    assert AllReadable(files, p.requirements);
  }

  // ----- A program can be closed to its end exactly when every open package may be automated

  ghost predicate Scheduling(trace: seq<Files>, calls: seq<Call>, files: Files, incidents: seq<Incident>,
                             commits: seq<string>)
    requires files.activeProgram.Some?
  {
    && History(trace, calls) && trace[0] == files && |calls| == |commits|
    && Scheduled(trace, calls, incidents, files.activeProgram.value)
    && forall i :: 0 <= i < |calls| ==> calls[i].sha == commits[i]
  }

  ghost predicate RunsToTheEnd(files: Files, incidents: seq<Incident>, commits: seq<string>)
    requires files.activeProgram.Some?
  {
    exists trace: seq<Files>, calls: seq<Call> ::
      Scheduling(trace, calls, files, incidents, commits) && trace[|calls|].activeProgram == None
  }

  /** One more scheduled closeout, at any commit. */
  lemma OneMoreCall(trace: seq<Files>, calls: seq<Call>, files: Files, incidents: seq<Incident>,
                    commits: seq<string>, sha: string)
    returns (call: Call)
    requires ReadyFiles(files, incidents) && WorkOk(files, files.activeProgram.value) && |sha| >= 12
    requires Scheduling(trace, calls, files, incidents, commits)
    requires |calls| < CountActive(files.programs[files.activeProgram.value].packages)
    ensures call.sha == sha
    ensures
      var ref, last := files.activeProgram.value, trace[|calls|];
      && ref in last.programs && Eligible(last.programs[ref].packages, incidents, call.request.workId)
      && Closes(last, call)
  {
    var ref, last := files.activeProgram.value, trace[|calls|];
    assert last == trace[|calls|] && |trace| == |calls| + 1;
    hide ReadyFiles, WorkOk, Eligible, Scheduled, History, CountActive, Ready, Step;
    ScheduledCloseoutsFinish(trace, calls, incidents);
    var w :| Eligible(last.programs[ref].packages, incidents, w);
    EligibleCanBeClosed(trace, calls, incidents, w, sha, "7");
    var request :| ClosesWork(last, request, w, sha, "7");
    call := Call(request, sha, "7");
  }

  lemma OneMoreStep(trace: seq<Files>, calls: seq<Call>, files: Files, incidents: seq<Incident>,
                    commits: seq<string>, call: Call, next: Files)
    requires files.activeProgram.Some? && Scheduling(trace, calls, files, incidents, commits)
    requires Step(trace[|calls|], next, call) && Closes(trace[|calls|], call)
    requires
      var ref, last := files.activeProgram.value, trace[|calls|];
      ref in last.programs && Eligible(last.programs[ref].packages, incidents, call.request.workId)
    ensures Scheduling(trace + [next], calls + [call], files, incidents, commits + [call.sha])
  {
    hide Step, Closes, Eligible;
    var t, c := trace + [next], calls + [call];
    forall i | 0 <= i < |c|
      ensures Step(t[i], t[i + 1], c[i])
    {
      assert i < |calls| ==> Step(trace[i], trace[i + 1], calls[i]);
    }
    forall i | 0 <= i < |c|
      ensures Closes(t[i], c[i])
      ensures files.activeProgram.value in t[i].programs
      ensures Eligible(t[i].programs[files.activeProgram.value].packages, incidents, c[i].request.workId)
    {
      assert i < |calls| ==> Closes(trace[i], calls[i]);
    }
  }

  lemma OneMore(trace: seq<Files>, calls: seq<Call>, files: Files, incidents: seq<Incident>,
                commits: seq<string>, sha: string)
    returns (t: seq<Files>, c: seq<Call>)
    requires ReadyFiles(files, incidents) && WorkOk(files, files.activeProgram.value) && |sha| >= 12
    requires Scheduling(trace, calls, files, incidents, commits)
    requires |calls| < CountActive(files.programs[files.activeProgram.value].packages)
    ensures Scheduling(t, c, files, incidents, commits + [sha])
  {
    assert |trace| == |calls| + 1;
    var call := OneMoreCall(trace, calls, files, incidents, commits, sha);
    hide After, ReadyFiles, WorkOk, Eligible, Closes, Scheduling;
    var next := After(trace[|calls|], call.request, call.sha, call.ciRun);
    OneMoreStep(trace, calls, files, incidents, commits, call, next);
    t, c := trace + [next], calls + [call];
  }

  lemma {:induction false} RunFor(files: Files, incidents: seq<Incident>, commits: seq<string>)
    returns (trace: seq<Files>, calls: seq<Call>)
    requires ReadyFiles(files, incidents) && WorkOk(files, files.activeProgram.value)
    requires |commits| <= CountActive(files.programs[files.activeProgram.value].packages)
    requires forall i :: 0 <= i < |commits| ==> |commits[i]| >= 12
    ensures Scheduling(trace, calls, files, incidents, commits)
  {
    hide WorkOk, CountActive, Ready, ValidProgram, History, Scheduled;
    if commits == [] {
      trace, calls := [files], [];
      NothingScheduled(files, incidents);
    } else {
      var rest, sha := commits[..|commits| - 1], commits[|commits| - 1];
      assert forall i :: 0 <= i < |rest| ==> rest[i] == commits[i];
      trace, calls := RunFor(files, incidents, rest);
      trace, calls := OneMore(trace, calls, files, incidents, rest, sha);
      assert rest + [sha] == commits;
    }
  }

  lemma NothingScheduled(files: Files, incidents: seq<Incident>)
    requires files.activeProgram.Some?
    ensures Scheduling([files], [], files, incidents, [])
  {
  }

  ghost predicate UnfitAt(files: Files, ref: string, i: nat) {
    && ref in files.programs && i < |files.programs[ref].packages|
    && files.programs[ref].packages[i].state == Active && !Automatable(files.programs[ref].packages[i])
  }

  /** A package that may not be automated stays open whatever is closed. */
  lemma StepKeepsUnfit(before: Files, after: Files, call: Call, ref: string, i: nat)
    requires Step(before, after, call) && Closes(before, call)
    requires before.activeProgram == Some(ref) && UnfitAt(before, ref, i)
    ensures UnfitAt(after, ref, i)
  {
    hide Succeeds, After, Automatable, LoopReads, Acyclic;
    SuccessIsClosable(before, call.request, call.sha, call.ciRun);
    WorkStaysTheSame(before, call.request, call.sha, call.ciRun);
    CloseoutProgram(before, call.request, call.sha, call.ciRun);
    var ps, ps' := before.programs[ref].packages, after.programs[ref].packages;
    LookupIs(ps, i);
    assert SameButClosed(ps[i], ps'[i], call.request.workId);
    SameAllowlist(ps[i], ps'[i]);
  }

  lemma {:induction false} UnfitStaysOpen(trace: seq<Files>, calls: seq<Call>, incidents: seq<Incident>, i: nat)
    requires History(trace, calls) && ReadyFiles(trace[0], incidents)
    requires Scheduled(trace, calls, incidents, trace[0].activeProgram.value)
    requires UnfitAt(trace[0], trace[0].activeProgram.value, i)
    ensures UnfitAt(trace[|calls|], trace[0].activeProgram.value, i)
  {
    if calls != [] {
      var ref, n := trace[0].activeProgram.value, |calls| - 1;
      assert |trace| == n + 2;
      hide ReadyFiles, History, Scheduled, UnfitAt, Step, Closes, Eligible;
      LastStep(trace, calls, incidents, ref);
      UnfitStaysOpen(trace[..n + 1], calls[..n], incidents, i);
      StepKeepsUnfit(trace[n], trace[n + 1], calls[n], ref, i);
    }
  }

  /** From a ready program whose open work has readable receipts, alternating evaluation and closeout can close
      the program over a list of commits exactly when every open package may be closed mechanically and there
      is one commit of twelve characters or more for each of them. */
  lemma FinishesExactly(files: Files, incidents: seq<Incident>, commits: seq<string>)
    requires ReadyFiles(files, incidents)
    requires WorkReads(files, files.programs[files.activeProgram.value].packages)
    ensures
      var ps := files.programs[files.activeProgram.value].packages;
      RunsToTheEnd(files, incidents, commits)
      <==> && WorkFits(ps) && |commits| == CountActive(ps) > 0
           && forall i :: 0 <= i < |commits| ==> |commits[i]| >= 12
  {
    var ps := files.programs[files.activeProgram.value].packages;
    if RunsToTheEnd(files, incidents, commits) {
      var trace: seq<Files>, calls: seq<Call> :|
        Scheduling(trace, calls, files, incidents, commits) && trace[|calls|].activeProgram == None;
      FinishedNeeds(files, incidents, commits, trace, calls);
    }
    if WorkFits(ps) && |commits| == CountActive(ps) > 0 && forall i :: 0 <= i < |commits| ==> |commits[i]| >= 12 {
      hide WorkFits, WorkReads, ReadyFiles, CountActive;
      var trace, calls := RunFor(files, incidents, commits);
      ScheduledCloseoutsFinish(trace, calls, incidents);
      assert Scheduling(trace, calls, files, incidents, commits) && trace[|calls|].activeProgram == None;
    }
  }

  lemma FinishedNeeds(files: Files, incidents: seq<Incident>, commits: seq<string>, trace: seq<Files>,
                      calls: seq<Call>)
    requires ReadyFiles(files, incidents) && Scheduling(trace, calls, files, incidents, commits)
    requires trace[|calls|].activeProgram == None
    ensures
      var ps := files.programs[files.activeProgram.value].packages;
      && WorkFits(ps) && |commits| == CountActive(ps) > 0
      && forall i :: 0 <= i < |commits| ==> |commits[i]| >= 12
  {
    var ref := files.activeProgram.value;
    var ps := files.programs[ref].packages;
    hide CountActive, Ready, ValidProgram, Automatable, Eligible, Step, CanEvaluate;
    ScheduledCloseoutsFinish(trace, calls, incidents);
    forall i | 0 <= i < |commits| ensures |commits[i]| >= 12 {
      assert Closes(trace[i], calls[i]);
      AdmittedFacts(trace[i], calls[i].request, calls[i].sha);
    }
    forall i | 0 <= i < |ps| && ps[i].state == Active ensures Automatable(ps[i]) {
      if !Automatable(ps[i]) {
        UnfitStaysOpen(trace, calls, incidents, i);
        NothingOpen(files, trace[|calls|], ref, incidents, |calls|, i);
      }
    }
  }

  /** An open package and a finished program exclude each other. */
  lemma NothingOpen(first: Files, last: Files, ref: string, incidents: seq<Incident>, n: nat, i: nat)
    requires ref in first.programs && Progress(first, last, ref, incidents, n) && UnfitAt(last, ref, i)
    ensures last.activeProgram == Some(ref)
  {
    CountsMembers(last.programs[ref].packages);
  }

  /** The two-package program above is such a program. */
  lemma TwoRunToTheEnd(commits: seq<string>)
    requires |commits| == 2 && |commits[0]| >= 12 && |commits[1]| >= 12
    ensures ReadyFiles(TWO_FILES, []) && RunsToTheEnd(TWO_FILES, [], commits)
  {
    TwoIsReady();
    TwoIsValid();
    TwoAreOpen();
    hide ReadyFiles, Ready, ValidProgram, CountActive, RunsToTheEnd;
    assert WorkFits(TWO.packages) && WorkReads(TWO_FILES, TWO.packages);
    FinishesExactly(TWO_FILES, [], commits);
  }

  lemma TwoIsReady()
    ensures ReadyFiles(TWO_FILES, [])
  {
    TwoIds();
    TwoIsValid();
    hide Acyclic, HasId, Lookup, GraphOf;
    var ps := TWO.packages;
    assert ps[0] == FIRST && ps[1] == SECOND;
    assert !Overlap(FIRST.paths, SECOND.paths) && !Overlap(SECOND.paths, FIRST.paths);
  }

  lemma TwoAreOpen()
    ensures CountActive(TWO.packages) == 2
  {
    var ps, one := TWO.packages, [FIRST];
    assert one[..|one| - 1] == [] && CountActive(one) == 1;
    assert ps[..|ps| - 1] == one;
  }
}
