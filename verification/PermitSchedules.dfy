/** Particular interleavings of the permit protocol: one call from beginning to end, legitimate work that
    completes, and executors that are called late (n0te/coordinator_gateway.py). */
module PermitSchedules {
  import opened Prelude
  import opened Authority
  import opened ExecutionEnvelope
  import opened TrustedContext
  import opened PermitProtocol

  /** What the registered callables do when they are reached. */
  datatype Behaviour = Behaviour(executorReturns: bool, verifier: VerifierAnswer, reconciler: ReconcilerAnswer)

  // ----- One call without interruption

  /** The steps of the call with number i, checked at `clocks`; its executor is called at `later`. */
  function CallSteps(i: nat, call: Call, clocks: Clocks, up: bool, later: Clocks, b: Behaviour): seq<Step> {
    [Begin(call)] + ([Check(i, clocks)] + ([Spend(i, up)]
    + ([Execute(i, b.executorReturns, later)] + ([Verify(i, b.verifier)] + ([Reconcile(i, b.reconciler)] + [])))))
  }

  function CheckTurn(key: string, call: Call, stage: Stage, clocks: Clocks): Stage {
    if stage.Fetched? then AfterChecks(key, call, stage.snapshot, clocks) else stage
  }

  function SpendTurn(stage: Stage, ledger: Ledger, up: bool): (Stage, Ledger) {
    if stage.Granted? then AfterLedger(ledger, stage.grant, up) else (stage, ledger)
  }

  function ExecuteTurn(stage: Stage, completes: bool, ran: Moment): Stage {
    if stage.Paid? then AfterExecutor(stage.grant, completes, ran) else stage
  }

  function VerifyTurn(stage: Stage, answer: VerifierAnswer): Stage {
    if stage.Running? then AfterVerifier(stage.grant, stage.ran, answer) else stage
  }

  function ReconcileTurn(call: Call, stage: Stage, answer: ReconcilerAnswer): Stage {
    if stage.Proven? then AfterReconciler(call, stage.grant, stage.ran, stage.verification, answer) else stage
  }

  /** The stage a call that is not interrupted ends in, and the ledger it leaves. */
  function WholeCall(key: string, sys: System, call: Call, clocks: Clocks, up: bool, later: Clocks, b: Behaviour)
    : (Stage, Ledger)
  {
    var (paid, ledger) := SpendTurn(CheckTurn(key, call, Begun(sys, call), clocks), sys.ledger, up);
    var ran := ExecuteTurn(paid, b.executorReturns, Moment(sys.store, later));
    (ReconcileTurn(call, VerifyTurn(ran, b.verifier), b.reconciler), ledger)
  }

  /** The system with one more call, at some stage. */
  function Joined(sys: System, call: Call, stage: Stage, ledger: Ledger): System {
    sys.(calls := sys.calls + [Pending(call, sys.store, stage)], ledger := ledger)
  }

  lemma RunStep(key: string, sys: System, step: Step, rest: seq<Step>)
    ensures Run(key, sys, [step] + rest) == Run(key, Apply(key, sys, step), rest)
  {
    hide Apply;
    RunAppends(key, sys, [step], rest);
    assert [step][..0] == [];
  }

  lemma Turns(key: string, sys: System, call: Call, stage: Stage, ledger: Ledger, clocks: Clocks, up: bool,
              later: Clocks, b: Behaviour)
    ensures
      var i, at := |sys.calls|, Joined(sys, call, stage, ledger);
      var (spent, paid) := SpendTurn(stage, ledger, up);
      && Apply(key, at, Check(i, clocks)) == Joined(sys, call, CheckTurn(key, call, stage, clocks), ledger)
      && Apply(key, at, Spend(i, up)) == Joined(sys, call, spent, paid)
      && Apply(key, at, Execute(i, b.executorReturns, later))
           == Joined(sys, call, ExecuteTurn(stage, b.executorReturns, Moment(sys.store, later)), ledger)
      && Apply(key, at, Verify(i, b.verifier)) == Joined(sys, call, VerifyTurn(stage, b.verifier), ledger)
      && Apply(key, at, Reconcile(i, b.reconciler))
           == Joined(sys, call, ReconcileTurn(call, stage, b.reconciler), ledger)
  {
    hide AfterChecks, AfterLedger, AfterExecutor, AfterVerifier, AfterReconciler;
    var i, at := |sys.calls|, Joined(sys, call, stage, ledger);
    assert at.calls[i] == Pending(call, sys.store, stage);
    forall next: Stage ensures Moved(at, i, next) == Joined(sys, call, next, ledger) {
      assert at.calls[i := at.calls[i].(stage := next)] == sys.calls + [Pending(call, sys.store, next)];
    }
    assert Joined(sys, call, stage, ledger) == at;
  }

  /** Six steps in a row make a whole call. */
  lemma UninterruptedCall(key: string, sys: System, call: Call, clocks: Clocks, up: bool, later: Clocks, b: Behaviour)
    ensures
      var (stage, ledger) := WholeCall(key, sys, call, clocks, up, later, b);
      Run(key, sys, CallSteps(|sys.calls|, call, clocks, up, later, b)) == Joined(sys, call, stage, ledger)
  {
    var i := |sys.calls|;
    var begun := Begun(sys, call);
    var checked := CheckTurn(key, call, begun, clocks);
    var (paid, ledger) := SpendTurn(checked, sys.ledger, up);
    var ran := ExecuteTurn(paid, b.executorReturns, Moment(sys.store, later));
    var proven := VerifyTurn(ran, b.verifier);
    assert Apply(key, sys, Begin(call)) == Joined(sys, call, begun, sys.ledger);
    hide Apply, Begun, Joined, CheckTurn, SpendTurn, ExecuteTurn, VerifyTurn, ReconcileTurn;
    Turns(key, sys, call, begun, sys.ledger, clocks, up, later, b);
    Turns(key, sys, call, checked, sys.ledger, clocks, up, later, b);
    Turns(key, sys, call, paid, ledger, clocks, up, later, b);
    Turns(key, sys, call, ran, ledger, clocks, up, later, b);
    Turns(key, sys, call, proven, ledger, clocks, up, later, b);
    FoldSix(key, sys, Begin(call), Check(i, clocks), Spend(i, up), Execute(i, b.executorReturns, later),
            Verify(i, b.verifier), Reconcile(i, b.reconciler));
  }

  lemma FoldSix(key: string, sys: System, a: Step, b: Step, c: Step, d: Step, e: Step, f: Step)
    ensures Run(key, sys, [a] + ([b] + ([c] + ([d] + ([e] + ([f] + []))))))
         == Apply(key, Apply(key, Apply(key, Apply(key, Apply(key, Apply(key, sys, a), b), c), d), e), f)
  {
    hide Apply;
    RunStep(key, sys, a, [b] + ([c] + ([d] + ([e] + ([f] + [])))));
    FoldFive(key, Apply(key, sys, a), b, c, d, e, f);
  }

  // ----- Legitimate work

  lemma IssuedTimes(req: IssueRequest, clocks: Clocks, uuid: string)
    requires Issued(req, clocks, uuid).Success?
    ensures clocks.context <= req.snapshot.expiresAt
    ensures clocks.permit <= Issued(req, clocks, uuid).value.expiresAt
    ensures Trusted(req.snapshot) ==> StatefulClass(req.action.actionClass)
  {
    if Trusted(req.snapshot) {
      OnlyStatefulClassesAgree(req.envelope, req.snapshot, clocks.context);
    }
    hide Trusted;
    hide Executable, ValidEnvelope, PolicyAgrees, ApprovalPresent;
  }

  lemma TrustedWhenServed(store: Store, snapshotId: string, s: Snapshot)
    requires Get(store, snapshotId) == Some(s)
    ensures Trusted(s)
  {
    ServesOnlyTheCurrentSnapshot(store, snapshotId);
    hide Trusted, OnlyCarrier;
  }

  /** Registering the mutation and issuing the permit. */
  function Preparation(name: string, req: IssueRequest, clocks: Clocks, uuid: string): seq<Step> {
    [Register(name, req.action.actionClass)] + ([Issue(req, clocks, uuid)] + [])
  }

  function Prepared(store: Store, name: string, req: IssueRequest, p: Payload): System {
    System(store, map[name := req.action.actionClass], map[], [p], [])
  }

  lemma PreparationWorks(key: string, store: Store, name: string, req: IssueRequest, clocks: Clocks, uuid: string,
                         p: Payload)
    requires Trusted(req.snapshot) && Issued(req, clocks, uuid) == Success(p) && name != ""
    ensures Run(key, Initial(store), Preparation(name, req, clocks, uuid)) == Prepared(store, name, req, p)
    ensures AllowedRun(key, Initial(store), Preparation(name, req, clocks, uuid))
  {
    var register, issue := Register(name, req.action.actionClass), Issue(req, clocks, uuid);
    IssuedTimes(req, clocks, uuid);
    hide Trusted, Issued;
    assert Apply(key, Initial(store), register) == System(store, map[name := req.action.actionClass], map[], [], []);
    RunStep(key, Initial(store), register, [issue] + []);
    RunStep(key, Apply(key, Initial(store), register), issue, []);
    AllowedStep(key, Initial(store), register, [issue] + []);
    AllowedStep(key, Apply(key, Initial(store), register), issue, []);
  }

  lemma AllowedStep(key: string, sys: System, step: Step, rest: seq<Step>)
    ensures AllowedRun(key, sys, [step] + rest)
       <==> Allowed(key, sys, step) && AllowedRun(key, Apply(key, sys, step), rest)
  {
    hide Apply, Allowed;
    AllowedAppends(key, sys, [step], rest);
    assert [step][..0] == [];
    assert AllowedRun(key, sys, []) && Run(key, sys, []) == sys;
  }

  lemma {:induction false} AllowedAppends(key: string, sys: System, a: seq<Step>, b: seq<Step>)
    ensures AllowedRun(key, sys, a + b) <==> AllowedRun(key, sys, a) && AllowedRun(key, Run(key, sys, a), b)
  {
    hide Apply, Allowed;
    if b == [] {
      assert a + b == a;
    } else {
      var rest := b[..|b| - 1];
      assert (a + b)[..|a + b| - 1] == a + rest && (a + b)[|a + b| - 1] == b[|b| - 1];
      AllowedAppends(key, sys, a, rest);
      RunAppends(key, sys, a, rest);
    }
  }

  /** Only signed tokens are presented, so any steps of calls are allowed in this system. */
  lemma {:induction false} CallsAreAllowed(key: string, sys: System, steps: seq<Step>)
    requires forall k :: 0 <= k < |steps| ==> !steps[k].Issue?
    requires forall k :: 0 <= k < |sys.calls| ==> Presents(sys, sys.calls[k].call)
    requires forall k :: 0 <= k < |steps| && steps[k].Begin? ==> Presents(sys, steps[k].call)
    ensures AllowedRun(key, sys, steps)
    ensures var later := Run(key, sys, steps);
      later.signed == sys.signed && forall k :: 0 <= k < |later.calls| ==> Presents(sys, later.calls[k].call)
  {
    hide Presents;
    if steps != [] {
      var n := |steps| - 1;
      CallsAreAllowed(key, sys, steps[..n]);
      var before := Run(key, sys, steps[..n]);
      SameTokens(key, before, steps[n]);
      assert Allowed(key, before, steps[n]) by {
        if steps[n].Check? && steps[n].index < |before.calls| {
          PresentsSigned(sys, before.calls[steps[n].index].call);
        }
      }
    }
  }

  predicate Presents(sys: System, call: Call) {
    call.token.Token? ==> call.token.payload in sys.signed
  }

  lemma PresentsSigned(sys: System, call: Call)
    requires Presents(sys, call)
    ensures call.token.Token? ==> call.token.payload in sys.signed
  {
  }

  lemma SameTokens(key: string, sys: System, step: Step)
    requires !step.Issue?
    ensures var next := Apply(key, sys, step);
      && next.signed == sys.signed
      && forall k :: 0 <= k < |next.calls| ==>
           next.calls[k].call == if k < |sys.calls| then sys.calls[k].call
                                 else if step.Begin? then step.call else next.calls[k].call
  {
    hide Registered, NextStage, AfterLedger, Begun;
    var next := Apply(key, sys, step);
  }

  /** Whatever calls do with a freshly issued permit after the preparation is an allowed run. */
  lemma PreparedRun(key: string, store: Store, name: string, req: IssueRequest, clocks: Clocks, uuid: string,
                    p: Payload, steps: seq<Step>)
    requires Trusted(req.snapshot) && Issued(req, clocks, uuid) == Success(p) && name != ""
    requires forall k :: 0 <= k < |steps| ==> !steps[k].Issue?
    requires forall k :: 0 <= k < |steps| && steps[k].Begin? ==> steps[k].call.token == Token(p, Hmac(key, p))
    ensures AllowedRun(key, Initial(store), Preparation(name, req, clocks, uuid) + steps)
    ensures Run(key, Initial(store), Preparation(name, req, clocks, uuid) + steps)
         == Run(key, Prepared(store, name, req, p), steps)
  {
    hide Run, AllowedRun, Issued, Trusted, Preparation;
    PreparationWorks(key, store, name, req, clocks, uuid, p);
    var ready := Prepared(store, name, req, p);
    RunAppends(key, Initial(store), Preparation(name, req, clocks, uuid), steps);
    AllowedAppends(key, Initial(store), Preparation(name, req, clocks, uuid), steps);
    CallsAreAllowed(key, ready, steps);
  }

  function Succeeding(v: Verification, receipt: string): Behaviour {
    Behaviour(true, Answers(v), Reconciles(receipt))
  }

  /** Legitimate work does get done: when the store serves a snapshot that agrees with an executable envelope
      and, if a human is required, holds the approval presented, then registering, issuing and calling is an
      allowed run, and it ends with the call completed. */
  lemma LegitimateWorkCompletes(key: string, store: Store, snapshotId: string, req: IssueRequest, clocks: Clocks,
                                uuid: string, p: Payload, name: string, later: Clocks, v: Verification,
                                receipt: string)
    requires Get(store, snapshotId) == Some(req.snapshot) && name != ""
    requires Issued(req, clocks, uuid) == Success(p) && receipt != "" && VerificationOk(v) && v.verified
    ensures
      var steps := Preparation(name, req, clocks, uuid)
                   + CallSteps(0, CallFor(key, p, name, snapshotId, req), clocks, true, later, Succeeding(v, receipt));
      var calls := Run(key, Initial(store), steps).calls;
      && AllowedRun(key, Initial(store), steps) && |calls| == 1
      && calls[0].stage == Ended(Grant(p, req.snapshot, clocks), Moment(store, later),
                                 Completed(p.permitId, req.action.actionId, v, receipt))
  {
    hide Run, AllowedRun, Issued, Get, Trusted, VerificationOk;
    var call, b := CallFor(key, p, name, snapshotId, req), Succeeding(v, receipt);
    var ready := Prepared(store, name, req, p);
    TrustedWhenServed(store, snapshotId, req.snapshot);
    WholeCallCompletes(key, ready, req, clocks, uuid, p, name, snapshotId, later, v, receipt);
    hide WholeCall;
    UninterruptedCall(key, ready, call, clocks, true, later, b);
    PreparedRun(key, store, name, req, clocks, uuid, p, CallSteps(0, call, clocks, true, later, b));
  }

  lemma WholeCallCompletes(key: string, sys: System, req: IssueRequest, clocks: Clocks, uuid: string, p: Payload,
                           name: string, snapshotId: string, later: Clocks, v: Verification, receipt: string)
    requires Trusted(req.snapshot) && Issued(req, clocks, uuid) == Success(p)
    requires name in sys.mutations && sys.mutations[name] == req.action.actionClass
    requires Get(sys.store, snapshotId) == Some(req.snapshot) && sys.ledger == map[]
    requires VerificationOk(v) && v.verified && receipt != ""
    ensures
      WholeCall(key, sys, CallFor(key, p, name, snapshotId, req), clocks, true, later, Succeeding(v, receipt)).0
      == Ended(Grant(p, req.snapshot, clocks), Moment(sys.store, later),
               Completed(p.permitId, req.action.actionId, v, receipt))
  {
    hide Trusted, Issued, Get, CheckTurn, SpendTurn, Begun, VerificationOk;
    IssuedCallIsPaid(key, sys, req, clocks, uuid, p, name, snapshotId);
  }

  /** The first three steps of a freshly issued call. */
  lemma IssuedCallIsPaid(key: string, sys: System, req: IssueRequest, clocks: Clocks, uuid: string, p: Payload,
                         name: string, snapshotId: string)
    requires Trusted(req.snapshot) && Issued(req, clocks, uuid) == Success(p)
    requires name in sys.mutations && sys.mutations[name] == req.action.actionClass
    requires Get(sys.store, snapshotId) == Some(req.snapshot) && sys.ledger == map[]
    ensures
      var call := CallFor(key, p, name, snapshotId, req);
      SpendTurn(CheckTurn(key, call, Begun(sys, call), clocks), sys.ledger, true).0
      == Paid(Grant(p, req.snapshot, clocks))
  {
    hide Trusted, Issued, Get, Agrees, Executable, ValidEnvelope;
    IssuedTimes(req, clocks, uuid);
    IssuedPermitAdmitsItsCall(key, sys, req, clocks, uuid, name, snapshotId, clocks, map[], true);
  }

  // ----- Executors that are called late

  /** The call with number 0 up to its ledger transaction, then whatever the environment does, then the
      executor. */
  function LateSteps(call: Call, clocks: Clocks, replaced: Store, later: Clocks): seq<Step> {
    [Begin(call)] + ([Check(0, clocks)] + ([Spend(0, true)]
    + ([ReplaceStore(replaced)] + ([Execute(0, true, later)] + []))))
  }

  /** When the executor is called, the call's snapshot is still current and its permit has not expired. */
  predicate HoldsAtTheExecutor(c: Pending)
    requires Called(c)
  {
    ServedBy(c.stage.ran.store, c) && c.stage.ran.clocks.permit <= c.stage.grant.permit.expiresAt
  }

  /** Nothing is looked at between the ledger transaction and the executor: whatever store is put in place and
      however late it gets meanwhile, the executor of a legitimate call is called. So the call runs under a
      current snapshot and within its permit's life exactly when the replacement still serves that snapshot
      and the permit's time is not over. */
  lemma ExecutorMayBeLate(key: string, store: Store, snapshotId: string, req: IssueRequest, clocks: Clocks,
                          uuid: string, p: Payload, name: string, replaced: Store, later: Clocks)
    requires Get(store, snapshotId) == Some(req.snapshot) && name != ""
    requires Issued(req, clocks, uuid) == Success(p)
    ensures
      var steps := Preparation(name, req, clocks, uuid)
                   + LateSteps(CallFor(key, p, name, snapshotId, req), clocks, replaced, later);
      var calls := Run(key, Initial(store), steps).calls;
      && AllowedRun(key, Initial(store), steps)
      && calls == [Pending(CallFor(key, p, name, snapshotId, req), store,
                           Running(Grant(p, req.snapshot, clocks), Moment(replaced, later)))]
      && (HoldsAtTheExecutor(calls[0])
          <==> Get(replaced, snapshotId) == Some(req.snapshot) && later.permit <= p.expiresAt)
  {
    hide Run, AllowedRun, Issued, Get, Trusted, CheckTurn, SpendTurn, Begun, HoldsAtTheExecutor;
    var call := CallFor(key, p, name, snapshotId, req);
    var ready, grant := Prepared(store, name, req, p), Grant(p, req.snapshot, clocks);
    TrustedWhenServed(store, snapshotId, req.snapshot);
    IssuedCallIsPaid(key, ready, req, clocks, uuid, p, name, snapshotId);
    LateRun(key, ready, call, clocks, replaced, later, grant);
    JudgedLate(call, store, grant, replaced, later);
    PreparedRun(key, store, name, req, clocks, uuid, p, LateSteps(call, clocks, replaced, later));
  }

  lemma JudgedLate(call: Call, store: Store, grant: Grant, replaced: Store, later: Clocks)
    ensures var c := Pending(call, store, Running(grant, Moment(replaced, later)));
      && Called(c)
      && (HoldsAtTheExecutor(c)
          <==> Get(replaced, call.snapshotId) == Some(grant.snapshot) && later.permit <= grant.permit.expiresAt)
  {
    hide Get;
  }

  lemma LateExecutor(key: string, sys: System, call: Call, replaced: Store, later: Clocks, grant: Grant, ledger: Ledger)
    requires sys.calls == []
    ensures
      var paid := Joined(sys, call, Paid(grant), ledger);
      Apply(key, Apply(key, paid, ReplaceStore(replaced)), Execute(0, true, later)).calls
      == [Pending(call, sys.store, Running(grant, Moment(replaced, later)))]
  {
    var paid := Joined(sys, call, Paid(grant), ledger);
    assert paid.calls == [Pending(call, sys.store, Paid(grant))];
  }

  /** The first three steps, when they get as far as spending the permit. */
  lemma PaidAfterThree(key: string, sys: System, call: Call, clocks: Clocks, grant: Grant) returns (ledger: Ledger)
    requires SpendTurn(CheckTurn(key, call, Begun(sys, call), clocks), sys.ledger, true).0 == Paid(grant)
    ensures Apply(key, Apply(key, Apply(key, sys, Begin(call)), Check(|sys.calls|, clocks)), Spend(|sys.calls|, true))
         == Joined(sys, call, Paid(grant), ledger)
  {
    var begun := Begun(sys, call);
    var checked := CheckTurn(key, call, begun, clocks);
    var any := Behaviour(true, Untyped, ReconcilerRaises);
    ledger := SpendTurn(checked, sys.ledger, true).1;
    BeginTurn(key, sys, call);
    hide Apply, Begun, CheckTurn, SpendTurn, Joined;
    Turns(key, sys, call, begun, sys.ledger, clocks, true, clocks, any);
    Turns(key, sys, call, checked, sys.ledger, clocks, true, clocks, any);
  }

  lemma BeginTurn(key: string, sys: System, call: Call)
    ensures Apply(key, sys, Begin(call)) == Joined(sys, call, Begun(sys, call), sys.ledger)
  {
    hide Begun;
  }

  lemma LateRun(key: string, sys: System, call: Call, clocks: Clocks, replaced: Store, later: Clocks, grant: Grant)
    requires sys.calls == []
    requires SpendTurn(CheckTurn(key, call, Begun(sys, call), clocks), sys.ledger, true).0 == Paid(grant)
    ensures Run(key, sys, LateSteps(call, clocks, replaced, later)).calls
         == [Pending(call, sys.store, Running(grant, Moment(replaced, later)))]
  {
    hide Apply, Begun, CheckTurn, SpendTurn, Joined, Run;
    var ledger := PaidAfterThree(key, sys, call, clocks, grant);
    LateExecutor(key, sys, call, replaced, later, grant, ledger);
    FoldFive(key, sys, Begin(call), Check(0, clocks), Spend(0, true), ReplaceStore(replaced), Execute(0, true, later));
  }

  lemma FoldFive(key: string, sys: System, a: Step, b: Step, c: Step, d: Step, e: Step)
    ensures Run(key, sys, [a] + ([b] + ([c] + ([d] + ([e] + [])))))
         == Apply(key, Apply(key, Apply(key, Apply(key, Apply(key, sys, a), b), c), d), e)
  {
    hide Apply;
    var s1 := Apply(key, sys, a);
    var s2 := Apply(key, s1, b);
    var s3 := Apply(key, s2, c);
    var s4 := Apply(key, s3, d);
    RunStep(key, sys, a, [b] + ([c] + ([d] + ([e] + []))));
    RunStep(key, s1, b, [c] + ([d] + ([e] + [])));
    RunStep(key, s2, c, [d] + ([e] + []));
    RunStep(key, s3, d, [e] + []);
    RunStep(key, s4, e, []);
  }
}
