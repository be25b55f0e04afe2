/** One-time execution permits and the mutation gateway as small steps, so that calls, store replacements
    and clocks interleave (governance/execution_permit.py, n0te/coordinator_gateway.py). */
module PermitProtocol {
  import opened Prelude
  import opened Authority
  import opened ExecutionEnvelope
  import opened TrustedContext
  import opened StateBridge

  const VERSION := 1
  const MAX_TTL := 900

  datatype Payload = Payload(
    version: int, permitId: string, issuedAt: int, expiresAt: int, envelope: Digest<Envelope>,
    snapshot: Digest<RawSnapshot>, intent: IntentFingerprint, actionClass: ActionClass, source: string)

  /** A free function of key and payload, or bytes made some other way. */
  datatype Signature = Hmac(key: string, payload: Payload) | ForeignBytes

  datatype Token = Malformed | Token(payload: Payload, signature: Signature)

  /** The wall clock of the context check and the injected clock of the permit authority; nothing relates them. */
  datatype Clocks = Clocks(context: int, permit: int)

  datatype Failure =
    | BadTtl | GateClosed | ContextDisagrees | ClassMismatch | ReadOnlyAction | ApprovalRefused
    | MalformedToken | BadSignature | BadVersion | PermitExpired | PermitMismatch | NoPermitId
    | LedgerFailed | AlreadyConsumed | Unregistered | RegistrationMismatch | ContextUnavailable

  // ----- Issuing

  datatype IssueRequest = IssueRequest(
    envelope: Envelope, action: ActionIntent, snapshot: Snapshot, approval: Option<ApprovalBinding>, ttl: int)

  /** _validate_required_human_approval accepts. */
  predicate ApprovalPresent(req: IssueRequest) {
    req.envelope.authority.requiresHuman ==>
      && req.approval.Some? && ApprovalIsValid(req.action, req.approval.value)
      && TrustedApproval(req.snapshot, req.approval.value)
  }

  function PayloadFor(req: IssueRequest, issuedAt: int, uuid: string): Payload {
    Payload(VERSION, "permit_" + uuid, issuedAt, issuedAt + req.ttl, Sha256(req.envelope), req.snapshot.fingerprint,
            Fingerprint(req.action), req.action.actionClass, req.envelope.authority.sourceRef)
  }

  function Issued(req: IssueRequest, clocks: Clocks, uuid: string): Result<Payload, Failure> {
    if !(1 <= req.ttl <= MAX_TTL) then Result.Failure(BadTtl)
    else if !Executable(req.envelope) then Result.Failure(GateClosed)
    else if !Agrees(req.envelope, req.snapshot, clocks.context) then Result.Failure(ContextDisagrees)
    else if req.envelope.authority.actionClass != req.action.actionClass then Result.Failure(ClassMismatch)
    else if req.action.actionClass == ReadOnly then Result.Failure(ReadOnlyAction)
    else if !ApprovalPresent(req) then Result.Failure(ApprovalRefused)
    else Success(PayloadFor(req, clocks.permit, uuid))
  }

  // ----- Consuming

  datatype Receipt = Receipt(consumedAt: int, envelope: Digest<Envelope>, intent: IntentFingerprint)

  type Ledger = map<string, Receipt>

  predicate PayloadMatches(p: Payload, e: Envelope, action: ActionIntent, s: Snapshot) {
    && p.envelope == Sha256(e) && p.snapshot == s.fingerprint && p.intent == Fingerprint(action)
    && p.actionClass == action.actionClass && p.source == e.authority.sourceRef
  }

  function Decoded(key: string, token: Token): Result<Payload, Failure> {
    if token.Malformed? then Result.Failure(MalformedToken)
    else if token.signature != Hmac(key, token.payload) then Result.Failure(BadSignature)
    else if token.payload.version != VERSION then Result.Failure(BadVersion)
    else Success(token.payload)
  }

  /** Everything ExecutionPermitAuthority.consume checks before it reaches the ledger. */
  function CheckedPermit(key: string, token: Token, e: Envelope, action: ActionIntent, s: Snapshot, clocks: Clocks)
    : Result<Payload, Failure>
  {
    if !Executable(e) then Result.Failure(GateClosed)
    else if !Agrees(e, s, clocks.context) then Result.Failure(ContextDisagrees)
    else if e.authority.actionClass != action.actionClass then Result.Failure(ClassMismatch)
    else
      match Decoded(key, token)
      case Failure(f) => Result.Failure(f)
      case Success(p) =>
        if clocks.permit > p.expiresAt then Result.Failure(PermitExpired)
        else if !PayloadMatches(p, e, action, s) then Result.Failure(PermitMismatch)
        else if p.permitId == "" then Result.Failure(NoPermitId)
        else Success(p)
  }

  // ----- Executing

  datatype Verification = Verification(verified: bool, refs: seq<string>, observation: string)

  /** The MutationVerification constructor accepts. */
  predicate VerificationOk(v: Verification) {
    && "" !in v.refs && Distinct(v.refs) && v.observation != "" && (v.verified ==> v.refs != [])
  }

  datatype VerifierAnswer = VerifierRaises | Untyped | Answers(verification: Verification)

  datatype ReconcilerAnswer = ReconcilerRaises | Reconciles(ref: string)

  datatype Outcome =
    | ExecutorFailed | VerifierFailed | Unverified | ReconcilerFailed | NoReceipt
    | Completed(permitId: string, actionId: string, verification: Verification, reconciliation: string)

  datatype Call = Call(name: string, token: Token, snapshotId: string, envelope: Envelope, action: ActionIntent)

  /** The permit a call was granted, the snapshot it was checked against and the clocks that were read. */
  datatype Grant = Grant(permit: Payload, snapshot: Snapshot, at: Clocks)

  /** The store and the clocks when an executor is called; the code looks at neither then. */
  datatype Moment = Moment(store: Store, clocks: Clocks)

  /** How far a call has got: snapshot fetched, checks passed, permit spent, executor returned, verified, over. */
  datatype Stage =
    | Refused(failure: Failure)
    | Fetched(snapshot: Snapshot)
    | Granted(grant: Grant)
    | Paid(grant: Grant)
    | Running(grant: Grant, ran: Moment)
    | Proven(grant: Grant, ran: Moment, verification: Verification)
    | Ended(grant: Grant, ran: Moment, outcome: Outcome)

  /** A call in progress, or one that is over, with the store it fetched its snapshot from. */
  datatype Pending = Pending(call: Call, begun: Store, stage: Stage)

  datatype System = System(
    store: Store, mutations: map<string, ActionClass>, ledger: Ledger, signed: seq<Payload>, calls: seq<Pending>)

  function Registered(mutations: map<string, ActionClass>, name: string, c: ActionClass)
    : Option<map<string, ActionClass>>
  {
    if name == "" || name in mutations || !StatefulClass(c) then None
    else Some(mutations[name := c])
  }

  // ----- The steps of one call

  /** Look the mutation up and fetch the snapshot. */
  function Begun(sys: System, call: Call): Stage {
    if call.name !in sys.mutations then Refused(Unregistered)
    else if call.action.actionClass != sys.mutations[call.name] then Refused(RegistrationMismatch)
    else match Get(sys.store, call.snapshotId)
      case None => Refused(ContextUnavailable)
      case Some(s) => Fetched(s)
  }

  /** Everything consume checks, against the snapshot fetched earlier. */
  function AfterChecks(key: string, call: Call, s: Snapshot, clocks: Clocks): Stage {
    match CheckedPermit(key, call.token, call.envelope, call.action, s, clocks)
    case Failure(f) => Refused(f)
    case Success(p) => Granted(Grant(p, s, clocks))
  }

  function RowOf(grant: Grant): Receipt {
    Receipt(grant.at.permit, grant.permit.envelope, grant.permit.intent)
  }

  /** The ledger transaction. */
  function AfterLedger(ledger: Ledger, grant: Grant, up: bool): (Stage, Ledger) {
    if !up then (Refused(LedgerFailed), ledger)
    else if grant.permit.permitId in ledger then (Refused(AlreadyConsumed), ledger)
    else (Paid(grant), ledger[grant.permit.permitId := RowOf(grant)])
  }

  function AfterExecutor(grant: Grant, completes: bool, ran: Moment): Stage {
    if completes then Running(grant, ran) else Ended(grant, ran, ExecutorFailed)
  }

  function AfterVerifier(grant: Grant, ran: Moment, answer: VerifierAnswer): Stage {
    if !answer.Answers? || !VerificationOk(answer.verification) then Ended(grant, ran, VerifierFailed)
    else if !answer.verification.verified then Ended(grant, ran, Unverified)
    else Proven(grant, ran, answer.verification)
  }

  function AfterReconciler(call: Call, grant: Grant, ran: Moment, v: Verification, answer: ReconcilerAnswer): Stage {
    if answer.ReconcilerRaises? then Ended(grant, ran, ReconcilerFailed)
    else if answer.ref == "" then Ended(grant, ran, NoReceipt)
    else Ended(grant, ran, Completed(grant.permit.permitId, call.action.actionId, v, answer.ref))
  }

  // ----- Runs

  datatype Step =
    | Issue(request: IssueRequest, issueClocks: Clocks, uuid: string)
    | ReplaceStore(store: Store)
    | Register(name: string, actionClass: ActionClass)
    | Begin(call: Call)
    | Check(index: nat, clocks: Clocks)
    | Spend(index: nat, up: bool)
    | Execute(index: nat, completes: bool, clocks: Clocks)
    | Verify(index: nat, verifier: VerifierAnswer)
    | Reconcile(index: nat, reconciler: ReconcilerAnswer)

  predicate IdTaken(signed: seq<Payload>, id: string) {
    exists i :: 0 <= i < |signed| && signed[i].permitId == id
  }

  /** What the environment owes: fresh uuids, no forged signature, and only snapshots that validation
      produced. Clocks, stores, requests, callables and the order in which calls make
      their steps are unconstrained. */
  predicate Allowed(key: string, sys: System, step: Step) {
    match step
    case Issue(req, _, uuid) =>
      !IdTaken(sys.signed, "permit_" + uuid) && Trusted(req.snapshot)
    case Check(i, _) =>
      i < |sys.calls| ==>
        var token := sys.calls[i].call.token;
        token.Token? && token.signature == Hmac(key, token.payload) ==> token.payload in sys.signed
    case _ => true
  }

  /** The call at i moves on. */
  function Moved(sys: System, i: nat, stage: Stage): System
    requires i < |sys.calls|
  {
    sys.(calls := sys.calls[i := sys.calls[i].(stage := stage)])
  }

  /** The next stage of a call, if this step is its turn. */
  function NextStage(key: string, sys: System, step: Step): (next: Option<(nat, Stage)>)
    ensures next.Some? ==> next.value.0 < |sys.calls|
  {
    match step
    case Check(i, clocks) =>
      if i < |sys.calls| && sys.calls[i].stage.Fetched?
      then Some((i, AfterChecks(key, sys.calls[i].call, sys.calls[i].stage.snapshot, clocks))) else None
    case Execute(i, completes, clocks) =>
      if i < |sys.calls| && sys.calls[i].stage.Paid?
      then Some((i, AfterExecutor(sys.calls[i].stage.grant, completes, Moment(sys.store, clocks)))) else None
    case Verify(i, answer) =>
      if i < |sys.calls| && sys.calls[i].stage.Running?
      then Some((i, AfterVerifier(sys.calls[i].stage.grant, sys.calls[i].stage.ran, answer))) else None
    case Reconcile(i, answer) =>
      if i < |sys.calls| && sys.calls[i].stage.Proven?
      then Some((i, AfterReconciler(sys.calls[i].call, sys.calls[i].stage.grant, sys.calls[i].stage.ran,
                                    sys.calls[i].stage.verification, answer))) else None
    case _ => None
  }

  function Apply(key: string, sys: System, step: Step): System {
    match step
    case Issue(req, clocks, uuid) =>
      var r := Issued(req, clocks, uuid);
      if r.Success? then sys.(signed := sys.signed + [r.value]) else sys
    case ReplaceStore(store) => sys.(store := store)
    case Register(name, c) =>
      var r := Registered(sys.mutations, name, c);
      if r.Some? then sys.(mutations := r.value) else sys
    case Begin(call) => sys.(calls := sys.calls + [Pending(call, sys.store, Begun(sys, call))])
    case Spend(i, up) =>
      if i < |sys.calls| && sys.calls[i].stage.Granted? then
        var (stage, ledger) := AfterLedger(sys.ledger, sys.calls[i].stage.grant, up);
        Moved(sys, i, stage).(ledger := ledger)
      else sys
    case _ =>
      match NextStage(key, sys, step)
      case None => sys
      case Some((i, stage)) => Moved(sys, i, stage)
  }

  function Initial(store: Store): System {
    System(store, map[], map[], [], [])
  }

  function Run(key: string, sys: System, steps: seq<Step>): System {
    if steps == [] then sys
    else Apply(key, Run(key, sys, steps[..|steps| - 1]), steps[|steps| - 1])
  }

  predicate AllowedRun(key: string, sys: System, steps: seq<Step>) {
    steps == [] ||
    (AllowedRun(key, sys, steps[..|steps| - 1])
     && Allowed(key, Run(key, sys, steps[..|steps| - 1]), steps[|steps| - 1]))
  }

  // ----- What every step keeps

  /** The snapshot holds a recorded approval of exactly this intent. */
  predicate ApprovedIn(s: Snapshot, intent: IntentFingerprint) {
    exists id :: id in s.approvals && s.approvals[id].fingerprint == intent
  }

  /** What issuing established about a signed payload, said about the payload alone. */
  predicate WellIssued(p: Payload) {
    && p.version == VERSION && p.permitId != "" && p.issuedAt < p.expiresAt <= p.issuedAt + MAX_TTL
    && Executable(p.envelope.preimage)
    && p.actionClass == p.envelope.preimage.authority.actionClass
    && p.source == p.envelope.preimage.authority.sourceRef
    && Validated(p.snapshot.preimage).Some?
    && (p.envelope.preimage.authority.requiresHuman ==>
          ApprovedIn(Validated(p.snapshot.preimage).value, p.intent))
  }

  /** A call that passed the checks did so under a permit for exactly what it asks, in time, and under the
      snapshot that was current when it began. */
  predicate GrantOk(call: Call, begun: Store, grant: Grant) {
    && PayloadMatches(grant.permit, call.envelope, call.action, grant.snapshot)
    && grant.at.permit <= grant.permit.expiresAt
    && Get(begun, call.snapshotId) == Some(grant.snapshot)
    && Agrees(call.envelope, grant.snapshot, grant.at.context)
    && call.envelope.authority.actionClass == call.action.actionClass
    && call.token.Token? && call.token.payload == grant.permit
  }

  /** The call's permit is spent. */
  predicate Took(c: Pending) {
    c.stage.Paid? || c.stage.Running? || c.stage.Proven? || c.stage.Ended?
  }

  /** The call's executor was called. */
  predicate Called(c: Pending) {
    c.stage.Running? || c.stage.Proven? || c.stage.Ended?
  }

  predicate OutcomeOk(c: Pending) {
    match c.stage
    case Proven(_, _, v) => VerificationOk(v) && v.verified
    case Ended(grant, _, Completed(permitId, actionId, v, ref)) =>
      permitId == grant.permit.permitId && actionId == c.call.action.actionId
      && VerificationOk(v) && v.verified && ref != ""
    case _ => true
  }

  predicate CallOk(signed: seq<Payload>, c: Pending) {
    && (c.stage.Fetched? ==> Get(c.begun, c.call.snapshotId) == Some(c.stage.snapshot))
    && (c.stage.Granted? || Took(c) ==> c.stage.grant.permit in signed && GrantOk(c.call, c.begun, c.stage.grant))
    && OutcomeOk(c)
  }

  predicate InLedger(ledger: Ledger, c: Pending) {
    Took(c) ==> c.stage.grant.permit.permitId in ledger && ledger[c.stage.grant.permit.permitId] == RowOf(c.stage.grant)
  }

  predicate TakenBy(calls: seq<Pending>, id: string) {
    exists i :: 0 <= i < |calls| && Took(calls[i]) && calls[i].stage.grant.permit.permitId == id
  }

  ghost predicate SignedOk(signed: seq<Payload>) {
    && (forall i :: 0 <= i < |signed| ==> WellIssued(signed[i]))
    && (forall i, j :: 0 <= i < j < |signed| ==> signed[i].permitId != signed[j].permitId)
  }

  ghost predicate Apart(calls: seq<Pending>) {
    forall i, j :: 0 <= i < j < |calls| && Took(calls[i]) && Took(calls[j]) ==>
      calls[i].stage.grant.permit.permitId != calls[j].stage.grant.permit.permitId
  }

  ghost predicate LedgerOk(ledger: Ledger, calls: seq<Pending>) {
    && (forall i :: 0 <= i < |calls| ==> InLedger(ledger, calls[i]))
    && (forall id :: id in ledger ==> TakenBy(calls, id))
  }

  ghost predicate CallsOk(signed: seq<Payload>, calls: seq<Pending>) {
    forall i :: 0 <= i < |calls| ==> CallOk(signed, calls[i])
  }

  ghost predicate Inv(sys: System) {
    && SignedOk(sys.signed) && CallsOk(sys.signed, sys.calls) && Apart(sys.calls) && LedgerOk(sys.ledger, sys.calls)
  }

  lemma IssuedIsWellIssued(req: IssueRequest, clocks: Clocks, uuid: string)
    requires Trusted(req.snapshot) && Issued(req, clocks, uuid).Success?
    ensures WellIssued(Issued(req, clocks, uuid).value)
    ensures Issued(req, clocks, uuid).value.permitId == "permit_" + uuid
  {
    hide Executable, Agrees, Validated;
    if req.envelope.authority.requiresHuman {
      assert req.approval.value.approvalId in req.snapshot.approvals;
    }
  }

  lemma SigningKeeps(signed: seq<Payload>, calls: seq<Pending>, p: Payload)
    requires SignedOk(signed) && CallsOk(signed, calls) && WellIssued(p) && !IdTaken(signed, p.permitId)
    ensures SignedOk(signed + [p]) && CallsOk(signed + [p], calls)
  {
    hide WellIssued, GrantOk, OutcomeOk, Get;
    forall i | 0 <= i < |calls| ensures CallOk(signed + [p], calls[i]) {
      assert CallOk(signed, calls[i]);
    }
  }

  /** A step that leaves a call's permit as it was, or a new call, keeps everything about the ledger. */
  lemma MovingKeeps(sys: System, i: nat, stage: Stage)
    requires Inv(sys) && i < |sys.calls|
    requires var c := sys.calls[i].(stage := stage);
      && CallOk(sys.signed, c)
      && Took(c) == Took(sys.calls[i]) && (Took(c) ==> c.stage.grant == sys.calls[i].stage.grant)
    ensures Inv(Moved(sys, i, stage))
  {
    hide SignedOk, CallOk;
    var next := Moved(sys, i, stage);
    forall id | id in next.ledger ensures TakenBy(next.calls, id) {
      assert TakenBy(sys.calls, id);
      var k :| 0 <= k < |sys.calls| && Took(sys.calls[k]) && sys.calls[k].stage.grant.permit.permitId == id;
      assert Took(next.calls[k]) && next.calls[k].stage.grant.permit.permitId == id;
    }
  }

  lemma BeginningKeeps(sys: System, c: Pending)
    requires Inv(sys) && CallOk(sys.signed, c) && !Took(c)
    ensures Inv(sys.(calls := sys.calls + [c]))
  {
    hide SignedOk, CallOk;
    var next := sys.(calls := sys.calls + [c]);
    forall id | id in next.ledger ensures TakenBy(next.calls, id) {
      assert TakenBy(sys.calls, id);
      var k :| 0 <= k < |sys.calls| && Took(sys.calls[k]) && sys.calls[k].stage.grant.permit.permitId == id;
      assert Took(next.calls[k]) && next.calls[k].stage.grant.permit.permitId == id;
    }
  }

  lemma PaidIsApart(ledger: Ledger, calls: seq<Pending>, i: nat)
    requires i < |calls| && calls[i].stage.Granted? && Apart(calls) && LedgerOk(ledger, calls)
    requires calls[i].stage.grant.permit.permitId !in ledger
    ensures Apart(calls[i := calls[i].(stage := Paid(calls[i].stage.grant))])
  {
    var next := calls[i := calls[i].(stage := Paid(calls[i].stage.grant))];
    forall a, b | 0 <= a < b < |next| && Took(next[a]) && Took(next[b])
      ensures next[a].stage.grant.permit.permitId != next[b].stage.grant.permit.permitId
    {
      assert InLedger(ledger, calls[a]) && InLedger(ledger, calls[b]);
    }
  }

  lemma PaidIsInLedger(ledger: Ledger, calls: seq<Pending>, i: nat)
    requires i < |calls| && calls[i].stage.Granted? && LedgerOk(ledger, calls)
    requires calls[i].stage.grant.permit.permitId !in ledger
    ensures var grant := calls[i].stage.grant;
      LedgerOk(ledger[grant.permit.permitId := RowOf(grant)], calls[i := calls[i].(stage := Paid(grant))])
  {
    hide RowOf;
    var grant := calls[i].stage.grant;
    var next, rows := calls[i := calls[i].(stage := Paid(grant))], ledger[grant.permit.permitId := RowOf(grant)];
    forall k | 0 <= k < |next| ensures InLedger(rows, next[k]) {
      assert InLedger(ledger, calls[k]);
    }
    forall id | id in rows ensures TakenBy(next, id) {
      if id == grant.permit.permitId {
        assert Took(next[i]) && next[i].stage.grant.permit.permitId == id;
      } else {
        assert TakenBy(calls, id);
        var k :| 0 <= k < |calls| && Took(calls[k]) && calls[k].stage.grant.permit.permitId == id;
        assert Took(next[k]) && next[k].stage.grant.permit.permitId == id;
      }
    }
  }

  lemma MovedIsOk(signed: seq<Payload>, calls: seq<Pending>, i: nat, stage: Stage)
    requires i < |calls| && CallsOk(signed, calls) && CallOk(signed, calls[i].(stage := stage))
    ensures CallsOk(signed, calls[i := calls[i].(stage := stage)])
  {
    hide CallOk;
  }

  /** The ledger transaction is where a permit becomes one call's own. */
  lemma PayingKeeps(sys: System, i: nat)
    requires Inv(sys) && i < |sys.calls| && sys.calls[i].stage.Granted?
    requires sys.calls[i].stage.grant.permit.permitId !in sys.ledger
    ensures var grant := sys.calls[i].stage.grant;
      Inv(Moved(sys, i, Paid(grant)).(ledger := sys.ledger[grant.permit.permitId := RowOf(grant)]))
  {
    var grant := sys.calls[i].stage.grant;
    assert CallOk(sys.signed, sys.calls[i]);
    hide SignedOk, GrantOk, Get, Apart, LedgerOk, CallsOk, RowOf;
    PaidIsApart(sys.ledger, sys.calls, i);
    PaidIsInLedger(sys.ledger, sys.calls, i);
    MovedIsOk(sys.signed, sys.calls, i, Paid(grant));
  }

  lemma ChecksGrant(key: string, signed: seq<Payload>, c: Pending, clocks: Clocks)
    requires CallOk(signed, c) && c.stage.Fetched?
    requires c.call.token.Token? && c.call.token.signature == Hmac(key, c.call.token.payload) ==>
      c.call.token.payload in signed
    ensures var stage := AfterChecks(key, c.call, c.stage.snapshot, clocks);
      CallOk(signed, c.(stage := stage)) && !Took(c.(stage := stage))
  {
    hide Executable, Get, Agrees;
  }

  lemma NextStageIsOk(key: string, sys: System, step: Step)
    requires Allowed(key, sys, step) && NextStage(key, sys, step).Some?
    requires CallOk(sys.signed, sys.calls[NextStage(key, sys, step).value.0])
    ensures var (i, stage) := NextStage(key, sys, step).value;
      var c := sys.calls[i].(stage := stage);
      && i < |sys.calls| && CallOk(sys.signed, c)
      && Took(c) == Took(sys.calls[i]) && (Took(c) ==> c.stage.grant == sys.calls[i].stage.grant)
  {
    hide GrantOk, Get, VerificationOk, CheckedPermit, Trusted;
    match step
    case Check(i, clocks) => ChecksGrant(key, sys.signed, sys.calls[i], clocks);
    case Execute(_, _, _) =>
    case Verify(_, _) =>
    case Reconcile(_, _) =>
  }

  lemma NextStageKeeps(key: string, sys: System, step: Step)
    requires Inv(sys) && Allowed(key, sys, step) && NextStage(key, sys, step).Some?
    ensures var (i, stage) := NextStage(key, sys, step).value;
      i < |sys.calls| && Inv(Moved(sys, i, stage))
  {
    var (i, stage) := NextStage(key, sys, step).value;
    assert CallOk(sys.signed, sys.calls[i]);
    hide Inv, CallOk, Allowed;
    NextStageIsOk(key, sys, step);
    hide NextStage;
    MovingKeeps(sys, i, stage);
  }

  lemma StepKeeps(key: string, sys: System, step: Step)
    requires Inv(sys) && Allowed(key, sys, step)
    ensures Inv(Apply(key, sys, step))
  {
    hide Trusted, Issued, SignedOk, CallsOk, Apart, LedgerOk, NextStage, Get, CheckedPermit, GrantOk;
    match step
    case Issue(req, clocks, uuid) =>
      if Issued(req, clocks, uuid).Success? {
        IssuedIsWellIssued(req, clocks, uuid);
        SigningKeeps(sys.signed, sys.calls, Issued(req, clocks, uuid).value);
      }
    case ReplaceStore(_) =>
    case Register(_, _) =>
    case Begin(call) =>
      BeginningKeeps(sys, Pending(call, sys.store, Begun(sys, call)));
    case Spend(i, up) =>
      if i < |sys.calls| && sys.calls[i].stage.Granted? {
        SpendingKeeps(sys, i, up);
      }
    case _ =>
      if NextStage(key, sys, step).Some? {
        NextStageKeeps(key, sys, step);
      }
  }

  lemma RefusingKeeps(sys: System, i: nat, f: Failure)
    requires Inv(sys) && i < |sys.calls| && sys.calls[i].stage.Granted?
    ensures Inv(Moved(sys, i, Refused(f)))
  {
    hide Inv, GrantOk, Get;
    MovingKeeps(sys, i, Refused(f));
  }

  lemma SpendingKeeps(sys: System, i: nat, up: bool)
    requires Inv(sys) && i < |sys.calls| && sys.calls[i].stage.Granted?
    ensures var (stage, ledger) := AfterLedger(sys.ledger, sys.calls[i].stage.grant, up);
      Inv(Moved(sys, i, stage).(ledger := ledger))
  {
    hide Inv, RowOf;
    if up && sys.calls[i].stage.grant.permit.permitId !in sys.ledger {
      PayingKeeps(sys, i);
    } else {
      RefusingKeeps(sys, i, AfterLedger(sys.ledger, sys.calls[i].stage.grant, up).0.failure);
    }
  }

  lemma {:induction false} RunKeeps(key: string, store: Store, steps: seq<Step>)
    requires AllowedRun(key, Initial(store), steps)
    ensures Inv(Run(key, Initial(store), steps))
  {
    hide Inv, Apply, Allowed;
    if steps == [] {
      InitialHolds(store);
    } else {
      RunKeeps(key, store, steps[..|steps| - 1]);
      StepKeeps(key, Run(key, Initial(store), steps[..|steps| - 1]), steps[|steps| - 1]);
    }
  }

  lemma InitialHolds(store: Store)
    ensures Inv(Initial(store))
  {
  }

  // ----- The protocol's promises, over every interleaving

  /** Spent permits belong to calls one to one, however the calls interleave: a call that spent a permit did
      so for the envelope, snapshot, intent, class and authority source the permit was issued for, and had
      not passed its expiry when the checks ran; no two calls spent the same permit, and the ledger holds
      exactly the spent ones. Only such calls reach an executor. */
  lemma CallsInjectIntoPermits(key: string, store: Store, steps: seq<Step>)
    requires AllowedRun(key, Initial(store), steps)
    ensures var sys := Run(key, Initial(store), steps);
      && (forall i :: 0 <= i < |sys.calls| && Took(sys.calls[i]) ==>
            var c, grant := sys.calls[i], sys.calls[i].stage.grant;
            && grant.permit in sys.signed
            && PayloadMatches(grant.permit, c.call.envelope, c.call.action, grant.snapshot)
            && grant.at.permit <= grant.permit.expiresAt <= grant.permit.issuedAt + MAX_TTL
            && Get(c.begun, c.call.snapshotId) == Some(grant.snapshot))
      && (forall i, j :: 0 <= i < j < |sys.calls| && Took(sys.calls[i]) && Took(sys.calls[j]) ==>
            sys.calls[i].stage.grant.permit.permitId != sys.calls[j].stage.grant.permit.permitId)
      && (forall id :: id in sys.ledger <==> TakenBy(sys.calls, id))
      && (forall i :: 0 <= i < |sys.calls| && Called(sys.calls[i]) ==> Took(sys.calls[i]))
  {
    RunKeeps(key, store, steps);
    hide Run, AllowedRun, WellIssued, PayloadMatches, Agrees;
    var sys := Run(key, Initial(store), steps);
    forall i | 0 <= i < |sys.calls| && Took(sys.calls[i])
      ensures var c, grant := sys.calls[i], sys.calls[i].stage.grant;
        && grant.permit in sys.signed && PayloadMatches(grant.permit, c.call.envelope, c.call.action, grant.snapshot)
        && grant.at.permit <= grant.permit.expiresAt <= grant.permit.issuedAt + MAX_TTL
        && Get(c.begun, c.call.snapshotId) == Some(grant.snapshot)
    {
      assert CallOk(sys.signed, sys.calls[i]);
      SignedIsWellIssued(sys.signed, sys.calls[i].stage.grant.permit);
    }
    forall id ensures id in sys.ledger <==> TakenBy(sys.calls, id) {
      if TakenBy(sys.calls, id) {
        var i :| 0 <= i < |sys.calls| && Took(sys.calls[i]) && sys.calls[i].stage.grant.permit.permitId == id;
        assert InLedger(sys.ledger, sys.calls[i]);
      }
    }
  }

  lemma SignedIsWellIssued(signed: seq<Payload>, p: Payload)
    requires SignedOk(signed) && p in signed
    ensures WellIssued(p) && p.expiresAt <= p.issuedAt + MAX_TTL
  {
    hide Executable, Validated;
    var i :| 0 <= i < |signed| && signed[i] == p;
  }

  /** The store and the log of calls just before a call's own steps. */
  ghost predicate BegunAt(key: string, store: Store, steps: seq<Step>, i: nat, c: Pending, b: nat) {
    && b < |steps| && steps[b] == Begin(c.call)
    && |Run(key, Initial(store), steps[..b]).calls| == i
    && Run(key, Initial(store), steps[..b]).store == c.begun
  }

  ghost predicate ExecutedAt(key: string, store: Store, steps: seq<Step>, i: nat, ran: Moment, e: nat) {
    && e < |steps| && steps[e].Execute? && steps[e].index == i && steps[e].clocks == ran.clocks
    && Run(key, Initial(store), steps[..e]).store == ran.store
  }

  /** Where the other call fields stay put while one call moves. */
  lemma CallsAdvance(key: string, sys: System, step: Step, i: nat)
    requires i < |sys.calls|
    ensures var next := Apply(key, sys, step);
      && |sys.calls| <= |next.calls| <= |sys.calls| + 1
      && next.calls[i].call == sys.calls[i].call && next.calls[i].begun == sys.calls[i].begun
      && (Took(sys.calls[i]) ==> Took(next.calls[i]) && next.calls[i].stage.grant == sys.calls[i].stage.grant)
      && (Called(sys.calls[i]) ==> Called(next.calls[i]) && next.calls[i].stage.ran == sys.calls[i].stage.ran)
      && (Called(next.calls[i]) && !Called(sys.calls[i]) ==>
            && step.Execute? && step.index == i && next.calls[i].stage.ran == Moment(sys.store, step.clocks))
  {
    hide Issued, Registered, Get, CheckedPermit, VerificationOk, Begun;
  }

  lemma NewCall(key: string, sys: System, step: Step)
    ensures var next := Apply(key, sys, step);
      |next.calls| > |sys.calls| ==>
        && |next.calls| == |sys.calls| + 1 && step == Begin(next.calls[|sys.calls|].call)
        && next.calls[|sys.calls|].begun == sys.store && !Called(next.calls[|sys.calls|])
  {
    hide Issued, Registered, Get, CheckedPermit, VerificationOk, NextStage, AfterLedger;
  }

  /** Every call begins with one step that fetches its snapshot from the store of that moment, and its
      executor, if it was reached, was called by one later step under the store and clocks of that moment. */
  lemma {:induction false} CallTimes(key: string, store: Store, steps: seq<Step>, i: nat) returns (b: nat, e: nat)
    requires i < |Run(key, Initial(store), steps).calls|
    ensures var c := Run(key, Initial(store), steps).calls[i];
      && BegunAt(key, store, steps, i, c, b)
      && (Called(c) ==> b < e && ExecutedAt(key, store, steps, i, c.stage.ran, e))
  {
    hide Apply;
    var n := |steps| - 1;
    var before := Run(key, Initial(store), steps[..n]);
    NewCall(key, before, steps[n]);
    if i < |before.calls| {
      CallsAdvance(key, before, steps[n], i);
      b, e := CallTimes(key, store, steps[..n], i);
      assert steps[..n][..b] == steps[..b];
      if Called(before.calls[i]) {
        assert steps[..n][..e] == steps[..e];
      } else {
        e := n;
      }
    } else {
      b, e := n, n;
    }
  }

  /** The last store put in place by some steps. */
  function LastStore(store: Store, steps: seq<Step>): Store {
    if steps == [] then store
    else if steps[|steps| - 1].ReplaceStore? then steps[|steps| - 1].store
    else LastStore(store, steps[..|steps| - 1])
  }

  lemma {:induction false} StoreIsLast(key: string, sys: System, steps: seq<Step>, b: nat, e: nat)
    requires b <= e <= |steps|
    ensures Run(key, sys, steps[..e]).store == LastStore(Run(key, sys, steps[..b]).store, steps[b..e])
    decreases e
  {
    hide Apply;
    if b < e {
      StoreIsLast(key, sys, steps, b, e - 1);
      assert steps[..e][..e - 1] == steps[..e - 1] && steps[b..e][..e - 1 - b] == steps[b..e - 1];
      StepStore(key, Run(key, sys, steps[..e - 1]), steps[e - 1]);
    }
  }

  lemma StepStore(key: string, sys: System, step: Step)
    ensures Apply(key, sys, step).store == if step.ReplaceStore? then step.store else sys.store
  {
    hide Issued, Registered, NextStage, AfterLedger, Begun;
  }

  lemma StoreAtTheExecutor(key: string, store: Store, steps: seq<Step>, i: nat) returns (b: nat, e: nat)
    requires i < |Run(key, Initial(store), steps).calls| && Called(Run(key, Initial(store), steps).calls[i])
    ensures var c := Run(key, Initial(store), steps).calls[i];
      && BegunAt(key, store, steps, i, c, b) && b < e && ExecutedAt(key, store, steps, i, c.stage.ran, e)
      && e < |steps| && c.stage.ran.store == LastStore(c.begun, steps[b..e])
  {
    hide Run, Called;
    b, e := CallTimes(key, store, steps, i);
    StoreIsLast(key, Initial(store), steps, b, e);
  }

  predicate ServedBy(store: Store, c: Pending)
    requires Took(c)
  {
    Get(store, c.call.snapshotId) == Some(c.stage.grant.snapshot)
  }

  /** A call's snapshot was current when the call began, and is so when its executor is called exactly if the
      last store put in place in between, if any, serves it. */
  ghost predicate CurrentExactly(c: Pending, between: seq<Step>)
    requires Called(c)
  {
    && ServedBy(c.begun, c)
    && (ServedBy(c.stage.ran.store, c) <==> ServedBy(LastStore(c.begun, between), c))
    && ((forall k :: 0 <= k < |between| ==> !between[k].ReplaceStore?) ==> c.stage.ran.store == c.begun)
  }

  /** Nothing looks at the store between the fetch and the executor, so the snapshot a call was checked
      against is still the current one then exactly when no store put in place meanwhile superseded it. */
  lemma CurrentAtTheExecutorExactly(key: string, store: Store, steps: seq<Step>, i: nat) returns (b: nat, e: nat)
    requires AllowedRun(key, Initial(store), steps)
    requires i < |Run(key, Initial(store), steps).calls| && Called(Run(key, Initial(store), steps).calls[i])
    ensures var c := Run(key, Initial(store), steps).calls[i];
      && BegunAt(key, store, steps, i, c, b) && b < e < |steps| && ExecutedAt(key, store, steps, i, c.stage.ran, e)
      && CurrentExactly(c, steps[b..e])
  {
    RunKeeps(key, store, steps);
    b, e := StoreAtTheExecutor(key, store, steps, i);
    hide Run, AllowedRun, CallOk, SignedOk, Apart, LedgerOk, BegunAt, ExecutedAt, LastStore, CurrentExactly;
    var sys := Run(key, Initial(store), steps);
    assert CallOk(sys.signed, sys.calls[i]);
    LastDecides(sys.signed, sys.calls[i], steps[b..e]);
  }

  lemma LastDecides(signed: seq<Payload>, c: Pending, between: seq<Step>)
    requires CallOk(signed, c) && Called(c) && c.stage.ran.store == LastStore(c.begun, between)
    ensures CurrentExactly(c, between)
  {
    hide Get, CallOk, LastStore;
    TookWhatItFetched(signed, c);
    if forall k :: 0 <= k < |between| ==> !between[k].ReplaceStore? {
      NeverReplaced(c.begun, between);
    }
  }

  lemma TookWhatItFetched(signed: seq<Payload>, c: Pending)
    requires CallOk(signed, c) && Took(c)
    ensures Get(c.begun, c.call.snapshotId) == Some(c.stage.grant.snapshot)
  {
    hide Get, Agrees, PayloadMatches;
  }

  lemma {:induction false} NeverReplaced(store: Store, steps: seq<Step>)
    requires forall k :: 0 <= k < |steps| ==> !steps[k].ReplaceStore?
    ensures LastStore(store, steps) == store
  {
    if steps != [] {
      NeverReplaced(store, steps[..|steps| - 1]);
    }
  }

  /** The snapshot a store serves a call holds an approval of exactly the intent that runs. */
  predicate ApprovedBy(store: Store, c: Pending) {
    && Get(store, c.call.snapshotId).Some?
    && ApprovedIn(Get(store, c.call.snapshotId).value, Fingerprint(c.call.action))
  }

  /** A call's intent was approved in the store when the call began, and is so in the store its executor is
      called under exactly if it is in the last store put in place in between, if any. */
  ghost predicate ApprovedExactly(c: Pending, between: seq<Step>)
    requires Called(c)
  {
    && ApprovedBy(c.begun, c)
    && (ApprovedBy(c.stage.ran.store, c) <==> ApprovedBy(LastStore(c.begun, between), c))
    && ((forall k :: 0 <= k < |between| ==> !between[k].ReplaceStore?) ==> ApprovedBy(c.stage.ran.store, c))
  }

  /** Every irreversible or human-required call that reaches an executor was checked against a snapshot that
      was the store's current one when the call began and holds an approval of exactly the intent that runs,
      although approvals are only looked at when a permit is issued. When the executor is called, the current
      snapshot holds such an approval exactly if the last store put in place in between, if any, serves one. */
  lemma HumanActionsAreApproved(key: string, store: Store, steps: seq<Step>, i: nat) returns (b: nat, e: nat)
    requires AllowedRun(key, Initial(store), steps)
    requires i < |Run(key, Initial(store), steps).calls| && Called(Run(key, Initial(store), steps).calls[i])
    requires var c := Run(key, Initial(store), steps).calls[i];
      c.call.action.actionClass == Irreversible || c.call.envelope.authority.requiresHuman
    ensures var c := Run(key, Initial(store), steps).calls[i];
      && BegunAt(key, store, steps, i, c, b) && b < e < |steps| && ExecutedAt(key, store, steps, i, c.stage.ran, e)
      && ApprovedExactly(c, steps[b..e])
  {
    RunKeeps(key, store, steps);
    b, e := StoreAtTheExecutor(key, store, steps, i);
    hide Run, AllowedRun, BegunAt, ExecutedAt, CallOk, SignedOk, Apart, LedgerOk, LastStore, ApprovedExactly;
    var sys := Run(key, Initial(store), steps);
    assert CallOk(sys.signed, sys.calls[i]);
    GrantIsApprovedExactly(sys.signed, sys.calls[i], steps[b..e]);
  }

  lemma GrantIsApprovedExactly(signed: seq<Payload>, c: Pending, between: seq<Step>)
    requires SignedOk(signed) && CallOk(signed, c) && Called(c) && c.stage.ran.store == LastStore(c.begun, between)
    requires c.call.action.actionClass == Irreversible || c.call.envelope.authority.requiresHuman
    ensures ApprovedExactly(c, between)
  {
    hide Get, CallOk, SignedOk, LastStore, ApprovedIn;
    GrantIsApproved(signed, c);
    TookWhatItFetched(signed, c);
    if forall k :: 0 <= k < |between| ==> !between[k].ReplaceStore? {
      NeverReplaced(c.begun, between);
    }
  }

  lemma GrantIsApproved(signed: seq<Payload>, c: Pending)
    requires SignedOk(signed) && CallOk(signed, c) && Took(c)
    requires c.call.action.actionClass == Irreversible || c.call.envelope.authority.requiresHuman
    ensures ApprovedIn(c.stage.grant.snapshot, Fingerprint(c.call.action))
  {
    SignedIsWellIssued(signed, c.stage.grant.permit);
    ServesOnlyTheCurrentSnapshot(c.begun, c.call.snapshotId);
    hide SignedOk, ValidEnvelope, Agrees, Validated, Get, OnlyCarrier, ApprovedIn;
  }

  // ----- Stores fed by the compiled-state bridge

  /** A store fed by the compiled-state bridge alone. */
  ghost predicate BridgeFed(store: Store) {
    forall id :: Get(store, id).Some? ==> FromBridge(Get(store, id).value)
  }

  ghost predicate BridgeOnly(steps: seq<Step>) {
    forall i :: 0 <= i < |steps| && steps[i].ReplaceStore? ==> BridgeFed(steps[i].store)
  }

  ghost predicate CallsFromBridge(sys: System) {
    BridgeFed(sys.store) && forall i :: 0 <= i < |sys.calls| ==> BridgeFed(sys.calls[i].begun)
  }

  lemma {:induction false} BridgeStaysFed(key: string, store: Store, steps: seq<Step>)
    requires BridgeFed(store) && BridgeOnly(steps)
    ensures CallsFromBridge(Run(key, Initial(store), steps))
  {
    hide BridgeFed, Issued, Registered, NextStage, AfterLedger, Begun;
    if steps != [] {
      var rest, last := steps[..|steps| - 1], steps[|steps| - 1];
      assert forall i :: 0 <= i < |rest| ==> rest[i] == steps[i];
      BridgeStaysFed(key, store, rest);
      if last.ReplaceStore? {
        assert BridgeFed(steps[|steps| - 1].store);
      }
    }
  }

  /** With snapshots from the compiled-state bridge, only reversible actions can ever reach an executor. */
  lemma BridgeExecutesOnlyReversible(key: string, store: Store, steps: seq<Step>, i: nat)
    requires AllowedRun(key, Initial(store), steps) && BridgeFed(store) && BridgeOnly(steps)
    requires i < |Run(key, Initial(store), steps).calls| && Took(Run(key, Initial(store), steps).calls[i])
    ensures Run(key, Initial(store), steps).calls[i].call.action.actionClass == Reversible
  {
    RunKeeps(key, store, steps);
    BridgeStaysFed(key, store, steps);
    hide Run, AllowedRun, Agrees, FromBridge;
    var sys := Run(key, Initial(store), steps);
    var c := sys.calls[i];
    assert CallOk(sys.signed, c);
    assert BridgeFed(c.begun) && Get(c.begun, c.call.snapshotId).Some?;
    BridgeAllowsOnlyReversible(c.call.envelope, c.stage.grant.snapshot, c.stage.grant.at.context);
  }

  // ----- One-time use

  lemma {:induction false} CallsOnlyAdvance(key: string, sys: System, steps: seq<Step>, i: nat)
    requires i < |sys.calls|
    ensures var later := Run(key, sys, steps);
      && |sys.calls| <= |later.calls|
      && later.calls[i].call == sys.calls[i].call
      && (Took(sys.calls[i]) ==> Took(later.calls[i]) && later.calls[i].stage.grant == sys.calls[i].stage.grant)
      && (Called(sys.calls[i]) ==> Called(later.calls[i]) && later.calls[i].stage.ran == sys.calls[i].stage.ran)
  {
    hide Apply;
    if steps != [] {
      CallsOnlyAdvance(key, sys, steps[..|steps| - 1], i);
      CallsAdvance(key, Run(key, sys, steps[..|steps| - 1]), steps[|steps| - 1], i);
    }
  }

  lemma {:induction false} RunAppends(key: string, sys: System, a: seq<Step>, b: seq<Step>)
    ensures Run(key, sys, a + b) == Run(key, Run(key, sys, a), b)
  {
    hide Apply;
    if b == [] {
      assert a + b == a;
    } else {
      assert (a + b)[..|a + b| - 1] == a + b[..|b| - 1];
      RunAppends(key, sys, a, b[..|b| - 1]);
    }
  }

  /** Once a call has spent its permit, that permit never reaches an executor through any other call, however
      the first call ended and whatever happens afterwards, and another call that tries to spend it is
      refused. */
  lemma SpentPermitsStaySpent(key: string, store: Store, steps: seq<Step>, more: seq<Step>, i: nat, j: nat)
    requires AllowedRun(key, Initial(store), steps + more)
    requires i < |Run(key, Initial(store), steps).calls| && Took(Run(key, Initial(store), steps).calls[i])
    requires j < |Run(key, Initial(store), steps + more).calls| && j != i
    ensures var id := Run(key, Initial(store), steps).calls[i].stage.grant.permit.permitId;
      var later := Run(key, Initial(store), steps + more);
      && (Took(later.calls[j]) ==> later.calls[j].stage.grant.permit.permitId != id)
      && (later.calls[j].stage.Granted? && later.calls[j].stage.grant.permit.permitId == id ==>
            AfterLedger(later.ledger, later.calls[j].stage.grant, true).0 == Refused(AlreadyConsumed))
  {
    RunAppends(key, Initial(store), steps, more);
    CallsOnlyAdvance(key, Run(key, Initial(store), steps), more, i);
    RunKeeps(key, store, steps + more);
    hide Run, AllowedRun, SignedOk, CallsOk;
    var later := Run(key, Initial(store), steps + more);
    assert InLedger(later.ledger, later.calls[i]);
    if i < j {
      assert Apart(later.calls);
    }
  }

  /** A call completes only on a verified, evidenced and reconciled mutation. */
  lemma CompletionIsProven(key: string, store: Store, steps: seq<Step>, i: nat)
    requires AllowedRun(key, Initial(store), steps)
    requires i < |Run(key, Initial(store), steps).calls|
    requires var stage := Run(key, Initial(store), steps).calls[i].stage; stage.Ended? && stage.outcome.Completed?
    ensures var done := Run(key, Initial(store), steps).calls[i].stage.outcome;
      && done.verification.verified && done.verification.refs != [] && Distinct(done.verification.refs)
      && done.reconciliation != ""
      && done.permitId == Run(key, Initial(store), steps).calls[i].stage.grant.permit.permitId
      && done.permitId in Run(key, Initial(store), steps).ledger
  {
    RunKeeps(key, store, steps);
    hide Run, AllowedRun, CallOk, InLedger, SignedOk, Apart;
    var sys := Run(key, Initial(store), steps);
    assert CallOk(sys.signed, sys.calls[i]) && InLedger(sys.ledger, sys.calls[i]);
    CompletedCall(sys.signed, sys.ledger, sys.calls[i]);
  }

  lemma CompletedCall(signed: seq<Payload>, ledger: Ledger, c: Pending)
    requires CallOk(signed, c) && InLedger(ledger, c) && c.stage.Ended? && c.stage.outcome.Completed?
    ensures var done := c.stage.outcome;
      && done.verification.verified && done.verification.refs != [] && Distinct(done.verification.refs)
      && done.reconciliation != "" && done.permitId == c.stage.grant.permit.permitId && done.permitId in ledger
  {
    hide GrantOk, Get;
  }

  // ----- What a permit admits

  /** The READ_ONLY refusal of issue can never be the one that fires. */
  lemma ReadOnlyIsRefusedEarlier(req: IssueRequest, clocks: Clocks, uuid: string)
    requires Trusted(req.snapshot)
    ensures Issued(req, clocks, uuid) != Result.Failure(ReadOnlyAction)
  {
    hide Executable, Trusted, Agrees;
    if Agrees(req.envelope, req.snapshot, clocks.context) {
      OnlyStatefulClassesAgree(req.envelope, req.snapshot, clocks.context);
    }
  }

  function CallFor(key: string, p: Payload, name: string, snapshotId: string, req: IssueRequest): Call {
    Call(name, Token(p, Hmac(key, p)), snapshotId, req.envelope, req.action)
  }

  /** A call begun in one state, checked at some clocks and charged to a later ledger is let through. */
  predicate Admitted(key: string, sys: System, call: Call, clocks: Clocks, ledger: Ledger, up: bool) {
    var begun := Begun(sys, call);
    && begun.Fetched?
    && var checks := AfterChecks(key, call, begun.snapshot, clocks);
       checks.Granted? && AfterLedger(ledger, checks.grant, up).0.Paid?
  }

  /** A freshly issued permit admits its own call exactly while nothing it was issued for has changed: the
      mutation is registered under its class and the store serves the same snapshot when the call begins,
      neither clock has passed its limit when the checks run, and when the permit is charged the ledger
      answers and the permit is unspent. */
  lemma IssuedPermitAdmitsItsCall(key: string, sys: System, req: IssueRequest, issueClocks: Clocks, uuid: string,
                                  name: string, snapshotId: string, clocks: Clocks, ledger: Ledger, up: bool)
    requires Trusted(req.snapshot) && Issued(req, issueClocks, uuid).Success?
    ensures
      var p := Issued(req, issueClocks, uuid).value;
      Admitted(key, sys, CallFor(key, p, name, snapshotId, req), clocks, ledger, up) <==>
        && name in sys.mutations && sys.mutations[name] == req.action.actionClass
        && Get(sys.store, snapshotId) == Some(req.snapshot)
        && clocks.context <= req.snapshot.expiresAt && clocks.permit <= p.expiresAt
        && up && p.permitId !in ledger
  {
    ServesOnlyTheCurrentSnapshot(sys.store, snapshotId);
    hide Executable, ValidEnvelope, PolicyAgrees, Validated, Get, OnlyCarrier, ApprovalPresent;
  }

  /** A permit admits one envelope, one intent and one snapshot: any two calls it is granted to agree on all
      three, at whatever times and in whatever states they arrive. */
  lemma PermitAdmitsOneAction(key: string, call: Call, call': Call, s: Snapshot, s': Snapshot, clocks: Clocks,
                              clocks': Clocks)
    requires Trusted(s) && Trusted(s') && call.token == call'.token
    requires AfterChecks(key, call, s, clocks).Granted? && AfterChecks(key, call', s', clocks').Granted?
    ensures call.envelope == call'.envelope && call.action == call'.action && s == s'
  {
    hide Executable, Agrees, Validated;
  }
}
