/** The ledger, permit authority and mutation gateway objects, each method proved to make the protocol's steps
    (governance/execution_permit.py, n0te/coordinator_gateway.py). */
module PermitGateway {
  import opened Prelude
  import opened Authority
  import opened ExecutionEnvelope
  import opened TrustedContext
  import opened PermitProtocol
  import opened PermitSchedules

  /** SQLitePermitLedger: one row per consumed permit id. */
  class PermitLedger {
    var rows: Ledger

    constructor ()
      ensures rows == map[]
    {
      rows := map[];
    }

    /** One transaction: look the id up, insert it once. */
    method Consume(permitId: string, consumedAt: int, envelope: Digest<Envelope>, intent: IntentFingerprint, up: bool)
      returns (r: Option<Failure>)
      modifies this
      ensures r == if !up then Some(LedgerFailed) else if permitId in old(rows) then Some(AlreadyConsumed) else None
      ensures rows == if r.None? then old(rows)[permitId := Receipt(consumedAt, envelope, intent)] else old(rows)
    {
      if !up {
        return Some(LedgerFailed);
      }
      if permitId in rows {
        return Some(AlreadyConsumed);
      }
      rows := rows[permitId := Receipt(consumedAt, envelope, intent)];
      return None;
    }
  }

  class PermitAuthority {
    const key: string
    const ledger: PermitLedger
    ghost var signed: seq<Payload>

    constructor (key: string, ledger: PermitLedger)
      ensures this.key == key && this.ledger == ledger && signed == []
    {
      this.key := key;
      this.ledger := ledger;
      signed := [];
    }

    /** issue: every refusal in the order of the source, else a signed token. */
    method Issue(req: IssueRequest, clocks: Clocks, uuid: string) returns (r: Result<Token, Failure>)
      modifies this`signed
      ensures r == match Issued(req, clocks, uuid)
                   case Success(p) => Success(Token(p, Hmac(key, p)))
                   case Failure(f) => Result.Failure(f)
      ensures signed == if r.Success? then old(signed) + [r.value.payload] else old(signed)
    {
      if !(1 <= req.ttl <= MAX_TTL) {
        return Result.Failure(BadTtl);
      }
      var gate := EvaluateExecutionEnvelope(req.envelope);
      if !gate.allowed {
        return Result.Failure(GateClosed);
      }
      if !Agrees(req.envelope, req.snapshot, clocks.context) {
        return Result.Failure(ContextDisagrees);
      }
      if req.envelope.authority.actionClass != req.action.actionClass {
        return Result.Failure(ClassMismatch);
      }
      if req.action.actionClass == ReadOnly {
        return Result.Failure(ReadOnlyAction);
      }
      if !ApprovalPresent(req) {
        return Result.Failure(ApprovalRefused);
      }
      var payload := Payload(
        VERSION, "permit_" + uuid, clocks.permit, clocks.permit + req.ttl, gate.fingerprint.value,
        req.snapshot.fingerprint, Fingerprint(req.action), req.action.actionClass, req.envelope.authority.sourceRef);
      signed := signed + [payload];
      return Success(Token(payload, Hmac(key, payload)));
    }

    /** consume: everything is checked before the ledger is touched. */
    method Consume(token: Token, e: Envelope, action: ActionIntent, s: Snapshot, clocks: Clocks, up: bool)
      returns (r: Result<Payload, Failure>)
      modifies ledger
      ensures r == match CheckedPermit(key, token, e, action, s, clocks)
                   case Failure(f) => Result.Failure(f)
                   case Success(p) =>
                     if !up then Result.Failure(LedgerFailed)
                     else if p.permitId in old(ledger.rows) then Result.Failure(AlreadyConsumed)
                     else Success(p)
      ensures ledger.rows ==
        if r.Success?
        then old(ledger.rows)[r.value.permitId := Receipt(clocks.permit, r.value.envelope, r.value.intent)]
        else old(ledger.rows)
    {
      var gate := EvaluateExecutionEnvelope(e);
      if !gate.allowed {
        return Result.Failure(GateClosed);
      }
      if !Agrees(e, s, clocks.context) {
        return Result.Failure(ContextDisagrees);
      }
      if e.authority.actionClass != action.actionClass {
        return Result.Failure(ClassMismatch);
      }
      var decoded := Decoded(key, token);
      if decoded.Failure? {
        return decoded;
      }
      var payload := decoded.value;
      if clocks.permit > payload.expiresAt {
        return Result.Failure(PermitExpired);
      }
      if payload.envelope != gate.fingerprint.value || payload.snapshot != s.fingerprint
         || payload.intent != Fingerprint(action) || payload.actionClass != action.actionClass
         || payload.source != e.authority.sourceRef {
        return Result.Failure(PermitMismatch);
      }
      if payload.permitId == "" {
        return Result.Failure(NoPermitId);
      }
      var refused := ledger.Consume(payload.permitId, clocks.permit, gate.fingerprint.value, Fingerprint(action), up);
      return if refused.Some? then Result.Failure(refused.value) else Success(payload);
    }
  }

  /** CoordinatorMutationGateway. The context store is read afresh on every call. */
  class MutationGateway {
    const permits: PermitAuthority
    var mutations: map<string, ActionClass>
    ghost var calls: seq<Pending>

    constructor (permits: PermitAuthority)
      ensures this.permits == permits && mutations == map[] && calls == []
    {
      this.permits := permits;
      mutations := map[];
      calls := [];
    }

    /** The protocol state the objects stand for. */
    ghost function State(store: Store): System
      reads this, permits, permits.ledger
    {
      System(store, mutations, permits.ledger.rows, permits.signed, calls)
    }

    /** register: one registration per name, for stateful classes only. */
    method Register(name: string, actionClass: ActionClass, ghost store: Store) returns (ok: bool)
      modifies this`mutations
      ensures ok == Registered(old(mutations), name, actionClass).Some?
      ensures State(store) == Apply(permits.key, old(State(store)), Step.Register(name, actionClass))
    {
      if name == "" || name in mutations || actionClass == ReadOnly
         || actionClass !in {Reversible, Compensatable, Irreversible} {
        return false;
      }
      mutations := mutations[name := actionClass];
      return true;
    }

    /** Permit, then executor, then verifier, then reconciler: exactly the six steps of one call, made without
        interruption. The checks read `clocks`; the executor is called at `later`. */
    method Execute(call: Call, store: Store, clocks: Clocks, up: bool, later: Clocks, b: Behaviour)
      returns (stage: Stage)
      modifies this`calls, permits.ledger
      ensures State(store) == Run(permits.key, old(State(store)), CallSteps(|old(calls)|, call, clocks, up, later, b))
      ensures |calls| == |old(calls)| + 1 && stage == calls[|old(calls)|].stage
      ensures stage.Refused? || stage.Ended?
    {
      ghost var before := State(store);
      UninterruptedCall(permits.key, before, call, clocks, up, later, b);
      hide Run, CallSteps, CheckedPermit, Get;
      stage := Admit(call, store, clocks, up);
      hide CheckTurn, SpendTurn, Begun;
      if stage.Paid? {
        stage := Perform(stage.grant, call, Moment(store, later), b);
      }
      calls := calls + [Pending(call, store, stage)];
    }

    /** Registration, snapshot and permit. */
    method Admit(call: Call, store: Store, clocks: Clocks, up: bool) returns (stage: Stage)
      modifies permits.ledger
      ensures var (spent, ledger) :=
          SpendTurn(CheckTurn(permits.key, call, Begun(old(State(store)), call), clocks), old(permits.ledger.rows), up);
        stage == spent && permits.ledger.rows == ledger
      ensures stage.Refused? || stage.Paid?
    {
      hide CheckedPermit, Get;
      if call.name !in mutations {
        return Refused(Unregistered);
      }
      if call.action.actionClass != mutations[call.name] {
        return Refused(RegistrationMismatch);
      }
      var s := Get(store, call.snapshotId);
      if s.None? {
        return Refused(ContextUnavailable);
      }
      var consumed := permits.Consume(call.token, call.envelope, call.action, s.value, clocks, up);
      if consumed.Failure? {
        return Refused(consumed.error);
      }
      return Paid(Grant(consumed.value, s.value, clocks));
    }

    /** The part of execute that runs after the permit is gone: every way it ends leaves the permit spent. */
    method Perform(grant: Grant, call: Call, ran: Moment, b: Behaviour) returns (stage: Stage)
      ensures stage == ReconcileTurn(call, VerifyTurn(ExecuteTurn(Paid(grant), b.executorReturns, ran), b.verifier),
                                     b.reconciler)
      ensures stage.Ended?
    {
      if !b.executorReturns {
        return Ended(grant, ran, ExecutorFailed);
      }
      if !b.verifier.Answers? {
        return Ended(grant, ran, VerifierFailed);
      }
      var verification := b.verifier.verification;
      if !VerificationOk(verification) {
        return Ended(grant, ran, VerifierFailed);
      }
      if !verification.verified {
        return Ended(grant, ran, Unverified);
      }
      if b.reconciler.ReconcilerRaises? {
        return Ended(grant, ran, ReconcilerFailed);
      }
      if b.reconciler.ref == "" {
        return Ended(grant, ran, NoReceipt);
      }
      return Ended(grant, ran, Completed(grant.permit.permitId, call.action.actionId, verification, b.reconciler.ref));
    }
  }
}
