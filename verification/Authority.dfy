/** Exact action intents and approval bindings (n0te/authority.py). Fingerprints are modelled as
    injective: a digest is its own preimage. */
module Authority {
  import opened Prelude
  import opened Ordering

  datatype Digest<T> = Sha256(preimage: T)

  datatype ActionClass = ReadOnly | Reversible | Compensatable | Irreversible | UnsupportedClass

  datatype ActionIntent = ActionIntent(
    actionId: string, jobId: string, actionClass: ActionClass, description: string, targetRef: string,
    revision: string, payload: string, destination: Option<string>, purpose: Option<string>,
    categories: seq<string>)

  /** A recorded intent fingerprint: the digest of some intent, or any other text. */
  datatype IntentFingerprint = OfIntent(intent: ActionIntent) | OtherText(text: string)

  datatype ApprovalBinding = ApprovalBinding(approvalId: string, fingerprint: IntentFingerprint, sourceRef: string)

  function NormalizedCategories(values: seq<string>): seq<string> {
    Sort(TextLeq, Dedup(values))
  }

  /** The loop of _categories followed by its sort; None is an empty category. */
  method Categories(values: seq<string>) returns (r: Option<seq<string>>)
    ensures r == if "" in values then None else Some(NormalizedCategories(values))
  {
    var result: seq<string> := [];
    for i := 0 to |values|
      invariant "" !in values[..i]
      invariant result == Dedup(values[..i])
    {
      if values[i] == "" {
        return None;
      }
      assert values[..i + 1][..i] == values[..i];
      if values[i] !in result {
        result := result + [values[i]];
      }
    }
    assert values[..|values|] == values;
    return Some(Sort(TextLeq, result));
  }

  /** The constructor's normalisation; None is any of its validation errors. */
  function MakeIntent(raw: ActionIntent): Option<ActionIntent> {
    if raw.actionId == "" || raw.jobId == "" || raw.actionClass == UnsupportedClass || raw.description == ""
       || raw.targetRef == "" || raw.revision == "" || raw.payload == ""
       || raw.destination == Some("") || raw.purpose == Some("")
       || (raw.destination.Some? && raw.purpose.None?)
       || "" in raw.categories then None
    else Some(raw.(categories := NormalizedCategories(raw.categories)))
  }

  function Fingerprint(intent: ActionIntent): IntentFingerprint {
    OfIntent(intent)
  }

  function BindApproval(intent: ActionIntent, approvalId: string, sourceRef: string): Option<ApprovalBinding> {
    if approvalId == "" || sourceRef == "" then None
    else Some(ApprovalBinding(approvalId, Fingerprint(intent), sourceRef))
  }

  /** AuthorityService.validate: VALID or STALE. */
  predicate ApprovalIsValid(intent: ActionIntent, approval: ApprovalBinding) {
    Fingerprint(intent) == approval.fingerprint
  }

  /** The order and the repetition of data categories never change an intent's fingerprint, and nothing
      else about a well-formed intent can change without changing it. */
  lemma CategoriesAreASet(raw: ActionIntent, raw': ActionIntent)
    requires MakeIntent(raw).Some? && MakeIntent(raw').Some?
    ensures Fingerprint(MakeIntent(raw).value) == Fingerprint(MakeIntent(raw').value)
       <==> raw.(categories := []) == raw'.(categories := [])
            && Elements(raw.categories) == Elements(raw'.categories)
  {
    if Elements(raw.categories) == Elements(raw'.categories) {
      SameElementsSameSort(raw.categories, raw'.categories);
    }
    NormalizedKeepsElements(raw.categories);
    NormalizedKeepsElements(raw'.categories);
  }

  lemma NormalizedKeepsElements(values: seq<string>)
    ensures Elements(NormalizedCategories(values)) == Elements(values)
  {
    SameMembers(NormalizedCategories(values), Dedup(values));
  }

  /** An approval is valid for exactly the intent it was bound to. */
  lemma ApprovalBindsOneIntent(intent: ActionIntent, other: ActionIntent, approvalId: string, sourceRef: string)
    requires approvalId != "" && sourceRef != ""
    ensures ApprovalIsValid(other, BindApproval(intent, approvalId, sourceRef).value) <==> other == intent
  {
  }
}
