/** What every run of the handoff store keeps (n0te/collaboration_handoff.py): reachable tables pass the
    loader, closed rows never change, events account for live packages and open feedback, and what the
    service checks is what the triggers demand. */
module HandoffHistory {
  import opened Prelude
  import opened CollaborationHandoff

  datatype Step =
    | PrepareStep(request: PackageRequest, newId: string)
    | RevokeStep(package: string, reason: string)
    | RecordStep(package: string, body: string, position: Option<int>, newId: string)
    | ResolveStep(feedback: string, outcome: FeedbackState, note: string, response: Option<string>)
    | LineageStep(lineage: Lineage)

  datatype World = World(lineage: Lineage, tables: Tables)

  /** Other services may add to the lineage between calls, and nothing else. */
  predicate Allowed(w: World, step: Step) {
    step.LineageStep? ==> Extends(w.lineage, step.lineage)
  }

  function Apply(w: World, step: Step): World {
    match step
    case PrepareStep(req, id) => World(w.lineage, Prepare(w.lineage, w.tables, req, id).0)
    case RevokeStep(id, reason) => World(w.lineage, Revoke(w.tables, id, reason).0)
    case RecordStep(id, body, position, newId) => World(w.lineage, Record(w.tables, id, body, position, newId).0)
    case ResolveStep(id, outcome, note, response) =>
      World(w.lineage, Resolve(w.lineage, w.tables, id, outcome, note, response).0)
    case LineageStep(l) => World(l, w.tables)
  }

  function Run(w: World, steps: seq<Step>): World {
    if steps == [] then w else Apply(Run(w, steps[..|steps| - 1]), steps[|steps| - 1])
  }

  predicate AllowedRun(w: World, steps: seq<Step>) {
    steps == []
    || (AllowedRun(w, steps[..|steps| - 1]) && Allowed(Run(w, steps[..|steps| - 1]), steps[|steps| - 1]))
  }

  // ----- The invariant

  predicate UniqueKeys<T>(key: T -> string, rows: seq<T>) {
    forall i, j :: 0 <= i < j < |rows| ==> key(rows[i]) != key(rows[j])
  }

  function Live(p: Package): bool {
    p.state == Prepared
  }

  function IsOpen(f: Feedback): bool {
    f.state == Open
  }

  function Preparing(e: Event): bool {
    e.PackagePrepared?
  }

  function Revoking(e: Event): bool {
    e.PackageRevoked?
  }

  function Recording(e: Event): bool {
    e.FeedbackRecorded?
  }

  function Addressing(e: Event): bool {
    e.FeedbackAddressed?
  }

  function Dismissing(e: Event): bool {
    e.FeedbackDismissed?
  }

  /** Counting events by kind accounts for every row still live or open. */
  predicate Conserved(t: Tables) {
    && Count(Preparing, t.events) == |t.packages| == Count(Revoking, t.events) + Count(Live, t.packages)
    && Count(Recording, t.events) == |t.feedback|
         == Count(Addressing, t.events) + Count(Dismissing, t.events) + Count(IsOpen, t.feedback)
  }

  predicate Inv(w: World) {
    && Loadable(w.lineage, w.tables) && Conserved(w.tables)
    && UniqueKeys(PackageId, w.tables.packages) && UniqueKeys(FeedbackId, w.tables.feedback)
  }

  /** Every row is still there, with the same identity and attribution. */
  predicate PackagesKept(before: seq<Package>, after: seq<Package>) {
    |before| <= |after| && forall i :: 0 <= i < |before| ==>
      after[i].(state := before[i].state, reason := before[i].reason) == before[i]
      && (before[i].state == Revoked ==> after[i] == before[i])
  }

  predicate FeedbackKept(before: seq<Feedback>, after: seq<Feedback>) {
    |before| <= |after| && forall i :: 0 <= i < |before| ==>
      after[i].(state := before[i].state, response := before[i].response, note := before[i].note) == before[i]
      && (before[i].state != Open ==> after[i] == before[i])
  }

  lemma {:induction false} FindUnique<T>(key: T -> string, rows: seq<T>, i: nat)
    requires UniqueKeys(key, rows) && i < |rows|
    ensures Find(key, rows, key(rows[i])) == Some(i)
  {
    var found := Find(key, rows, key(rows[i])).value;
    assert found < i || found == i || found > i;
  }

  /** Feedback stays acceptable while packages only gain rows and keep their attribution. */
  lemma FeedbackStaysOk(l: Lineage, before: seq<Package>, after: seq<Package>, f: Feedback)
    requires FeedbackOk(l, before, f) && PackagesKept(before, after) && UniqueKeys(PackageId, after)
    ensures FeedbackOk(l, after, f)
  {
    hide HasVersion;
    var i := Find(PackageId, before, f.package).value;
    assert PackageId(after[i]) == f.package;
    FindUnique(PackageId, after, i);
  }

  lemma AllFeedbackStaysOk(l: Lineage, before: seq<Package>, after: seq<Package>, fs: seq<Feedback>)
    requires forall i :: 0 <= i < |fs| ==> FeedbackOk(l, before, fs[i])
    requires PackagesKept(before, after) && UniqueKeys(PackageId, after)
    ensures forall i :: 0 <= i < |fs| ==> FeedbackOk(l, after, fs[i])
  {
    hide FeedbackOk, PackagesKept, UniqueKeys;
    forall i | 0 <= i < |fs| ensures FeedbackOk(l, after, fs[i]) {
      FeedbackStaysOk(l, before, after, fs[i]);
    }
  }

  lemma PrepareKeeps(l: Lineage, t: Tables, req: PackageRequest, id: string)
    requires Inv(World(l, t))
    ensures Inv(World(l, Prepare(l, t, req, id).0))
  {
    hide Inv, Loadable, Conserved, PackageOk, OnePreparedEach, UniqueKeys, Prepare;
    if Prepare(l, t, req, id).1.Success? {
      NewPackageIsOk(l, t, req, id);
      AppendKeeps(l, t, Prepare(l, t, req, id).1.value, id);
    } else {
      RefusedUnchanged(l, t, req, id);
    }
  }

  lemma RefusedUnchanged(l: Lineage, t: Tables, req: PackageRequest, id: string)
    requires Prepare(l, t, req, id).1.Failure?
    ensures Prepare(l, t, req, id).0 == t
  {
    hide LabelOk, HasSong, HasVersion, HasPerson, MayInsertPackage;
  }

  lemma AppendKeeps(l: Lineage, t: Tables, p: Package, id: string)
    requires Inv(World(l, t)) && PackageOk(l, p) && p.state == Prepared
    requires OnePreparedEach(t.packages + [p]) && UniqueKeys(PackageId, t.packages + [p])
    ensures Inv(World(l, t.(packages := t.packages + [p], events := t.events + [PackagePrepared(id)])))
  {
    hide FeedbackOk, PackageOk, PackagesKept, UniqueKeys, OnePreparedEach, Conserved;
    OneMoreIsKept(t.packages, p);
    AllFeedbackStaysOk(l, t.packages, t.packages + [p], t.feedback);
    ConservedWithPackage(t, p, id);
  }

  lemma OneMoreIsKept(packages: seq<Package>, p: Package)
    ensures PackagesKept(packages, packages + [p])
  {
  }

  lemma NewPackageIsOk(l: Lineage, t: Tables, req: PackageRequest, id: string)
    requires Inv(World(l, t)) && Prepare(l, t, req, id).1.Success?
    ensures var p := Prepare(l, t, req, id).1.value;
      && Prepare(l, t, req, id).0 == t.(packages := t.packages + [p], events := t.events + [PackagePrepared(id)])
      && PackageOk(l, p) && p.state == Prepared
      && OnePreparedEach(t.packages + [p]) && UniqueKeys(PackageId, t.packages + [p])
  {
    hide FeedbackOk, Conserved;
  }

  lemma EventCounted(events: seq<Event>, e: Event)
    ensures Count(Preparing, events + [e]) == Count(Preparing, events) + if Preparing(e) then 1 else 0
    ensures Count(Revoking, events + [e]) == Count(Revoking, events) + if Revoking(e) then 1 else 0
    ensures Count(Recording, events + [e]) == Count(Recording, events) + if Recording(e) then 1 else 0
    ensures Count(Addressing, events + [e]) == Count(Addressing, events) + if Addressing(e) then 1 else 0
    ensures Count(Dismissing, events + [e]) == Count(Dismissing, events) + if Dismissing(e) then 1 else 0
  {
    hide Count;
    CountMore(Preparing, events, e);
    CountMore(Revoking, events, e);
    CountMore(Recording, events, e);
    CountMore(Addressing, events, e);
    CountMore(Dismissing, events, e);
  }

  lemma ConservedWithPackage(t: Tables, p: Package, id: string)
    requires Conserved(t) && Live(p)
    ensures Conserved(t.(packages := t.packages + [p], events := t.events + [PackagePrepared(id)]))
  {
    EventCounted(t.events, PackagePrepared(id));
    CountMore(Live, t.packages, p);
    hide Count;
  }

  lemma ConservedWithRevocation(t: Tables, i: nat, p: Package, id: string)
    requires Conserved(t) && i < |t.packages| && Live(t.packages[i]) && !Live(p)
    ensures Conserved(t.(packages := t.packages[i := p], events := t.events + [PackageRevoked(id)]))
  {
    EventCounted(t.events, PackageRevoked(id));
    CountUpdate(Live, t.packages, i, p);
    hide Count;
  }

  lemma ConservedWithFeedback(t: Tables, f: Feedback, id: string)
    requires Conserved(t) && IsOpen(f)
    ensures Conserved(t.(feedback := t.feedback + [f], events := t.events + [FeedbackRecorded(id)]))
  {
    EventCounted(t.events, FeedbackRecorded(id));
    CountMore(IsOpen, t.feedback, f);
    hide Count;
  }

  lemma ConservedWithResolution(t: Tables, i: nat, f: Feedback, e: Event)
    requires Conserved(t) && i < |t.feedback| && IsOpen(t.feedback[i]) && !IsOpen(f) && (Addressing(e) || Dismissing(e))
    ensures Conserved(t.(feedback := t.feedback[i := f], events := t.events + [e]))
  {
    EventCounted(t.events, e);
    CountUpdate(IsOpen, t.feedback, i, f);
    hide Count;
  }

  lemma RevokedRow(l: Lineage, t: Tables, id: string, reason: string) returns (i: nat, p: Package)
    requires Inv(World(l, t)) && Revoke(t, id, reason).0 != t
    ensures i < |t.packages| && Live(t.packages[i]) && !Live(p) && PackageOk(l, p)
    ensures Revoke(t, id, reason).0 == t.(packages := t.packages[i := p], events := t.events + [PackageRevoked(id)])
    ensures PackagesKept(t.packages, t.packages[i := p]) && OnePreparedEach(t.packages[i := p])
    ensures UniqueKeys(PackageId, t.packages[i := p])
  {
    hide FeedbackOk, Conserved, HasVersion;
    i := Find(PackageId, t.packages, id).value;
    p := t.packages[i].(state := Revoked, reason := Some(reason));
    assert PackageOk(l, t.packages[i]);
  }

  lemma RevokeKeeps(l: Lineage, t: Tables, id: string, reason: string)
    requires Inv(World(l, t))
    ensures Inv(World(l, Revoke(t, id, reason).0))
  {
    hide FeedbackOk, PackageOk, Revoke, PackagesKept, UniqueKeys, OnePreparedEach, Conserved;
    if Revoke(t, id, reason).0 != t {
      var i, p := RevokedRow(l, t, id, reason);
      AllFeedbackStaysOk(l, t.packages, t.packages[i := p], t.feedback);
      ConservedWithRevocation(t, i, p, id);
    }
  }

  lemma RecordedRow(l: Lineage, t: Tables, package: string, body: string, position: Option<int>, id: string)
    requires Inv(World(l, t)) && Record(t, package, body, position, id).1.Success?
    ensures var f := Record(t, package, body, position, id).1.value;
      && FeedbackOk(l, t.packages, f) && IsOpen(f) && UniqueKeys(FeedbackId, t.feedback + [f])
      && Record(t, package, body, position, id).0
           == t.(feedback := t.feedback + [f], events := t.events + [FeedbackRecorded(id)])
  {
    hide PackageOk, Conserved, OnePreparedEach;
  }

  lemma RecordKeeps(l: Lineage, t: Tables, package: string, body: string, position: Option<int>, id: string)
    requires Inv(World(l, t))
    ensures Inv(World(l, Record(t, package, body, position, id).0))
  {
    if Record(t, package, body, position, id).1.Success? {
      RecordedRow(l, t, package, body, position, id);
      hide FeedbackOk, PackageOk, Find, UniqueKeys, OnePreparedEach, Record, Conserved;
      ConservedWithFeedback(t, Record(t, package, body, position, id).1.value, id);
    } else {
      hide FeedbackOk, PackageOk, MayInsertFeedback;
    }
  }

  lemma ResolvedRow(l: Lineage, t: Tables, id: string, outcome: FeedbackState, note: string, response: Option<string>)
    returns (i: nat, f: Feedback, e: Event)
    requires Inv(World(l, t)) && Resolve(l, t, id, outcome, note, response).0 != t
    ensures i < |t.feedback| && IsOpen(t.feedback[i]) && !IsOpen(f) && FeedbackOk(l, t.packages, f)
    ensures e.FeedbackAddressed? || e.FeedbackDismissed?
    ensures Resolve(l, t, id, outcome, note, response).0
      == t.(feedback := t.feedback[i := f], events := t.events + [e])
    ensures UniqueKeys(FeedbackId, t.feedback[i := f])
  {
    i := Find(FeedbackId, t.feedback, id).value;
    f := t.feedback[i].(state := outcome, response := response, note := Some(note));
    e := if outcome == Addressed then FeedbackAddressed(id) else FeedbackDismissed(id);
    ResolvedIsOk(l, t, t.feedback[i], outcome, note, response);
    hide FeedbackOk, PackageOk, Conserved, HasVersion, MayUpdateFeedback, ResponseError;
  }

  lemma ResolveKeeps(l: Lineage, t: Tables, id: string, outcome: FeedbackState, note: string, response: Option<string>)
    requires Inv(World(l, t))
    ensures Inv(World(l, Resolve(l, t, id, outcome, note, response).0))
  {
    hide FeedbackOk, PackageOk, Resolve, UniqueKeys, OnePreparedEach, Conserved;
    if Resolve(l, t, id, outcome, note, response).0 != t {
      var i, f, e := ResolvedRow(l, t, id, outcome, note, response);
      ConservedWithResolution(t, i, f, e);
    }
  }

  lemma ResolvedIsOk(l: Lineage, t: Tables, f: Feedback, outcome: FeedbackState, note: string, response: Option<string>)
    requires FeedbackOk(l, t.packages, f) && outcome != Open && RequiredText(note, MAX_NOTE)
    requires ResponseError(l, f, outcome, response).None?
    ensures FeedbackOk(l, t.packages, f.(state := outcome, response := response, note := Some(note)))
  {
  }

  lemma LineageKeeps(l: Lineage, l': Lineage, t: Tables)
    requires Inv(World(l, t)) && Extends(l, l')
    ensures Inv(World(l', t))
  {
    hide Conserved, UniqueKeys, OnePreparedEach, Find;
    forall i | 0 <= i < |t.packages| ensures PackageOk(l', t.packages[i]) {
      assert PackageOk(l, t.packages[i]);
    }
    forall i | 0 <= i < |t.feedback| ensures FeedbackOk(l', t.packages, t.feedback[i]) {
      assert FeedbackOk(l, t.packages, t.feedback[i]);
    }
  }

  lemma StepKeeps(w: World, step: Step)
    requires Inv(w) && Allowed(w, step)
    ensures Inv(Apply(w, step))
  {
    hide Inv, Prepare, Revoke, Record, Resolve, Extends;
    match step
    case PrepareStep(req, id) => PrepareKeeps(w.lineage, w.tables, req, id);
    case RevokeStep(id, reason) => RevokeKeeps(w.lineage, w.tables, id, reason);
    case RecordStep(id, body, position, newId) => RecordKeeps(w.lineage, w.tables, id, body, position, newId);
    case ResolveStep(id, outcome, note, response) =>
      ResolveKeeps(w.lineage, w.tables, id, outcome, note, response);
    case LineageStep(l) => LineageKeeps(w.lineage, l, w.tables);
  }

  const EMPTY := Tables([], [], [])

  lemma {:induction false} RunKeeps(l: Lineage, steps: seq<Step>)
    requires AllowedRun(World(l, EMPTY), steps)
    ensures Inv(Run(World(l, EMPTY), steps))
  {
    if steps != [] {
      hide Inv, Apply, Allowed;
      RunKeeps(l, steps[..|steps| - 1]);
      StepKeeps(Run(World(l, EMPTY), steps[..|steps| - 1]), steps[|steps| - 1]);
    }
  }

  // ----- Promises over runs

  /** Every reachable store passes the loader, with at most one prepared package per song, version and person,
      and every addressed response is a later version of the same song. */
  lemma ReachableStoresLoad(l: Lineage, steps: seq<Step>)
    requires AllowedRun(World(l, EMPTY), steps)
    ensures var w := Run(World(l, EMPTY), steps);
      && Loadable(w.lineage, w.tables)
      && OnePreparedEach(w.tables.packages)
      && (forall i :: 0 <= i < |w.tables.feedback| && w.tables.feedback[i].state == Addressed ==>
            var f := w.tables.feedback[i];
            && f.response.Some? && f.response.value in w.lineage.versions && f.version in w.lineage.versions
            && w.lineage.versions[f.response.value].song == f.song == w.lineage.versions[f.version].song
            && w.lineage.versions[f.response.value].ordinal > w.lineage.versions[f.version].ordinal)
  {
    RunKeeps(l, steps);
    hide Run, AllowedRun, Conserved, UniqueKeys, Find;
    var w := Run(World(l, EMPTY), steps);
    forall i | 0 <= i < |w.tables.feedback| && w.tables.feedback[i].state == Addressed
      ensures var f := w.tables.feedback[i];
        && f.response.Some? && f.response.value in w.lineage.versions && f.version in w.lineage.versions
        && w.lineage.versions[f.response.value].song == f.song == w.lineage.versions[f.version].song
        && w.lineage.versions[f.response.value].ordinal > w.lineage.versions[f.version].ordinal
    {
      var f := w.tables.feedback[i];
      assert FeedbackOk(w.lineage, w.tables.packages, f);
      var p := w.tables.packages[Find(PackageId, w.tables.packages, f.package).value];
      assert PackageOk(w.lineage, p);
    }
  }

  /** Prepared minus revoked events is the number of live packages, and recorded minus resolved events the
      number of open feedback rows. */
  lemma EventsConserve(l: Lineage, steps: seq<Step>)
    requires AllowedRun(World(l, EMPTY), steps)
    ensures Conserved(Run(World(l, EMPTY), steps).tables)
  {
    RunKeeps(l, steps);
    hide Run, AllowedRun, Loadable, Conserved;
  }

  lemma StepKeepsRows(w: World, step: Step)
    ensures PackagesKept(w.tables.packages, Apply(w, step).tables.packages)
    ensures FeedbackKept(w.tables.feedback, Apply(w, step).tables.feedback)
  {
    hide MayInsertPackage, MayInsertFeedback, MayUpdateFeedback, ResponseError, HasVersion, Find;
  }

  /** Rows never disappear and never change what they are about; a revoked package and a resolved feedback row
      never change at all, whatever is asked of the store afterwards. */
  lemma {:induction false} RowsNeverReopen(w: World, steps: seq<Step>)
    ensures PackagesKept(w.tables.packages, Run(w, steps).tables.packages)
    ensures FeedbackKept(w.tables.feedback, Run(w, steps).tables.feedback)
  {
    if steps != [] {
      hide Apply;
      var rest := steps[..|steps| - 1];
      RowsNeverReopen(w, rest);
      StepKeepsRows(Run(w, rest), steps[|steps| - 1]);
      PackagesChain(w.tables.packages, Run(w, rest).tables.packages, Run(w, steps).tables.packages);
      FeedbackChain(w.tables.feedback, Run(w, rest).tables.feedback, Run(w, steps).tables.feedback);
    }
  }

  lemma PackagesChain(a: seq<Package>, b: seq<Package>, c: seq<Package>)
    requires PackagesKept(a, b) && PackagesKept(b, c)
    ensures PackagesKept(a, c)
  {
  }

  lemma FeedbackChain(a: seq<Feedback>, b: seq<Feedback>, c: seq<Feedback>)
    requires FeedbackKept(a, b) && FeedbackKept(b, c)
    ensures FeedbackKept(a, c)
  {
  }

  /** With a fresh id, preparing fails for the index's sake exactly when the same person already holds a live
      package of the same version; the triggers themselves never refuse what the service checked. */
  lemma PrepareFailsOnlyOnALivePackage(l: Lineage, t: Tables, req: PackageRequest, id: string)
    requires Inv(World(l, t)) && Find(PackageId, t.packages, id).None?
    requires Prepare(l, t, req, id).1 == Failure(AlreadyPrepared) || Prepare(l, t, req, id).1.Success?
    ensures Prepare(l, t, req, id).1 == Failure(AlreadyPrepared) <==>
      exists i :: 0 <= i < |t.packages| && Live(t.packages[i])
        && Key(t.packages[i]) == (req.song, req.version, req.person)
  {
    hide Conserved, FeedbackOk, Loadable, UniqueKeys;
    forall i | 0 <= i < |t.packages| ensures t.packages[i].id != id {
      assert PackageId(t.packages[i]) != id;
    }
  }

  /** No write of a revocation or a resolution is ever refused by a trigger, and a recording only for a used id. */
  lemma ServiceChecksCoverTriggers(l: Lineage, t: Tables, id: string, newId: string, text: string,
                                   position: Option<int>, outcome: FeedbackState, response: Option<string>)
    requires Inv(World(l, t))
    ensures Revoke(t, id, text).1 != Failure(WriteRefused)
    ensures Resolve(l, t, id, outcome, text, response).1 != Failure(WriteRefused)
    ensures Record(t, id, text, position, newId).1 == Failure(WriteRefused) ==>
      Find(FeedbackId, t.feedback, newId).Some?
  {
    hide Conserved, Loadable, UniqueKeys, Find;
    if Find(FeedbackId, t.feedback, newId).None? {
      forall i | 0 <= i < |t.feedback| ensures t.feedback[i].id != newId {
        assert FeedbackId(t.feedback[i]) != newId;
      }
    }
  }

  /** Revoking is idempotent: asked again for the same reason it succeeds and changes nothing, for another
      reason it fails. */
  lemma RevokingIsIdempotent(t: Tables, id: string, reason: string, again: string)
    requires Revoke(t, id, reason).1.Success? && RequiredText(again, MAX_NOTE) && UniqueKeys(PackageId, t.packages)
    ensures var (t', r) := Revoke(t, id, reason);
      Revoke(t', id, again) == (t', if again == reason then r else Failure(AlreadyRevoked))
  {
    var t' := Revoke(t, id, reason).0;
    var i := Find(PackageId, t.packages, id).value;
    assert UniqueKeys(PackageId, t'.packages) && PackageId(t'.packages[i]) == id;
    FindUnique(PackageId, t'.packages, i);
  }

  /** Resolving is idempotent: asked again the same way it succeeds and changes nothing, asked differently it
      fails and changes nothing. */
  lemma ResolvingIsIdempotent(l: Lineage, t: Tables, id: string, outcome: FeedbackState, note: string,
                              response: Option<string>, outcome': FeedbackState, note': string,
                              response': Option<string>)
    requires Resolve(l, t, id, outcome, note, response).1.Success? && UniqueKeys(FeedbackId, t.feedback)
    ensures var (t', r) := Resolve(l, t, id, outcome, note, response);
      var (t'', r') := Resolve(l, t', id, outcome', note', response');
      && t'' == t'
      && ((outcome', note', response') == (outcome, note, response) ==> r' == r)
      && ((outcome', note', response') != (outcome, note, response) ==> r'.Failure?)
  {
    var t' := Resolve(l, t, id, outcome, note, response).0;
    var i := Find(FeedbackId, t.feedback, id).value;
    assert UniqueKeys(FeedbackId, t'.feedback) && FeedbackId(t'.feedback[i]) == id;
    FindUnique(FeedbackId, t'.feedback, i);
  }

  /** Once a package is revoked, the same person can be given the version again. */
  lemma RevokedMakesRoom(l: Lineage, t: Tables, id: string, reason: string, req: PackageRequest, newId: string)
    requires Inv(World(l, t)) && Revoke(t, id, reason).1.Success? && Find(PackageId, t.packages, newId).None?
    requires Prepare(l, t, req, newId).1 == Failure(AlreadyPrepared)
    requires Key(Revoke(t, id, reason).1.value) == (req.song, req.version, req.person)
    requires Live(t.packages[Find(PackageId, t.packages, id).value])
    ensures Prepare(l, Revoke(t, id, reason).0, req, newId).1.Success?
  {
    hide Conserved, FeedbackOk;
    var t' := Revoke(t, id, reason).0;
    var at := Find(PackageId, t.packages, id).value;
    forall i | 0 <= i < |t'.packages| ensures t'.packages[i].id != newId {
      assert PackageId(t.packages[i]) != newId;
    }
    forall i | 0 <= i < |t'.packages| && Live(t'.packages[i]) ensures Key(t'.packages[i]) != Key(t.packages[at]) {
      assert i < at || i > at;
    }
  }
}
