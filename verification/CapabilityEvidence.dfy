/** Append-only capability evidence bound to the current workspace observation
    (n0te/capability_evidence.py): the log, its loader, the recording service and the triggers, the state
    derived from the last rows, and the candidates a resolver is given. */
module CapabilityEvidence {
  import opened Prelude
  import opened Ordering
  import opened Capabilities

  // ----- Workspace observations, kept by another service: append-only, and the last one is current

  datatype WorkspaceObservation = WorkspaceObservation(id: string, workspace: string, runtime: string)

  function Current(obs: seq<WorkspaceObservation>, workspace: string): (r: Option<WorkspaceObservation>)
    ensures r.Some? ==> r.value.workspace == workspace && r.value in obs
  {
    if obs == [] then None
    else if obs[|obs| - 1].workspace == workspace then Some(obs[|obs| - 1])
    else Current(obs[..|obs| - 1], workspace)
  }

  function ObservationId(o: WorkspaceObservation): string {
    o.id
  }

  // ----- Rows

  datatype Availability = Available | Unavailable | Unknown

  datatype EvidenceKind = RuntimeProbe | AdapterTest | OfficialFact | ManualVerified | OtherEvidence

  /** The preference merit of a row is not stored: it is one half wherever a candidate is built. */
  datatype Row = Row(
    id: string, workspace: string, observation: string, runtime: string, route: string, kind: RouteKind,
    capability: string, displayName: string, brand: Option<string>, availability: Availability,
    evidenceKind: EvidenceKind, evidenceRef: Option<string>, observedAt: int, merits: Merits, paid: bool)

  const NO_PREFERENCE := 0.5

  predicate TextsOk(r: Row) {
    && r.id != "" && r.workspace != "" && r.observation != "" && r.runtime != "" && r.route != ""
    && r.capability != "" && r.displayName != "" && r.brand != Some("") && r.evidenceRef != Some("")
  }

  /** What the loader demands of one row by itself. */
  predicate RowOk(obs: seq<WorkspaceObservation>, r: Row) {
    && TextsOk(r) && (r.availability != Unknown ==> r.evidenceRef.Some?) && r.observedAt >= 0
    && UnitMerits(r.merits) && r.merits.userPreference == NO_PREFERENCE
    && var at := Find(ObservationId, obs, r.observation);
       at.Some? && obs[at.value].workspace == r.workspace && obs[at.value].runtime == r.runtime
  }

  function FactKey(r: Row): (string, string, string) {
    (r.observation, r.capability, r.route)
  }

  function RouteKey(r: Row): (string, string) {
    (r.observation, r.route)
  }

  /** In one environment no fact's time runs backwards and no route changes kind. */
  predicate Ordered(log: seq<Row>) {
    forall i, j :: 0 <= i < j < |log| ==>
      && (FactKey(log[i]) == FactKey(log[j]) ==> log[i].observedAt <= log[j].observedAt)
      && (RouteKey(log[i]) == RouteKey(log[j]) ==> log[i].kind == log[j].kind)
  }

  predicate ValidLog(obs: seq<WorkspaceObservation>, log: seq<Row>) {
    (forall i :: 0 <= i < |log| ==> RowOk(obs, log[i])) && Ordered(log)
  }

  // ----- The last row about a fact or a route

  function LastFact(log: seq<Row>, key: (string, string, string)): Option<Row> {
    if log == [] then None
    else if FactKey(log[|log| - 1]) == key then Some(log[|log| - 1])
    else LastFact(log[..|log| - 1], key)
  }

  function LastRoute(log: seq<Row>, key: (string, string)): Option<Row> {
    if log == [] then None
    else if RouteKey(log[|log| - 1]) == key then Some(log[|log| - 1])
    else LastRoute(log[..|log| - 1], key)
  }

  lemma {:induction false} LastFactIsLatest(log: seq<Row>, key: (string, string, string))
    requires Ordered(log)
    ensures LastFact(log, key).None? ==> forall i :: 0 <= i < |log| ==> FactKey(log[i]) != key
    ensures LastFact(log, key).Some? ==>
      && (exists i :: 0 <= i < |log| && FactKey(log[i]) == key && log[i] == LastFact(log, key).value)
      && forall i :: 0 <= i < |log| && FactKey(log[i]) == key ==>
           log[i].observedAt <= LastFact(log, key).value.observedAt
  {
    if log != [] && FactKey(log[|log| - 1]) != key {
      LastFactIsLatest(log[..|log| - 1], key);
    }
  }

  lemma {:induction false} LastRouteSharesKind(log: seq<Row>, key: (string, string))
    requires Ordered(log)
    ensures LastRoute(log, key).None? ==> forall i :: 0 <= i < |log| ==> RouteKey(log[i]) != key
    ensures LastRoute(log, key).Some? ==>
      && (exists i :: 0 <= i < |log| && RouteKey(log[i]) == key && log[i] == LastRoute(log, key).value)
      && forall i :: 0 <= i < |log| && RouteKey(log[i]) == key ==> log[i].kind == LastRoute(log, key).value.kind
  {
    if log != [] && RouteKey(log[|log| - 1]) != key {
      LastRouteSharesKind(log[..|log| - 1], key);
    }
  }

  /** A row agrees with the last rows about its fact and its route. */
  predicate Follows(log: seq<Row>, row: Row) {
    && (LastFact(log, FactKey(row)).Some? ==> LastFact(log, FactKey(row)).value.observedAt <= row.observedAt)
    && (LastRoute(log, RouteKey(row)).Some? ==> LastRoute(log, RouteKey(row)).value.kind == row.kind)
  }

  /** Comparing a new row with the last ones compares it with all. */
  lemma OrderedMore(log: seq<Row>, row: Row)
    requires Ordered(log)
    ensures Ordered(log + [row]) <==> Follows(log, row)
  {
    LastFactIsLatest(log, FactKey(row));
    LastRouteSharesKind(log, RouteKey(row));
    hide FactKey, RouteKey, LastFact, LastRoute;
    var log' := log + [row];
    assert log'[|log|] == row && forall i :: 0 <= i < |log| ==> log'[i] == log[i];
  }

  // ----- The loader

  /** The dictionaries of the loader hold the last time of every fact and the last kind of every route. */
  ghost predicate Remembers(log: seq<Row>, lastTime: map<(string, string, string), int>,
                            kinds: map<(string, string), RouteKind>)
  {
    && (forall key :: key in lastTime <==> LastFact(log, key).Some?)
    && (forall key :: key in lastTime ==> lastTime[key] == LastFact(log, key).value.observedAt)
    && (forall key :: key in kinds <==> LastRoute(log, key).Some?)
    && (forall key :: key in kinds ==> kinds[key] == LastRoute(log, key).value.kind)
  }

  /** _validate_existing. */
  method ValidateExisting(obs: seq<WorkspaceObservation>, log: seq<Row>) returns (ok: bool)
    ensures ok == ValidLog(obs, log)
  {
    hide RowOk, Ordered, FactKey, RouteKey, Remembers;
    var lastTime: map<(string, string, string), int> := map[];
    var kinds: map<(string, string), RouteKind> := map[];
    NothingRemembered();
    for i := 0 to |log|
      invariant forall k :: 0 <= k < i ==> RowOk(obs, log[k])
      invariant Ordered(log[..i]) && Remembers(log[..i], lastTime, kinds)
    {
      var row := log[i];
      assert log[..i + 1] == log[..i] + [row];
      OrderedMore(log[..i], row);
      PrefixOrdered(log, i + 1);
      Recall(log[..i], row, lastTime, kinds);
      if !RowOk(obs, row) {
        return false;
      }
      if FactKey(row) in lastTime && row.observedAt < lastTime[FactKey(row)] {
        return false;
      }
      if RouteKey(row) in kinds && kinds[RouteKey(row)] != row.kind {
        return false;
      }
      RemembersMore(log[..i], row, lastTime, kinds);
      lastTime := lastTime[FactKey(row) := row.observedAt];
      kinds := kinds[RouteKey(row) := row.kind];
    }
    assert log[..|log|] == log;
    return true;
  }

  lemma NothingRemembered()
    ensures Ordered([]) && Remembers([], map[], map[])
  {
  }

  lemma PrefixOrdered(log: seq<Row>, n: nat)
    requires n <= |log|
    ensures Ordered(log) ==> Ordered(log[..n])
  {
    assert forall i :: 0 <= i < n ==> log[..n][i] == log[i];
  }

  lemma Recall(log: seq<Row>, row: Row, lastTime: map<(string, string, string), int>,
               kinds: map<(string, string), RouteKind>)
    requires Remembers(log, lastTime, kinds)
    ensures Follows(log, row) <==>
      && !(FactKey(row) in lastTime && row.observedAt < lastTime[FactKey(row)])
      && !(RouteKey(row) in kinds && kinds[RouteKey(row)] != row.kind)
  {
    hide FactKey, RouteKey, LastFact, LastRoute;
  }

  lemma RemembersMore(log: seq<Row>, row: Row, lastTime: map<(string, string, string), int>,
                      kinds: map<(string, string), RouteKind>)
    requires Remembers(log, lastTime, kinds)
    ensures Remembers(log + [row], lastTime[FactKey(row) := row.observedAt], kinds[RouteKey(row) := row.kind])
  {
    hide FactKey, RouteKey;
    assert (log + [row])[..|log|] == log;
  }

  // ----- Recording

  datatype Request = Request(
    workspace: string, expectedObservation: string, expectedRuntime: string, route: string,
    kind: Option<RouteKind>, capability: string, displayName: string, availability: Option<Availability>,
    evidenceKind: Option<EvidenceKind>, observedAt: int, brand: Option<string>, evidenceRef: Option<string>,
    merits: Merits, paid: bool)

  datatype Error = NoWorkspace | StaleObservation | BadInput | TimeRegressed | KindChanged | WriteRefused

  predicate RequestOk(q: Request) {
    && q.route != "" && q.kind.Some? && q.capability != "" && q.displayName != "" && q.brand != Some("")
    && q.availability.Some? && q.evidenceKind.Some? && q.evidenceRef != Some("") && q.observedAt >= 0
    && UnitMerits(q.merits.(userPreference := NO_PREFERENCE))
    && (q.availability != Some(Unknown) ==> q.evidenceRef.Some?)
  }

  function NewRow(q: Request, current: WorkspaceObservation, id: string): Row
    requires RequestOk(q)
  {
    Row(id, q.workspace, current.id, current.runtime, q.route, q.kind.value, q.capability, q.displayName, q.brand,
        q.availability.value, q.evidenceKind.value, q.evidenceRef, q.observedAt,
        q.merits.(userPreference := NO_PREFERENCE), q.paid)
  }

  /** The insert triggers, over all prior rows. */
  predicate MayInsert(obs: seq<WorkspaceObservation>, log: seq<Row>, r: Row) {
    && Current(obs, r.workspace) == Some(WorkspaceObservation(r.observation, r.workspace, r.runtime))
    && !(exists i :: 0 <= i < |log| && FactKey(log[i]) == FactKey(r) && log[i].observedAt > r.observedAt)
    && !(exists i :: 0 <= i < |log| && RouteKey(log[i]) == RouteKey(r) && log[i].kind != r.kind)
    && forall i :: 0 <= i < |log| ==> log[i].id != r.id
  }

  function Record(obs: seq<WorkspaceObservation>, log: seq<Row>, q: Request, id: string)
    : (seq<Row>, Result<Row, Error>)
  {
    var current := Current(obs, q.workspace);
    if current.None? then (log, Failure(NoWorkspace))
    else if current.value.id != q.expectedObservation || current.value.runtime != q.expectedRuntime then
      (log, Failure(StaleObservation))
    else if !RequestOk(q) then (log, Failure(BadInput))
    else
      var row := NewRow(q, current.value, id);
      var fact, route := LastFact(log, FactKey(row)), LastRoute(log, RouteKey(row));
      if fact.Some? && row.observedAt < fact.value.observedAt then (log, Failure(TimeRegressed))
      else if route.Some? && route.value.kind != row.kind then (log, Failure(KindChanged))
      else if !MayInsert(obs, log, row) then (log, Failure(WriteRefused))
      else (log + [row], Success(row))
  }

  class CapabilityEvidenceMemory {
    var log: seq<Row>

    constructor ()
      ensures log == []
    {
      log := [];
    }

    /** record, under the workspace observations of the moment; the id is a fresh uuid. */
    method RecordEvidence(obs: seq<WorkspaceObservation>, q: Request, id: string) returns (r: Result<Row, Error>)
      modifies this
      ensures (log, r) == Record(obs, old(log), q, id)
    {
      hide MayInsert;
      var current := Current(obs, q.workspace);
      if current.None? {
        return Failure(NoWorkspace);
      }
      if current.value.id != q.expectedObservation || current.value.runtime != q.expectedRuntime {
        return Failure(StaleObservation);
      }
      if !RequestOk(q) {
        return Failure(BadInput);
      }
      var row := NewRow(q, current.value, id);
      var priorFact := LastFact(log, FactKey(row));
      if priorFact.Some? && row.observedAt < priorFact.value.observedAt {
        return Failure(TimeRegressed);
      }
      var priorRoute := LastRoute(log, RouteKey(row));
      if priorRoute.Some? && priorRoute.value.kind != row.kind {
        return Failure(KindChanged);
      }
      if !MayInsert(obs, log, row) {
        return Failure(WriteRefused);
      }
      log := log + [row];
      return Success(row);
    }
  }

  /** On an ordered log, looking at the last row only is the same as the triggers' look at all prior rows. */
  lemma LastRowIsEnough(obs: seq<WorkspaceObservation>, log: seq<Row>, r: Row)
    requires Ordered(log) && forall i :: 0 <= i < |log| ==> log[i].id != r.id
    requires Current(obs, r.workspace) == Some(WorkspaceObservation(r.observation, r.workspace, r.runtime))
    ensures MayInsert(obs, log, r) <==> Follows(log, r)
  {
    LastFactIsLatest(log, FactKey(r));
    LastRouteSharesKind(log, RouteKey(r));
    hide FactKey, RouteKey, LastFact, LastRoute, Ordered;
  }

  // ----- The derived state

  function KeyOf(r: Row): (string, string) {
    (r.capability, r.route)
  }

  predicate KeyLeq(a: (string, string), b: (string, string)) {
    if a.0 == b.0 then TextLeq(a.1, b.1) else TextLeq(a.0, b.0)
  }

  function OfWorkspace(workspace: string): Row -> Option<Row> {
    (r: Row) => if r.workspace == workspace then Some(r) else None
  }

  function OfEnvironment(o: WorkspaceObservation): Row -> Option<Row> {
    (r: Row) => if r.observation == o.id && r.runtime == o.runtime then Some(r) else None
  }

  /** The rows of one environment, in log order. */
  function CurrentRows(log: seq<Row>, workspace: string, o: WorkspaceObservation): seq<Row> {
    Collect(OfEnvironment(o), Collect(OfWorkspace(workspace), log))
  }

  predicate LastOfKey(rows: seq<Row>, i: int) {
    0 <= i < |rows| && forall j :: i < j < |rows| ==> KeyOf(rows[j]) != KeyOf(rows[i])
  }

  predicate HasKey(rows: seq<Row>, key: (string, string)) {
    exists a :: 0 <= a < |rows| && KeyOf(rows[a]) == key
  }

  ghost predicate IsNewest(rows: seq<Row>, r: Row) {
    exists i :: LastOfKey(rows, i) && rows[i] == r
  }

  /** One row per (capability, route) that occurs, namely its last one, in key order. */
  ghost predicate Newest(rows: seq<Row>, current: seq<Row>) {
    && (forall a, b :: 0 <= a < b < |current| ==>
          KeyLeq(KeyOf(current[a]), KeyOf(current[b])) && KeyOf(current[a]) != KeyOf(current[b]))
    && (forall a :: 0 <= a < |current| ==> IsNewest(rows, current[a]))
    && (forall i :: 0 <= i < |rows| ==> HasKey(current, KeyOf(rows[i])))
  }

  datatype EnvironmentState = EnvironmentState(observation: WorkspaceObservation, current: seq<Row>, staleCount: int)

  /** The dictionary of state(): the keys seen, in insertion order, and the last row of each. */
  ghost predicate Latest(rows: seq<Row>, keys: seq<(string, string)>, latest: map<(string, string), Row>) {
    && Distinct(keys) && (forall key :: key in latest <==> key in keys)
    && (forall key :: key in latest ==>
          exists i :: LastOfKey(rows, i) && rows[i] == latest[key] && KeyOf(rows[i]) == key)
    && forall i :: 0 <= i < |rows| ==> KeyOf(rows[i]) in latest
  }

  /** state: the newest rows of the current environment, and how many rows are stale. */
  method State(obs: seq<WorkspaceObservation>, log: seq<Row>, workspace: string) returns (r: Option<EnvironmentState>)
    ensures r.None? <==> Current(obs, workspace).None?
    ensures r.Some? ==>
      && Current(obs, workspace) == Some(r.value.observation)
      && Newest(CurrentRows(log, workspace, r.value.observation), r.value.current)
      && r.value.staleCount
         == |Collect(OfWorkspace(workspace), log)| - |CurrentRows(log, workspace, r.value.observation)|
  {
    var o := Current(obs, workspace);
    if o.None? {
      return None;
    }
    var history := Collect(OfWorkspace(workspace), log);
    var rows := Collect(OfEnvironment(o.value), history);
    hide Latest, Newest, Collect;
    var keys, latest := LatestRows(rows);
    var current := InKeyOrder(rows, keys, latest);
    return Some(EnvironmentState(o.value, current, |history| - |rows|));
  }

  method LatestRows(rows: seq<Row>) returns (keys: seq<(string, string)>, latest: map<(string, string), Row>)
    ensures Latest(rows, keys, latest)
  {
    keys, latest := [], map[];
    for n := 0 to |rows|
      invariant Latest(rows[..n], keys, latest)
    {
      var row := rows[n];
      assert rows[..n + 1] == rows[..n] + [row];
      LatestMore(rows[..n], row, keys, latest);
      if KeyOf(row) !in latest {
        keys := keys + [KeyOf(row)];
      }
      latest := latest[KeyOf(row) := row];
    }
    assert rows[..|rows|] == rows;
  }

  lemma LatestMore(rows: seq<Row>, row: Row, keys: seq<(string, string)>, latest: map<(string, string), Row>)
    requires Latest(rows, keys, latest)
    ensures Latest(rows + [row], if KeyOf(row) in latest then keys else keys + [KeyOf(row)], latest[KeyOf(row) := row])
  {
    var rows', latest' := rows + [row], latest[KeyOf(row) := row];
    assert forall i :: 0 <= i < |rows| ==> rows'[i] == rows[i];
    forall key | key in latest'
      ensures exists i :: LastOfKey(rows', i) && rows'[i] == latest'[key] && KeyOf(rows'[i]) == key
    {
      if key == KeyOf(row) {
        assert LastOfKey(rows', |rows|);
      } else {
        var i :| LastOfKey(rows, i) && rows[i] == latest[key] && KeyOf(rows[i]) == key;
        assert LastOfKey(rows', i);
      }
    }
  }

  lemma KeyOrder(keys: seq<(string, string)>)
    ensures Transitive(KeyLeq) && Total(KeyLeq)
    ensures forall a, b :: KeyLeq(a, b) && KeyLeq(b, a) ==> a == b
  {
    TextOrder([]);
    forall a, b | TextLeq(a, b) && TextLeq(b, a) ensures a == b {
      TextLeqAntisymmetric(a, b);
    }
    hide TextLeq;
  }

  /** latest[key] for key in sorted(latest). */
  method InKeyOrder(rows: seq<Row>, keys: seq<(string, string)>, latest: map<(string, string), Row>)
    returns (current: seq<Row>)
    requires Latest(rows, keys, latest)
    ensures Newest(rows, current)
  {
    hide Sort, KeyLeq, Distinct;
    var sorted := Sort(KeyLeq, keys);
    KeyOrder(keys);
    SortSorts(KeyLeq, keys);
    SameMembers(sorted, keys);
    SortedDistinct(keys);
    current := [];
    for n := 0 to |sorted|
      invariant |current| == n
      invariant forall a :: 0 <= a < n ==> sorted[a] in latest && current[a] == latest[sorted[a]]
    {
      assert sorted[n] in keys;
      current := current + [latest[sorted[n]]];
    }
    NewestFromSorted(rows, keys, latest, sorted, current);
  }

  lemma LatestRow(rows: seq<Row>, keys: seq<(string, string)>, latest: map<(string, string), Row>,
                  key: (string, string))
    returns (i: nat)
    requires Latest(rows, keys, latest) && key in latest
    ensures LastOfKey(rows, i) && rows[i] == latest[key] && KeyOf(rows[i]) == key
  {
    i :| LastOfKey(rows, i) && rows[i] == latest[key] && KeyOf(rows[i]) == key;
  }

  lemma NewestFromSorted(rows: seq<Row>, keys: seq<(string, string)>, latest: map<(string, string), Row>,
                         sorted: seq<(string, string)>, current: seq<Row>)
    requires Latest(rows, keys, latest) && SortedBy(KeyLeq, sorted) && Distinct(sorted)
    requires (forall key :: key in sorted <==> key in keys) && |current| == |sorted|
    requires forall a :: 0 <= a < |sorted| ==> sorted[a] in latest && current[a] == latest[sorted[a]]
    ensures Newest(rows, current)
  {
    forall a | 0 <= a < |current| ensures KeyOf(current[a]) == sorted[a] && IsNewest(rows, current[a]) {
      var i := LatestRow(rows, keys, latest, sorted[a]);
    }
    forall i | 0 <= i < |rows| ensures HasKey(current, KeyOf(rows[i])) {
      assert KeyOf(rows[i]) in sorted;
      var a :| 0 <= a < |sorted| && sorted[a] == KeyOf(rows[i]);
      assert KeyOf(current[a]) == KeyOf(rows[i]);
    }
    forall a, b | 0 <= a < b < |current|
      ensures KeyLeq(KeyOf(current[a]), KeyOf(current[b])) && KeyOf(current[a]) != KeyOf(current[b])
    {
      assert KeyLeq(sorted[a], sorted[b]);
    }
  }

  lemma SortedDistinct(keys: seq<(string, string)>)
    requires Distinct(keys)
    ensures Distinct(Sort(KeyLeq, keys))
  {
    hide Sort;
    SameMembers(Sort(KeyLeq, keys), keys);
    DistinctCount(keys);
    DistinctCount(Sort(KeyLeq, keys));
    assert Elements(Sort(KeyLeq, keys)) == Elements(keys);
  }

  lemma {:induction false} FilteredRowsOrdered(log: seq<Row>, pick: Row -> Option<Row>)
    requires Ordered(log) && forall r :: pick(r).Some? ==> pick(r) == Some(r)
    ensures Ordered(Collect(pick, log))
  {
    if log != [] {
      var rest, last := log[..|log| - 1], log[|log| - 1];
      PrefixOrdered(log, |rest|);
      FilteredRowsOrdered(rest, pick);
      if pick(last).Some? {
        CollectMembers(pick, rest);
        var kept := Collect(pick, rest);
        forall i | 0 <= i < |kept|
          ensures (FactKey(kept[i]) == FactKey(last) ==> kept[i].observedAt <= last.observedAt)
          ensures (RouteKey(kept[i]) == RouteKey(last) ==> kept[i].kind == last.kind)
        {
          assert kept[i] in kept;
          var k :| 0 <= k < |rest| && rest[k] == kept[i];
          assert log[k] == kept[i] && log[|rest|] == last;
        }
        hide FactKey, RouteKey, Collect;
      }
    }
  }

  lemma CurrentRowsShareEnvironment(log: seq<Row>, workspace: string, o: WorkspaceObservation)
    ensures forall r :: r in CurrentRows(log, workspace, o) ==>
      r.observation == o.id && r.workspace == workspace && r in log
  {
    CollectMembers(OfWorkspace(workspace), log);
    CollectMembers(OfEnvironment(o), Collect(OfWorkspace(workspace), log));
    hide Collect;
  }

  /** On a valid log the row shown for a (capability, route) carries the latest observation time of its fact. */
  lemma NewestCarriesTheLatestTime(log: seq<Row>, workspace: string, o: WorkspaceObservation, current: seq<Row>,
                                   a: nat, r: Row)
    requires Ordered(log) && Newest(CurrentRows(log, workspace, o), current) && a < |current|
    requires r in CurrentRows(log, workspace, o) && KeyOf(r) == KeyOf(current[a])
    ensures r.observedAt <= current[a].observedAt && r.kind == current[a].kind
  {
    var rows := CurrentRows(log, workspace, o);
    FilteredRowsOrdered(log, OfWorkspace(workspace));
    FilteredRowsOrdered(Collect(OfWorkspace(workspace), log), OfEnvironment(o));
    CurrentRowsShareEnvironment(log, workspace, o);
    hide Collect, CurrentRows;
    var i :| LastOfKey(rows, i) && rows[i] == current[a];
    var j :| 0 <= j < |rows| && rows[j] == r;
    assert j <= i;
    if j < i {
      assert FactKey(rows[j]) == FactKey(rows[i]);
    }
  }

  /** The derived list is determined by the log: any two lists with the newest rows in key order are equal. */
  lemma {:induction false} NewestIsUnique(rows: seq<Row>, xs: seq<Row>, ys: seq<Row>)
    requires Newest(rows, xs) && Newest(rows, ys)
    ensures xs == ys
  {
    SameRowForKey(rows, xs, ys);
    SameRowForKey(rows, ys, xs);
    RowsSeparated(rows, xs);
    KeyOrder([]);
    NewestSorted(rows, xs);
    NewestSorted(rows, ys);
    assert multiset(xs) == multiset(ys) by {
      DistinctMultisets(xs, ys);
    }
    hide Newest, KeyLeq;
    SortedIsUnique(RowLeq, xs, ys);
  }

  predicate RowLeq(a: Row, b: Row) {
    KeyLeq(KeyOf(a), KeyOf(b))
  }

  lemma NewestSorted(rows: seq<Row>, xs: seq<Row>)
    requires Newest(rows, xs)
    ensures SortedBy(RowLeq, xs) && Distinct(xs) && Total(RowLeq)
  {
    KeyOrder([]);
    hide KeyLeq;
  }

  lemma SameRowForKey(rows: seq<Row>, xs: seq<Row>, ys: seq<Row>)
    requires Newest(rows, xs) && Newest(rows, ys)
    ensures forall x :: x in xs ==> x in ys
  {
    hide KeyLeq, KeyOf, IsNewest;
    forall x | x in xs ensures x in ys {
      var a :| 0 <= a < |xs| && xs[a] == x;
      NewestOfItsKey(rows, x);
      var i :| 0 <= i < |rows| && rows[i] == x;
      assert HasKey(ys, KeyOf(rows[i]));
      var b :| 0 <= b < |ys| && KeyOf(ys[b]) == KeyOf(rows[i]);
      NewestOfItsKey(rows, ys[b]);
      OneNewestPerKey(rows, x, ys[b]);
    }
  }

  lemma NewestOfItsKey(rows: seq<Row>, r: Row)
    requires IsNewest(rows, r)
    ensures r in rows
  {
  }

  lemma OneNewestPerKey(rows: seq<Row>, r: Row, s: Row)
    requires IsNewest(rows, r) && IsNewest(rows, s) && KeyOf(r) == KeyOf(s)
    ensures r == s
  {
    hide KeyOf;
    var i :| LastOfKey(rows, i) && rows[i] == r;
    var j :| LastOfKey(rows, j) && rows[j] == s;
    assert !(i < j) && !(j < i);
  }

  lemma RowsSeparated(rows: seq<Row>, xs: seq<Row>)
    requires Newest(rows, xs)
    ensures Separated(RowLeq, xs)
  {
    KeyOrder([]);
    hide KeyLeq, KeyOf;
    forall x, y | x in xs && y in xs && RowLeq(x, y) && RowLeq(y, x) ensures x == y {
      var a :| 0 <= a < |xs| && xs[a] == x;
      var b :| 0 <= b < |xs| && xs[b] == y;
      assert a == b;
    }
  }

  lemma DistinctMultisets(xs: seq<Row>, ys: seq<Row>)
    requires Distinct(xs) && Distinct(ys) && forall x :: x in xs <==> x in ys
    ensures multiset(xs) == multiset(ys)
  {
    DistinctMultiset(xs);
    DistinctMultiset(ys);
    assert Elements(xs) == Elements(ys);
  }

  // ----- What the resolver is given

  const NUL: char := '\0'

  function KindText(kind: RouteKind): string {
    match kind
    case HostNative => "HOST_NATIVE"
    case N0teNative => "N0TE_NATIVE"
    case OwnedTool => "OWNED_TOOL"
    case Provider => "PROVIDER"
    case Guided => "GUIDED"
  }

  /** The text whose hash is the candidate id; hashing is taken to be injective. */
  function RouteDigest(r: Row): string {
    KindText(r.kind) + [NUL] + (r.route + [NUL] + r.capability)
  }

  /** to_candidate; None is a clock that predates the observation. */
  function ToCandidate(r: Row, now: int): Option<Candidate> {
    if now < 0 || now < r.observedAt then None
    else Some(Candidate(RouteDigest(r), r.kind, r.capability, r.displayName, r.brand, r.availability != Unknown,
                        r.availability != Unavailable, r.evidenceRef, Some(now - r.observedAt), r.merits, r.paid))
  }

  lemma {:induction false} SplitsAtNul(a: string, b: string, a': string, b': string)
    requires NUL !in a && NUL !in a' && a + [NUL] + b == a' + [NUL] + b'
    ensures a == a' && b == b'
  {
    var s, s' := a + [NUL] + b, a' + [NUL] + b';
    assert s[|a|] == NUL && s'[|a'|] == NUL;
    assert forall i :: 0 <= i < |a| ==> s[i] == a[i];
    assert forall i :: 0 <= i < |a'| ==> s'[i] == a'[i];
    assert |a| == |a'|;
    assert a == s[..|a|] && b == s[|a| + 1..] && b' == s'[|a'| + 1..];
  }

  lemma KindTextsDiffer(a: RouteKind, b: RouteKind)
    ensures NUL !in KindText(a) && (KindText(a) == KindText(b) ==> a == b)
  {
    assert KindText(HostNative)[0] == 'H' && KindText(N0teNative)[0] == 'N' && KindText(OwnedTool)[0] == 'O'
      && KindText(Provider)[0] == 'P' && KindText(Guided)[0] == 'G';
  }

  /** Routes without a NUL character get the same candidate id exactly when they agree in kind, id and
      capability; a NUL inside a route id can imitate the separator. */
  lemma CandidateIdsIdentify(r: Row, s: Row)
    requires NUL !in r.route && NUL !in s.route
    ensures RouteDigest(r) == RouteDigest(s) <==> r.kind == s.kind && r.route == s.route && r.capability == s.capability
  {
    KindTextsDiffer(r.kind, s.kind);
    KindTextsDiffer(s.kind, r.kind);
    hide KindText;
    if RouteDigest(r) == RouteDigest(s) {
      SplitsAtNul(KindText(r.kind), r.route + [NUL] + r.capability, KindText(s.kind), s.route + [NUL] + s.capability);
      SplitsAtNul(r.route, r.capability, s.route, s.capability);
    }
  }

  /** A route's id also names another route exactly when the route id holds a NUL behind its first
      character or the capability holds one before its last. */
  lemma AmbiguousExactly(r: Row)
    requires r.route != "" && r.capability != ""
    ensures (exists s: Row :: SharesId(r, s)) <==>
      || (exists k :: 0 < k < |r.route| && r.route[k] == NUL)
      || (exists k :: 0 <= k < |r.capability| - 1 && r.capability[k] == NUL)
  {
    if k :| 0 < k < |r.route| && r.route[k] == NUL {
      var s := r.(route := r.route[..k], capability := r.route[k + 1..] + [NUL] + r.capability);
      assert r.route == r.route[..k] + [NUL] + r.route[k + 1..];
      assert s.route + [NUL] + s.capability == r.route + [NUL] + r.capability;
      assert SharesId(r, s);
    }
    if k :| 0 <= k < |r.capability| - 1 && r.capability[k] == NUL {
      var s := r.(route := r.route + [NUL] + r.capability[..k], capability := r.capability[k + 1..]);
      assert r.capability == r.capability[..k] + [NUL] + r.capability[k + 1..];
      assert s.route + [NUL] + s.capability == r.route + [NUL] + r.capability;
      assert SharesId(r, s);
    }
    if s: Row :| SharesId(r, s) {
      OtherSplit(r, s);
    }
  }

  /** Two named routes with one id. */
  predicate SharesId(r: Row, s: Row) {
    && s.route != "" && s.capability != "" && (s.kind, s.route, s.capability) != (r.kind, r.route, r.capability)
    && RouteDigest(r) == RouteDigest(s)
  }

  lemma OtherSplit(r: Row, s: Row)
    requires r.route != "" && r.capability != "" && SharesId(r, s)
    ensures
      || (exists k :: 0 < k < |r.route| && r.route[k] == NUL)
      || (exists k :: 0 <= k < |r.capability| - 1 && r.capability[k] == NUL)
  {
    var text, text' := r.route + [NUL] + r.capability, s.route + [NUL] + s.capability;
    KindTextsDiffer(r.kind, s.kind);
    KindTextsDiffer(s.kind, r.kind);
    assert RouteDigest(r) == KindText(r.kind) + [NUL] + text;
    assert RouteDigest(s) == KindText(s.kind) + [NUL] + text';
    hide KindText, RouteDigest;
    SplitsAtNul(KindText(r.kind), text, KindText(s.kind), text');
    assert r.kind == s.kind && text == text';
    var k := |s.route|;
    assert text'[k] == NUL;
    if k < |r.route| {
      assert r.route[k] == text[k];
    } else if k > |r.route| {
      assert r.capability[k - |r.route| - 1] == text[k];
    } else {
      SameCut(r.route, s.route, r.capability, s.capability);
    }
  }

  lemma SameCut(a: string, a': string, b: string, b': string)
    requires |a| == |a'| && a + [NUL] + b == a' + [NUL] + b'
    ensures a == a' && b == b'
  {
    var s, s' := a + [NUL] + b, a' + [NUL] + b';
    assert a == s[..|a|] && a' == s'[..|a|] && b == s[|a| + 1..] && b' == s'[|a| + 1..];
  }

  /** Two routes of one environment with one id, which the resolver refuses together. */
  lemma TwoRoutesOneId(r: Row, s: Row, now: nat)
    requires r.route == "a\0b" && r.capability == "c" && s == r.(route := "a", capability := "b\0c")
    requires r.observedAt <= now
    ensures FactKey(r) != FactKey(s) && SharesId(r, s)
    ensures ToCandidate(r, now).Some? && ToCandidate(s, now).Some?
    ensures !UniqueIds([ToCandidate(r, now).value, ToCandidate(s, now).value])
  {
    assert "a\0b"[1] == NUL && |"a\0b"| != |"a"|;
    assert r.route + [NUL] + r.capability == s.route + [NUL] + s.capability;
    var pair := [ToCandidate(r, now).value, ToCandidate(s, now).value];
    IdsByIndex(pair);
    assert Ids(pair)[0] == pair[0].id && Ids(pair)[1] == pair[1].id;
    assert pair[0].id == RouteDigest(r) && pair[1].id == RouteDigest(s);
  }

  /** One text of route id and capability read two ways: r's id reaches over the separator into what s calls its
      capability. */
  ghost predicate Straddles(r: Row, s: Row) {
    exists x: string :: r.route == s.route + [NUL] + x && s.capability == x + [NUL] + r.capability
  }

  ghost predicate Confusable(r: Row, s: Row) {
    r.kind == s.kind && (Straddles(r, s) || Straddles(s, r))
  }

  /** Two different routes share a candidate id exactly when they are of one kind and one's id straddles the
      other's separator. */
  lemma SharedIdsExactly(r: Row, s: Row)
    requires KeyOf(r) != KeyOf(s)
    ensures RouteDigest(r) == RouteDigest(s) <==> Confusable(r, s)
  {
    KindTextsDiffer(r.kind, s.kind);
    KindTextsDiffer(s.kind, r.kind);
    hide KindText;
    if RouteDigest(r) == RouteDigest(s) {
      SplitsAtNul(KindText(r.kind), r.route + [NUL] + r.capability, KindText(s.kind), s.route + [NUL] + s.capability);
      if |r.route| == |s.route| {
        SameCut(r.route, s.route, r.capability, s.capability);
        assert false;
      } else if |r.route| > |s.route| {
        LongerStraddles(r, s);
      } else {
        LongerStraddles(s, r);
      }
    }
    if Confusable(r, s) {
      if Straddles(r, s) {
        StraddlersAgree(r, s);
      } else {
        StraddlersAgree(s, r);
      }
    }
  }

  lemma LongerStraddles(r: Row, s: Row)
    requires r.route + [NUL] + r.capability == s.route + [NUL] + s.capability && |r.route| > |s.route|
    ensures Straddles(r, s)
  {
    var text, m, n := r.route + [NUL] + r.capability, |s.route|, |r.route|;
    var x := r.route[m + 1..];
    assert r.route == text[..n] && r.capability == text[n + 1..];
    assert s.route == text[..m] && s.capability == text[m + 1..];
    assert text[m] == NUL && text[n] == NUL;
    assert r.route == s.route + [NUL] + x;
    assert s.capability == x + [NUL] + r.capability;
  }

  lemma StraddlersAgree(r: Row, s: Row)
    requires Straddles(r, s)
    ensures r.route + [NUL] + r.capability == s.route + [NUL] + s.capability
  {
    var x: string :| r.route == s.route + [NUL] + x && s.capability == x + [NUL] + r.capability;
    assert s.route + [NUL] + x + [NUL] + r.capability == s.route + [NUL] + (x + [NUL] + r.capability);
  }

  /** The candidates derived from an environment have distinct ids, so that the resolver does not refuse them,
      exactly when no two of its routes are confusable; without a NUL in a route id none are. */
  lemma ProfileIdsAreUnique(rows: seq<Row>, current: seq<Row>, now: int, candidates: seq<Candidate>)
    requires Newest(rows, current) && |candidates| == |current|
    requires forall i :: 0 <= i < |current| ==> ToCandidate(current[i], now) == Some(candidates[i])
    ensures UniqueIds(candidates) <==> forall i, j :: 0 <= i < j < |current| ==> !Confusable(current[i], current[j])
    ensures (forall i :: 0 <= i < |current| ==> NUL !in current[i].route) ==> UniqueIds(candidates)
  {
    hide Confusable, KeyLeq, RouteDigest, IsNewest, HasKey;
    IdsByIndex(candidates);
    forall i, j | 0 <= i < j < |current|
      ensures candidates[i].id == candidates[j].id <==> Confusable(current[i], current[j])
      ensures NUL !in current[i].route && NUL !in current[j].route ==> candidates[i].id != candidates[j].id
    {
      SharedIdsExactly(current[i], current[j]);
      if NUL !in current[i].route && NUL !in current[j].route {
        CandidateIdsIdentify(current[i], current[j]);
      }
    }
  }

  // ----- Every reachable log

  datatype Step = Recording(request: Request, newId: string) | Observing(observation: WorkspaceObservation)

  datatype World = World(obs: seq<WorkspaceObservation>, log: seq<Row>)

  /** Observation ids are fresh uuids, as are evidence ids. */
  predicate Allowed(w: World, step: Step) {
    match step
    case Recording(_, id) => id != "" && forall i :: 0 <= i < |w.log| ==> w.log[i].id != id
    case Observing(o) =>
      && o.id != "" && o.workspace != "" && o.runtime != ""
      && forall i :: 0 <= i < |w.obs| ==> w.obs[i].id != o.id
  }

  function Apply(w: World, step: Step): World {
    match step
    case Recording(q, id) => w.(log := Record(w.obs, w.log, q, id).0)
    case Observing(o) => w.(obs := w.obs + [o])
  }

  function Run(steps: seq<Step>): World {
    if steps == [] then World([], []) else Apply(Run(steps[..|steps| - 1]), steps[|steps| - 1])
  }

  predicate AllowedRun(steps: seq<Step>) {
    steps == [] || (AllowedRun(steps[..|steps| - 1]) && Allowed(Run(steps[..|steps| - 1]), steps[|steps| - 1]))
  }

  predicate ObservationsOk(obs: seq<WorkspaceObservation>) {
    && (forall i :: 0 <= i < |obs| ==> obs[i].id != "" && obs[i].workspace != "" && obs[i].runtime != "")
    && forall i, j :: 0 <= i < j < |obs| ==> obs[i].id != obs[j].id
  }

  lemma {:induction false} FindById(obs: seq<WorkspaceObservation>, i: nat)
    requires ObservationsOk(obs) && i < |obs|
    ensures Find(ObservationId, obs, obs[i].id) == Some(i)
  {
    var found := Find(ObservationId, obs, obs[i].id).value;
    assert found < i || found == i || found > i;
  }

  lemma RecordedRowIsOk(w: World, q: Request, id: string)
    requires ObservationsOk(w.obs) && id != "" && Record(w.obs, w.log, q, id).1.Success?
    ensures RowOk(w.obs, Record(w.obs, w.log, q, id).1.value)
    ensures Record(w.obs, w.log, q, id).0 == w.log + [Record(w.obs, w.log, q, id).1.value]
    ensures Follows(w.log, Record(w.obs, w.log, q, id).1.value)
  {
    hide MayInsert, LastFact, LastRoute, FactKey, RouteKey;
    var o := Current(w.obs, q.workspace).value;
    var i :| 0 <= i < |w.obs| && w.obs[i] == o;
    FindById(w.obs, i);
  }

  lemma ObservingKeeps(obs: seq<WorkspaceObservation>, o: WorkspaceObservation, r: Row)
    requires RowOk(obs, r) && ObservationsOk(obs + [o]) && ObservationsOk(obs)
    ensures RowOk(obs + [o], r)
  {
    var i := Find(ObservationId, obs, r.observation).value;
    assert (obs + [o])[i] == obs[i];
    FindById(obs + [o], i);
  }

  /** Every reachable log passes the loader, and no recording is ever refused by a trigger. */
  lemma {:induction false} ReachableLogsLoad(steps: seq<Step>)
    requires AllowedRun(steps)
    ensures var w := Run(steps); ObservationsOk(w.obs) && ValidLog(w.obs, w.log)
  {
    hide RowOk, Ordered, Record, Follows;
    if steps == [] {
      NothingRemembered();
    } else {
      var rest, last := steps[..|steps| - 1], steps[|steps| - 1];
      ReachableLogsLoad(rest);
      var w := Run(rest);
      match last
      case Recording(q, id) =>
        if Record(w.obs, w.log, q, id).1.Success? {
          RecordedRowIsOk(w, q, id);
          OrderedMore(w.log, Record(w.obs, w.log, q, id).1.value);
        } else {
          FailureKeepsLog(w, q, id);
        }
      case Observing(o) =>
        forall i | 0 <= i < |w.log| ensures RowOk(w.obs + [o], w.log[i]) {
          ObservingKeeps(w.obs, o, w.log[i]);
        }
    }
  }

  lemma FailureKeepsLog(w: World, q: Request, id: string)
    ensures Record(w.obs, w.log, q, id).1.Failure? ==> Record(w.obs, w.log, q, id).0 == w.log
  {
    hide MayInsert, RequestOk, LastFact, LastRoute;
  }

  /** On reachable logs no insert that passed the checks of record is refused by a trigger. */
  lemma ChecksCoverTriggers(steps: seq<Step>, q: Request, id: string)
    requires AllowedRun(steps) && Allowed(Run(steps), Recording(q, id))
    ensures var w := Run(steps); Record(w.obs, w.log, q, id).1 != Failure(WriteRefused)
  {
    ReachableLogsLoad(steps);
    hide Run, AllowedRun;
    var w := Run(steps);
    var o := Current(w.obs, q.workspace);
    if o.Some? && RequestOk(q) {
      LastRowIsEnough(w.obs, w.log, NewRow(q, o.value, id));
      hide MayInsert, FactKey, RouteKey, LastFact, LastRoute, RequestOk;
    }
  }
}
