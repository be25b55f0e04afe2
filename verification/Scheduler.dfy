/** Runs that close only what the scheduler calls eligible never get stuck and finish (governance/model.py,
    governance/closeout.py). */
module Scheduler {
  import opened Prelude
  import opened DependencySearch
  import opened ConstructionProgram

  predicate SameButClosed(p: Package, p': Package, w: string) {
    && p'.workId == p.workId && p'.paths == p.paths
    && p'.requirements == p.requirements && p'.dependencies == p.dependencies
    && p'.state == if p.workId == w then Complete else p.state
  }

  /** Package w became COMPLETE and nothing a scheduler looks at changed otherwise. */
  predicate ClosedOne(ps: seq<Package>, ps': seq<Package>, w: string) {
    |ps| == |ps'| && forall i :: 0 <= i < |ps| ==> SameButClosed(ps[i], ps'[i], w)
  }

  function CountActive(ps: seq<Package>): nat {
    if ps == [] then 0
    else CountActive(ps[..|ps| - 1]) + (if ps[|ps| - 1].state == Active then 1 else 0)
  }

  predicate OnlyActiveOrComplete(ps: seq<Package>) {
    forall i :: 0 <= i < |ps| ==> ps[i].state == Active || ps[i].state == Complete
  }

  predicate DisjointWork(ps: seq<Package>) {
    forall i, j :: 0 <= i < |ps| && 0 <= j < |ps| && i != j && ps[i].state == ps[j].state == Active ==>
      !Overlap(ps[i].paths, ps[j].paths)
  }

  predicate Unhit(ps: seq<Package>, incidents: seq<Incident>) {
    forall i, k :: 0 <= i < |ps| && ps[i].state == Active && 0 <= k < |incidents| ==> !Hits(incidents[k], ps[i])
  }

  predicate WellFormed(incidents: seq<Incident>) {
    forall k :: 0 <= k < |incidents| ==> !Malformed(incidents[k])
  }

  /** A program the scheduler can finish: acyclic, only active and complete packages, no two active
      packages on one path, no malformed open incident and none on an active package. */
  ghost predicate Ready(ps: seq<Package>, incidents: seq<Incident>) {
    && DistinctIds(ps) && DependenciesOk(ps) && Acyclic(GraphOf(ps))
    && OnlyActiveOrComplete(ps) && DisjointWork(ps) && Unhit(ps, incidents) && WellFormed(incidents)
  }

  /** Completed packages depend only on completed packages. */
  predicate DependencyClosed(ps: seq<Package>) {
    forall p, d :: p in ps && p.state == Complete && d in p.dependencies ==>
      HasId(ps, d) && Lookup(ps, d).state == Complete
  }

  predicate DependenciesDone(ps: seq<Package>, w: string)
    requires HasId(ps, w)
  {
    forall d :: d in Lookup(ps, w).dependencies ==> HasId(ps, d) && Lookup(ps, d).state == Complete
  }

  /** Following unfinished dependencies from an active package ends at one that has none left. */
  lemma RunnableFrom(ps: seq<Package>, walk: seq<string>) returns (w: string)
    requires DistinctIds(ps) && DependenciesOk(ps) && Acyclic(GraphOf(ps))
    requires OnlyActiveOrComplete(ps)
    requires walk != [] && StackOk(GraphOf(ps), walk)
    requires forall k :: 0 <= k < |walk| ==> HasId(ps, walk[k]) && Lookup(ps, walk[k]).state == Active
    ensures HasId(ps, w) && Lookup(ps, w).state == Active && DependenciesDone(ps, w)
    decreases IdSet(ps) - Elements(walk)
  {
    hide Acyclic, DependenciesOk, StackOk, DependenciesDone, GraphOf, OnlyActiveOrComplete;
    var g := GraphOf(ps);
    w := walk[|walk| - 1];
    if !DependenciesDone(ps, w) {
      var d := UnfinishedDependency(ps, w);
      NeverMetTwice(g, walk, d);
      Push(g, walk, d);
      w := RunnableFrom(ps, walk + [d]);
    }
  }

  lemma UnfinishedDependency(ps: seq<Package>, w: string) returns (d: string)
    requires DependenciesOk(ps) && OnlyActiveOrComplete(ps) && HasId(ps, w) && !DependenciesDone(ps, w)
    ensures Edge(GraphOf(ps), w, d) && d in GraphOf(ps) && d in IdSet(ps)
    ensures HasId(ps, d) && Lookup(ps, d).state == Active
  {
    var p := Lookup(ps, w);
    d :| d in p.dependencies && !(HasId(ps, d) && Lookup(ps, d).state == Complete);
    DependencyIsKnown(ps, p, d);
  }

  lemma NeverMetTwice(g: Graph, walk: seq<string>, d: string)
    requires Acyclic(g) && StackOk(g, walk) && Follows(g, walk, d)
    ensures d !in walk
  {
    if d in walk {
      StackClosesCycle(g, walk, d);
    }
  }

  lemma DependencyIsKnown(ps: seq<Package>, p: Package, d: string)
    requires DependenciesOk(ps) && p in ps && d in p.dependencies
    ensures HasId(ps, d)
  {
    var i :| 0 <= i < |ps| && ps[i] == p;
    var k :| 0 <= k < |p.dependencies| && p.dependencies[k] == d;
  }

  /** A ready program evaluates. */
  lemma ReadyEvaluates(program: Program, incidents: seq<Incident>)
    requires ValidProgram(program) && Ready(program.packages, incidents)
    ensures CanEvaluate(program, incidents)
  {
    forall incident | incident in incidents ensures !Malformed(incident) {
      var k :| 0 <= k < |incidents| && incidents[k] == incident;
    }
  }

  /** As long as a ready program has active work, some package is eligible. */
  lemma NeverStuck(ps: seq<Package>, incidents: seq<Incident>)
    requires Ready(ps, incidents)
    ensures CountActive(ps) > 0 <==> exists w :: Eligible(ps, incidents, w)
  {
    CountsMembers(ps);
    if CountActive(ps) > 0 {
      var p :| p in ps && p.state == Active;
      MemberLookup(ps, p);
      var w := RunnableFrom(ps, [p.workId]);
      RunnableIsEligible(ps, incidents, w);
    }
  }

  lemma RunnableIsEligible(ps: seq<Package>, incidents: seq<Incident>, w: string)
    requires DistinctIds(ps) && DisjointWork(ps) && Unhit(ps, incidents)
    requires HasId(ps, w) && Lookup(ps, w).state == Active && DependenciesDone(ps, w)
    ensures Eligible(ps, incidents, w)
  {
    var p := Lookup(ps, w);
    var i :| 0 <= i < |ps| && ps[i] == p;
    forall q | q in ps && q.state == Active && q.workId != w ensures !Overlap(p.paths, q.paths) {
      var j :| 0 <= j < |ps| && ps[j] == q;
    }
    forall incident | incident in incidents ensures !Hits(incident, p) {
      var k :| 0 <= k < |incidents| && incidents[k] == incident;
      assert !Hits(incidents[k], ps[i]);
    }
  }

  lemma {:induction false} CountsMembers(ps: seq<Package>)
    ensures CountActive(ps) > 0 <==> exists p :: p in ps && p.state == Active
  {
    if ps != [] {
      CountsMembers(ps[..|ps| - 1]);
      assert ps == ps[..|ps| - 1] + [ps[|ps| - 1]];
    }
  }

  // ----- One closing

  lemma ClosedLookup(ps: seq<Package>, ps': seq<Package>, w: string, x: string)
    requires DistinctIds(ps) && ClosedOne(ps, ps', w)
    ensures DistinctIds(ps')
    ensures HasId(ps', x) <==> HasId(ps, x)
    ensures HasId(ps, x) ==>
      && Lookup(ps', x).dependencies == Lookup(ps, x).dependencies
      && Lookup(ps', x).state == if x == w then Complete else Lookup(ps, x).state
  {
    if HasId(ps, x) {
      var i :| 0 <= i < |ps| && ps[i].workId == x;
      LookupIs(ps, i);
      LookupIs(ps', i);
    }
  }

  lemma ClosingKeepsIds(ps: seq<Package>, ps': seq<Package>, w: string)
    requires DistinctIds(ps) && ClosedOne(ps, ps', w)
    ensures DistinctIds(ps') && IdSet(ps') == IdSet(ps)
  {
    assert forall i :: 0 <= i < |ps| ==> ps'[i].workId == ps[i].workId;
    forall x | x in IdSet(ps) ensures x in IdSet(ps') {
      var i :| 0 <= i < |ps| && ps[i].workId == x;
      assert ps'[i].workId == x;
    }
    forall x | x in IdSet(ps') ensures x in IdSet(ps) {
      var i :| 0 <= i < |ps'| && ps'[i].workId == x;
      assert ps[i].workId == x;
    }
  }

  lemma ClosingKeepsGraph(ps: seq<Package>, ps': seq<Package>, w: string)
    requires DistinctIds(ps) && ClosedOne(ps, ps', w)
    ensures GraphOf(ps') == GraphOf(ps)
  {
    ClosingKeepsIds(ps, ps', w);
    forall x | x in IdSet(ps) ensures GraphOf(ps')[x] == GraphOf(ps)[x] {
      var i :| 0 <= i < |ps| && ps[i].workId == x;
      ClosedLookup(ps, ps', w, x);
    }
  }

  lemma ClosingKeepsDependencies(ps: seq<Package>, ps': seq<Package>, w: string)
    requires DistinctIds(ps) && DependenciesOk(ps) && ClosedOne(ps, ps', w)
    ensures DependenciesOk(ps')
  {
    forall i, k | 0 <= i < |ps'| && 0 <= k < |ps'[i].dependencies| ensures HasId(ps', ps'[i].dependencies[k]) {
      assert SameButClosed(ps[i], ps'[i], w);
      assert HasId(ps, ps[i].dependencies[k]);
      ClosedLookup(ps, ps', w, ps[i].dependencies[k]);
    }
    forall i | 0 <= i < |ps'| ensures ps'[i].workId !in ps'[i].dependencies {
      assert SameButClosed(ps[i], ps'[i], w);
    }
  }

  /** Closing one package keeps a program ready. */
  lemma ClosingKeepsReady(ps: seq<Package>, ps': seq<Package>, incidents: seq<Incident>, w: string)
    requires Ready(ps, incidents) && ClosedOne(ps, ps', w)
    ensures Ready(ps', incidents)
  {
    ClosingKeepsIds(ps, ps', w);
    ClosingKeepsGraph(ps, ps', w);
    ClosingKeepsDependencies(ps, ps', w);
    ClosingKeepsDisjointness(ps, ps', incidents, w);
  }

  lemma ClosingKeepsDisjointness(ps: seq<Package>, ps': seq<Package>, incidents: seq<Incident>, w: string)
    requires OnlyActiveOrComplete(ps) && DisjointWork(ps) && Unhit(ps, incidents) && ClosedOne(ps, ps', w)
    ensures OnlyActiveOrComplete(ps') && DisjointWork(ps') && Unhit(ps', incidents)
  {
    assert forall i :: 0 <= i < |ps| ==> SameButClosed(ps[i], ps'[i], w);
    forall i, k | 0 <= i < |ps'| && ps'[i].state == Active && 0 <= k < |incidents| ensures !Hits(incidents[k], ps'[i]) {
      assert !Hits(incidents[k], ps[i]);
    }
  }

  /** Closing a package keeps completed work closed under dependencies exactly when everything the
      package depends on was already complete; that it was ACTIVE is not enough. */
  lemma ClosingKeepsClosure(ps: seq<Package>, ps': seq<Package>, w: string)
    requires DistinctIds(ps) && DependenciesOk(ps) && ClosedOne(ps, ps', w)
    requires HasId(ps, w) && DependencyClosed(ps)
    ensures DependencyClosed(ps') <==> DependenciesDone(ps, w)
  {
    forall x ensures HasId(ps, x) ==> HasId(ps', x) && Lookup(ps', x).dependencies == Lookup(ps, x).dependencies
                                      && Lookup(ps', x).state == if x == w then Complete else Lookup(ps, x).state
    {
      ClosedLookup(ps, ps', w, x);
    }
    NotOnItself(ps, w);
    if DependenciesDone(ps, w) {
      forall p', d | p' in ps' && p'.state == Complete && d in p'.dependencies
        ensures HasId(ps', d) && Lookup(ps', d).state == Complete
      {
        var i :| 0 <= i < |ps'| && ps'[i] == p';
        LookupIs(ps, i);
        assert ps[i] in ps;
      }
    }
    if DependencyClosed(ps') {
      forall d | d in Lookup(ps, w).dependencies ensures HasId(ps, d) && Lookup(ps, d).state == Complete {
        DependencyIsKnown(ps, Lookup(ps, w), d);
        assert Lookup(ps', w) in ps';
      }
    }
  }

  lemma NotOnItself(ps: seq<Package>, w: string)
    requires DependenciesOk(ps) && HasId(ps, w)
    ensures w !in Lookup(ps, w).dependencies
  {
    var i :| 0 <= i < |ps| && ps[i] == Lookup(ps, w);
  }

  lemma {:induction false} ClosingCounts(ps: seq<Package>, ps': seq<Package>, i: nat, n: nat)
    requires i < |ps| && n <= |ps| && DistinctIds(ps) && ClosedOne(ps, ps', ps[i].workId)
    ensures CountActive(ps'[..n]) + (if i < n && ps[i].state == Active then 1 else 0) == CountActive(ps[..n])
  {
    hide DistinctIds, ClosedOne;
    if n > 0 {
      OnlyOneCloses(ps, ps', i, n - 1);
      ClosingCounts(ps, ps', i, n - 1);
      assert ps[..n][..n - 1] == ps[..n - 1] && ps'[..n][..n - 1] == ps'[..n - 1];
    }
  }

  lemma OnlyOneCloses(ps: seq<Package>, ps': seq<Package>, i: nat, j: nat)
    requires i < |ps| && j < |ps| && DistinctIds(ps) && ClosedOne(ps, ps', ps[i].workId)
    ensures |ps'| == |ps| && ps'[j].state == if j == i then Complete else ps[j].state
  {
    assert SameButClosed(ps[j], ps'[j], ps[i].workId);
  }

  // ----- Whole runs

  ghost predicate Run(trace: seq<seq<Package>>, closes: seq<string>, incidents: seq<Incident>) {
    && |trace| == |closes| + 1
    && forall i :: 0 <= i < |closes| ==>
         Eligible(trace[i], incidents, closes[i]) && ClosedOne(trace[i], trace[i + 1], closes[i])
  }

  /** Every run from a ready program stays ready, completes one package per step, keeps completed work
      dependency-closed if it started so, and can go on exactly while active work is left. So a run that
      cannot go on has taken exactly the initial number of active packages. */
  lemma {:induction false} RunsFinish(trace: seq<seq<Package>>, closes: seq<string>, incidents: seq<Incident>)
    requires Run(trace, closes, incidents) && Ready(trace[0], incidents)
    ensures
      var last := trace[|closes|];
      && Ready(last, incidents)
      && CountActive(last) + |closes| == CountActive(trace[0])
      && (DependencyClosed(trace[0]) ==> DependencyClosed(last))
      && ((exists w :: Eligible(last, incidents, w)) <==> |closes| < CountActive(trace[0]))
  {
    if closes == [] {
      NeverStuck(trace[0], incidents);
    } else {
      var n := |closes| - 1;
      assert Run(trace[..n + 1], closes[..n], incidents);
      RunsFinish(trace[..n + 1], closes[..n], incidents);
      StepFinishes(trace[n], trace[n + 1], incidents, closes[n]);
    }
  }

  lemma StepFinishes(before: seq<Package>, after: seq<Package>, incidents: seq<Incident>, w: string)
    requires Ready(before, incidents) && Eligible(before, incidents, w) && ClosedOne(before, after, w)
    ensures Ready(after, incidents)
    ensures CountActive(after) + 1 == CountActive(before)
    ensures DependencyClosed(before) ==> DependencyClosed(after)
    ensures CountActive(after) > 0 <==> exists x :: Eligible(after, incidents, x)
  {
    hide Acyclic, DependenciesOk, DisjointWork, Unhit, Overlap, Hits, DependencyClosed, CountActive;
    ClosingKeepsReady(before, after, incidents, w);
    var i :| 0 <= i < |before| && before[i] == Lookup(before, w);
    ClosingCounts(before, after, i, |before|);
    assert before[..|before|] == before && after[..|after|] == after;
    if DependencyClosed(before) {
      ClosingKeepsClosure(before, after, w);
    }
    NeverStuck(after, incidents);
  }
}
