/** The rate-limited Ableton observer (n0te/ableton_continuous_observer.py). Times are exact reals. */
module ContinuousObserver {
  import opened Prelude

  datatype Track = Track(kind: string, index: int, name: string)

  datatype Device = Device(index: int, name: string, className: string)

  /** What a fetched Live snapshot carries; devices is None when the chain was not observed. */
  datatype Snapshot = Snapshot(
    location: string, workspace: Option<string>, runtime: string, tempo: real, playing: bool, songTime: real,
    track: Option<Track>, devices: Option<seq<Device>>)

  datatype ObservationFingerprint = ObservationFingerprint(
    location: string, workspace: Option<string>, runtime: string, tempo: real, playing: bool,
    track: Option<Track>, devices: Option<seq<Device>>)

  datatype ReferenceFingerprint = ReferenceFingerprint(location: string, runtime: string, tempoBucket: int)

  function Observed(s: Snapshot): ObservationFingerprint {
    ObservationFingerprint(s.location, s.workspace, s.runtime, s.tempo, s.playing, s.track, s.devices)
  }

  function Reference(s: Snapshot): ReferenceFingerprint {
    ReferenceFingerprint(s.location, s.runtime, (s.tempo + 0.5).Floor)
  }

  /** Song time alone never commits anything, and nothing short of a new Set, a new runtime or another whole
      beat per minute justifies another search: equal observations have equal references, and snapshots that
      share location, runtime and rounded tempo do whatever else changed. */
  lemma ReferenceIsCoarser(s: Snapshot, t: Snapshot)
    ensures Observed(s) == Observed(t) ==> Reference(s) == Reference(t)
    ensures Observed(s) == Observed(t) <==> s.(songTime := 0.0) == t.(songTime := 0.0)
    ensures Reference(s) == Reference(t) ==> -1.0 < s.tempo - t.tempo < 1.0
  {
  }

  datatype Reason = Initial | MusicalChange | Explicit | Retry

  datatype Cycle = Cycle(
    sequence: nat, snapshot: Snapshot, committed: bool, performed: bool, deferred: bool, failed: bool,
    reason: Option<Reason>, references: Option<string>)

  /** What the environment does during one poll: the fetched snapshot, if the fetch succeeds; whether recording
      it would succeed; the clock reading; and the references a search would find, if it succeeds. */
  datatype Input = Input(
    fetched: Option<Snapshot>, recordable: bool, now: real, found: Option<string>, force: bool)

  datatype State = State(
    sequence: nat, latestSnapshot: Option<Snapshot>, recorded: Option<Snapshot>,
    recordedFingerprint: Option<ObservationFingerprint>, references: Option<string>,
    lastSuccess: Option<ReferenceFingerprint>, attempted: bool, nextRetryAt: real)

  const FRESH := State(0, None, None, None, None, None, false, 0.0)

  function ReasonFor(st: State, fingerprint: ReferenceFingerprint, force: bool): Option<Reason> {
    if force then Some(Explicit)
    else if st.lastSuccess == Some(fingerprint) then None
    else if !st.attempted then Some(Initial)
    else if st.lastSuccess.None? then Some(Retry)
    else Some(MusicalChange)
  }

  predicate Commits(st: State, s: Snapshot) {
    st.recorded.None? || st.recordedFingerprint != Some(Observed(s))
  }

  /** The discovery part of a poll. */
  function Discover(retry: real, st: State, s: Snapshot, x: Input): State {
    if ReasonFor(st, Reference(s), x.force).None? || !(x.force || x.now >= st.nextRetryAt) then st
    else if x.found.None? then st.(attempted := true, nextRetryAt := x.now + retry)
    else st.(attempted := true, references := x.found, lastSuccess := Some(Reference(s)), nextRetryAt := 0.0)
  }

  /** One poll; without a cycle when fetching or recording fails. */
  function Poll(retry: real, st: State, x: Input): (State, Option<Cycle>) {
    if x.fetched.None? then (st, None)
    else
      var s := x.fetched.value;
      var seen := st.(latestSnapshot := Some(s), sequence := st.sequence + 1);
      if Commits(st, s) && !x.recordable then (seen, None)
      else
        var kept :=
          if Commits(st, s) then seen.(recorded := Some(s), recordedFingerprint := Some(Observed(s))) else seen;
        var reason := ReasonFor(st, Reference(s), x.force);
        var next := Discover(retry, kept, s, x);
        var attempt := reason.Some? && (x.force || x.now >= st.nextRetryAt);
        (next, Some(Cycle(next.sequence, s, Commits(st, s), attempt && x.found.Some?, reason.Some? && !attempt,
                          attempt && x.found.None?, reason, next.references)))
  }

  class Observer {
    const retry: real
    var sequence: nat
    var latestSnapshot: Option<Snapshot>
    var recorded: Option<Snapshot>
    var recordedFingerprint: Option<ObservationFingerprint>
    var references: Option<string>
    var lastSuccess: Option<ReferenceFingerprint>
    var attempted: bool
    var nextRetryAt: real

    constructor (retry: real)
      requires 0.0 < retry <= 3600.0
      ensures this.retry == retry && View() == FRESH
    {
      this.retry := retry;
      sequence, latestSnapshot, recorded, recordedFingerprint := 0, None, None, None;
      references, lastSuccess, attempted, nextRetryAt := None, None, false, 0.0;
    }

    ghost function View(): State
      reads this
    {
      State(sequence, latestSnapshot, recorded, recordedFingerprint, references, lastSuccess, attempted, nextRetryAt)
    }

    /** poll_once; None is any exception it raises. */
    method PollOnce(x: Input) returns (cycle: Option<Cycle>)
      modifies this
      ensures (View(), cycle) == Poll(retry, old(View()), x)
    {
      if x.fetched.None? {
        return None;
      }
      var s := x.fetched.value;
      latestSnapshot := Some(s);
      sequence := sequence + 1;
      var changed := recorded.None? || recordedFingerprint != Some(Observed(s));
      if changed {
        if !x.recordable {
          return None;
        }
        recorded := Some(s);
        recordedFingerprint := Some(Observed(s));
      }
      var fingerprint := Reference(s);
      var reason: Option<Reason>;
      if x.force {
        reason := Some(Explicit);
      } else if lastSuccess == Some(fingerprint) {
        reason := None;
      } else if !attempted {
        reason := Some(Initial);
      } else if lastSuccess.None? {
        reason := Some(Retry);
      } else {
        reason := Some(MusicalChange);
      }
      var performed, deferred, failed := false, false, false;
      if reason.Some? {
        if x.force || x.now >= nextRetryAt {
          attempted := true;
          if x.found.None? {
            failed := true;
            nextRetryAt := x.now + retry;
          } else {
            references := x.found;
            lastSuccess := Some(fingerprint);
            nextRetryAt := 0.0;
            performed := true;
          }
        } else {
          deferred := true;
        }
      }
      return Some(Cycle(sequence, s, changed, performed, deferred, failed, reason, references));
    }
  }

  // ----- Runs

  /** What the cycles of a run add up to; changes counts reference fingerprints that differ from cycle to cycle. */
  datatype Tally = Tally(
    failures: nat, successes: nat, initials: nat, forced: nat, changes: nat, last: Option<ReferenceFingerprint>)

  function Counted(t: Tally, cycle: Option<Cycle>, force: bool): Tally {
    if cycle.None? then t
    else
      var c := cycle.value;
      Tally(t.failures + (if c.failed then 1 else 0), t.successes + (if c.performed then 1 else 0),
            t.initials + (if c.reason == Some(Initial) then 1 else 0), t.forced + (if force then 1 else 0),
            t.changes + (if t.last.Some? && t.last != Some(Reference(c.snapshot)) then 1 else 0),
            Some(Reference(c.snapshot)))
  }

  function Run(retry: real, inputs: seq<Input>): (State, Tally) {
    if inputs == [] then (FRESH, Tally(0, 0, 0, 0, 0, None))
    else
      var (st, t) := Run(retry, inputs[..|inputs| - 1]);
      var last := inputs[|inputs| - 1];
      var (st', cycle) := Poll(retry, st, last);
      (st', Counted(t, cycle, last.force))
  }

  predicate ClockRuns(inputs: seq<Input>) {
    && (forall i :: 0 <= i < |inputs| ==> inputs[i].now >= 0.0)
    && (forall i, j :: 0 <= i < j < |inputs| ==> inputs[i].now <= inputs[j].now)
  }

  function Times(n: int, r: real): real {
    n as real * r
  }

  lemma OneMoreTime(n: int, r: real)
    ensures Times(n + 1, r) == Times(n, r) + r
  {
    assert (n + 1) as real == n as real + 1.0;
  }

  /** Time spent since start pays for every failure that was not forced, one retry interval each. */
  predicate FailuresPaid(retry: real, st: State, t: Tally, start: real, now: real) {
    && st.nextRetryAt <= now + retry
    && (Times(t.failures - t.forced, retry) <= now - start
        || Times(t.failures - t.forced, retry) <= st.nextRetryAt - start)
  }

  predicate SuccessesPaid(st: State, t: Tally) {
    t.successes <= t.forced + t.changes + if t.last.Some? && st.lastSuccess == t.last then 1 else 0
  }

  predicate InitialOnce(st: State, t: Tally) {
    t.initials <= 1 && (!st.attempted ==> t.initials == 0 && st.nextRetryAt == 0.0 && st.lastSuccess.None?)
  }

  lemma PollPaysFailures(retry: real, st: State, t: Tally, start: real, before: real, x: Input)
    requires retry > 0.0 && 0.0 <= start <= before <= x.now && FailuresPaid(retry, st, t, start, before)
    ensures var (st', cycle) := Poll(retry, st, x); FailuresPaid(retry, st', Counted(t, cycle, x.force), start, x.now)
  {
    hide Times, Commits, Observed, Reference;
    OneMoreTime(t.failures - t.forced, retry);
    OneMoreTime(t.failures - t.forced - 1, retry);
  }

  lemma PollPaysSuccesses(retry: real, st: State, t: Tally, x: Input)
    requires SuccessesPaid(st, t) && InitialOnce(st, t) && x.now >= 0.0
    ensures var (st', cycle) := Poll(retry, st, x);
      SuccessesPaid(st', Counted(t, cycle, x.force)) && InitialOnce(st', Counted(t, cycle, x.force))
  {
    hide Commits, Observed, Reference;
  }

  lemma {:induction false} RunPays(retry: real, inputs: seq<Input>)
    requires retry > 0.0 && ClockRuns(inputs)
    ensures var (st, t) := Run(retry, inputs); SuccessesPaid(st, t) && InitialOnce(st, t)
    ensures inputs != [] ==>
      var (st, t) := Run(retry, inputs);
      FailuresPaid(retry, st, t, inputs[0].now, inputs[|inputs| - 1].now)
  {
    hide FailuresPaid, SuccessesPaid, InitialOnce, Poll, Counted;
    if inputs == [] {
      FreshPays(retry, 0.0);
    } else {
      var rest, last := inputs[..|inputs| - 1], inputs[|inputs| - 1];
      RunPays(retry, rest);
      var (st, t) := Run(retry, rest);
      PollPaysSuccesses(retry, st, t, last);
      if rest == [] {
        FreshPays(retry, last.now);
        PollPaysFailures(retry, st, t, last.now, last.now, last);
      } else {
        assert rest[|rest| - 1].now <= last.now;
        PollPaysFailures(retry, st, t, inputs[0].now, rest[|rest| - 1].now, last);
      }
    }
  }

  lemma FreshPays(retry: real, now: real)
    requires retry > 0.0 && now >= 0.0
    ensures var t := Tally(0, 0, 0, 0, 0, None);
      SuccessesPaid(FRESH, t) && InitialOnce(FRESH, t) && FailuresPaid(retry, FRESH, t, now, now)
  {
  }

  /** From a fresh observer with a non-negative, non-decreasing clock: over a span of T seconds at most
      floor(T / retry) + 1 discoveries fail, at most one succeeds beyond the changes of the reference
      fingerprint, and INITIAL is reported at most once. Every forced poll adds at most one to either bound. */
  lemma DiscoveryIsRateLimited(retry: real, inputs: seq<Input>)
    requires retry > 0.0 && ClockRuns(inputs) && inputs != []
    ensures var t := Run(retry, inputs).1;
      && t.failures <= ((inputs[|inputs| - 1].now - inputs[0].now) / retry).Floor + 1 + t.forced
      && t.successes <= 1 + t.changes + t.forced
      && t.initials <= 1
  {
    RunPays(retry, inputs);
    hide Run, ClockRuns;
    var (st, t) := Run(retry, inputs);
    AtMostSpan(t.failures - t.forced - 1, retry, inputs[|inputs| - 1].now - inputs[0].now);
  }

  lemma AtMostSpan(n: int, retry: real, span: real)
    requires retry > 0.0
    ensures Times(n + 1, retry) <= span + retry ==> n <= (span / retry).Floor
  {
    OneMoreTime(n, retry);
    var q := span / retry;
    assert q * retry == span;
    assert (n as real - q) * retry == n as real * retry - q * retry;
    if n as real > q {
      Larger(n as real - q, retry);
    }
  }

  lemma Larger(d: real, r: real)
    requires d > 0.0 && r > 0.0
    ensures d * r > 0.0
  {
  }

  /** With a negative clock the first search is put off again and again, and INITIAL is reported each time:
      an unforced first poll leaves the observer unattempted exactly when the clock is negative. */
  lemma InitialRepeatsOnlyBeforeZero(retry: real, st: State, x: Input)
    requires !st.attempted && st.lastSuccess.None? && st.nextRetryAt == 0.0
    requires Poll(retry, st, x).1.Some? && !x.force
    ensures var (st', cycle) := Poll(retry, st, x);
      && cycle.value.reason == Some(Initial)
      && (!st'.attempted && st'.lastSuccess.None? && st'.nextRetryAt == 0.0 <==> x.now < 0.0)
      && (cycle.value.deferred <==> x.now < 0.0)
  {
  }

  /** Whenever a poll completes, the recorded observation is one of the snapshot just fetched, up to song time;
      and a snapshot that could not be recorded is offered again. */
  lemma CompletedPollsAreRecorded(retry: real, st: State, x: Input)
    requires st.recorded.Some? ==> st.recordedFingerprint == Some(Observed(st.recorded.value))
    ensures var (st', cycle) := Poll(retry, st, x);
      && (st'.recorded.Some? ==> st'.recordedFingerprint == Some(Observed(st'.recorded.value)))
      && (cycle.Some? ==>
            && st'.recorded.Some? && st'.latestSnapshot == Some(cycle.value.snapshot)
            && Observed(st'.recorded.value) == Observed(cycle.value.snapshot)
            && (cycle.value.committed <==>
                  st.recorded.None? || Observed(st.recorded.value) != Observed(cycle.value.snapshot)))
      && (cycle.None? && x.fetched.Some? ==> Commits(st', x.fetched.value))
  {
  }
}
