/** One consumer runtime session: instance lease, Headquarters and recovery (n0te/app_runtime.py). The lease
    manager and Headquarters are known by their effects; a close or a release that raises has no effect. */
module ApplicationRuntime {
  import opened Prelude

  datatype Lease = Lease(nonce: nat)

  datatype Headquarters = Headquarters(id: nat, profile: string)

  datatype Event = Acquired(lease: Lease) | Opened(hq: Headquarters) | Closed(hq: Headquarters) | Released(lease: Lease)

  datatype Phase = Stopped | Running | RecoveryRequired

  datatype Session = Session(
    phase: Phase, profile: Option<string>, process: Option<string>, lease: Option<Lease>, hq: Option<Headquarters>)

  const IDLE := Session(Stopped, None, None, None, None)

  datatype World = World(session: Session, events: seq<Event>)

  // ----- What the environment answers during one call

  datatype AcquireAnswer =
    | Takes(lease: Lease, replacedStale: bool) | AlreadyOwned(owner: Lease) | HeldByOther(holder: Lease)
    | Uncertain(unclear: Lease) | AcquireRaises

  datatype OpenAnswer = OpenRaises | Opens(hq: Headquarters)

  datatype LaunchInput = LaunchInput(
    acquire: AcquireAnswer, open: OpenAnswer, installs: bool, closes: bool, releases: bool)

  datatype QuitInput = QuitInput(closes: bool, releases: bool)

  datatype LaunchStatus =
    | Started | AlreadyRunning | ReopenExisting | OwnedElsewhere | Unclear | StartFailed | LaunchNeedsRecovery
    | LaunchRaises

  datatype LaunchResult = LaunchResult(status: LaunchStatus, lease: Option<Lease>)

  datatype QuitStatus = QuitStopped | AlreadyStopped | QuitNeedsRecovery | QuitRaises

  // ----- The calls as steps

  /** Give the lease back; a failing release leaves a session to recover, holding the lease. */
  function GiveBack(w: World, held: Session, releases: bool): (World, LaunchResult)
    requires held.lease.Some?
  {
    if releases then (w.(events := w.events + [Released(held.lease.value)]), LaunchResult(StartFailed, None))
    else (w.(session := held), LaunchResult(LaunchNeedsRecovery, held.lease))
  }

  function Launch(w: World, profile: string, process: string, x: LaunchInput): (World, LaunchResult) {
    var s := w.session;
    if profile == "" || s.phase == RecoveryRequired then (w, LaunchResult(LaunchRaises, None))
    else if s.phase == Running then
      if s.profile == Some(profile) && s.process == Some(process) then (w, LaunchResult(AlreadyRunning, s.lease))
      else (w, LaunchResult(LaunchRaises, None))
    else
      match x.acquire
      case AcquireRaises => (w, LaunchResult(LaunchRaises, None))
      case AlreadyOwned(l) => (w, LaunchResult(ReopenExisting, Some(l)))
      case HeldByOther(l) => (w, LaunchResult(OwnedElsewhere, Some(l)))
      case Uncertain(l) => (w, LaunchResult(Unclear, Some(l)))
      case Takes(lease, _) =>
        var owned := w.(events := w.events + [Acquired(lease)]);
        var held := Session(RecoveryRequired, Some(profile), Some(process), Some(lease), None);
        if x.open.OpenRaises? then GiveBack(owned, held, x.releases)
        else
          var hq := x.open.hq;
          var usable := owned.(events := owned.events + [Opened(hq)]);
          var closed := usable.(events := usable.events + [Closed(hq)]);
          if hq.profile != profile then GiveBack(if x.closes then closed else usable, held, x.releases)
          else if x.installs then
            (usable.(session := Session(Running, Some(profile), Some(process), Some(lease), Some(hq))),
             LaunchResult(Started, Some(lease)))
          else if !x.closes
          then (usable.(session := held.(hq := Some(hq))), LaunchResult(LaunchNeedsRecovery, Some(lease)))
          else GiveBack(closed, held, x.releases)
  }

  function Quit(w: World, x: QuitInput): (World, QuitStatus) {
    var s := w.session;
    if s.phase == Stopped then (w, AlreadyStopped)
    else if s.profile.None? || s.process.None? || s.lease.None? then (w, QuitRaises)
    else if s.hq.Some? && !x.closes then (w.(session := s.(phase := RecoveryRequired)), QuitNeedsRecovery)
    else
      var closed := if s.hq.Some? then World(s.(hq := None), w.events + [Closed(s.hq.value)]) else w;
      if !x.releases then (closed.(session := closed.session.(phase := RecoveryRequired)), QuitNeedsRecovery)
      else (World(IDLE, closed.events + [Released(s.lease.value)]), QuitStopped)
  }

  // ----- The object

  class Runtime {
    var phase: Phase
    var profile: Option<string>
    var process: Option<string>
    var lease: Option<Lease>
    var hq: Option<Headquarters>
    ghost var events: seq<Event>

    constructor ()
      ensures View() == World(IDLE, [])
    {
      phase, profile, process, lease, hq, events := Stopped, None, None, None, None, [];
    }

    ghost function View(): World
      reads this
    {
      World(Session(phase, profile, process, lease, hq), events)
    }

    method Clear()
      modifies this
      ensures View() == World(IDLE, old(events))
    {
      phase, profile, process, lease, hq := Stopped, None, None, None, None;
    }

    method Hold(profile: string, process: string, lease: Lease, hq: Option<Headquarters>)
      modifies this
      ensures View() == World(Session(RecoveryRequired, Some(profile), Some(process), Some(lease), hq), old(events))
    {
      phase := RecoveryRequired;
      this.profile, this.process, this.lease, this.hq := Some(profile), Some(process), Some(lease), hq;
    }

    /** launch. */
    method LaunchProfile(profile: string, process: string, x: LaunchInput) returns (r: LaunchResult)
      modifies this
      ensures (View(), r) == Launch(old(View()), profile, process, x)
    {
      if profile == "" || phase == RecoveryRequired {
        return LaunchResult(LaunchRaises, None);
      }
      if phase == Running {
        if this.profile == Some(profile) && this.process == Some(process) {
          return LaunchResult(AlreadyRunning, this.lease);
        }
        return LaunchResult(LaunchRaises, None);
      }
      match x.acquire
      case AcquireRaises => return LaunchResult(LaunchRaises, None);
      case AlreadyOwned(l) => return LaunchResult(ReopenExisting, Some(l));
      case HeldByOther(l) => return LaunchResult(OwnedElsewhere, Some(l));
      case Uncertain(l) => return LaunchResult(Unclear, Some(l));
      case Takes(taken, _) =>
        events := events + [Acquired(taken)];
        var usable := x.open.Opens?;
        if x.open.Opens? {
          events := events + [Opened(x.open.hq)];
          if x.open.hq.profile != profile {
            usable := false;
            if x.closes {
              events := events + [Closed(x.open.hq)];
            }
          }
        }
        if usable && x.installs {
          phase := Running;
          this.profile, this.process, this.lease, this.hq := Some(profile), Some(process), Some(taken), Some(x.open.hq);
          return LaunchResult(Started, Some(taken));
        }
        if usable {
          if !x.closes {
            Hold(profile, process, taken, Some(x.open.hq));
            return LaunchResult(LaunchNeedsRecovery, Some(taken));
          }
          events := events + [Closed(x.open.hq)];
        }
        if !x.releases {
          Hold(profile, process, taken, None);
          return LaunchResult(LaunchNeedsRecovery, Some(taken));
        }
        events := events + [Released(taken)];
        return LaunchResult(StartFailed, None);
    }

    /** quit. */
    method QuitProfile(x: QuitInput) returns (r: QuitStatus)
      modifies this
      ensures (View(), r) == Quit(old(View()), x)
    {
      if phase == Stopped {
        return AlreadyStopped;
      }
      if profile.None? || process.None? || lease.None? {
        return QuitRaises;
      }
      if hq.Some? {
        if !x.closes {
          phase := RecoveryRequired;
          return QuitNeedsRecovery;
        }
        events := events + [Closed(hq.value)];
        hq := None;
      }
      if !x.releases {
        phase := RecoveryRequired;
        return QuitNeedsRecovery;
      }
      events := events + [Released(lease.value)];
      Clear();
      return QuitStopped;
    }
  }

  // ----- What the events say

  function OwnedWith(owned: set<Lease>, e: Event): set<Lease> {
    if e.Acquired? then owned + {e.lease} else if e.Released? then owned - {e.lease} else owned
  }

  function OpenWith(open: set<Headquarters>, e: Event): set<Headquarters> {
    if e.Opened? then open + {e.hq} else if e.Closed? then open - {e.hq} else open
  }

  function OwnedAfter(events: seq<Event>): set<Lease> {
    if events == [] then {} else OwnedWith(OwnedAfter(events[..|events| - 1]), events[|events| - 1])
  }

  function OpenAfter(events: seq<Event>): set<Headquarters> {
    if events == [] then {} else OpenWith(OpenAfter(events[..|events| - 1]), events[|events| - 1])
  }

  /** No lease is released while a Headquarters is open, none is released that is not owned, and none is
      acquired on top of another; a Headquarters is opened once and closed only while open. */
  predicate Fits(before: seq<Event>, e: Event) {
    match e
    case Acquired(l) => OwnedAfter(before) == {}
    case Opened(h) => e !in before
    case Closed(h) => h in OpenAfter(before)
    case Released(l) => OwnedAfter(before) == {l} && OpenAfter(before) == {}
  }

  predicate Orderly(events: seq<Event>) {
    events == [] || (Orderly(events[..|events| - 1]) && Fits(events[..|events| - 1], events[|events| - 1]))
  }

  lemma EventMore(events: seq<Event>, e: Event)
    ensures OwnedAfter(events + [e]) == OwnedWith(OwnedAfter(events), e)
    ensures OpenAfter(events + [e]) == OpenWith(OpenAfter(events), e)
    ensures Orderly(events + [e]) <==> Orderly(events) && Fits(events, e)
  {
    assert (events + [e])[..|events|] == events;
  }

  function Held<T>(x: Option<T>): set<T> {
    if x.Some? then {x.value} else {}
  }

  /** The session knows exactly what is owned and open; a stopped one owns nothing, a running one owns both,
      and one in recovery still owns its lease. */
  predicate Consistent(w: World) {
    && OwnedAfter(w.events) == Held(w.session.lease) && OpenAfter(w.events) == Held(w.session.hq)
    && Orderly(w.events)
    && (w.session.phase == Stopped ==> w.session == IDLE)
    && (w.session.phase != Stopped ==> w.session.profile.Some? && w.session.process.Some? && w.session.lease.Some?)
    && (w.session.phase == Running ==> w.session.hq.Some?)
  }

  // ----- Runs

  datatype Step = LaunchStep(profile: string, process: string, input: LaunchInput) | QuitStep(quit: QuitInput)

  /** An usable Headquarters is a new object. */
  predicate NewHeadquarters(w: World, step: Step) {
    step.LaunchStep? && step.input.open.Opens? ==> Opened(step.input.open.hq) !in w.events
  }

  /** The opener handed over a Headquarters of another profile and it could not be closed. */
  predicate Strands(w: World, step: Step) {
    && step.LaunchStep? && step.profile != "" && w.session.phase == Stopped && step.input.acquire.Takes?
    && step.input.open.Opens? && step.input.open.hq.profile != step.profile && !step.input.closes
  }

  function Apply(w: World, step: Step): World {
    match step
    case LaunchStep(profile, process, x) => Launch(w, profile, process, x).0
    case QuitStep(x) => Quit(w, x).0
  }

  function Run(steps: seq<Step>): World {
    if steps == [] then World(IDLE, []) else Apply(Run(steps[..|steps| - 1]), steps[|steps| - 1])
  }

  /** Every opener answer is a new Headquarters of the requested profile, or an exception. */
  predicate HonestRun(steps: seq<Step>) {
    steps == [] ||
    (var rest, last := steps[..|steps| - 1], steps[|steps| - 1];
     HonestRun(rest) && NewHeadquarters(Run(rest), last)
     && (last.LaunchStep? && last.input.open.Opens? ==> last.input.open.hq.profile == last.profile))
  }

  lemma OpenedIsOpenOrClosed(events: seq<Event>, h: Headquarters)
    requires h in OpenAfter(events)
    ensures Opened(h) in events
  {
    if events != [] && h in OpenAfter(events[..|events| - 1]) {
      OpenedIsOpenOrClosed(events[..|events| - 1], h);
    }
  }

  lemma QuitKeeps(w: World, x: QuitInput)
    requires Consistent(w)
    ensures Consistent(Quit(w, x).0)
  {
    hide OwnedAfter, OpenAfter, Orderly;
    var s := w.session;
    if s.phase != Stopped {
      if s.hq.Some? {
        EventMore(w.events, Closed(s.hq.value));
        EventMore(w.events + [Closed(s.hq.value)], Released(s.lease.value));
      } else {
        EventMore(w.events, Released(s.lease.value));
      }
    }
  }

  /** The event chains a launch can leave behind, from a moment when nothing is held. */
  lemma LaunchChains(events: seq<Event>, l: Lease, h: Headquarters)
    requires OwnedAfter(events) == {} && OpenAfter(events) == {} && Orderly(events) && Opened(h) !in events
    ensures var acquired := events + [Acquired(l)];
      && OwnedAfter(acquired) == {l} && OpenAfter(acquired) == {} && Orderly(acquired)
    ensures var open := events + [Acquired(l)] + [Opened(h)];
      && OwnedAfter(open) == {l} && OpenAfter(open) == {h} && Orderly(open) && !Orderly(open + [Released(l)])
    ensures var closed := events + [Acquired(l)] + [Opened(h)] + [Closed(h)];
      && OwnedAfter(closed) == {l} && OpenAfter(closed) == {} && Orderly(closed)
      && OwnedAfter(closed + [Released(l)]) == {} && OpenAfter(closed + [Released(l)]) == {}
      && Orderly(closed + [Released(l)])
  {
    var acquired := events + [Acquired(l)];
    var open := acquired + [Opened(h)];
    var closed := open + [Closed(h)];
    EventMore(events, Acquired(l));
    EventMore(acquired, Opened(h));
    EventMore(open, Released(l));
    EventMore(open, Closed(h));
    EventMore(closed, Released(l));
    hide OwnedAfter, OpenAfter, Orderly;
  }

  /** A launch keeps the session consistent exactly when it does not strand a foreign Headquarters. */
  lemma LaunchKeepsUnlessStranded(w: World, step: Step)
    requires Consistent(w) && step.LaunchStep? && NewHeadquarters(w, step)
    ensures Consistent(Apply(w, step)) <==> !Strands(w, step)
  {
    hide OwnedAfter, OpenAfter, Orderly;
    var x := step.input;
    if w.session.phase == Stopped && step.profile != "" && x.acquire.Takes? {
      if x.open.Opens? {
        LaunchChains(w.events, x.acquire.lease, x.open.hq);
      } else {
        AcquiredChains(w.events, x.acquire.lease);
      }
    }
  }

  lemma AcquiredChains(events: seq<Event>, l: Lease)
    requires OwnedAfter(events) == {} && OpenAfter(events) == {} && Orderly(events)
    ensures var acquired := events + [Acquired(l)];
      && OwnedAfter(acquired) == {l} && OpenAfter(acquired) == {} && Orderly(acquired)
      && OwnedAfter(acquired + [Released(l)]) == {} && OpenAfter(acquired + [Released(l)]) == {}
      && Orderly(acquired + [Released(l)])
  {
    EventMore(events, Acquired(l));
    EventMore(events + [Acquired(l)], Released(l));
    hide OwnedAfter, OpenAfter, Orderly;
  }

  lemma {:induction false} HonestRunsAreConsistent(steps: seq<Step>)
    requires HonestRun(steps)
    ensures Consistent(Run(steps))
  {
    if steps != [] {
      var rest, last := steps[..|steps| - 1], steps[|steps| - 1];
      HonestRunsAreConsistent(rest);
      hide Consistent, Launch, Quit;
      match last
      case LaunchStep(_, _, _) => LaunchKeepsUnlessStranded(Run(rest), last);
      case QuitStep(x) => QuitKeeps(Run(rest), x);
    }
  }

  /** Over every run with arbitrary close, install and release failures: a stopped runtime owns neither lease
      nor Headquarters, a running one owns both, one in recovery still owns its lease; and at no moment of the
      run was the lease released while a Headquarters was open, or a Headquarters closed twice. */
  lemma RuntimeOwnsWhatItShould(steps: seq<Step>)
    requires HonestRun(steps)
    ensures var w := Run(steps);
      && (w.session.phase == Stopped ==> OwnedAfter(w.events) == {} && OpenAfter(w.events) == {})
      && (w.session.phase == Running ==> |OwnedAfter(w.events)| == 1 && |OpenAfter(w.events)| == 1)
      && (w.session.phase == RecoveryRequired ==> |OwnedAfter(w.events)| == 1)
      && (forall i :: 0 <= i < |w.events| && w.events[i].Released? ==> OpenAfter(w.events[..i]) == {})
      && (forall i, j :: 0 <= i < j < |w.events| && w.events[i].Closed? ==> w.events[j] != w.events[i])
  {
    HonestRunsAreConsistent(steps);
    hide Run, HonestRun;
    var w := Run(steps);
    OrderlyEverywhere(w.events);
  }

  lemma {:induction false} OrderlyEverywhere(events: seq<Event>)
    requires Orderly(events)
    ensures forall i :: 0 <= i < |events| && events[i].Released? ==> OpenAfter(events[..i]) == {}
    ensures forall i, j :: 0 <= i < j < |events| && events[i].Closed? ==> events[j] != events[i]
    ensures forall i :: 0 <= i < |events| && events[i].Closed? ==>
      events[i].hq !in OpenAfter(events) && Opened(events[i].hq) in events
  {
    if events != [] {
      var before := events[..|events| - 1];
      OrderlyEverywhere(before);
      assert forall i :: 0 <= i < |before| ==> before[i] == events[i] && before[..i] == events[..i];
      match events[|events| - 1]
      case Closed(h) => OpenedIsOpenOrClosed(before, h);
      case _ =>
    }
  }

  /** Quitting is retried to the end: from any consistent session, one quit whose close and release succeed
      stops the runtime, having closed the Headquarters if it was still open and released the lease once. */
  lemma RetriedQuitStops(w: World, x: QuitInput)
    requires Consistent(w) && x.closes && x.releases && w.session.phase != Stopped
    ensures Quit(w, x).1 == QuitStopped && Quit(w, x).0.session == IDLE
    ensures OwnedAfter(Quit(w, x).0.events) == {} && OpenAfter(Quit(w, x).0.events) == {}
    ensures Quit(w, x).0.events == w.events + (if w.session.hq.Some? then [Closed(w.session.hq.value)] else [])
      + [Released(w.session.lease.value)]
  {
    QuitKeeps(w, x);
    hide OwnedAfter, OpenAfter, Orderly;
  }

  /** Without the assumption on the opener the promise fails: a foreign Headquarters that cannot be closed stays
      open while its lease is released, behind a result that reads START_FAILED. */
  lemma ForeignHeadquartersIsStranded(lease: Lease, hq: Headquarters, profile: string)
    requires profile != "" && hq.profile != profile
    ensures var x := LaunchInput(Takes(lease, false), Opens(hq), true, false, true);
      var (w, r) := Launch(World(IDLE, []), profile, "p", x);
      r.status == StartFailed && w.session == IDLE && OwnedAfter(w.events) == {} && OpenAfter(w.events) == {hq}
  {
    EventMore([], Acquired(lease));
    EventMore([] + [Acquired(lease)], Opened(hq));
    EventMore([] + [Acquired(lease)] + [Opened(hq)], Released(lease));
  }
}
