/**
  Deliberate input versus analog noise (app/input_activity_monitor.py): per
  axis, a history of large changes decides whether the axis really moves. Times
  are real numbers.
 */
module InputActivity {
  import opened Options

  const PERIODIC_MIN_INTERVAL := 0.4
  const PERIODIC_MAX_INTERVAL := 10.0
  const PERIODIC_MIN_INTERVALS := 3
  const PERIODIC_INTERVAL_SLOP := 0.4
  const PENDING_CONFIRM_SECONDS := 10.0
  const MOTION_DISTINCT_POLES := 3
  const TRANSITION_HISTORY := 12

  datatype Edge = Edge(time: real, value: int)

  datatype Tracker = Tracker(transitions: seq<Edge>, periodic: bool, lastTime: Option<real>, rest: Option<int>)

  const NEW_TRACKER := Tracker([], false, None, None)

  function Distance(x: int, y: int): nat {
    if x < y then y - x else x - y
  }

  // ------------------------------------------------------------ one tracker

  /** Greedy: a value opens a pole unless it lies within a deadzone of one. */
  function DistinctPoles(values: seq<int>, deadzone: int): seq<int> {
    if values == [] then []
    else
      var poles := DistinctPoles(values[..|values| - 1], deadzone);
      var value := values[|values| - 1];
      if NearAPole(value, poles, deadzone) then poles else poles + [value]
  }

  predicate NearAPole(value: int, poles: seq<int>, deadzone: int) {
    exists i :: 0 <= i < |poles| && Distance(value, poles[i]) <= deadzone
  }

  function Sum(xs: seq<real>): real {
    if xs == [] then 0.0 else Sum(xs[..|xs| - 1]) + xs[|xs| - 1]
  }

  predicate IntervalsAreRegular(intervals: seq<real>) {
    && |intervals| >= PERIODIC_MIN_INTERVALS
    && var mean := Sum(intervals) / |intervals| as real;
       && PERIODIC_MIN_INTERVAL <= mean <= PERIODIC_MAX_INTERVAL
       && forall i | 0 <= i < |intervals| ::
            -mean * PERIODIC_INTERVAL_SLOP <= intervals[i] - mean <= mean * PERIODIC_INTERVAL_SLOP
  }

  function Last<T>(xs: seq<T>, n: nat): seq<T> {
    if |xs| <= n then xs else xs[|xs| - n..]
  }

  function Values(edges: seq<Edge>): (r: seq<int>)
    ensures |r| == |edges| && forall i | 0 <= i < |r| :: r[i] == edges[i].value
  {
    if edges == [] then [] else Values(edges[..|edges| - 1]) + [edges[|edges| - 1].value]
  }

  function Intervals(edges: seq<Edge>): (r: seq<real>)
    ensures |r| == if edges == [] then 0 else |edges| - 1
    ensures forall i | 0 <= i < |r| :: r[i] == edges[i + 1].time - edges[i].time
  {
    if |edges| <= 1 then []
    else Intervals(edges[..|edges| - 1]) + [edges[|edges| - 1].time - edges[|edges| - 2].time]
  }

  /** A change beyond the deadzone: the tracker after it, and whether it is clearly motion. */
  function Note(tr: Tracker, now: real, previous: int, value: int, deadzone: int): (Tracker, bool) {
    var rest := Rest(tr, previous);
    var transitions := Last(tr.transitions + [Edge(now, value)], TRANSITION_HISTORY);
    Judge(Tracker(transitions, tr.periodic, Some(now), Some(rest)), |DistinctPoles([rest] + Values(transitions), deadzone)|,
          IntervalsAreRegular(Last(Intervals(transitions), PERIODIC_MIN_INTERVALS)))
  }

  function Judge(tr: Tracker, poles: nat, regular: bool): (Tracker, bool) {
    if poles >= MOTION_DISTINCT_POLES then (tr.(periodic := false), true)
    else if regular then (tr.(periodic := true), false)
    else if tr.periodic then (tr.(periodic := false), true)
    else (tr, false)
  }

  /** A change that was then held long enough, unless the axis is known to be periodic. */
  function ConfirmOne(tr: Tracker, now: real): (Tracker, bool) {
    if tr.periodic || tr.lastTime.None? || tr.transitions == [] || now - tr.lastTime.value < PENDING_CONFIRM_SECONDS
    then (tr, false)
    else (Tracker([], false, None, Some(tr.transitions[|tr.transitions| - 1].value)), true)
  }

  // --------------------------------------------------------------- all axes

  type Axis = nat

  datatype Event = Key | Rel(delta: int) | Abs(axis: Axis, time: real, value: int) | Other

  datatype State = State(levels: map<Axis, int>, trackers: map<Axis, Tracker>)

  const FRESH := State(map[], map[])

  function OnEvent(s: State, e: Event, deadzone: Axis -> int): (State, bool) {
    match e
    case Key => (s, true)
    case Rel(delta) => (s, delta != 0)
    case Other => (s, false)
    case Abs(axis, time, value) =>
      var s1 := s.(levels := s.levels[axis := value]);
      if axis !in s.levels || Distance(value, s.levels[axis]) <= deadzone(axis) then (s1, false)
      else
        var tr := if axis in s.trackers then s.trackers[axis] else NEW_TRACKER;
        var (tr1, activity) := Note(tr, time, s.levels[axis], value, deadzone(axis));
        (s1.(trackers := s.trackers[axis := tr1]), activity)
  }

  function Read(s: State, events: seq<Event>, deadzone: Axis -> int): (State, bool) {
    if events == [] then (s, false)
    else
      var (s1, before) := Read(s, events[..|events| - 1], deadzone);
      var (s2, now) := OnEvent(s1, events[|events| - 1], deadzone);
      (s2, before || now)
  }

  predicate Confirms(s: State, axis: Axis, now: real) {
    axis in s.trackers && ConfirmOne(s.trackers[axis], now).1
  }

  function Confirm(s: State, now: real): (State, bool) {
    (s.(trackers := map axis | axis in s.trackers :: ConfirmOne(s.trackers[axis], now).0),
     exists axis | axis in s.trackers :: Confirms(s, axis, now))
  }

  /**
    A batch of events is read, the pending axes are confirmed, one device goes
    away with its axes, or a rescan of the devices drops all of them.
   */
  datatype Action = Reading(events: seq<Event>) | Confirming(now: real) | Dropping(axes: set<Axis>) | Clearing

  function Drop(s: State, axes: set<Axis>): State {
    State(s.levels - axes, s.trackers - axes)
  }

  function Act(s: State, a: Action, deadzone: Axis -> int): (State, bool) {
    match a
    case Reading(events) => Read(s, events, deadzone)
    case Confirming(now) => Confirm(s, now)
    case Dropping(axes) => (Drop(s, axes), false)
    case Clearing => (FRESH, false)
  }

  // ------------------------------------------------- what counts as input at once

  /** A key counts, and a relative movement unless it is none; what is neither leaves everything as it was. */
  lemma KeysAndMovesCount(s: State, delta: int, deadzone: Axis -> int)
    ensures OnEvent(s, Key, deadzone) == (s, true)
    ensures OnEvent(s, Rel(delta), deadzone) == (s, delta != 0)
    ensures OnEvent(s, Other, deadzone) == (s, false)
  {
  }

  /** An axis that is new, or moves within its deadzone, only has its level noted. */
  lemma ASmallMoveIsNoInput(s: State, axis: Axis, time: real, value: int, deadzone: Axis -> int)
    requires axis in s.levels ==> -deadzone(axis) <= value - s.levels[axis] <= deadzone(axis)
    ensures OnEvent(s, Abs(axis, time, value), deadzone) == (State(s.levels[axis := value], s.trackers), false)
  {
  }

  /** Any other move is noted on its own axis, and counts when that says so. */
  lemma ALargeMoveIsNoted(s: State, axis: Axis, time: real, value: int, deadzone: Axis -> int)
    requires axis in s.levels && !(-deadzone(axis) <= value - s.levels[axis] <= deadzone(axis))
    ensures var tr := if axis in s.trackers then s.trackers[axis] else NEW_TRACKER;
            var (tr', activity) := Note(tr, time, s.levels[axis], value, deadzone(axis));
            OnEvent(s, Abs(axis, time, value), deadzone) == (State(s.levels[axis := value], s.trackers[axis := tr']), activity)
  {
  }

  /** The event at this place counts, in the state it is read in. */
  ghost predicate CountsAt(s: State, events: seq<Event>, i: nat, deadzone: Axis -> int) {
    i < |events| && OnEvent(Read(s, events[..i], deadzone).0, events[i], deadzone).1
  }

  lemma CountsInAPrefix(s: State, events: seq<Event>, n: nat, i: nat, deadzone: Axis -> int)
    requires n <= |events| && i < n
    ensures CountsAt(s, events[..n], i, deadzone) <==> CountsAt(s, events, i, deadzone)
  {
    assert events[..n][..i] == events[..i];
  }

  /** A batch counts exactly when some event of it does. */
  lemma {:induction false} ABatchCountsExactly(s: State, events: seq<Event>, deadzone: Axis -> int)
    ensures Read(s, events, deadzone).1 <==> exists i: nat :: CountsAt(s, events, i, deadzone)
  {
    if events != [] {
      var n := |events| - 1;
      ABatchCountsExactly(s, events[..n], deadzone);
      forall i: nat | i < n
        ensures CountsAt(s, events[..n], i, deadzone) <==> CountsAt(s, events, i, deadzone)
      {
        CountsInAPrefix(s, events, n, i, deadzone);
      }
      assert Read(s, events, deadzone).1 <==> Read(s, events[..n], deadzone).1 || CountsAt(s, events, n, deadzone);
    }
  }

  ghost predicate ActsAt(s: State, actions: seq<Action>, i: nat, deadzone: Axis -> int) {
    i < |actions| && Act(Acted(s, actions[..i], deadzone).0, actions[i], deadzone).1
  }

  lemma ActsInAPrefix(s: State, actions: seq<Action>, n: nat, i: nat, deadzone: Axis -> int)
    requires n <= |actions| && i < n
    ensures ActsAt(s, actions[..n], i, deadzone) <==> ActsAt(s, actions, i, deadzone)
  {
    assert actions[..n][..i] == actions[..i];
  }

  /** A run of the monitor counts exactly when some turn of it does. */
  lemma {:induction false} ARunCountsExactly(s: State, actions: seq<Action>, deadzone: Axis -> int)
    ensures Acted(s, actions, deadzone).1 <==> exists i: nat :: ActsAt(s, actions, i, deadzone)
  {
    if actions != [] {
      var n := |actions| - 1;
      ARunCountsExactly(s, actions[..n], deadzone);
      forall i: nat | i < n
        ensures ActsAt(s, actions[..n], i, deadzone) <==> ActsAt(s, actions, i, deadzone)
      {
        ActsInAPrefix(s, actions, n, i, deadzone);
      }
      assert Acted(s, actions, deadzone).1 <==> Acted(s, actions[..n], deadzone).1 || ActsAt(s, actions, n, deadzone);
    }
  }

  /** Confirming reports an axis by starting it afresh from its last level; all other axes go on. */
  lemma AConfirmedAxisStartsAfresh(s: State, now: real, axis: Axis)
    requires axis in s.trackers
    ensures var s' := Confirm(s, now).0;
            var tr := s.trackers[axis];
            && s'.levels == s.levels && s'.trackers.Keys == s.trackers.Keys
            && s'.trackers[axis] == if Confirms(s, axis, now) then Tracker([], false, None, Some(tr.transitions[|tr.transitions| - 1].value))
                                    else tr
  {
  }

  // ------------------------------------------------- when a rhythm is recognized

  /** Three intervals between four edges: their mean and how far each is off it. */
  ghost predicate Rhythm(t0: real, t1: real, t2: real, t3: real) {
    var mean := (t3 - t0) / 3.0;
    && 0.4 <= mean <= 10.0
    && -0.4 * mean <= t1 - t0 - mean <= 0.4 * mean
    && -0.4 * mean <= t2 - t1 - mean <= 0.4 * mean
    && -0.4 * mean <= t3 - t2 - mean <= 0.4 * mean
  }

  lemma ThreeAreRegularExactly(xs: seq<real>, t0: real, t1: real, t2: real, t3: real)
    requires |xs| == 3 && xs[0] == t1 - t0 && xs[1] == t2 - t1 && xs[2] == t3 - t2
    ensures IntervalsAreRegular(xs) <==> Rhythm(t0, t1, t2, t3)
  {
    SumOfThree(xs);
    assert Sum(xs) == t3 - t0 && |xs| as real == 3.0;
  }

  lemma TooFewAreNotRegular(xs: seq<real>)
    requires |xs| < 3
    ensures !IntervalsAreRegular(xs)
  {
  }

  /**
    Of a change on an axis that has fewer than three poles so far: it counts
    exactly when it breaks a rhythm that was recognized, and the rhythm is
    recognized from then on exactly when the last four changes keep one.
   */
  lemma ARhythmIsJudgedExactly(tr: Tracker, now: real, previous: int, value: int, deadzone: int)
    requires var transitions := Last(tr.transitions + [Edge(now, value)], TRANSITION_HISTORY);
             |DistinctPoles([Rest(tr, previous)] + Values(transitions), deadzone)| < 3
    ensures var (tr', activity) := Note(tr, now, previous, value, deadzone);
            var edges := tr.transitions;
            var n := |edges|;
            var keeps := n >= 3 && Rhythm(edges[n - 3].time, edges[n - 2].time, edges[n - 1].time, now);
            && tr'.periodic == keeps
            && (activity <==> tr.periodic && !keeps)
            && tr'.transitions == Last(edges + [Edge(now, value)], TRANSITION_HISTORY)
            && tr'.lastTime == Some(now) && tr'.rest == Some(Rest(tr, previous))
  {
    var all := tr.transitions + [Edge(now, value)];
    var xs := Last(Intervals(Last(all, TRANSITION_HISTORY)), PERIODIC_MIN_INTERVALS);
    if |tr.transitions| >= 3 {
      var n := |tr.transitions|;
      LastThreeIntervals(all);
      ThreeAreRegularExactly(xs, all[n - 3].time, all[n - 2].time, all[n - 1].time, now);
    } else {
      TooFewAreNotRegular(xs);
    }
  }

  // ------------------------------------------------------------- two-value waves

  /** Two levels, each with some jitter, and bounds on the time between edges. */
  datatype Wave = Wave(low: int, high: int, jitter: int, shortest: real, longest: real)

  ghost predicate Periodic(w: Wave, deadzone: int) {
    && 0 <= 2 * w.jitter <= deadzone
    && w.low + deadzone + 2 * w.jitter < w.high
    && 0.4 <= w.shortest <= w.longest < 10.0
    && w.longest - w.shortest <= 0.4 * w.shortest
  }

  predicate Near(w: Wave, value: int, high: bool) {
    Distance(value, if high then w.high else w.low) <= w.jitter
  }

  /** Where the wave is: its level, and when its last edge was. */
  datatype Phase = Phase(high: Option<bool>, edge: Option<real>)

  predicate IsEdge(p: Phase, w: Wave, value: int) {
    p.high.Some? && !Near(w, value, p.high.value)
  }

  /** The next sample may repeat the level, or be the other level when the wave's interval has passed. */
  ghost predicate Continues(p: Phase, w: Wave, time: real, value: int) {
    && (Near(w, value, false) || Near(w, value, true))
    && (IsEdge(p, w, value) && p.edge.Some? ==> w.shortest <= time - p.edge.value <= w.longest)
  }

  function NextPhase(p: Phase, w: Wave, time: real, value: int): Phase {
    Phase(Some(Near(w, value, true)), if IsEdge(p, w, value) then Some(time) else p.edge)
  }

  ghost predicate EventContinues(phases: Axis -> Phase, waves: Axis -> Wave, e: Event) {
    match e
    case Abs(axis, time, value) => Continues(phases(axis), waves(axis), time, value)
    case Rel(delta) => delta == 0
    case Other => true
    case Key => false
  }

  ghost function EventPhases(phases: Axis -> Phase, waves: Axis -> Wave, e: Event): Axis -> Phase {
    if e.Abs? then
      (axis: Axis) => if axis == e.axis then NextPhase(phases(axis), waves(axis), e.time, e.value) else phases(axis)
    else phases
  }

  ghost function BatchPhases(phases: Axis -> Phase, waves: Axis -> Wave, events: seq<Event>): Axis -> Phase {
    if events == [] then phases
    else EventPhases(BatchPhases(phases, waves, events[..|events| - 1]), waves, events[|events| - 1])
  }

  ghost predicate BatchContinues(phases: Axis -> Phase, waves: Axis -> Wave, events: seq<Event>) {
    events == [] ||
    (&& BatchContinues(phases, waves, events[..|events| - 1])
     && EventContinues(BatchPhases(phases, waves, events[..|events| - 1]), waves, events[|events| - 1]))
  }

  /** What the machine sees while every axis only follows its wave; no edge is overdue when axes are confirmed. */
  ghost predicate OnlyNoise(phases: Axis -> Phase, waves: Axis -> Wave, actions: seq<Action>) {
    actions == [] ||
    (&& OnlyNoise(phases, waves, actions[..|actions| - 1])
     && var before := PhasesAfter(phases, waves, actions[..|actions| - 1]);
        match actions[|actions| - 1]
        case Reading(events) => BatchContinues(before, waves, events)
        case Confirming(now) => forall axis | before(axis).edge.Some? :: now - before(axis).edge.value <= waves(axis).longest
        case Dropping(_) => true
        case Clearing => true)
  }

  ghost function PhasesAfter(phases: Axis -> Phase, waves: Axis -> Wave, actions: seq<Action>): Axis -> Phase {
    if actions == [] then phases
    else
      var before := PhasesAfter(phases, waves, actions[..|actions| - 1]);
      var last := actions[|actions| - 1];
      if last.Reading? then BatchPhases(before, waves, last.events) else before
  }

  function Acted(s: State, actions: seq<Action>, deadzone: Axis -> int): (State, bool) {
    if actions == [] then (s, false)
    else
      var (s1, before) := Acted(s, actions[..|actions| - 1], deadzone);
      var (s2, now) := Act(s1, actions[|actions| - 1], deadzone);
      (s2, before || now)
  }

  // -------------------------------------------------- noise is never input

  /** What a tracker holds while its axis follows the wave. */
  ghost predicate Follows(tr: Tracker, p: Phase, w: Wave) {
    && tr.transitions != [] && |tr.transitions| <= TRANSITION_HISTORY
    && tr.rest.Some? && OnTheWave(w, tr.rest.value)
    && EdgesFollow(tr.transitions, w)
    && tr.lastTime == p.edge == Some(tr.transitions[|tr.transitions| - 1].time)
    && (tr.periodic <==> |tr.transitions| > PERIODIC_MIN_INTERVALS)
  }

  predicate OnTheWave(w: Wave, value: int) {
    Near(w, value, false) || Near(w, value, true)
  }

  ghost predicate EdgesFollow(edges: seq<Edge>, w: Wave) {
    && (forall i | 0 <= i < |edges| :: OnTheWave(w, edges[i].value))
    && (forall i | 0 <= i < |Intervals(edges)| :: w.shortest <= Intervals(edges)[i] <= w.longest)
  }

  ghost predicate AxisFollows(s: State, axis: Axis, p: Phase, w: Wave) {
    && (axis in s.levels ==> p.high.Some? && Near(w, s.levels[axis], p.high.value))
    && (axis in s.trackers ==> axis in s.levels && Follows(s.trackers[axis], p, w))
  }

  lemma {:induction false} TwoLevelsAreTwoPoles(values: seq<int>, w: Wave, deadzone: int)
    requires Periodic(w, deadzone) && forall i | 0 <= i < |values| :: OnTheWave(w, values[i])
    ensures var poles := DistinctPoles(values, deadzone);
            && |poles| <= 2
            && (forall i | 0 <= i < |poles| :: OnTheWave(w, poles[i]))
            && (|poles| == 2 ==> Near(w, poles[0], true) != Near(w, poles[1], true))
  {
    if values != [] {
      var n := |values| - 1;
      TwoLevelsAreTwoPoles(values[..n], w, deadzone);
      var poles := DistinctPoles(values[..n], deadzone);
      assert OnTheWave(w, values[n]);
    }
  }

  lemma SumOfThree(xs: seq<real>)
    requires |xs| == 3
    ensures Sum(xs) == xs[0] + xs[1] + xs[2]
  {
    assert xs[..2][..1] == xs[..1] && xs[..1][..0] == [];
    assert Sum(xs[..1]) == xs[0];
    assert Sum(xs[..2]) == Sum(xs[..2][..1]) + xs[1];
  }

  lemma RegularIntervals(xs: seq<real>, w: Wave, deadzone: int)
    requires Periodic(w, deadzone) && |xs| == 3 && forall i | 0 <= i < 3 :: w.shortest <= xs[i] <= w.longest
    ensures IntervalsAreRegular(xs)
  {
    SumOfThree(xs);
    var mean := (xs[0] + xs[1] + xs[2]) / 3.0;
    assert mean * 3.0 == xs[0] + xs[1] + xs[2];
    assert |xs| as real == 3.0 && Sum(xs) / |xs| as real == mean;
    assert w.shortest <= mean <= w.longest;
    assert mean * PERIODIC_INTERVAL_SLOP >= 0.4 * w.shortest;
  }

  lemma OneMoreEdgeFollows(edges: seq<Edge>, w: Wave, edge: Edge)
    requires EdgesFollow(edges, w) && OnTheWave(w, edge.value)
    requires edges != [] ==> w.shortest <= edge.time - edges[|edges| - 1].time <= w.longest
    ensures EdgesFollow(edges + [edge], w)
  {
    var all, n := edges + [edge], |edges|;
    forall i | 0 <= i <= n
      ensures OnTheWave(w, all[i].value)
    {
      assert i < n ==> all[i] == edges[i];
    }
    forall i | 0 <= i < |Intervals(all)|
      ensures w.shortest <= Intervals(all)[i] <= w.longest
    {
      assert all[i] == edges[i];
      assert i + 1 < n ==> all[i + 1] == edges[i + 1] && Intervals(all)[i] == Intervals(edges)[i];
    }
  }

  lemma LastAt<T>(xs: seq<T>, n: nat, i: nat)
    requires i < |Last(xs, n)|
    ensures Last(xs, n)[i] == xs[|xs| - |Last(xs, n)| + i]
  {
  }

  lemma IntervalOfTheWindow(edges: seq<Edge>, n: nat, i: nat)
    requires i < |Intervals(Last(edges, n))|
    ensures var k := |edges| - |Last(edges, n)| + i;
            k < |Intervals(edges)| && Intervals(Last(edges, n))[i] == Intervals(edges)[k]
  {
    LastAt(edges, n, i);
    LastAt(edges, n, i + 1);
  }

  lemma ValuesOfTheWindow(edges: seq<Edge>, w: Wave, n: nat)
    requires EdgesFollow(edges, w)
    ensures forall i | 0 <= i < |Last(edges, n)| :: OnTheWave(w, Last(edges, n)[i].value)
  {
    forall i | 0 <= i < |Last(edges, n)|
      ensures OnTheWave(w, Last(edges, n)[i].value)
    {
      LastAt(edges, n, i);
    }
  }

  lemma IntervalsOfTheWindow(edges: seq<Edge>, w: Wave, n: nat)
    requires EdgesFollow(edges, w)
    ensures forall i | 0 <= i < |Intervals(Last(edges, n))| :: w.shortest <= Intervals(Last(edges, n))[i] <= w.longest
  {
    forall i | 0 <= i < |Intervals(Last(edges, n))|
      ensures w.shortest <= Intervals(Last(edges, n))[i] <= w.longest
    {
      IntervalOfTheWindow(edges, n, i);
    }
  }

  /** The kept window of a longer history. */
  lemma TheWindowFollows(edges: seq<Edge>, w: Wave, n: nat)
    requires EdgesFollow(edges, w) && edges != [] && n > 0
    ensures var kept := Last(edges, n);
            EdgesFollow(kept, w) && kept != [] && kept[|kept| - 1] == edges[|edges| - 1]
  {
    ValuesOfTheWindow(edges, w, n);
    IntervalsOfTheWindow(edges, w, n);
    LastAt(edges, n, |Last(edges, n)| - 1);
  }

  lemma TooFewAreIrregular(xs: seq<real>)
    requires |xs| < PERIODIC_MIN_INTERVALS
    ensures !IntervalsAreRegular(xs)
  {
  }

  lemma RecentIntervalsAreRegular(edges: seq<Edge>, w: Wave, deadzone: int)
    requires Periodic(w, deadzone) && EdgesFollow(edges, w)
    ensures IntervalsAreRegular(Last(Intervals(edges), PERIODIC_MIN_INTERVALS)) <==> |edges| > PERIODIC_MIN_INTERVALS
  {
    var recent := Last(Intervals(edges), PERIODIC_MIN_INTERVALS);
    if |edges| > PERIODIC_MIN_INTERVALS {
      assert |recent| == 3 && forall i | 0 <= i < 3 :: w.shortest <= recent[i] <= w.longest by {
        RecentIntervals(edges, w);
      }
      RegularIntervals(recent, w, deadzone);
    } else {
      TooFewAreIrregular(recent);
    }
  }

  lemma RecentIntervals(edges: seq<Edge>, w: Wave)
    requires EdgesFollow(edges, w) && |edges| > 3
    ensures var recent := Last(Intervals(edges), 3);
            |recent| == 3 && forall i | 0 <= i < 3 :: w.shortest <= recent[i] <= w.longest
  {
    var all, recent := Intervals(edges), Last(Intervals(edges), 3);
    forall i | 0 <= i < 3
      ensures w.shortest <= recent[i] <= w.longest
    {
      assert recent[i] == all[|all| - 3 + i];
    }
  }

  function Rest(tr: Tracker, previous: int): int {
    if tr.rest.None? then previous else tr.rest.value
  }

  /** The tracker of a wave after one more edge. */
  function Followed(tr: Tracker, now: real, previous: int, value: int): Tracker {
    var transitions := Last(tr.transitions + [Edge(now, value)], TRANSITION_HISTORY);
    Tracker(transitions, |transitions| > PERIODIC_MIN_INTERVALS, Some(now), Some(Rest(tr, previous)))
  }

  lemma AFollowedWaveFollows(tr: Tracker, p: Phase, w: Wave, time: real, previous: int, value: int)
    requires OnTheWave(w, previous) && Continues(p, w, time, value) && IsEdge(p, w, value)
    requires tr == NEW_TRACKER || Follows(tr, p, w)
    ensures Follows(Followed(tr, time, previous, value), NextPhase(p, w, time, value), w)
    ensures EdgesFollow(Followed(tr, time, previous, value).transitions, w)
  {
    OneMoreEdgeFollows(tr.transitions, w, Edge(time, value));
    TheWindowFollows(tr.transitions + [Edge(time, value)], w, TRANSITION_HISTORY);
  }

  lemma JudgedSilent(tr: Tracker, poles: nat, regular: bool)
    requires poles < MOTION_DISTINCT_POLES && (tr.periodic ==> regular)
    ensures Judge(tr, poles, regular) == (tr.(periodic := regular), false)
  {
  }

  lemma NotingAnEdgeIsSilent(tr: Tracker, p: Phase, w: Wave, time: real, previous: int, value: int, deadzone: int)
    requires Periodic(w, deadzone) && OnTheWave(w, previous)
    requires Continues(p, w, time, value) && IsEdge(p, w, value)
    requires tr == NEW_TRACKER || Follows(tr, p, w)
    ensures Note(tr, time, previous, value, deadzone) == (Followed(tr, time, previous, value), false)
    ensures Follows(Followed(tr, time, previous, value), NextPhase(p, w, time, value), w)
  {
    AFollowedWaveFollows(tr, p, w, time, previous, value);
    var after := Followed(tr, time, previous, value);
    var values := [Rest(tr, previous)] + Values(after.transitions);
    TwoLevelsAreTwoPoles(values, w, deadzone);
    RecentIntervalsAreRegular(after.transitions, w, deadzone);
    assert tr.periodic ==> |tr.transitions| > PERIODIC_MIN_INTERVALS;
    JudgedSilent(after.(periodic := tr.periodic), |DistinctPoles(values, deadzone)|, after.periodic);
  }

  lemma AnAxisEventIsSilent(s: State, p: Phase, w: Wave, e: Event, deadzone: Axis -> int)
    requires e.Abs? && Periodic(w, deadzone(e.axis)) && AxisFollows(s, e.axis, p, w) && Continues(p, w, e.time, e.value)
    ensures var (s', activity) := OnEvent(s, e, deadzone);
            !activity && AxisFollows(s', e.axis, NextPhase(p, w, e.time, e.value), w)
  {
    if e.axis in s.levels && IsEdge(p, w, e.value) {
      var tr := if e.axis in s.trackers then s.trackers[e.axis] else NEW_TRACKER;
      NotingAnEdgeIsSilent(tr, p, w, e.time, s.levels[e.axis], e.value, deadzone(e.axis));
      ALargeMoveIsNoted(s, e.axis, e.time, e.value, deadzone);
    } else {
      ASmallMoveIsNoInput(s, e.axis, e.time, e.value, deadzone);
    }
  }

  lemma OtherAxesAreUntouched(s: State, e: Event, deadzone: Axis -> int, other: Axis)
    requires e.Abs? ==> other != e.axis
    ensures var s' := OnEvent(s, e, deadzone).0;
            && (other in s'.levels <==> other in s.levels) && (other in s.levels ==> s'.levels[other] == s.levels[other])
            && (other in s'.trackers <==> other in s.trackers) && (other in s.trackers ==> s'.trackers[other] == s.trackers[other])
  {
  }

  lemma AnEventIsSilent(s: State, phases: Axis -> Phase, waves: Axis -> Wave, e: Event, deadzone: Axis -> int)
    requires forall axis :: Periodic(waves(axis), deadzone(axis)) && AxisFollows(s, axis, phases(axis), waves(axis))
    requires EventContinues(phases, waves, e)
    ensures var (s', activity) := OnEvent(s, e, deadzone);
            !activity && forall axis :: AxisFollows(s', axis, EventPhases(phases, waves, e)(axis), waves(axis))
  {
    var s' := OnEvent(s, e, deadzone).0;
    forall axis
      ensures AxisFollows(s', axis, EventPhases(phases, waves, e)(axis), waves(axis))
      ensures e.Abs? && axis == e.axis ==> !OnEvent(s, e, deadzone).1
    {
      assert Periodic(waves(axis), deadzone(axis)) && AxisFollows(s, axis, phases(axis), waves(axis));
      if e.Abs? && axis == e.axis {
        AnAxisEventIsSilent(s, phases(axis), waves(axis), e, deadzone);
      } else {
        OtherAxesAreUntouched(s, e, deadzone, axis);
      }
    }
  }

  lemma {:induction false} ABatchIsSilent(s: State, phases: Axis -> Phase, waves: Axis -> Wave, events: seq<Event>, deadzone: Axis -> int)
    requires forall axis :: Periodic(waves(axis), deadzone(axis)) && AxisFollows(s, axis, phases(axis), waves(axis))
    requires BatchContinues(phases, waves, events)
    ensures var (s', activity) := Read(s, events, deadzone);
            !activity && forall axis :: AxisFollows(s', axis, BatchPhases(phases, waves, events)(axis), waves(axis))
  {
    if events != [] {
      var n := |events| - 1;
      ABatchIsSilent(s, phases, waves, events[..n], deadzone);
      AnEventIsSilent(Read(s, events[..n], deadzone).0, BatchPhases(phases, waves, events[..n]), waves, events[n], deadzone);
    }
  }

  lemma {:induction false} NoiseFollows(phases: Axis -> Phase, waves: Axis -> Wave, actions: seq<Action>, deadzone: Axis -> int)
    requires (forall axis :: Periodic(waves(axis), deadzone(axis))) && OnlyNoise(phases, waves, actions)
    ensures var (s, activity) := Acted(FRESH, actions, deadzone);
            !activity && forall axis :: AxisFollows(s, axis, PhasesAfter(phases, waves, actions)(axis), waves(axis))
  {
    if actions != [] {
      var n := |actions| - 1;
      NoiseFollows(phases, waves, actions[..n], deadzone);
      var (s, _) := Acted(FRESH, actions[..n], deadzone);
      var before := PhasesAfter(phases, waves, actions[..n]);
      match actions[n]
      case Reading(events) => ABatchIsSilent(s, before, waves, events, deadzone);
      case Confirming(now) =>
        forall axis
          ensures axis in s.trackers ==> ConfirmOne(s.trackers[axis], now) == (s.trackers[axis], false)
          ensures AxisFollows(Confirm(s, now).0, axis, before(axis), waves(axis))
        {
          assert AxisFollows(s, axis, before(axis), waves(axis)) && Periodic(waves(axis), deadzone(axis));
        }
      case Dropping(axes) => DroppedAxesFollow(s, axes, before, waves);
      case Clearing =>
    }
  }

  lemma DroppedAxesFollow(s: State, axes: set<Axis>, phases: Axis -> Phase, waves: Axis -> Wave)
    requires forall axis :: AxisFollows(s, axis, phases(axis), waves(axis))
    ensures forall axis :: AxisFollows(Drop(s, axes), axis, phases(axis), waves(axis))
  {
    forall axis
      ensures AxisFollows(Drop(s, axes), axis, phases(axis), waves(axis))
    {
      assert AxisFollows(s, axis, phases(axis), waves(axis));
    }
  }

  /**
    The main result: while every axis only follows a two-value wave, nothing
    counts as input, however events are batched and whatever is dropped when.
   */
  lemma PeriodicNoiseIsNeverInput(phases: Axis -> Phase, waves: Axis -> Wave, actions: seq<Action>, deadzone: Axis -> int)
    requires (forall axis :: Periodic(waves(axis), deadzone(axis))) && OnlyNoise(phases, waves, actions)
    ensures !Acted(FRESH, actions, deadzone).1
  {
    NoiseFollows(phases, waves, actions, deadzone);
  }

  // ------------------------------------------------------ and input still is

  /** When a wave stops: an axis with four noted edges is never confirmed, one with fewer is, after ten seconds. */
  lemma OnlyAShortRhythmIsConfirmed(phases: Axis -> Phase, waves: Axis -> Wave, actions: seq<Action>, deadzone: Axis -> int,
                                    axis: Axis, now: real)
    requires (forall axis :: Periodic(waves(axis), deadzone(axis))) && OnlyNoise(phases, waves, actions)
    ensures var (s, _) := Acted(FRESH, actions, deadzone);
            axis in s.trackers ==>
              s.trackers[axis].transitions != [] &&
              (Confirms(s, axis, now) <==>
                |s.trackers[axis].transitions| < 4
                && now - s.trackers[axis].transitions[|s.trackers[axis].transitions| - 1].time >= 10.0)
  {
    NoiseFollows(phases, waves, actions, deadzone);
    var (s, _) := Acted(FRESH, actions, deadzone);
    assert AxisFollows(s, axis, PhasesAfter(phases, waves, actions)(axis), waves(axis));
  }

  /** Confirming again and again. */
  function Confirmed(tr: Tracker, nows: seq<real>): Tracker {
    if nows == [] then tr else ConfirmOne(Confirmed(tr, nows[..|nows| - 1]), nows[|nows| - 1]).0
  }

  lemma {:induction false} ConfirmedOnceOnly(tr: Tracker, time: real, nows: seq<real>)
    requires !tr.periodic && tr.transitions != [] && tr.lastTime == Some(time)
    ensures if forall i | 0 <= i < |nows| :: nows[i] - time < 10.0 then Confirmed(tr, nows) == tr
            else Confirmed(tr, nows).lastTime.None?
  {
    if nows != [] {
      ConfirmedOnceOnly(tr, time, nows[..|nows| - 1]);
    }
  }

  /**
    A lone change is not reported when it happens. Held, it is reported by
    exactly one confirmation, the first that comes at least ten seconds later.
   */
  lemma AHeldChangeIsReportedExactlyOnce(time: real, previous: int, value: int, deadzone: int, nows: seq<real>, now: real)
    ensures var (tr, atOnce) := Note(NEW_TRACKER, time, previous, value, deadzone);
            && !atOnce
            && ConfirmOne(tr, time + 10.0) == (Tracker([], false, None, Some(value)), true)
            && (ConfirmOne(Confirmed(tr, nows), now).1 <==>
                  now - time >= 10.0 && forall i | 0 <= i < |nows| :: nows[i] - time < 10.0)
  {
    var tr := Tracker([Edge(time, value)], false, Some(time), Some(previous));
    TheFirstChangeIsPending(time, previous, value, deadzone);
    ConfirmedOnceOnly(tr, time, nows);
  }

  lemma TheFirstChangeIsPending(time: real, previous: int, value: int, deadzone: int)
    ensures Note(NEW_TRACKER, time, previous, value, deadzone) ==
              (Tracker([Edge(time, value)], false, Some(time), Some(previous)), false)
  {
    var transitions := [Edge(time, value)];
    assert Last(NEW_TRACKER.transitions + [Edge(time, value)], TRANSITION_HISTORY) == transitions;
    TooFewAreIrregular(Last(Intervals(transitions), PERIODIC_MIN_INTERVALS));
    FewValuesFewPoles([previous] + Values(transitions), deadzone);
  }

  lemma {:induction false} FewValuesFewPoles(values: seq<int>, deadzone: int)
    ensures |DistinctPoles(values, deadzone)| <= |values|
  {
    if values != [] {
      FewValuesFewPoles(values[..|values| - 1], deadzone);
    }
  }

  ghost predicate Covered(v: int, poles: seq<int>, deadzone: int) {
    exists i :: 0 <= i < |poles| && -deadzone <= v - poles[i] <= deadzone
  }

  ghost predicate Apart(poles: seq<int>, deadzone: int) {
    forall i, j | 0 <= i < j < |poles| :: poles[j] - poles[i] > deadzone || poles[i] - poles[j] > deadzone
  }

  lemma NearIsCovered(v: int, poles: seq<int>, deadzone: int)
    ensures NearAPole(v, poles, deadzone) <==> Covered(v, poles, deadzone)
  {
    if Covered(v, poles, deadzone) {
      var i :| 0 <= i < |poles| && -deadzone <= v - poles[i] <= deadzone;
      assert Distance(v, poles[i]) <= deadzone;
    }
  }

  lemma OneMorePole(v: int, poles: seq<int>, deadzone: int)
    requires 0 <= deadzone && Apart(poles, deadzone) && !Covered(v, poles, deadzone)
    ensures Apart(poles + [v], deadzone) && Covered(v, poles + [v], deadzone)
    ensures forall u | Covered(u, poles, deadzone) :: Covered(u, poles + [v], deadzone)
  {
    assert (poles + [v])[|poles|] == v;
    forall u | Covered(u, poles, deadzone)
      ensures Covered(u, poles + [v], deadzone)
    {
      var i :| 0 <= i < |poles| && -deadzone <= u - poles[i] <= deadzone;
      assert (poles + [v])[i] == poles[i];
    }
  }

  /** Poles are more than a deadzone apart, and every value lies within a deadzone of one. */
  lemma {:induction false} PolesCoverTheValues(values: seq<int>, deadzone: int)
    requires 0 <= deadzone
    ensures Apart(DistinctPoles(values, deadzone), deadzone)
    ensures forall i | 0 <= i < |values| :: Covered(values[i], DistinctPoles(values, deadzone), deadzone)
  {
    if values != [] {
      var n := |values| - 1;
      PolesCoverTheValues(values[..n], deadzone);
      var before := DistinctPoles(values[..n], deadzone);
      assert forall i | 0 <= i < n :: values[i] == values[..n][i];
      NearIsCovered(values[n], before, deadzone);
      if !NearAPole(values[n], before, deadzone) {
        OneMorePole(values[n], before, deadzone);
      }
    }
  }

  /** The first value is a pole, and one far from it makes a second. */
  lemma {:induction false} AFarValueMakesTwoPoles(values: seq<int>, deadzone: int, far: nat)
    requires 0 <= deadzone && far < |values| && Distance(values[far], values[0]) > deadzone
    ensures |DistinctPoles(values, deadzone)| >= 2
  {
    var n := |values| - 1;
    FirstIsAPole(values[..n], deadzone);
    if far < n {
      AFarValueMakesTwoPoles(values[..n], deadzone, far);
    }
  }

  lemma {:induction false} FirstIsAPole(values: seq<int>, deadzone: int)
    requires 0 <= deadzone
    ensures values != [] ==> DistinctPoles(values, deadzone) != [] && DistinctPoles(values, deadzone)[0] == values[0]
    ensures forall i | 0 <= i < |DistinctPoles(values, deadzone)| :: DistinctPoles(values, deadzone)[i] in values
  {
    if values != [] {
      FirstIsAPole(values[..|values| - 1], deadzone);
    }
  }

  /** A third pole is motion: reported at once, whatever the history says about a rhythm. */
  lemma AThirdPoleIsReportedAtOnce(tr: Tracker, now: real, previous: int, value: int, deadzone: int, far: nat)
    requires 0 <= deadzone && far < |Last(tr.transitions, 11)|
    requires Distance(Last(tr.transitions, 11)[far].value, Rest(tr, previous)) > deadzone
    requires Distance(value, Rest(tr, previous)) > deadzone
    requires forall i | 0 <= i < |Last(tr.transitions, 11)| :: Distance(value, Last(tr.transitions, 11)[i].value) > deadzone
    ensures Note(tr, now, previous, value, deadzone).1 && !Note(tr, now, previous, value, deadzone).0.periodic
  {
    var kept, rest := Last(tr.transitions, 11), Rest(tr, previous);
    var transitions := Last(tr.transitions + [Edge(now, value)], TRANSITION_HISTORY);
    TheWindowMoves(tr.transitions, Edge(now, value), 11);
    ValuesGrow(rest, kept, Edge(now, value));
    var earlier := [rest] + Values(kept);
    AThirdPoleIsDistinct(earlier, value, deadzone, far + 1);
    ThreePolesAreMotion(Tracker(transitions, tr.periodic, Some(now), Some(rest)),
                        |DistinctPoles(earlier + [value], deadzone)|,
                        IntervalsAreRegular(Last(Intervals(transitions), PERIODIC_MIN_INTERVALS)));
  }

  lemma TheWindowMoves<T>(xs: seq<T>, x: T, n: nat)
    ensures Last(xs + [x], n + 1) == Last(xs, n) + [x]
  {
  }

  lemma ValuesGrow(rest: int, edges: seq<Edge>, edge: Edge)
    ensures [rest] + Values(edges + [edge]) == [rest] + Values(edges) + [edge.value]
  {
  }

  lemma AThirdPoleIsDistinct(earlier: seq<int>, value: int, deadzone: int, far: nat)
    requires 0 <= deadzone && far < |earlier| && Distance(earlier[far], earlier[0]) > deadzone
    requires forall i | 0 <= i < |earlier| :: Distance(value, earlier[i]) > deadzone
    ensures |DistinctPoles(earlier + [value], deadzone)| >= 3
  {
    AFarValueMakesTwoPoles(earlier, deadzone, far);
    FirstIsAPole(earlier, deadzone);
    var poles := DistinctPoles(earlier, deadzone);
    forall i | 0 <= i < |poles|
      ensures Distance(value, poles[i]) > deadzone
    {
      assert poles[i] in earlier;
    }
    assert (earlier + [value])[..|earlier|] == earlier;
  }

  lemma ThreePolesAreMotion(tr: Tracker, poles: nat, regular: bool)
    requires poles >= MOTION_DISTINCT_POLES
    ensures Judge(tr, poles, regular).1 && !Judge(tr, poles, regular).0.periodic
  {
  }

  lemma ALongPauseIsIrregular(xs: seq<real>, w: Wave)
    requires |xs| == 3 && 0.0 < w.shortest && forall i | 0 <= i < 2 :: w.shortest <= xs[i] <= w.longest
    requires xs[2] > 1.75 * w.longest
    ensures !IntervalsAreRegular(xs)
  {
    SumOfThree(xs);
    var mean := (xs[0] + xs[1] + xs[2]) / 3.0;
    assert mean * 3.0 == xs[0] + xs[1] + xs[2];
    assert |xs| as real == 3.0 && Sum(xs) / |xs| as real == mean;
    assert xs[2] - mean > mean * PERIODIC_INTERVAL_SLOP;
  }

  /** Leaving the rhythm is motion too: a pause well beyond the wave's longest interval is reported when it ends. */
  lemma LeavingTheRhythmIsReported(tr: Tracker, p: Phase, w: Wave, now: real, previous: int, value: int, deadzone: int)
    requires Periodic(w, deadzone) && Follows(tr, p, w) && tr.periodic
    requires now - p.edge.value > 1.75 * w.longest
    ensures Note(tr, now, previous, value, deadzone).1
  {
    var all := tr.transitions + [Edge(now, value)];
    var transitions := Last(all, TRANSITION_HISTORY);
    var recent := Last(Intervals(transitions), PERIODIC_MIN_INTERVALS);
    LastIntervals(tr.transitions, w, Edge(now, value));
    ALongPauseIsIrregular(recent, w);
  }

  lemma LastIntervals(edges: seq<Edge>, w: Wave, edge: Edge)
    requires EdgesFollow(edges, w) && |edges| > 3
    ensures var recent := Last(Intervals(Last(edges + [edge], TRANSITION_HISTORY)), 3);
            && |recent| == 3 && (forall i | 0 <= i < 2 :: w.shortest <= recent[i] <= w.longest)
            && recent[2] == edge.time - edges[|edges| - 1].time
  {
    var n := |edges|;
    var recent := Last(Intervals(Last(edges + [edge], TRANSITION_HISTORY)), 3);
    LastThreeIntervals(edges + [edge]);
    OneMoreEdge(edges, edge, n - 3);
    OneMoreEdge(edges, edge, n - 2);
    OneMoreEdge(edges, edge, n - 1);
    assert recent[0] == edges[n - 2].time - edges[n - 3].time && recent[1] == edges[n - 1].time - edges[n - 2].time;
    IntervalOnTheWave(edges, w, n - 3);
    IntervalOnTheWave(edges, w, n - 2);
  }

  lemma OneMoreEdge(edges: seq<Edge>, edge: Edge, i: nat)
    requires i < |edges|
    ensures (edges + [edge])[i] == edges[i] && (edges + [edge])[|edges|] == edge
  {
  }

  lemma IntervalOnTheWave(edges: seq<Edge>, w: Wave, k: nat)
    requires EdgesFollow(edges, w) && k + 1 < |edges|
    ensures w.shortest <= edges[k + 1].time - edges[k].time <= w.longest
  {
    assert w.shortest <= Intervals(edges)[k] <= w.longest;
  }

  /** The last three intervals that are kept are the last three there were. */
  lemma LastThreeIntervals(all: seq<Edge>)
    requires |all| > 3
    ensures var recent := Last(Intervals(Last(all, TRANSITION_HISTORY)), 3);
            && |recent| == 3
            && forall i | 0 <= i < 3 :: recent[i] == all[|all| - 3 + i].time - all[|all| - 4 + i].time
  {
    forall i | 0 <= i < 3
      ensures RecentInterval(all, i) == all[|all| - 3 + i].time - all[|all| - 4 + i].time
    {
      IntervalOfTheWindow(all, TRANSITION_HISTORY, |Last(all, TRANSITION_HISTORY)| - 4 + i);
      LastAt(Intervals(Last(all, TRANSITION_HISTORY)), 3, i);
    }
  }

  function RecentInterval(all: seq<Edge>, i: nat): real
    requires |all| > 3 && i < 3
  {
    Last(Intervals(Last(all, TRANSITION_HISTORY)), 3)[i]
  }

  // ------------------------------------------------------------- the loops

  class InputMonitor {
    var levels: map<Axis, int>
    var trackers: map<Axis, Tracker>

    function Contents(): State
      reads this
    {
      State(levels, trackers)
    }

    constructor ()
      ensures Contents() == FRESH
    {
      levels, trackers := map[], map[];
    }

    /** A device went away with its axes. */
    method DropAxes(axes: set<Axis>)
      modifies this
      ensures Contents() == Drop(old(Contents()), axes)
    {
      levels, trackers := levels - axes, trackers - axes;
    }

    /** A rescan of the devices. */
    method Clear()
      modifies this
      ensures Contents() == FRESH
    {
      levels, trackers := map[], map[];
    }

    static method IsNear(value: int, poles: seq<int>, deadzone: int) returns (near: bool)
      ensures near == NearAPole(value, poles, deadzone)
    {
      for i := 0 to |poles|
        invariant forall j | 0 <= j < i :: Distance(value, poles[j]) > deadzone
      {
        if Distance(value, poles[i]) <= deadzone {
          return true;
        }
      }
      return false;
    }

    static method CollapsePoles(values: seq<int>, deadzone: int) returns (poles: seq<int>)
      ensures poles == DistinctPoles(values, deadzone)
    {
      poles := [];
      for i := 0 to |values|
        invariant poles == DistinctPoles(values[..i], deadzone)
      {
        assert values[..i + 1][..i] == values[..i];
        var near := IsNear(values[i], poles, deadzone);
        if !near {
          poles := poles + [values[i]];
        }
      }
      assert values[..|values|] == values;
    }

    static method AreRegular(intervals: seq<real>) returns (regular: bool)
      ensures regular == IntervalsAreRegular(intervals)
    {
      if |intervals| < PERIODIC_MIN_INTERVALS {
        return false;
      }
      var sum := 0.0;
      for i := 0 to |intervals|
        invariant sum == Sum(intervals[..i])
      {
        assert intervals[..i + 1][..i] == intervals[..i];
        sum := sum + intervals[i];
      }
      assert intervals[..|intervals|] == intervals;
      var mean := sum / |intervals| as real;
      if mean < PERIODIC_MIN_INTERVAL || mean > PERIODIC_MAX_INTERVAL {
        return false;
      }
      var slop := mean * PERIODIC_INTERVAL_SLOP;
      for i := 0 to |intervals|
        invariant forall j | 0 <= j < i :: -slop <= intervals[j] - mean <= slop
      {
        if intervals[i] - mean < -slop || slop < intervals[i] - mean {
          return false;
        }
      }
      return true;
    }

    static method NoteAbsTransition(tr: Tracker, now: real, previous: int, value: int, deadzone: int)
      returns (tracker: Tracker, activity: bool)
      ensures (tracker, activity) == Note(tr, now, previous, value, deadzone)
    {
      tracker := tr;
      if tracker.rest.None? {
        tracker := tracker.(rest := Some(previous));
      }
      tracker := tracker.(transitions := Last(tracker.transitions + [Edge(now, value)], TRANSITION_HISTORY), lastTime := Some(now));
      var poles := CollapsePoles([tracker.rest.value] + Values(tracker.transitions), deadzone);
      if |poles| >= MOTION_DISTINCT_POLES {
        tracker := tracker.(periodic := false);
        return tracker, true;
      }
      var regular := AreRegular(Last(Intervals(tracker.transitions), PERIODIC_MIN_INTERVALS));
      if regular {
        tracker := tracker.(periodic := true);
        return tracker, false;
      }
      if tracker.periodic {
        tracker := tracker.(periodic := false);
        return tracker, true;
      }
      return tracker, false;
    }

    method ReadDeliberateInput(events: seq<Event>, deadzone: Axis -> int) returns (activity: bool)
      modifies this
      ensures (Contents(), activity) == Read(old(Contents()), events, deadzone)
    {
      activity := false;
      for i := 0 to |events|
        invariant (Contents(), activity) == Read(old(Contents()), events[..i], deadzone)
      {
        assert events[..i + 1][..i] == events[..i];
        var moved := HandleEvent(events[i], deadzone);
        activity := activity || moved;
      }
      assert events[..|events|] == events;
    }

    method HandleEvent(e: Event, deadzone: Axis -> int) returns (activity: bool)
      modifies this
      ensures (Contents(), activity) == OnEvent(old(Contents()), e, deadzone)
    {
      activity := false;
      match e {
        case Key => activity := true;
        case Rel(delta) => activity := delta != 0;
        case Other =>
        case Abs(axis, time, value) =>
          if axis !in levels {
            levels := levels[axis := value];
            return;
          }
          var previous := levels[axis];
          levels := levels[axis := value];
          if Distance(value, previous) > deadzone(axis) {
            var tr := if axis in trackers then trackers[axis] else NEW_TRACKER;
            tr, activity := NoteAbsTransition(tr, time, previous, value, deadzone(axis));
            trackers := trackers[axis := tr];
          }
      }
    }

    method ConfirmPendingAxes(now: real) returns (activity: bool)
      modifies this
      ensures (Contents(), activity) == Confirm(old(Contents()), now)
    {
      activity := false;
      ghost var before := Contents();
      var rest := trackers.Keys;
      while rest != {}
        invariant rest <= trackers.Keys == before.trackers.Keys && levels == before.levels
        invariant forall axis | axis in rest :: trackers[axis] == before.trackers[axis]
        invariant forall axis | axis in trackers && axis !in rest :: trackers[axis] == ConfirmOne(before.trackers[axis], now).0
        invariant activity ==> exists axis | axis in before.trackers :: Confirms(before, axis, now)
        invariant !activity ==> forall axis | axis in before.trackers && axis !in rest :: !Confirms(before, axis, now)
        decreases rest
      {
        var axis :| axis in rest;
        var tr := trackers[axis];
        rest := rest - {axis};
        assert Confirms(before, axis, now) <==> ConfirmOne(tr, now).1;
        if !tr.periodic && tr.lastTime.Some? && tr.transitions != [] && now - tr.lastTime.value >= PENDING_CONFIRM_SECONDS {
          trackers := trackers[axis := Tracker([], false, None, Some(tr.transitions[|tr.transitions| - 1].value))];
          activity := true;
        }
      }
      assert trackers == Confirm(before, now).0.trackers;
    }

    /** The monitor's loop, with what each turn of it finds. */
    method Watch(actions: seq<Action>, deadzone: Axis -> int) returns (activity: bool)
      modifies this
      ensures (Contents(), activity) == Acted(old(Contents()), actions, deadzone)
    {
      activity := false;
      for i := 0 to |actions|
        invariant (Contents(), activity) == Acted(old(Contents()), actions[..i], deadzone)
      {
        assert actions[..i + 1][..i] == actions[..i];
        var moved := Turn(actions[i], deadzone);
        activity := activity || moved;
      }
      assert actions[..|actions|] == actions;
    }

    method Turn(action: Action, deadzone: Axis -> int) returns (activity: bool)
      modifies this
      ensures (Contents(), activity) == Act(old(Contents()), action, deadzone)
    {
      activity := false;
      match action {
        case Reading(events) => activity := ReadDeliberateInput(events, deadzone);
        case Confirming(now) => activity := ConfirmPendingAxes(now);
        case Dropping(axes) => DropAxes(axes);
        case Clearing => Clear();
      }
    }
  }
}
