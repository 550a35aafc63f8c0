/**
  Game history (app/device/game_activity.py): a monitor that turns process
  observations into start and end events, and the drain that folds those
  events into stored sessions. Any event write may fail, and a drained batch
  may be drained again.
 */
module GameHistory {
  import opened Options

  /** The system may be missing on the command line. */
  datatype Game = Game(system: Option<nat>, rom: nat)

  type Time = int

  datatype Event =
    | Start(game: Game, playedAt: Time)
    | End(game: Game, startedAt: Time, playedAt: Time)
    | Junk                                   // unreadable, or without a ROM

  // ------------------------------------------------------------ the monitor

  datatype Running = Running(game: Game, started: Time)

  datatype Watch = Watch(active: Option<Running>, log: seq<Event>)

  /** One observation of the process table, and which event writes would succeed. */
  datatype Look = Look(current: Option<Game>, now: Time, endWritten: bool, startWritten: bool)

  predicate Same(active: Option<Running>, current: Option<Game>) {
    if active.Some? then current == Some(active.value.game) else current.None?
  }

  function Poll(w: Watch, look: Look): Watch {
    if Same(w.active, look.current) then w
    else if w.active.Some? && !look.endWritten then w
    else
      var log := if w.active.Some? then w.log + [End(w.active.value.game, w.active.value.started, look.now)] else w.log;
      if look.current.None? || !look.startWritten then Watch(None, log)
      else Watch(Some(Running(look.current.value, look.now)), log + [Start(look.current.value, look.now)])
  }

  function Watched(looks: seq<Look>): Watch {
    if looks == [] then Watch(None, []) else Poll(Watched(looks[..|looks| - 1]), looks[|looks| - 1])
  }

  /** One play of a game. */
  datatype Play = Play(game: Game, start: Time, end: Time)

  function LogOf(plays: seq<Play>): (log: seq<Event>)
    ensures |log| == 2 * |plays|
  {
    if plays == [] then []
    else
      var last := plays[|plays| - 1];
      LogOf(plays[..|plays| - 1]) + [Start(last.game, last.start), End(last.game, last.start, last.end)]
  }

  ghost predicate Ordered(plays: seq<Play>) {
    forall i | 0 <= i < |plays| :: plays[i].start <= plays[i].end
  }

  ghost predicate ClockRuns(looks: seq<Look>) {
    forall i, j | 0 <= i < j < |looks| :: looks[i].now <= looks[j].now
  }

  /** The log is always a prefix of start and end pairs: whole plays, and perhaps one that is still on. */
  lemma {:induction false} TheLogIsPaired(looks: seq<Look>) returns (plays: seq<Play>)
    requires ClockRuns(looks)
    ensures var w := Watched(looks);
            && w.log == LogOf(plays) + (if w.active.Some? then [Start(w.active.value.game, w.active.value.started)] else [])
            && Ordered(plays)
            && (w.active.Some? ==> looks != [] && w.active.value.started <= looks[|looks| - 1].now)
  {
    if looks == [] {
      return [];
    }
    var n := |looks| - 1;
    plays := TheLogIsPaired(looks[..n]);
    var before, after := Watched(looks[..n]), Watched(looks);
    if before.active.Some? && after != before {
      var game, start := before.active.value.game, before.active.value.started;
      var done := Play(game, start, looks[n].now);
      assert (plays + [done])[..|plays|] == plays;
      assert LogOf(plays + [done]) == LogOf(plays) + [Start(game, start), End(game, start, looks[n].now)];
      assert before.log + [End(game, start, looks[n].now)] == LogOf(plays + [done]);
      plays := plays + [done];
    }
  }

  /** A poll whose writes succeed catches up with the process, whatever failed before. */
  lemma APollCatchesUp(looks: seq<Look>)
    requires looks != [] && looks[|looks| - 1].endWritten && looks[|looks| - 1].startWritten
    ensures var active, current := Watched(looks).active, looks[|looks| - 1].current;
            && (active.None? <==> current.None?)
            && (active.Some? && current.Some? ==> active.value.game == current.value)
  {
  }

  // --------------------------------------------------- plays are what was seen

  /** Looks i up to j see one game without a break, and the ones around them see something else. */
  ghost predicate IsRun(looks: seq<Look>, run: (nat, nat)) {
    && run.0 < run.1 < |looks| && looks[run.0].current.Some?
    && (forall m | run.0 <= m < run.1 :: looks[m].current == looks[run.0].current)
    && looks[run.1].current != looks[run.0].current
    && (run.0 > 0 ==> looks[run.0 - 1].current != looks[run.0].current)
  }

  /** A run that still goes on. */
  ghost predicate IsOpenRun(looks: seq<Look>, from: nat) {
    && from < |looks| && looks[from].current.Some?
    && (forall m | from <= m < |looks| :: looks[m].current == looks[from].current)
    && (from > 0 ==> looks[from - 1].current != looks[from].current)
  }

  function PlayOf(looks: seq<Look>, run: (nat, nat)): Play
    requires run.0 < run.1 < |looks| && looks[run.0].current.Some?
  {
    Play(looks[run.0].current.value, looks[run.0].now, looks[run.1].now)
  }

  ghost predicate AllWritten(looks: seq<Look>) {
    forall i | 0 <= i < |looks| :: looks[i].endWritten && looks[i].startWritten
  }

  /** These are all the finished runs, in their order. */
  ghost predicate TheRuns(looks: seq<Look>, runs: seq<(nat, nat)>) {
    && (forall k | 0 <= k < |runs| :: IsRun(looks, runs[k]))
    && (forall k, m | 0 <= k < m < |runs| :: runs[k].1 <= runs[m].0)
    && (forall run | IsRun(looks, run) :: run in runs)
  }

  ghost predicate PlaysOf(looks: seq<Look>, runs: seq<(nat, nat)>, plays: seq<Play>) {
    && |plays| == |runs|
    && (forall k | 0 <= k < |runs| :: IsRun(looks, runs[k]) && plays[k] == PlayOf(looks, runs[k]))
  }

  /** The game that is on now is the one that the last looks saw. */
  ghost predicate OpenIs(looks: seq<Look>, active: Option<Running>) {
    if looks == [] || looks[|looks| - 1].current.None? then active.None?
    else exists from: nat :: Since(looks, active, from)
  }

  ghost predicate Since(looks: seq<Look>, active: Option<Running>, from: nat) {
    IsOpenRun(looks, from) && active == Some(Running(looks[from].current.value, looks[from].now))
  }

  lemma RunsStayRuns(looks: seq<Look>, look: Look, run: (nat, nat))
    ensures IsRun(looks, run) ==> IsRun(looks + [look], run)
    ensures IsRun(looks + [look], run) && run.1 < |looks| ==> IsRun(looks, run)
    ensures IsRun(looks + [look], run) && run.1 == |looks| ==> IsOpenRun(looks, run.0)
  {
    var more := looks + [look];
    assert forall m | 0 <= m < |looks| :: more[m] == looks[m];
  }

  lemma OneOpenRun(looks: seq<Look>, a: nat, b: nat)
    requires IsOpenRun(looks, a) && IsOpenRun(looks, b)
    ensures a == b
  {
  }

  /** One more look that sees what the last one saw, or sees nothing again: no run ends. */
  lemma NoRunEnds(looks: seq<Look>, look: Look, runs: seq<(nat, nat)>)
    requires TheRuns(looks, runs)
    requires looks == [] || looks[|looks| - 1].current.None? || looks[|looks| - 1].current == look.current
    ensures TheRuns(looks + [look], runs)
  {
    forall run
      ensures IsRun(looks + [look], run) <==> IsRun(looks, run)
    {
      RunsStayRuns(looks, look, run);
    }
  }

  lemma ARunEnds(looks: seq<Look>, look: Look, runs: seq<(nat, nat)>, from: nat)
    requires TheRuns(looks, runs) && IsOpenRun(looks, from) && look.current != looks[from].current
    ensures TheRuns(looks + [look], runs + [(from, |looks|)])
  {
    var more, last := looks + [look], (from, |looks|);
    forall run
      ensures IsRun(more, run) <==> IsRun(looks, run) || run == last
    {
      RunsStayRuns(looks, look, run);
      if IsRun(more, run) && run.1 == |looks| {
        OneOpenRun(looks, run.0, from);
      }
    }
    forall k | 0 <= k < |runs|
      ensures runs[k].1 <= from
    {
      RunEndsBefore(looks, runs[k], from);
    }
  }

  lemma RunEndsBefore(looks: seq<Look>, run: (nat, nat), from: nat)
    requires IsRun(looks, run) && IsOpenRun(looks, from)
    ensures run.1 <= from
  {
  }

  lemma PlaysStay(looks: seq<Look>, look: Look, runs: seq<(nat, nat)>, plays: seq<Play>)
    requires PlaysOf(looks, runs, plays)
    ensures PlaysOf(looks + [look], runs, plays)
  {
    forall k | 0 <= k < |runs|
      ensures IsRun(looks + [look], runs[k]) && plays[k] == PlayOf(looks + [look], runs[k])
    {
      RunsStayRuns(looks, look, runs[k]);
    }
  }

  function OpenEvents(active: Option<Running>): seq<Event> {
    if active.Some? then [Start(active.value.game, active.value.started)] else []
  }

  /**
    While all writes succeed, the plays in the log are exactly the longest runs of
    looks that saw one game: each starts when it was first seen, and ends at the
    first look that saw something else, be it nothing or another game.
   */
  lemma {:induction false} PlaysAreTheRuns(looks: seq<Look>) returns (plays: seq<Play>, runs: seq<(nat, nat)>)
    requires AllWritten(looks)
    ensures TheRuns(looks, runs) && PlaysOf(looks, runs, plays)
    ensures Watched(looks).log == LogOf(plays) + OpenEvents(Watched(looks).active)
    ensures OpenIs(looks, Watched(looks).active)
  {
    if looks == [] {
      return [], [];
    }
    var n := |looks| - 1;
    var earlier, look := looks[..n], looks[n];
    plays, runs := PlaysAreTheRuns(earlier);
    assert earlier + [look] == looks;
    plays, runs := OneMoreLook(earlier, look, Watched(earlier), plays, runs);
  }

  lemma OneMoreLook(looks: seq<Look>, look: Look, w: Watch, plays: seq<Play>, runs: seq<(nat, nat)>)
    returns (plays': seq<Play>, runs': seq<(nat, nat)>)
    requires TheRuns(looks, runs) && PlaysOf(looks, runs, plays) && look.endWritten && look.startWritten
    requires w.log == LogOf(plays) + OpenEvents(w.active) && OpenIs(looks, w.active)
    ensures TheRuns(looks + [look], runs') && PlaysOf(looks + [look], runs', plays')
    ensures Poll(w, look).log == LogOf(plays') + OpenEvents(Poll(w, look).active)
    ensures OpenIs(looks + [look], Poll(w, look).active)
  {
    PlaysStay(looks, look, runs, plays);
    if w.active.Some? && look.current != Some(w.active.value.game) {
      plays', runs' := TheGameChanges(looks, look, w, plays, runs);
    } else {
      plays', runs' := plays, runs;
      NoGameEnds(looks, look, w, plays, runs);
    }
  }

  lemma NoGameEnds(looks: seq<Look>, look: Look, w: Watch, plays: seq<Play>, runs: seq<(nat, nat)>)
    requires TheRuns(looks, runs) && look.endWritten && look.startWritten
    requires w.log == LogOf(plays) + OpenEvents(w.active) && OpenIs(looks, w.active)
    requires w.active.Some? ==> look.current == Some(w.active.value.game)
    ensures TheRuns(looks + [look], runs)
    ensures Poll(w, look).log == LogOf(plays) + OpenEvents(Poll(w, look).active)
    ensures OpenIs(looks + [look], Poll(w, look).active)
  {
    OpenIsSeen(looks, w.active);
    NoRunEnds(looks, look, runs);
    AGameIsSeenOn(looks, look, w.active);
    APollGoesOn(w, look);
  }

  lemma OpenIsSeen(looks: seq<Look>, active: Option<Running>)
    requires OpenIs(looks, active)
    ensures looks == [] || looks[|looks| - 1].current == if active.Some? then Some(active.value.game) else None
  {
  }

  lemma APollGoesOn(w: Watch, look: Look)
    requires look.endWritten && look.startWritten && (w.active.Some? ==> look.current == Some(w.active.value.game))
    ensures var w' := Poll(w, look);
            && w'.active == (if w.active.None? && look.current.Some? then Some(Running(look.current.value, look.now)) else w.active)
            && w'.log == w.log + if w.active.None? then OpenEvents(w'.active) else []
  {
  }

  lemma TheGameChanges(looks: seq<Look>, look: Look, w: Watch, plays: seq<Play>, runs: seq<(nat, nat)>)
    returns (plays': seq<Play>, runs': seq<(nat, nat)>)
    requires TheRuns(looks, runs) && PlaysOf(looks + [look], runs, plays) && look.endWritten && look.startWritten
    requires w.log == LogOf(plays) + OpenEvents(w.active) && OpenIs(looks, w.active)
    requires w.active.Some? && look.current != Some(w.active.value.game)
    ensures TheRuns(looks + [look], runs') && PlaysOf(looks + [look], runs', plays')
    ensures Poll(w, look).log == LogOf(plays') + OpenEvents(Poll(w, look).active)
    ensures OpenIs(looks + [look], Poll(w, look).active)
  {
    var from: nat :| Since(looks, w.active, from);
    var run := (from, |looks|);
    ARunEnds(looks, look, runs, from);
    assert IsRun(looks + [look], run) by {
      assert (runs + [run])[|runs|] == run;
    }
    AGameIsSeenFirst(looks, look);
    var play := PlayOf(looks + [look], run);
    AnEndIsLogged(w, look, plays, play);
    plays', runs' := plays + [play], runs + [run];
    OneMorePlay(looks + [look], plays, runs, run);
  }

  lemma OneMorePlay(looks: seq<Look>, plays: seq<Play>, runs: seq<(nat, nat)>, run: (nat, nat))
    requires PlaysOf(looks, runs, plays) && IsRun(looks, run)
    ensures PlaysOf(looks, runs + [run], plays + [PlayOf(looks, run)])
  {
  }

  lemma AnEndIsLogged(w: Watch, look: Look, plays: seq<Play>, play: Play)
    requires w.active.Some? && w.log == LogOf(plays) + OpenEvents(w.active)
    requires play == Play(w.active.value.game, w.active.value.started, look.now)
    requires look.endWritten && look.startWritten && look.current != Some(play.game)
    ensures var w' := Poll(w, look);
            && w'.active == (if look.current.Some? then Some(Running(look.current.value, look.now)) else None)
            && w'.log == LogOf(plays + [play]) + OpenEvents(w'.active)
  {
    LogGrows(plays, play);
    assert LogOf(plays) + [Start(play.game, play.start)] + [End(play.game, play.start, play.end)] == LogOf(plays + [play]);
  }

  lemma LogGrows(plays: seq<Play>, play: Play)
    ensures LogOf(plays + [play]) == LogOf(plays) + [Start(play.game, play.start), End(play.game, play.start, play.end)]
  {
    assert (plays + [play])[..|plays|] == plays;
  }

  lemma AGameIsSeenFirst(looks: seq<Look>, look: Look)
    requires look.current.Some? && looks != [] ==> looks[|looks| - 1].current != look.current
    ensures OpenIs(looks + [look], if look.current.Some? then Some(Running(look.current.value, look.now)) else None)
  {
    if look.current.Some? {
      assert Since(looks + [look], Some(Running(look.current.value, look.now)), |looks|);
    }
  }

  lemma AGameIsSeenOn(looks: seq<Look>, look: Look, active: Option<Running>)
    requires OpenIs(looks, active) && (active.Some? ==> look.current == Some(active.value.game))
    ensures OpenIs(looks + [look], if active.None? && look.current.Some? then Some(Running(look.current.value, look.now)) else active)
  {
    if active.Some? {
      var from: nat :| Since(looks, active, from);
      assert Since(looks + [look], active, from);
    } else {
      AGameIsSeenFirst(looks, look);
    }
  }

  /** What a look amounts to when its writes may fail: the old game seems to go on, or no game seems to run yet. */
  function Seen(active: Option<Running>, look: Look): Look {
    if active.Some? && look.current != Some(active.value.game) && !look.endWritten then
      Look(Some(active.value.game), look.now, true, true)
    else if (active.None? || look.current != Some(active.value.game)) && !look.startWritten then
      Look(None, look.now, true, true)
    else Look(look.current, look.now, true, true)
  }

  function AllSeen(looks: seq<Look>): (r: seq<Look>)
    ensures |r| == |looks|
  {
    if looks == [] then []
    else AllSeen(looks[..|looks| - 1]) + [Seen(Watched(looks[..|looks| - 1]).active, looks[|looks| - 1])]
  }

  lemma {:induction false} SeenTimesAreReal(looks: seq<Look>)
    ensures AllWritten(AllSeen(looks)) && forall i | 0 <= i < |looks| :: AllSeen(looks)[i].now == looks[i].now
  {
    if looks != [] {
      var n := |looks| - 1;
      SeenTimesAreReal(looks[..n]);
      PollSees(Watched(looks[..n]), looks[n]);
    }
  }

  lemma {:induction false} WhatIsWrittenIsSeen(looks: seq<Look>)
    requires AllWritten(looks)
    ensures AllSeen(looks) == looks
  {
    if looks != [] {
      var n := |looks| - 1;
      WhatIsWrittenIsSeen(looks[..n]);
      PollSees(Watched(looks[..n]), looks[n]);
      assert looks[..n] + [looks[n]] == looks;
    }
  }

  lemma {:induction false} SeenIsWatched(looks: seq<Look>)
    ensures Watched(AllSeen(looks)) == Watched(looks)
  {
    if looks != [] {
      var n := |looks| - 1;
      SeenIsWatched(looks[..n]);
      PollSees(Watched(looks[..n]), looks[n]);
      OneMoreIsWatched(AllSeen(looks[..n]), Seen(Watched(looks[..n]).active, looks[n]));
    }
  }

  /** A failed write only delays what is seen: the log is that of some observations at the same times, all written. */
  lemma AFailedWriteDelaysWhatIsSeen(looks: seq<Look>)
    ensures AllWritten(AllSeen(looks)) && Watched(AllSeen(looks)) == Watched(looks)
    ensures forall i | 0 <= i < |looks| :: AllSeen(looks)[i].now == looks[i].now
    ensures AllWritten(looks) ==> AllSeen(looks) == looks
  {
    SeenTimesAreReal(looks);
    SeenIsWatched(looks);
    if AllWritten(looks) {
      WhatIsWrittenIsSeen(looks);
    }
  }

  lemma OneMoreIsWatched(looks: seq<Look>, look: Look)
    ensures Watched(looks + [look]) == Poll(Watched(looks), look)
  {
    assert (looks + [look])[..|looks|] == looks;
  }

  lemma PollSees(w: Watch, look: Look)
    ensures var seen := Seen(w.active, look);
            && Poll(w, seen) == Poll(w, look) && seen.endWritten && seen.startWritten && seen.now == look.now
            && (look.endWritten && look.startWritten ==> seen == look)
  {
  }

  // -------------------------------------------------------------- the drain

  /** What is fixed while events are drained: how ROM paths resolve, and what is known of a ROM. */
  datatype Library = Library(resolve: nat -> nat, folder: nat -> Option<nat>, title: nat -> nat, fingerprint: nat -> Option<nat>)

  datatype Key = Key(start: Time, system: nat, title: nat, rom: nat)

  datatype Session = Session(key: Key, fingerprint: Option<nat>)

  datatype Stored = Stored(duration: Option<nat>, ended: Time, fingerprint: Option<nat>)

  datatype State = State(active: map<nat, Session>, history: map<Key, Stored>)

  const EMPTY := State(map[], map[])

  function SystemOf(lib: Library, g: Game): Option<nat> {
    if g.system.Some? then g.system else lib.folder(lib.resolve(g.rom))
  }

  /** A row that exists is merged, new fields winning. */
  function Upsert(history: map<Key, Stored>, key: Key, s: Stored): map<Key, Stored> {
    if key !in history then history[key := s]
    else history[key := Stored(
      if s.duration.Some? then s.duration else history[key].duration,
      s.ended,
      if s.fingerprint.Some? then s.fingerprint else history[key].fingerprint)]
  }

  function Closed(history: map<Key, Stored>, session: Session, end: Time): map<Key, Stored> {
    Upsert(history, session.key,
           Stored(if session.key.start <= end then Some(end - session.key.start) else None, end, session.fingerprint))
  }

  function Handle(lib: Library, st: State, e: Event): State {
    match e
    case Junk => st
    case Start(g, playedAt) =>
      var rom, system := lib.resolve(g.rom), SystemOf(lib, g);
      if system.None? then st
      else st.(active := st.active[rom := Session(Key(playedAt, system.value, lib.title(g.rom), rom), lib.fingerprint(rom))])
    case End(g, startedAt, playedAt) =>
      var rom := lib.resolve(g.rom);
      if rom in st.active then State(st.active - {rom}, Closed(st.history, st.active[rom], playedAt))
      else if g.system.Some? then
        st.(history := Closed(st.history, Session(Key(startedAt, g.system.value, lib.title(g.rom), rom), None), playedAt))
      else st
  }

  function Drain(lib: Library, st: State, events: seq<Event>): State {
    if events == [] then st
    else Handle(lib, Drain(lib, st, events[..|events| - 1]), events[|events| - 1])
  }

  /** One call drains the events from one position of the log up to another. */
  datatype Batch = Batch(from: nat, upTo: nat)

  function DrainedUpTo(batches: seq<Batch>): nat {
    if batches == [] then 0 else batches[|batches| - 1].upTo
  }

  /** A batch starts where files are left: at new events, or anywhere within what was drained before. */
  ghost predicate Schedule(batches: seq<Batch>, log: seq<Event>) {
    batches == [] ||
    (var n := |batches| - 1;
     Schedule(batches[..n], log) && batches[n].from <= DrainedUpTo(batches[..n]) <= batches[n].upTo <= |log|)
  }

  function Drained(lib: Library, log: seq<Event>, batches: seq<Batch>): State
    requires Schedule(batches, log)
  {
    if batches == [] then EMPTY
    else
      var last := batches[|batches| - 1];
      Drain(lib, Drained(lib, log, batches[..|batches| - 1]), log[last.from..last.upTo])
  }

  // -------------------------------------------------- what one pass stores

  function SessionOf(lib: Library, p: Play): Option<Session> {
    var rom := lib.resolve(p.game.rom);
    match SystemOf(lib, p.game)
    case None => None
    case Some(system) => Some(Session(Key(p.start, system, lib.title(p.game.rom), rom), lib.fingerprint(rom)))
  }

  function StoredOf(p: Play, s: Session): Stored
    requires p.start <= p.end
  {
    Stored(Some(p.end - p.start), p.end, s.fingerprint)
  }

  function EventAt(plays: seq<Play>, p: nat): Event
    requires p < 2 * |plays|
  {
    var play := plays[p / 2];
    if p % 2 == 0 then Start(play.game, play.start) else End(play.game, play.start, play.end)
  }

  lemma {:induction false} LogAt(plays: seq<Play>, p: nat)
    requires p < 2 * |plays|
    ensures LogOf(plays)[p] == EventAt(plays, p)
  {
    var n := |plays| - 1;
    if p < 2 * n {
      LogAt(plays[..n], p);
    } else {
      assert p / 2 == n;
    }
  }

  /** The sessions that positions c up to p of the log complete. */
  function Writes(lib: Library, plays: seq<Play>, c: nat, p: nat): map<Key, Stored>
    requires c <= p <= 2 * |plays| && Ordered(plays)
  {
    if p == c then map[]
    else
      var before := Writes(lib, plays, c, p - 1);
      var play := plays[(p - 1) / 2];
      if (p - 1) % 2 == 1 && SessionOf(lib, play).Some? then
        before[SessionOf(lib, play).value.key := StoredOf(play, SessionOf(lib, play).value)]
      else before
  }

  lemma {:induction false} WritesJoin(lib: Library, plays: seq<Play>, a: nat, c: nat, p: nat)
    requires a <= c <= p <= 2 * |plays| && Ordered(plays)
    ensures Writes(lib, plays, a, p) == Writes(lib, plays, a, c) + Writes(lib, plays, c, p)
  {
    if c < p {
      WritesJoin(lib, plays, a, c, p - 1);
    }
  }

  /** The play that is on at a position of the log, if its session is known. */
  function OpenAt(lib: Library, plays: seq<Play>, p: nat): Option<Session>
    requires p <= 2 * |plays|
  {
    if p % 2 == 1 then SessionOf(lib, plays[p / 2]) else None
  }

  function ActiveOf(open: Option<Session>): map<nat, Session> {
    if open.Some? then map[open.value.key.rom := open.value] else map[]
  }

  function Row(history: map<Key, Stored>, key: Key): Option<Stored> {
    if key in history then Some(history[key]) else None
  }

  /** Two histories agree, except perhaps on the row of a play that is still on. */
  ghost predicate Agree(h: map<Key, Stored>, h': map<Key, Stored>, open: Option<Session>) {
    forall key | open.None? || key != open.value.key :: Row(h, key) == Row(h', key)
  }

  ghost predicate Fingerprinted(lib: Library, h: map<Key, Stored>) {
    forall key | key in h :: h[key].fingerprint == lib.fingerprint(key.rom)
  }

  /** Between two calls: everything up to the position is stored. */
  ghost predicate UpToDate(lib: Library, plays: seq<Play>, p: nat, st: State)
    requires p <= 2 * |plays| && Ordered(plays)
  {
    && st.active == ActiveOf(OpenAt(lib, plays, p))
    && Agree(st.history, Writes(lib, plays, 0, p), OpenAt(lib, plays, p))
    && Fingerprinted(lib, st.history)
  }

  // --------------------------------------------------------- draining again

  /** While old events are drained again: only the play that is on now may linger among the active ones. */
  ghost predicate Lingering(active: map<nat, Session>, open: Option<Session>, now: Option<Session>) {
    && (forall rom | rom in active ::
          || (now.Some? && rom == now.value.key.rom && active[rom] == now.value)
          || (open.Some? && rom == open.value.key.rom && active[rom] == open.value))
    && (now.Some? ==> now.value.key.rom in active && active[now.value.key.rom] == now.value)
  }

  ghost predicate Replayed(lib: Library, st: State, base: map<Key, Stored>, open: Option<Session>, now: Option<Session>) {
    && Lingering(st.active, open, now) && Agree(st.history, base, open) && Fingerprinted(lib, st.history)
    && (open.Some? ==> open.value.fingerprint == lib.fingerprint(open.value.key.rom))
  }

  lemma AStartReplays(lib: Library, plays: seq<Play>, st: State, base: map<Key, Stored>, open: Option<Session>, p: nat)
    requires p < 2 * |plays| && p % 2 == 0 && Replayed(lib, st, base, open, None)
    ensures Replayed(lib, Handle(lib, st, EventAt(plays, p)), base, open, OpenAt(lib, plays, p + 1))
  {
    assert (p + 1) / 2 == p / 2;
  }

  function WriteAt(lib: Library, plays: seq<Play>, p: nat, rows: map<Key, Stored>): map<Key, Stored>
    requires p < 2 * |plays| && Ordered(plays)
  {
    var play := plays[p / 2];
    var session := SessionOf(lib, play);
    if p % 2 == 1 && session.Some? then rows[session.value.key := StoredOf(play, session.value)] else rows
  }

  /** Closing a session stores its row, whatever the row held before. */
  lemma ClosingStores(lib: Library, h: map<Key, Stored>, session: Session, end: Time)
    requires Fingerprinted(lib, h) && session.fingerprint == lib.fingerprint(session.key.rom)
    ensures Fingerprinted(lib, Closed(h, session, end))
    ensures forall key | key != session.key :: Row(Closed(h, session, end), key) == Row(h, key)
    ensures session.key.start <= end ==>
              Row(Closed(h, session, end), session.key) == Some(Stored(Some(end - session.key.start), end, session.fingerprint))
  {
  }

  lemma AnEndReplays(lib: Library, plays: seq<Play>, st: State, base: map<Key, Stored>, open: Option<Session>, p: nat)
    requires p < 2 * |plays| && p % 2 == 1 && Ordered(plays) && Replayed(lib, st, base, open, OpenAt(lib, plays, p))
    ensures Replayed(lib, Handle(lib, st, EventAt(plays, p)), WriteAt(lib, plays, p, base), open, None)
  {
    var play := plays[p / 2];
    var rom := lib.resolve(play.game.rom);
    if rom in st.active {
      ClosingStores(lib, st.history, st.active[rom], play.end);
    }
    var rows := WriteAt(lib, plays, p, base);
    var after := Handle(lib, st, EventAt(plays, p));
    forall key | open.None? || key != open.value.key
      ensures Row(after.history, key) == Row(rows, key)
    {
      assert Row(st.history, key) == Row(base, key);
    }
  }

  lemma WritesGrow(lib: Library, plays: seq<Play>, base: map<Key, Stored>, c: nat, p: nat)
    requires c <= p < 2 * |plays| && Ordered(plays)
    ensures base + Writes(lib, plays, c, p + 1) == WriteAt(lib, plays, p, base + Writes(lib, plays, c, p))
  {
  }

  lemma DrainGrows(lib: Library, plays: seq<Play>, st: State, c: nat, p: nat)
    requires c <= p < 2 * |plays|
    ensures Drain(lib, st, LogOf(plays)[c..p + 1]) == Handle(lib, Drain(lib, st, LogOf(plays)[c..p]), EventAt(plays, p))
  {
    LogAt(plays, p);
    assert LogOf(plays)[c..p + 1][..p - c] == LogOf(plays)[c..p];
  }

  /** From a start event on, draining again rewrites the same rows. */
  lemma {:induction false} FromAStart(lib: Library, plays: seq<Play>, st: State, base: map<Key, Stored>, open: Option<Session>, c: nat, p: nat)
    requires c <= p <= 2 * |plays| && c % 2 == 0 && Ordered(plays) && Replayed(lib, st, base, open, None)
    ensures Replayed(lib, Drain(lib, st, LogOf(plays)[c..p]), base + Writes(lib, plays, c, p), open, OpenAt(lib, plays, p))
  {
    if c == p {
      assert base + map[] == base;
    } else {
      FromAStart(lib, plays, st, base, open, c, p - 1);
      OneMoreReplays(lib, plays, st, base, open, c, p - 1);
    }
  }

  lemma OneMoreReplays(lib: Library, plays: seq<Play>, st: State, base: map<Key, Stored>, open: Option<Session>, c: nat, p: nat)
    requires c <= p < 2 * |plays| && Ordered(plays)
    requires Replayed(lib, Drain(lib, st, LogOf(plays)[c..p]), base + Writes(lib, plays, c, p), open, OpenAt(lib, plays, p))
    ensures Replayed(lib, Drain(lib, st, LogOf(plays)[c..p + 1]), base + Writes(lib, plays, c, p + 1), open, OpenAt(lib, plays, p + 1))
  {
    var before, rows := Drain(lib, st, LogOf(plays)[c..p]), base + Writes(lib, plays, c, p);
    StepReplays(lib, plays, before, rows, open, p);
    DrainGrows(lib, plays, st, c, p);
    WritesGrow(lib, plays, base, c, p);
  }

  lemma StepReplays(lib: Library, plays: seq<Play>, st: State, base: map<Key, Stored>, open: Option<Session>, p: nat)
    requires p < 2 * |plays| && Ordered(plays) && Replayed(lib, st, base, open, OpenAt(lib, plays, p))
    ensures Replayed(lib, Handle(lib, st, EventAt(plays, p)), WriteAt(lib, plays, p, base), open, OpenAt(lib, plays, p + 1))
  {
    if p % 2 == 0 {
      AStartReplays(lib, plays, st, base, open, p);
    } else {
      AnEndReplays(lib, plays, st, base, open, p);
    }
  }

  // ------------------------------------------------------- one call of a drain

  lemma {:induction false} DrainJoins(lib: Library, st: State, xs: seq<Event>, ys: seq<Event>)
    ensures Drain(lib, st, xs + ys) == Drain(lib, Drain(lib, st, xs), ys)
  {
    if ys == [] {
      assert xs + ys == xs;
    } else {
      DrainJoins(lib, st, xs, ys[..|ys| - 1]);
      assert (xs + ys)[..|xs + ys| - 1] == xs + ys[..|ys| - 1];
    }
  }

  lemma DrainInTwo(lib: Library, plays: seq<Play>, st: State, a: nat, c: nat, p: nat)
    requires a <= c <= p <= 2 * |plays|
    ensures Drain(lib, st, LogOf(plays)[a..p]) == Drain(lib, Drain(lib, st, LogOf(plays)[a..c]), LogOf(plays)[c..p])
  {
    DrainJoins(lib, st, LogOf(plays)[a..c], LogOf(plays)[c..p]);
    SlicesJoin(LogOf(plays), a, c, p);
  }

  lemma SlicesJoin<T>(xs: seq<T>, a: nat, c: nat, p: nat)
    requires a <= c <= p <= |xs|
    ensures xs[a..p] == xs[a..c] + xs[c..p]
  {
  }

  /** After a replay up to where it began, everything is as it was. */
  lemma ReplayedIsUpToDate(lib: Library, plays: seq<Play>, st: State, rows: map<Key, Stored>, open: Option<Session>, p: nat)
    requires p <= 2 * |plays| && Ordered(plays) && rows == Writes(lib, plays, 0, p)
    requires Replayed(lib, st, rows, open, OpenAt(lib, plays, p)) && (open.None? || open == OpenAt(lib, plays, p))
    ensures UpToDate(lib, plays, p, st)
  {
    assert st.active == ActiveOf(OpenAt(lib, plays, p));
  }

  lemma ItWasStored(lib: Library, plays: seq<Play>, a: nat, f: nat)
    requires a < f <= 2 * |plays| && a % 2 == 1 && Ordered(plays) && SessionOf(lib, plays[a / 2]).Some?
    ensures SessionOf(lib, plays[a / 2]).value.key in Writes(lib, plays, 0, f)
  {
    WritesJoin(lib, plays, 0, a + 1, f);
    assert (a + 1 - 1) / 2 == a / 2;
  }

  /** Without its start, a session is rebuilt from the end event and merged into the row it already has. */
  lemma ARebuiltEnd(lib: Library, play: Play, h: map<Key, Stored>, rows: map<Key, Stored>, open: Option<Session>)
    requires play.start <= play.end && play.game.system.Some?
    requires Agree(h, rows, open) && Fingerprinted(lib, h)
    requires var session := SessionOf(lib, play).value;
             session.key in rows && (open.Some? ==> open.value.key != session.key)
    ensures var session := SessionOf(lib, play).value;
            var h' := Closed(h, Session(session.key, None), play.end);
            Agree(h', rows[session.key := StoredOf(play, session)], open) && Fingerprinted(lib, h')
  {
    var session := SessionOf(lib, play).value;
    assert Row(h, session.key) == Row(rows, session.key);
    var h' := Closed(h, Session(session.key, None), play.end);
    forall key | open.None? || key != open.value.key
      ensures Row(h', key) == Row(rows[session.key := StoredOf(play, session)], key)
    {
      assert Row(h, key) == Row(rows, key);
    }
  }

  /** The end of a play whose start is not drained again with it. */
  lemma ALoneEndReplays(lib: Library, plays: seq<Play>, st: State, a: nat, f: nat) returns (base: map<Key, Stored>)
    requires a < f <= 2 * |plays| && a % 2 == 1 && Ordered(plays) && UpToDate(lib, plays, f, st)
    ensures Replayed(lib, Handle(lib, st, EventAt(plays, a)), base, OpenAt(lib, plays, f), None)
    ensures base == Writes(lib, plays, 0, f) || base == WriteAt(lib, plays, a, Writes(lib, plays, 0, f))
  {
    base := Writes(lib, plays, 0, f);
    var play, open := plays[a / 2], OpenAt(lib, plays, f);
    var rom := lib.resolve(play.game.rom);
    if rom in st.active {
      ClosingStores(lib, st.history, st.active[rom], play.end);
    } else if play.game.system.Some? {
      ItWasStored(lib, plays, a, f);
      assert open.Some? ==> open.value.key.rom in st.active;
      ARebuiltEnd(lib, play, st.history, base, open);
      base := WriteAt(lib, plays, a, base);
    }
  }

  lemma Absorbed<K, V>(m: map<K, V>, a: map<K, V>, b: map<K, V>)
    requires m == a + b
    ensures m + b == m
  {
  }

  lemma AbsorbedInTwo<K, V>(m: map<K, V>, a: map<K, V>, b: map<K, V>, c: map<K, V>)
    requires m == a + (b + c)
    ensures m + c == m && m + b + c == m
  {
  }

  lemma WrittenOnce(lib: Library, plays: seq<Play>, a: nat, f: nat, base: map<Key, Stored>)
    requires a < f <= 2 * |plays| && a % 2 == 1 && Ordered(plays)
    requires base == Writes(lib, plays, 0, f) || base == WriteAt(lib, plays, a, Writes(lib, plays, 0, f))
    ensures base + Writes(lib, plays, a + 1, f) == Writes(lib, plays, 0, f)
  {
    WritesJoin(lib, plays, 0, a, f);
    WritesJoin(lib, plays, a, a + 1, f);
    AbsorbedInTwo(Writes(lib, plays, 0, f), Writes(lib, plays, 0, a), Writes(lib, plays, a, a + 1), Writes(lib, plays, a + 1, f));
    FirstWrite(lib, plays, a, Writes(lib, plays, 0, f));
  }

  lemma FirstWrite(lib: Library, plays: seq<Play>, a: nat, rows: map<Key, Stored>)
    requires a < 2 * |plays| && Ordered(plays)
    ensures WriteAt(lib, plays, a, rows) == rows + Writes(lib, plays, a, a + 1)
  {
    WritesGrow(lib, plays, rows, a, a);
    assert rows + Writes(lib, plays, a, a) == rows;
  }

  /** Draining again what was drained before changes nothing. */
  lemma DrainingAgainChangesNothing(lib: Library, plays: seq<Play>, st: State, a: nat, f: nat)
    requires a <= f <= 2 * |plays| && Ordered(plays) && UpToDate(lib, plays, f, st)
    ensures UpToDate(lib, plays, f, Drain(lib, st, LogOf(plays)[a..f]))
  {
    var all, open := Writes(lib, plays, 0, f), OpenAt(lib, plays, f);
    if a % 2 == 0 {
      FromAStart(lib, plays, st, all, open, a, f);
      WritesJoin(lib, plays, 0, a, f);
      Absorbed(all, Writes(lib, plays, 0, a), Writes(lib, plays, a, f));
      ReplayedIsUpToDate(lib, plays, Drain(lib, st, LogOf(plays)[a..f]), all, open, f);
    } else if a < f {
      var base := ALoneEndReplays(lib, plays, st, a, f);
      var st1 := Handle(lib, st, EventAt(plays, a));
      FirstEvent(lib, plays, st, a, f);
      FromAStart(lib, plays, st1, base, open, a + 1, f);
      WrittenOnce(lib, plays, a, f, base);
      ReplayedIsUpToDate(lib, plays, Drain(lib, st1, LogOf(plays)[a + 1..f]), all, open, f);
    }
  }

  lemma FirstEvent(lib: Library, plays: seq<Play>, st: State, a: nat, p: nat)
    requires a < p <= 2 * |plays|
    ensures Drain(lib, st, LogOf(plays)[a..p]) == Drain(lib, Handle(lib, st, EventAt(plays, a)), LogOf(plays)[a + 1..p])
  {
    DrainInTwo(lib, plays, st, a, a + 1, p);
    DrainGrows(lib, plays, st, a, a);
  }

  /** The play that is on ends: now its row is right, whatever was there before. */
  lemma TheOpenPlayEnds(lib: Library, plays: seq<Play>, st: State, f: nat)
    requires f < 2 * |plays| && f % 2 == 1 && Ordered(plays) && UpToDate(lib, plays, f, st)
    ensures UpToDate(lib, plays, f + 1, Handle(lib, st, EventAt(plays, f)))
  {
    var play := plays[f / 2];
    var open := SessionOf(lib, play);
    var after := Handle(lib, st, EventAt(plays, f));
    if open.Some? {
      ClosingStores(lib, st.history, open.value, play.end);
      assert after.history == Closed(st.history, open.value, play.end);
    }
    forall key
      ensures Row(after.history, key) == Row(Writes(lib, plays, 0, f + 1), key)
    {
      assert open.Some? && key != open.value.key ==> Row(st.history, key) == Row(Writes(lib, plays, 0, f), key);
    }
    assert after.active == map[];
  }

  lemma NewEventsFromAStart(lib: Library, plays: seq<Play>, st: State, c: nat, b: nat)
    requires c <= b <= 2 * |plays| && c % 2 == 0 && Ordered(plays) && UpToDate(lib, plays, c, st)
    ensures UpToDate(lib, plays, b, Drain(lib, st, LogOf(plays)[c..b]))
  {
    var rows := Writes(lib, plays, 0, c);
    FromAStart(lib, plays, st, rows, None, c, b);
    WritesJoin(lib, plays, 0, c, b);
    ReplayedIsUpToDate(lib, plays, Drain(lib, st, LogOf(plays)[c..b]), rows + Writes(lib, plays, c, b), None, b);
  }

  lemma NewEventsAreStored(lib: Library, plays: seq<Play>, st: State, f: nat, b: nat)
    requires f <= b <= 2 * |plays| && Ordered(plays) && UpToDate(lib, plays, f, st)
    ensures UpToDate(lib, plays, b, Drain(lib, st, LogOf(plays)[f..b]))
  {
    if f % 2 == 0 {
      NewEventsFromAStart(lib, plays, st, f, b);
    } else if f < b {
      TheOpenPlayEnds(lib, plays, st, f);
      FirstEvent(lib, plays, st, f, b);
      NewEventsFromAStart(lib, plays, Handle(lib, st, EventAt(plays, f)), f + 1, b);
    }
  }

  // ----------------------------------------------------------- main results

  lemma {:induction false} AfterEveryCallItIsUpToDate(lib: Library, plays: seq<Play>, batches: seq<Batch>)
    requires Ordered(plays) && Schedule(batches, LogOf(plays))
    ensures DrainedUpTo(batches) <= 2 * |plays|
    ensures UpToDate(lib, plays, DrainedUpTo(batches), Drained(lib, LogOf(plays), batches))
  {
    if batches != [] {
      var n := |batches| - 1;
      AfterEveryCallItIsUpToDate(lib, plays, batches[..n]);
      var st, f := Drained(lib, LogOf(plays), batches[..n]), DrainedUpTo(batches[..n]);
      var last := batches[n];
      DrainingAgainChangesNothing(lib, plays, st, last.from, f);
      NewEventsAreStored(lib, plays, Drain(lib, st, LogOf(plays)[last.from..f]), f, last.upTo);
      DrainInTwo(lib, plays, st, last.from, f, last.upTo);
    }
  }

  /** The main result: however a complete log is batched, and however often batches are drained again, the outcome is that of one pass. */
  lemma HistoryDoesNotDependOnDraining(lib: Library, plays: seq<Play>, batches: seq<Batch>)
    requires Ordered(plays) && Schedule(batches, LogOf(plays)) && DrainedUpTo(batches) == 2 * |plays|
    ensures Drained(lib, LogOf(plays), batches) == Drain(lib, EMPTY, LogOf(plays))
    ensures Drained(lib, LogOf(plays), batches) == State(map[], Writes(lib, plays, 0, 2 * |plays|))
  {
    var all := 2 * |plays|;
    AfterEveryCallItIsUpToDate(lib, plays, batches);
    SameRows(Drained(lib, LogOf(plays), batches).history, Writes(lib, plays, 0, all));
    NewEventsAreStored(lib, plays, EMPTY, 0, all);
    assert LogOf(plays)[0..all] == LogOf(plays);
    SameRows(Drain(lib, EMPTY, LogOf(plays)).history, Writes(lib, plays, 0, all));
  }

  lemma SameRows(h: map<Key, Stored>, h': map<Key, Stored>)
    requires forall key :: Row(h, key) == Row(h', key)
    ensures h == h'
  {
    forall key
      ensures key in h <==> key in h'
      ensures key in h ==> h[key] == h'[key]
    {
      assert Row(h, key) == Row(h', key);
    }
  }

  /** What is stored: each play whose system is known, with its duration, unless a later play has the same identity. */
  lemma {:induction false} EveryPlayIsStored(lib: Library, plays: seq<Play>, i: nat, p: nat)
    requires Ordered(plays) && i < |plays| && SessionOf(lib, plays[i]).Some? && 2 * i + 2 <= p <= 2 * |plays|
    requires forall j | i < j < |plays| && SessionOf(lib, plays[j]).Some? ::
               SessionOf(lib, plays[j]).value.key != SessionOf(lib, plays[i]).value.key
    ensures var session := SessionOf(lib, plays[i]).value;
            Row(Writes(lib, plays, 0, p), session.key) == Some(Stored(Some(plays[i].end - plays[i].start), plays[i].end, session.fingerprint))
  {
    if p > 2 * i + 2 {
      EveryPlayIsStored(lib, plays, i, p - 1);
      assert i < (p - 1) / 2 < |plays|;
    } else {
      assert (p - 1) / 2 == i;
    }
  }

  /** From the process table to the stored rows: once nothing runs any more, any draining stores the plays that were seen. */
  lemma WhatIsSeenIsStored(lib: Library, looks: seq<Look>, batches: seq<Batch>) returns (plays: seq<Play>)
    requires ClockRuns(looks) && Watched(looks).active.None?
    requires Schedule(batches, Watched(looks).log) && DrainedUpTo(batches) == |Watched(looks).log|
    ensures Ordered(plays) && Watched(looks).log == LogOf(plays)
    ensures Drained(lib, Watched(looks).log, batches) == State(map[], Writes(lib, plays, 0, 2 * |plays|))
  {
    plays := TheLogIsPaired(looks);
    assert Watched(looks).log == LogOf(plays);
    HistoryDoesNotDependOnDraining(lib, plays, batches);
  }

  /** While all writes succeed, that is a row for each longest run of looks that saw one game. */
  lemma EachRunIsStored(lib: Library, looks: seq<Look>, batches: seq<Batch>) returns (plays: seq<Play>, runs: seq<(nat, nat)>)
    requires ClockRuns(looks) && AllWritten(looks) && looks != [] && looks[|looks| - 1].current.None?
    requires Schedule(batches, Watched(looks).log) && DrainedUpTo(batches) == |Watched(looks).log|
    ensures TheRuns(looks, runs) && PlaysOf(looks, runs, plays) && Ordered(plays)
    ensures Drained(lib, Watched(looks).log, batches) == State(map[], Writes(lib, plays, 0, 2 * |plays|))
  {
    plays, runs := PlaysAreTheRuns(looks);
    assert Watched(looks).log == LogOf(plays);
    HistoryDoesNotDependOnDraining(lib, plays, batches);
  }

  // ------------------------------------------------------------- the loops

  class GameProcessMonitor {
    var active: Option<Running>
    var log: seq<Event>

    function Contents(): Watch
      reads this
    {
      Watch(active, log)
    }

    constructor ()
      ensures Contents() == Watch(None, [])
    {
      active, log := None, [];
    }

    method PollOnce(look: Look)
      modifies this
      ensures Contents() == Poll(old(Contents()), look)
    {
      var changed := !Same(active, look.current);
      if active.Some? && changed {
        if !look.endWritten {
          return;
        }
        log := log + [End(active.value.game, active.value.started, look.now)];
        active := None;
      }
      if look.current.Some? && changed {
        if !look.startWritten {
          return;
        }
        log := log + [Start(look.current.value, look.now)];
        active := Some(Running(look.current.value, look.now));
      }
    }
  }

  datatype Completed = Completed(session: Session, end: Time)

  function StoreAll(history: map<Key, Stored>, sessions: seq<Completed>): map<Key, Stored> {
    if sessions == [] then history
    else
      var last := sessions[|sessions| - 1];
      Closed(StoreAll(history, sessions[..|sessions| - 1]), last.session, last.end)
  }

  class GameHistoryStore {
    var active: map<nat, Session>
    var history: map<Key, Stored>

    function Contents(): State
      reads this
    {
      State(active, history)
    }

    constructor ()
      ensures Contents() == EMPTY
    {
      active, history := map[], map[];
    }

    /** The sessions completed by the events are stored once all events are read. */
    method CollectGameEventSessions(lib: Library, events: seq<Event>) returns (sessions: seq<Completed>)
      modifies this
      ensures Contents() == Drain(lib, old(Contents()), events)
      ensures history == StoreAll(old(history), sessions)
    {
      sessions := [];
      for i := 0 to |events|
        invariant history == old(history)
        invariant State(active, StoreAll(history, sessions)) == Drain(lib, old(Contents()), events[..i])
      {
        assert events[..i + 1][..i] == events[..i];
        match events[i] {
          case Junk =>
          case Start(g, playedAt) =>
            var rom, system := lib.resolve(g.rom), SystemOf(lib, g);
            if system.Some? {
              active := active[rom := Session(Key(playedAt, system.value, lib.title(g.rom), rom), lib.fingerprint(rom))];
            }
          case End(g, startedAt, playedAt) =>
            var rom := lib.resolve(g.rom);
            var session := None;
            if rom in active {
              session := Some(active[rom]);
              active := active - {rom};
            } else if g.system.Some? {
              session := Some(Session(Key(startedAt, g.system.value, lib.title(g.rom), rom), None));
            }
            if session.Some? {
              var more := sessions + [Completed(session.value, playedAt)];
              assert more[..|sessions|] == sessions;
              sessions := more;
            }
        }
      }
      assert events[..|events|] == events;
      StoreGameplayHistory(sessions);
    }

    method StoreGameplayHistory(sessions: seq<Completed>)
      modifies this`history
      ensures history == StoreAll(old(history), sessions)
    {
      for i := 0 to |sessions|
        invariant history == StoreAll(old(history), sessions[..i])
      {
        assert sessions[..i + 1][..i] == sessions[..i];
        history := Closed(history, sessions[i].session, sessions[i].end);
      }
      assert sessions[..|sessions|] == sessions;
    }
  }
}
