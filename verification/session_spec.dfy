/**
 * The game session as a value, and one function per event that changes it:
 * the timer callbacks (the countdown tick, the clear timer, the spawn timer),
 * a click on a drop, and the commands start, pause, resume, reset and
 * set-difficulty. Timers are not run: a pending timeout is a flag, and each
 * callback is an event that can only fire while its flag is set.
 */
module SessionSpec {
  import opened Wrappers
  import opened Random
  import opened Shuffle
  import opened GameRules
  import opened Grid

  /**
   * The module-level state of the game: currentCans, gameActive, paused,
   * timeLeft, currentDifficulty, the streak tracker, the grid, whether the
   * countdown interval is live and whether clearTimeoutId and spawnTimeoutId
   * are set.
   */
  datatype Snapshot = Snapshot(
    cans: int,
    active: bool,
    paused: bool,
    timeLeft: int,
    difficulty: Difficulty,
    tracker: Tracker,
    cells: seq<Cell>,
    clockRunning: bool,
    clearPending: bool,
    spawnPending: bool)

  /** The state after an event, and Some(won) when the event ran endGame(won). */
  datatype Step = Step(next: Snapshot, over: Option<bool>)

  /** What every reachable state satisfies. */
  predicate Inv(s: Snapshot)
  {
    && |s.cells| == CELLS
    && s.cans >= 0
    && s.timeLeft >= 0
    && (s.paused ==> s.active)
    && s.clockRunning == s.active
    && (s.active ==> s.cans < GOAL_CANS && s.timeLeft >= 1)
    && (!s.active ==> !s.spawnPending)
    && Occupied(s.cells) <= 1
    && (s.clearPending <==> s.active && Occupied(s.cells) == 1)
    && Coherent(s.tracker)
  }

  /** The page after loading: an empty grid, the hard difficulty and its time, nothing running. */
  function Initial(): (s: Snapshot)
    ensures Inv(s) && !s.active && s.cans == 0 && s.timeLeft == Settings(s.difficulty).time
    ensures s.difficulty == Hard && s.cells == Cleared(CELLS) && s.tracker == Fresh
  {
    Snapshot(0, false, false, Settings(Hard).time, Hard, Fresh, Cleared(CELLS), false, false, false)
  }

  /** endGame: the session stops, the countdown and both timeouts are cancelled; score and grid stay. */
  function EndGame(s: Snapshot): (r: Snapshot)
    ensures !r.active && !r.clockRunning && !r.clearPending && !r.spawnPending
    ensures r.cans == s.cans && r.cells == s.cells && r.timeLeft == s.timeLeft
    ensures r.tracker == s.tracker && r.paused == s.paused && r.difficulty == s.difficulty
  {
    s.(active := false, clockRunning := false, clearPending := false, spawnPending := false)
  }

  /** The type the next spawn draws with the random value u. */
  function NextItem(s: Snapshot, u: Unit): (t: ItemType)
    ensures t == Clean <==> 100 * u.num < CleanChance(s.difficulty, s.tracker.streak) * u.den
    ensures s.tracker.streak.count < STREAK_THRESHOLD ==>
      (t == Clean <==> 100 * u.num < Settings(s.difficulty).baseCleanChance * u.den)
  {
    Draw(CleanChance(s.difficulty, s.tracker.streak), u)
  }

  /**
   * spawnWaterCan: when the session runs, draw an item, put it in the first
   * empty cell of a shuffled order after clearing the grid, record it in the
   * streak tracker and arm the clear timer.
   */
  function Spawn(s: Snapshot, u: Unit, us: seq<Unit>): (r: Snapshot)
    requires |s.cells| == CELLS && CELLS <= |us| + 1
    ensures |r.cells| == CELLS
    ensures !s.active || s.paused ==> r == s
    ensures s.active && !s.paused ==>
      && Occupied(r.cells) == 1
      && r.clearPending
      && r.tracker == Record(s.tracker, NextItem(s, u))
      && r.(cells := s.cells, tracker := s.tracker, clearPending := s.clearPending) == s
    ensures s.active && !s.paused ==>
      exists t :: 0 <= t < CELLS && r.cells[t] == Holds(NextItem(s, u)) &&
        (Occupied(s.cells) < CELLS ==> s.cells[t] == Empty)
  {
    if !s.active || s.paused then s
    else
      var item := NextItem(s, u);
      var order := Shuffled<nat>(Indices(CELLS), us);
      ShuffledIndices(CELLS, us);
      assert |order| == CELLS && forall k :: 0 <= k < |order| ==> order[k] < CELLS;
      var target := Target(order, s.cells);
      TargetIsEmptyIfAny(order, s.cells);
      s.(cells := Placed(CELLS, target, item), tracker := Record(s.tracker, item), clearPending := true)
  }

  lemma TargetIsEmptyIfAny(order: seq<nat>, cells: seq<Cell>)
    requires |order| > 0
    requires forall k :: 0 <= k < |order| ==> order[k] < |cells|
    requires forall c :: 0 <= c < |cells| ==> c in order
    ensures Occupied(cells) < |cells| ==> cells[Target(order, cells)] == Empty
  {
    if Occupied(cells) < |cells| {
      TargetIsEmpty(order, cells);
    }
  }

  /** The clear timer fires: every cell is emptied and the spawn timer is armed. */
  function ClearStep(s: Snapshot): (r: Snapshot)
    ensures !s.clearPending ==> r == s
    ensures s.clearPending ==>
      Occupied(r.cells) == 0 && |r.cells| == |s.cells| && !r.clearPending && r.spawnPending &&
      r.(cells := s.cells, clearPending := true, spawnPending := s.spawnPending) == s
  {
    if !s.clearPending then s
    else s.(cells := Cleared(|s.cells|), clearPending := false, spawnPending := true)
  }

  /** The spawn timer fires: its handle is cleared, and it spawns only when the session runs unpaused. */
  function SpawnTimerStep(s: Snapshot, u: Unit, us: seq<Unit>): (r: Snapshot)
    requires |s.cells| == CELLS && CELLS <= |us| + 1
    ensures |r.cells| == CELLS
    ensures !s.spawnPending ==> r == s
    ensures s.spawnPending && (!s.active || s.paused) ==> r == s.(spawnPending := false)
    ensures s.spawnPending && s.active && !s.paused ==>
      && !r.spawnPending && r.clearPending && Occupied(r.cells) == 1
      && r.tracker == Record(s.tracker, NextItem(s, u))
      && r.(cells := s.cells, tracker := s.tracker, clearPending := s.clearPending, spawnPending := s.spawnPending) == s
  {
    if !s.spawnPending then s
    else Spawn(s.(spawnPending := false), u, us)
  }

  /**
   * collectDrop(value): ignored unless the session runs unpaused; otherwise
   * the score moves by value and is clamped at 0, the clear timer is cancelled,
   * the grid emptied and a spawn armed, and reaching the goal ends the game as
   * won (which cancels that spawn again).
   */
  function CollectStep(s: Snapshot, value: int): (r: Step)
    ensures !s.active || s.paused ==> r == Step(s, None)
    ensures s.active && !s.paused ==>
      && r.next.cans >= 0
      && (s.cans + value >= 0 ==> r.next.cans == s.cans + value)
      && (s.cans + value < 0 ==> r.next.cans == 0)
      && Occupied(r.next.cells) == 0 && |r.next.cells| == |s.cells|
      && !r.next.clearPending
      && r.over != Some(false)
      && (r.over == Some(true) <==> r.next.cans >= GOAL_CANS)
      && (r.over.None? ==> r.next.active && r.next.spawnPending)
      && (r.over.Some? ==> !r.next.active && !r.next.spawnPending && !r.next.clockRunning)
      && r.next.tracker == s.tracker && r.next.timeLeft == s.timeLeft && !r.next.paused
      && r.next.difficulty == s.difficulty
      && (r.over.None? ==> r.next.clockRunning == s.clockRunning)
  {
    if !s.active || s.paused then Step(s, None)
    else
      var total := s.cans + value;
      // Both timeouts are cancelled, then one spawn is armed.
      var s1 := s.(cans := if total < 0 then 0 else total, cells := Cleared(|s.cells|),
                   clearPending := false, spawnPending := true);
      if s1.cans >= GOAL_CANS then Step(EndGame(s1), Some(true)) else Step(s1, None)
  }

  /** A click on cell k: collects the drop shown there, and nothing happens on an empty cell. */
  function ClickStep(s: Snapshot, k: nat): (r: Step)
    ensures k >= |s.cells| || s.cells[k] == Empty ==> r == Step(s, None)
    ensures k < |s.cells| && s.cells[k].Holds? ==> r == CollectStep(s, Value(s.cells[k].item))
  {
    if k < |s.cells| && s.cells[k].Holds? then CollectStep(s, Value(s.cells[k].item))
    else Step(s, None)
  }

  /** The countdown interval fires: unless paused, one second passes, and at zero the game is lost. */
  function TickStep(s: Snapshot): (r: Step)
    ensures !s.clockRunning || s.paused ==> r == Step(s, None)
    ensures s.clockRunning && !s.paused ==>
      && r.next.timeLeft == s.timeLeft - 1
      && r.over != Some(true)
      && (r.over == Some(false) <==> s.timeLeft - 1 <= 0)
      && (r.over.None? ==> r.next == s.(timeLeft := s.timeLeft - 1))
      && (r.over.Some? ==> !r.next.active && !r.next.clockRunning && !r.next.clearPending && !r.next.spawnPending)
      && (r.over.Some? ==> r.next == EndGame(s.(timeLeft := s.timeLeft - 1)))
  {
    if !s.clockRunning || s.paused then Step(s, None)
    else
      var s1 := s.(timeLeft := s.timeLeft - 1);
      if s1.timeLeft <= 0 then Step(EndGame(s1), Some(false)) else Step(s1, None)
  }

  /**
   * startGame: ignored while a game runs. Otherwise the session starts with
   * score 0 and the difficulty's time on a fresh grid, spawns once, starts the
   * countdown, cancels both timeouts and spawns again. The streak is not reset:
   * it carries over and advances by both spawns.
   */
  function StartStep(s: Snapshot, u1: Unit, us1: seq<Unit>, u2: Unit, us2: seq<Unit>): (r: Snapshot)
    requires CELLS <= |us1| + 1 && CELLS <= |us2| + 1
    ensures |r.cells| == CELLS || r == s
    ensures s.active ==> r == s
    ensures !s.active ==>
      && r.active && !r.paused && r.cans == 0
      && r.timeLeft == Settings(s.difficulty).time && r.difficulty == s.difficulty
      && r.clockRunning && r.clearPending && !r.spawnPending
      && |r.cells| == CELLS && Occupied(r.cells) == 1
      && exists h :: |h| == 2 && r.tracker == Track(s.tracker, h)
  {
    if s.active then s
    else
      var s3 := Launch(s, u1, us1);
      TrackTwo(s.tracker, NextItem(Begun(s), u1), NextItem(s3, u2));
      Spawn(s3, u2, us2)
  }

  /** The first lines of startGame: the session runs with score 0, the difficulty's time and a fresh grid. */
  function Begun(s: Snapshot): (r: Snapshot)
    ensures r.active && !r.paused && r.cans == 0 && r.timeLeft == Settings(s.difficulty).time
    ensures r.cells == Cleared(CELLS) && Occupied(r.cells) == 0
    ensures r.tracker == s.tracker && r.difficulty == s.difficulty
    ensures r.clockRunning == s.clockRunning && r.clearPending == s.clearPending && r.spawnPending == s.spawnPending
  {
    s.(active := true, paused := false, cans := 0,
       timeLeft := Settings(s.difficulty).time, cells := Cleared(CELLS))
  }

  /** startGame up to its second spawn: the first spawn, the countdown started, both timeouts cancelled. */
  function Launch(s: Snapshot, u1: Unit, us1: seq<Unit>): (r: Snapshot)
    requires CELLS <= |us1| + 1
    ensures |r.cells| == CELLS
    ensures r.active && !r.paused && r.cans == 0 && r.timeLeft == Settings(s.difficulty).time
    ensures r.clockRunning && !r.clearPending && !r.spawnPending && Occupied(r.cells) == 1
    ensures r.tracker == Record(s.tracker, NextItem(Begun(s), u1)) && r.difficulty == s.difficulty
  {
    Spawn(Begun(s), u1, us1).(clockRunning := true, clearPending := false, spawnPending := false)
  }

  lemma TrackTwo(t: Tracker, x1: ItemType, x2: ItemType)
    ensures Track(t, [x1, x2]) == Record(Record(t, x1), x2)
  {
    var h := [x1, x2];
    assert h[..1] == [x1] && [x1][..0] == [];
    assert Track(t, [x1]) == Record(Track(t, []), x1);
    assert Track(t, h) == Record(Track(t, [x1]), x2);
  }

  /** pauseGame: only a running, unpaused session pauses; the timers keep their schedule. */
  function PauseStep(s: Snapshot): (r: Snapshot)
    ensures !s.active || s.paused ==> r == s
    ensures s.active && !s.paused ==> r == s.(paused := true)
  {
    if !s.active || s.paused then s else s.(paused := true)
  }

  /** resumeGame: only a paused session resumes, and it spawns at once. */
  function ResumeStep(s: Snapshot, u: Unit, us: seq<Unit>): (r: Snapshot)
    requires |s.cells| == CELLS && CELLS <= |us| + 1
    ensures |r.cells| == CELLS
    ensures !s.active || !s.paused ==> r == s
    ensures s.active && s.paused ==>
      && r.active && !r.paused && r.clearPending && Occupied(r.cells) == 1
      && r.cans == s.cans && r.timeLeft == s.timeLeft && r.difficulty == s.difficulty
      && r.clockRunning == s.clockRunning && r.spawnPending == s.spawnPending
      && r.tracker == Record(s.tracker, NextItem(s, u))
  {
    if !s.active || !s.paused then s
    else Spawn(s.(paused := false), u, us)
  }

  /**
   * resetGame: stops everything, zeroes the score, restores the difficulty's
   * time and a fresh grid, and clears the streak; the last spawned type is kept.
   */
  function ResetStep(s: Snapshot): (r: Snapshot)
    ensures !r.active && !r.paused && !r.clockRunning && !r.clearPending && !r.spawnPending
    ensures r.cans == 0 && r.timeLeft == Settings(s.difficulty).time && r.difficulty == s.difficulty
    ensures r.cells == Cleared(CELLS)
    ensures r.tracker == Tracker(Streak(None, 0), s.tracker.last)
  {
    s.(active := false, paused := false, clockRunning := false, cans := 0,
       timeLeft := Settings(s.difficulty).time, cells := Cleared(CELLS),
       tracker := s.tracker.(streak := Streak(None, 0)),
       clearPending := false, spawnPending := false)
  }

  /** setDifficulty(level): an unknown level changes nothing; a known one resets and selects it. */
  function SetDifficultyStep(s: Snapshot, level: string): (r: Snapshot)
    ensures ParseDifficulty(level).None? ==> r == s
    ensures ParseDifficulty(level).Some? ==>
      && r == ResetStep(s).(difficulty := ParseDifficulty(level).value, timeLeft := r.timeLeft)
      && Name(r.difficulty) == level
      && r.timeLeft == Settings(r.difficulty).time
  {
    match ParseDifficulty(level)
    case None => s
    case Some(d) => ResetStep(s).(difficulty := d, timeLeft := Settings(d).time)
  }

  /** The events that drive a session, with the random values each one consumes. */
  datatype Event =
    | Tick
    | ClearFires
    | SpawnFires(u: Unit, us: seq<Unit>)
    | Click(cell: nat)
    | StartGame(u1: Unit, us1: seq<Unit>, u2: Unit, us2: seq<Unit>)
    | PauseGame
    | ResumeGame(ru: Unit, rus: seq<Unit>)
    | ResetGame
    | SelectDifficulty(level: string)

  /** Each spawn an event may run gets one shuffle draw per cell but the first. */
  predicate WellFormed(e: Event)
  {
    match e
    case SpawnFires(_, us) => CELLS <= |us| + 1
    case StartGame(_, us1, _, us2) => CELLS <= |us1| + 1 && CELLS <= |us2| + 1
    case ResumeGame(_, us) => CELLS <= |us| + 1
    case _ => true
  }

  function Apply(s: Snapshot, e: Event): (r: Step)
    requires |s.cells| == CELLS && WellFormed(e)
    ensures |r.next.cells| == CELLS
    ensures r.over == Some(true) ==> r.next.cans >= GOAL_CANS
    ensures r.over == Some(false) ==> r.next.timeLeft <= 0
    ensures r.over.Some? ==> !r.next.active && !r.next.clockRunning && !r.next.clearPending && !r.next.spawnPending
    ensures r.over.Some? ==> s.active || s.clockRunning
  {
    match e
    case Tick => TickStep(s)
    case ClearFires => Step(ClearStep(s), None)
    case SpawnFires(u, us) => Step(SpawnTimerStep(s, u, us), None)
    case Click(k) => ClickStep(s, k)
    case StartGame(u1, us1, u2, us2) => Step(StartStep(s, u1, us1, u2, us2), None)
    case PauseGame => Step(PauseStep(s), None)
    case ResumeGame(u, us) => Step(ResumeStep(s, u, us), None)
    case ResetGame => Step(ResetStep(s), None)
    case SelectDifficulty(level) => Step(SetDifficultyStep(s, level), None)
  }

  /** Every event keeps the invariant. */
  lemma StepKeepsInv(s: Snapshot, e: Event)
    requires Inv(s) && WellFormed(e)
    ensures Inv(Apply(s, e).next)
  {
    match e
    case StartGame(u1, us1, u2, us2) =>
      assert Coherent(Launch(s, u1, us1).tracker);
    case _ =>
  }

  predicate AllWellFormed(es: seq<Event>)
  {
    forall i :: 0 <= i < |es| ==> WellFormed(es[i])
  }

  /** The state after the events es, in order. */
  function Run(s: Snapshot, es: seq<Event>): (r: Snapshot)
    requires |s.cells| == CELLS && AllWellFormed(es)
    ensures |r.cells| == CELLS
    decreases |es|
  {
    if es == [] then s else Run(Apply(s, es[0]).next, es[1..])
  }

  /** How many times the events es end the game. */
  function GameOvers(s: Snapshot, es: seq<Event>): nat
    requires |s.cells| == CELLS && AllWellFormed(es)
    decreases |es|
  {
    if es == [] then 0
    else
      var st := Apply(s, es[0]);
      (if st.over.Some? then 1 else 0) + GameOvers(st.next, es[1..])
  }

  /** Every state reachable from the page load satisfies the invariant. */
  lemma {:induction false} RunKeepsInv(s: Snapshot, es: seq<Event>)
    requires Inv(s) && AllWellFormed(es)
    ensures Inv(Run(s, es))
    decreases |es|
  {
    if es != [] {
      StepKeepsInv(s, es[0]);
      RunKeepsInv(Apply(s, es[0]).next, es[1..]);
    }
  }

  /** A state with no game and no countdown running. */
  predicate Stopped(s: Snapshot)
  {
    !s.active && !s.clockRunning
  }

  /** Once stopped, no event but a start ends a game or gets one running. */
  lemma StoppedStaysStopped(s: Snapshot, e: Event)
    requires |s.cells| == CELLS && WellFormed(e) && Stopped(s) && !e.StartGame?
    ensures Apply(s, e).over.None? && Stopped(Apply(s, e).next)
  {
  }

  lemma {:induction false} StoppedNeverEnds(s: Snapshot, es: seq<Event>)
    requires |s.cells| == CELLS && AllWellFormed(es) && Stopped(s)
    requires forall i :: 0 <= i < |es| ==> !es[i].StartGame?
    ensures GameOvers(s, es) == 0
    decreases |es|
  {
    if es != [] {
      StoppedStaysStopped(s, es[0]);
      StoppedNeverEnds(Apply(s, es[0]).next, es[1..]);
    }
  }

  /**
   * Between two starts a game ends at most once: a game is won at most once,
   * and never both won and lost.
   */
  lemma {:induction false} AtMostOneGameOver(s: Snapshot, es: seq<Event>)
    requires |s.cells| == CELLS && AllWellFormed(es)
    requires forall i :: 0 <= i < |es| ==> !es[i].StartGame?
    ensures GameOvers(s, es) <= 1
    decreases |es|
  {
    if es != [] {
      var st := Apply(s, es[0]);
      if st.over.Some? {
        StoppedNeverEnds(st.next, es[1..]);
      } else {
        AtMostOneGameOver(st.next, es[1..]);
      }
    }
  }
}
