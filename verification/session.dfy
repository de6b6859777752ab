/**
 * The game controller as the script runs it: the module-level variables are
 * the fields of one Session object, each event handler is a method that
 * updates them in place, and the grid is an array of nine cells. Every
 * method is proved to move the session exactly as the matching step function
 * of SessionSpec says, which keeps the invariant SessionSpec.Inv.
 */
module Session {
  import opened Wrappers
  import opened Random
  import opened Shuffle
  import opened GameRules
  import opened Grid
  import Spec = SessionSpec

  class Session {
    var cans: int                  // currentCans
    var active: bool               // gameActive
    var paused: bool
    var timeLeft: int
    var difficulty: Difficulty     // currentDifficulty
    var streak: Streak             // window.dropStreak
    var lastSpawnType: Option<ItemType>
    var clockRunning: bool         // timerInterval is live
    var clearPending: bool         // clearTimeoutId != null
    var spawnPending: bool         // spawnTimeoutId != null
    const cells: array<Cell>       // the .grid-cell elements

    ghost function State(): Spec.Snapshot
      reads this, cells
    {
      Spec.Snapshot(cans, active, paused, timeLeft, difficulty, Tracker(streak, lastSpawnType),
                    cells[..], clockRunning, clearPending, spawnPending)
    }

    ghost predicate Valid()
      reads this, cells
    {
      cells.Length == CELLS && Spec.Inv(State())
    }

    /** The page load: the grid is created and the time set to the hard difficulty's. */
    constructor ()
      ensures Valid() && State() == Spec.Initial() && fresh(cells)
    {
      cans, active, paused := 0, false, false;
      difficulty := Hard;
      timeLeft := Settings(Hard).time;
      streak, lastSpawnType := Streak(None, 0), None;
      clockRunning, clearPending, spawnPending := false, false, false;
      cells := new Cell[CELLS](_ => Empty);
      new;
      assert cells[..] == Cleared(CELLS);
    }

    /** Empties every cell (createGrid, or `cell.innerHTML = ''` on all cells). */
    method ClearGrid()
      requires cells.Length == CELLS
      modifies cells
      ensures cells[..] == Cleared(CELLS)
    {
      forall k | 0 <= k < cells.Length {
        cells[k] := Empty;
      }
      assert cells[..] == Cleared(CELLS);
    }

    method EndGame()
      modifies this
      ensures State() == Spec.EndGame(old(State()))
    {
      active, clockRunning := false, false;
      clearPending, spawnPending := false, false;
    }

    method SpawnWaterCan(u: Unit, us: seq<Unit>)
      requires cells.Length == CELLS && CELLS <= |us| + 1
      modifies this, cells
      ensures State() == Spec.Spawn(old(State()), u, us)
    {
      if !active || paused {
        return;
      }
      var item := Draw(CleanChance(difficulty, streak), u);
      var order := new nat[CELLS](k => k);
      assert order[..] == Indices(CELLS);
      ShuffleArray(order, us);
      ShuffledIndices(CELLS, us);
      var target := PickTarget(order, cells);
      ClearGrid();
      cells[target] := Holds(item);
      assert cells[..] == Cleared(CELLS)[target := Holds(item)];
      var t := Record(Tracker(streak, lastSpawnType), item);
      streak, lastSpawnType := t.streak, t.last;
      clearPending := true;
    }

    /** The countdown interval's callback; it fires only while the interval is live. */
    method Tick() returns (over: Option<bool>)
      requires Valid()
      modifies this
      ensures Valid() && Spec.Step(State(), over) == Spec.TickStep(old(State()))
    {
      ghost var before := State();
      over := None;
      if clockRunning && !paused {
        timeLeft := timeLeft - 1;
        if timeLeft <= 0 {
          EndGame();
          over := Some(false);
        }
      }
      Spec.StepKeepsInv(before, Spec.Tick);
    }

    /** The clear timer's callback; it fires only while clearTimeoutId is set. */
    method ClearTimerFires()
      requires Valid()
      modifies this, cells
      ensures Valid() && State() == Spec.ClearStep(old(State()))
    {
      ghost var before := State();
      if clearPending {
        ClearGrid();
        clearPending := false;
        spawnPending := true;
      }
      Spec.StepKeepsInv(before, Spec.ClearFires);
    }

    /** The spawn timer's callback; it fires only while spawnTimeoutId is set. */
    method SpawnTimerFires(u: Unit, us: seq<Unit>)
      requires Valid() && CELLS <= |us| + 1
      modifies this, cells
      ensures Valid() && State() == Spec.SpawnTimerStep(old(State()), u, us)
    {
      ghost var before := State();
      if spawnPending {
        spawnPending := false;
        if active && !paused {
          SpawnWaterCan(u, us);
        }
      }
      Spec.StepKeepsInv(before, Spec.SpawnFires(u, us));
    }

    /** collectDrop, given the data-value of the clicked drop. */
    method CollectDrop(value: int) returns (over: Option<bool>)
      requires Valid()
      modifies this, cells
      ensures cells.Length == CELLS && Spec.Inv(State())
      ensures Spec.Step(State(), over) == Spec.CollectStep(old(State()), value)
    {
      over := None;
      if !active || paused {
        return;
      }
      clearPending := false;
      spawnPending := false;
      cans := cans + value;
      if cans < 0 {
        cans := 0;
      }
      ClearGrid();
      spawnPending := true;
      if cans >= GOAL_CANS {
        EndGame();
        over := Some(true);
      }
    }

    /** A click on cell k: the drop there, if any, is collected with its value. */
    method Click(k: nat) returns (over: Option<bool>)
      requires Valid()
      modifies this, cells
      ensures Valid() && Spec.Step(State(), over) == Spec.ClickStep(old(State()), k)
    {
      ghost var before := State();
      over := None;
      if k < cells.Length && cells[k].Holds? {
        over := CollectDrop(Value(cells[k].item));
      }
      Spec.StepKeepsInv(before, Spec.Click(k));
    }

    /** The first lines of startGame: session on, score 0, the difficulty's time, an empty grid. */
    method Begin()
      requires cells.Length == CELLS
      modifies this, cells
      ensures State() == Spec.Begun(old(State()))
    {
      active, paused, cans := true, false, 0;
      timeLeft := Settings(difficulty).time;
      ClearGrid();
    }

    /** startGame up to its second spawn: the first spawn, then the countdown started and both timeouts cancelled. */
    method Launch(u1: Unit, us1: seq<Unit>)
      requires cells.Length == CELLS && CELLS <= |us1| + 1
      modifies this, cells
      ensures State() == Spec.Launch(old(State()), u1, us1)
    {
      Begin();
      ghost var begun := State();
      SpawnWaterCan(u1, us1);
      ghost var spawned := State();
      assert spawned == Spec.Spawn(begun, u1, us1);
      StartClock();
    }

    /** The countdown interval is started and both timeouts are cancelled. */
    method StartClock()
      modifies this
      ensures State() == old(State()).(clockRunning := true, clearPending := false, spawnPending := false)
    {
      clockRunning := true;
      clearPending, spawnPending := false, false;
    }

    method StartGame(u1: Unit, us1: seq<Unit>, u2: Unit, us2: seq<Unit>)
      requires Valid() && CELLS <= |us1| + 1 && CELLS <= |us2| + 1
      modifies this, cells
      ensures Valid() && State() == Spec.StartStep(old(State()), u1, us1, u2, us2)
    {
      ghost var before := State();
      if active {
        return;
      }
      Launch(u1, us1);
      SpawnWaterCan(u2, us2);
      Spec.StepKeepsInv(before, Spec.StartGame(u1, us1, u2, us2));
    }

    method PauseGame()
      requires Valid()
      modifies this
      ensures Valid() && State() == Spec.PauseStep(old(State()))
    {
      ghost var before := State();
      if !active || paused {
        return;
      }
      paused := true;
      Spec.StepKeepsInv(before, Spec.PauseGame);
    }

    method ResumeGame(u: Unit, us: seq<Unit>)
      requires Valid() && CELLS <= |us| + 1
      modifies this, cells
      ensures Valid() && State() == Spec.ResumeStep(old(State()), u, us)
    {
      ghost var before := State();
      if !active || !paused {
        return;
      }
      paused := false;
      SpawnWaterCan(u, us);
      Spec.StepKeepsInv(before, Spec.ResumeGame(u, us));
    }

    method ResetGame()
      requires Valid()
      modifies this, cells
      ensures Valid() && State() == Spec.ResetStep(old(State()))
    {
      ghost var before := State();
      Reset();
      Spec.StepKeepsInv(before, Spec.ResetGame);
    }

    /** The body of resetGame: everything stops and is cleared; the last spawned type stays. */
    method Reset()
      requires cells.Length == CELLS
      modifies this, cells
      ensures State() == Spec.ResetStep(old(State()))
    {
      active, paused, clockRunning := false, false, false;
      cans := 0;
      timeLeft := Settings(difficulty).time;
      ClearGrid();
      streak := Streak(None, 0);
      clearPending, spawnPending := false, false;
    }

    method SetDifficulty(level: string)
      requires Valid()
      modifies this, cells
      ensures Valid() && State() == Spec.SetDifficultyStep(old(State()), level)
    {
      ghost var before := State();
      var parsed := ParseDifficulty(level);
      if parsed.None? {
        return;
      }
      ResetGame();
      difficulty := parsed.value;
      timeLeft := Settings(difficulty).time;
      Spec.StepKeepsInv(before, Spec.SelectDifficulty(level));
    }
  }
}
