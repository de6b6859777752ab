# Press the Clean Water Drops: a verified model of the game controller

The game shows a 3x3 grid. One item at a time appears in a cell: a clean
water can worth +1 or a dirty barrel worth -3. An item stays for one second
and the grid is then cleared. The next item appears one second after that
clear, or one second after a collect, so a new item appears about every two
seconds. The player clicks items to
collect them. The round is won at 20 cans and lost when the 60-second
countdown runs out. The chance that an item is clean depends on the
difficulty and on the streak of recent spawns.

This project models the controller in `script.js`, the part that changes the
game state:

- the spawn of an item (`spawnWaterCan`), with its Fisher-Yates shuffle
  (`shuffleArray`) and streak-biased draw;
- collecting an item (`collectDrop`) and the countdown callback;
- the commands start, pause, resume, reset, set-difficulty and end game;
- `getSpawnRateForDifficulty` and `getRandomMessage`.

Modules:

- `Random`: `Math.random()` made an input. Each draw is a fraction `num/den`
  in [0, 1), and `Math.floor(Math.random() * n)` is `RandomIndex`.
- `Shuffle`: the shuffle as a function on sequences, with permutation lemmas,
  and `ShuffleArray`, which shuffles an array in place and is proved equal to
  that function.
- `GameRules`:
  - the difficulty table and the spawn rate;
  - item values;
  - the streak tracker (`window.dropStreak` together with
    `window.lastSpawnType`);
  - the biased clean chance and the draw.
- `Grid`: the cells, the occupancy count and the choice of the target cell,
  as a function and as the loop `PickTarget`.
- `SessionSpec`:
  - the whole session state as a value (`Snapshot`), with one step function
    per event and the invariant `Inv`;
  - lemmas that every event keeps `Inv`, that `Inv` holds along any run, and
    that a game ends at most once between two starts.
- `Session`: the module-level variables as the fields of a `Session` object
  and the grid as an array. Each event handler is a method that updates
  those fields in place. Each method is proved to move the state exactly as
  its `SessionSpec` step function says, so it keeps `Inv`.

Timers are not run. The countdown interval and the two timeouts
(`clearTimeoutId`, `spawnTimeoutId`) are flags. Each timer callback is an
event that can fire only while its flag is set.

Behaviours of the script that the model keeps as they are:

- `startGame` does not reset the streak. It carries over from before the
  start and advances by the two spawns that `startGame` makes.
- `pauseGame` does not cancel the pending timeouts. A spawn timer that fires
  while paused is consumed and spawns nothing (`SpawnTimerStep`).
- A clean streak does not always lower the clean chance. On easy it raises
  it from 75% to 80%; on medium it keeps it at 70%. Only on hard does it
  lower it, from 60% to 30% (`CleanChance`). A dirty streak raises the chance
  on every difficulty.
- `resetGame` clears `dropStreak` but keeps `lastSpawnType`. Its own comment
  (script.js:472) says the streak is cleared so that probabilities do not
  carry over, and the kept `lastSpawnType` partly defeats that. After a reset,
  spawns that repeat the last type before the reset grow an untyped streak
  that never biases the draw (`ResetRunStaysUntyped`). The first spawn of
  another type starts counting afresh (`ResetForgottenOnChange`).
- `endGame` leaves the grid and the score as they are.

## Model

| member | source | states |
|---|---|---|
| Random.RandomIndex | script.js:109 | `Math.floor(Math.random() * n)` is always an index below n |
| Random.RandomMessage | script.js:495-497 | the message picked is an entry of the table |
| Shuffle.Swap | script.js:110 | the destructuring swap exchanges positions i and j and leaves every other position alone |
| Shuffle.ShuffleDown | script.js:108-111 | the loop iterations from i down to 1 keep the length |
| Shuffle.Shuffled | script.js:107-113 | the whole shuffle keeps the length |
| Shuffle.ShuffleDownPermutes | script.js:108-111 | the loop iterations keep every element as often as it occurs |
| Shuffle.ShuffledPermutes | script.js:107-113 | the shuffle is a permutation of its input |
| Shuffle.ShuffleArray | script.js:107-113 | the in-place loop leaves exactly the shuffle of the old contents in the array, which is a permutation of them |
| Shuffle.Indices | script.js:221 | `Array.from(cells)` as the positions 0 .. n - 1 in order |
| Shuffle.ShuffledIndices | script.js:221 | the shuffled cell order has n entries, each a position below n, and names every position |
| GameRules.Settings | script.js:13-17 | every difficulty has a positive round time and a base clean chance of at most 100% |
| GameRules.ParseDifficulty | script.js:377 | a level selects a difficulty exactly when it is one of the keys easy, medium, hard |
| GameRules.SpawnRate | script.js:309-312 | the rate is the level's spawn rate, 1500 ms for an unknown level, and never above 2000 ms |
| GameRules.Value | script.js:210-216 | only a clean can has a positive value, and every value lies between -3 and 1 (the data-values 1 and -3, set again at script.js:247) |
| GameRules.StreakChance | script.js:197-201 | the streak table's chances are at most 100%; after a dirty streak the chance is above the base one; after a clean streak it is below the base one exactly on hard |
| GameRules.Record | script.js:234-241 | after a spawn the last type is the drawn one, the streak has counted it, and a coherent tracker stays coherent |
| GameRules.StreakCountsRun | script.js:234-241 | without a reset the streak is the type of the last spawn and the length of the run of equal spawns ending there |
| GameRules.ResetRunStaysUntyped | script.js:473-478 | after a reset, spawns repeating the kept last type leave the streak untyped with only a count |
| GameRules.TrackAgreesAfterFirst | script.js:234-241 | two trackers that agree after the first spawn agree after every later spawn |
| GameRules.ResetForgottenOnChange | script.js:473-478 | after a reset, a first spawn of a different type makes the tracker behave as on a fresh page |
| GameRules.CleanChance | script.js:191-202 | below the threshold or with no streak type the chance is the base one; from the threshold on with a typed streak it is exactly the streak table's value; a dirty streak raises it; a clean streak raises it on easy, keeps it on medium and lowers it on hard |
| GameRules.BiasFollowsRun | script.js:192-202 | without a reset the bias applies exactly when the last three or more spawns had one type |
| GameRules.Draw | script.js:206-218 | a 0% chance always gives a dirty item and a 100% chance always gives a clean one |
| GameRules.CleanShare | script.js:206 | of the m smallest draws on a 1/100 grid, the first `chance` are clean |
| GameRules.DrawIsCleanWithChance | script.js:206 | of the 100 equally likely draws on a 1/100 grid, exactly `chance` are clean |
| Grid.Occupied | script.js:222 | the count of cells showing an item is 0 exactly when all are empty and the full count exactly when none is |
| Grid.OccupiedUpdate | script.js:228 | changing one cell changes the count by that cell alone |
| Grid.Cleared | script.js:224-226 | a cleared grid shows no item |
| Grid.Placed | script.js:224-232 | after a spawn exactly one cell shows an item, the drawn one, in the target cell |
| Grid.FirstEmptyAt | script.js:222 | the search finds the first empty cell of the order, and none when no cell of the order is empty |
| Grid.Target | script.js:222 | the target is a cell of the order, and it is empty when some cell of the order is empty |
| Grid.TargetIsEmpty | script.js:221-222 | when the order lists every cell and some cell is empty, the target is empty |
| Grid.PickTarget | script.js:222 | the search loop over the shuffled cells returns the target |
| SessionSpec.Initial | script.js:1-20 | the page starts on hard with its time, score 0, an empty grid, a fresh tracker and nothing running, and satisfies the invariant (the grid and the time are set at page load, script.js:171 and 174) |
| SessionSpec.NextItem | script.js:192-218 | the next item is clean exactly when the random value is below the streak-adjusted chance, and below the base chance while the streak is under the threshold |
| SessionSpec.EndGame | script.js:499-521 | the session stops, the countdown and both timeouts are cancelled, and score, grid, time and streak stay |
| SessionSpec.Spawn | script.js:181-265 | a stopped or paused session is unchanged; otherwise one cell shows the drawn item, in a previously empty cell when there was one, the tracker records it, the clear timer is armed and nothing else changes |
| SessionSpec.ClearStep | script.js:254-263 | the clear timer empties the grid, disarms itself and arms the spawn timer |
| SessionSpec.SpawnTimerStep | script.js:259-263 | the spawn timer disarms itself; when the session runs unpaused it also spawns one item, the clear timer is armed and the tracker records the drawn item, and nothing else changes |
| SessionSpec.CollectStep | script.js:268-306 | while running unpaused the score moves by the value and is clamped at 0, the grid is emptied, the clear timer is cancelled, a spawn is armed, and the game is won exactly when the score reaches 20; time, streak and difficulty are kept, and the countdown keeps running unless the game is won |
| SessionSpec.ClickStep | script.js:245 | a click on a cell showing an item collects that item's value, and a click elsewhere changes nothing |
| SessionSpec.TickStep | script.js:422-430 | each unpaused tick takes one second off, and the game is lost exactly when the time reaches 0; a losing tick is `endGame` on that state, so score, grid, streak and difficulty stay |
| SessionSpec.StartStep | script.js:404-444 | a running game ignores start; otherwise the game runs with score 0, the difficulty's time, the countdown on, one item shown, the clear timer armed, and a streak advanced by two spawns |
| SessionSpec.Begun | script.js:405-413 | a start's opening lines: the game runs unpaused with score 0, the difficulty's time and an empty grid, and tracker, difficulty and timers are kept |
| SessionSpec.Launch | script.js:404-440 | before the second spawn of a start the game runs unpaused with score 0 and the difficulty's time, the countdown is live, both timeouts are cancelled, one item is shown and the tracker has recorded it |
| SessionSpec.PauseStep | script.js:446-450 | only a running unpaused game pauses, and pausing changes nothing else |
| SessionSpec.ResumeStep | script.js:452-458 | only a paused game resumes; it shows an item at once with the clear timer armed, the tracker records it, and score, time left, difficulty, countdown and spawn timer are kept |
| SessionSpec.ResetStep | script.js:460-493 | everything stops, the score is 0, the time is the difficulty's, the grid is empty and the streak is cleared while the last spawned type stays |
| SessionSpec.SetDifficultyStep | script.js:376-396 | an unknown level changes nothing; a known one resets the game, selects that difficulty and sets its time |
| SessionSpec.Apply | script.js:303-305 | a win has at least 20 cans, a loss has no time left, and either ends a running game with every timer cancelled |
| SessionSpec.StepKeepsInv | script.js:181-521 | every event keeps the invariant: at most one item shown, the clear timer armed exactly while one is shown in a running game, the countdown live exactly while the game runs, the score below 20 and time left while it runs |
| SessionSpec.Run | script.js:181-521 | a run of events keeps the grid size |
| SessionSpec.RunKeepsInv | script.js:181-521 | every state reachable by any sequence of events satisfies the invariant |
| SessionSpec.StoppedStaysStopped | script.js:499-521 | once stopped, no event but a start ends a game or starts the countdown |
| SessionSpec.StoppedNeverEnds | script.js:499-521 | from a stopped session, events without a start never end a game |
| SessionSpec.AtMostOneGameOver | script.js:303-305 | between two starts a game ends at most once, so it is never both won and lost |
| Session.Session.constructor | script.js:160-174 | the page load builds the empty grid and the initial state, which satisfies the invariant |
| Session.Session.ClearGrid | script.js:224-226 | every cell becomes empty |
| Session.Session.EndGame | script.js:499-521 | updates the fields as `SessionSpec.EndGame` |
| Session.Session.SpawnWaterCan | script.js:181-265 | shuffles an array of positions in place, searches it, and updates fields and grid as `SessionSpec.Spawn` |
| Session.Session.Tick | script.js:422-430 | keeps the invariant and moves the state as `SessionSpec.TickStep` |
| Session.Session.ClearTimerFires | script.js:254-263 | keeps the invariant and moves the state as `SessionSpec.ClearStep` |
| Session.Session.SpawnTimerFires | script.js:259-263 | keeps the invariant and moves the state as `SessionSpec.SpawnTimerStep` |
| Session.Session.CollectDrop | script.js:268-306 | keeps the invariant and moves the state as `SessionSpec.CollectStep` |
| Session.Session.Click | script.js:245 | keeps the invariant and moves the state as `SessionSpec.ClickStep` |
| Session.Session.Begin | script.js:405-413 | the opening assignments of a start and the fresh grid |
| Session.Session.Launch | script.js:404-440 | a start up to its second spawn, as `SessionSpec.Launch` |
| Session.Session.StartClock | script.js:422-440 | the countdown goes live and both timeouts are cancelled |
| Session.Session.StartGame | script.js:404-444 | keeps the invariant and moves the state as `SessionSpec.StartStep` |
| Session.Session.PauseGame | script.js:446-450 | keeps the invariant and moves the state as `SessionSpec.PauseStep` |
| Session.Session.ResumeGame | script.js:452-458 | keeps the invariant and moves the state as `SessionSpec.ResumeStep` |
| Session.Session.Reset | script.js:460-493 | the assignments of a reset, as `SessionSpec.ResetStep` |
| Session.Session.ResetGame | script.js:460-493 | keeps the invariant and moves the state as `SessionSpec.ResetStep` |
| Session.Session.SetDifficulty | script.js:376-396 | keeps the invariant and moves the state as `SessionSpec.SetDifficultyStep` |

## Left out

- The page itself is not modelled: the DOM, the displayed texts and stats,
  button labels, confetti, the fact messages (`showRandomFact`) and the
  wiring of event listeners. The grid is a sequence of cells that are empty
  or show an item.
- Real timers and `Math.random()`. Timers are flags and their callbacks are
  events. Random values are inputs: one per draw, plus one per shuffle
  iteration.
- `spawnInterval`: the script clears it but never sets it, so it is not part
  of the state. `getSpawnRateForDifficulty` is modelled (`SpawnRate`), but no
  event uses it, as in the script.
- The spawn's early return on a page without grid cells: the grid always has
  nine cells here.
- Session.Session.CollectDrop: takes the collected value as an argument, so
  it also allows a collect with no item shown. `Click` is the faithful path:
  it collects only an item that is shown, with that item's value (+1 or -3).
  The `parseInt` of a missing or non-numeric `data-value` (NaN) is not
  modelled.
- Random.RandomMessage: requires a non-empty table. The script calls it only
  with its two fixed, non-empty message tables. The message text `endGame`
  shows is not part of the session state.
- `DIFFICULTY_SETTINGS[level]` for keys inherited from the JavaScript object
  prototype (such as `toString`) is not modelled. Only the three difficulty
  names select a difficulty.
- Chances are exact integer percentages. The floating-point comparison
  `Math.random() < 0.7` is modelled as an exact rational comparison.
