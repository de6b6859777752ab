/**
 * The rules of the game that do not depend on the session: the difficulty
 * table, the item types, the streak tracker and the streak-biased clean chance.
 * Chances are integer percentages (0.75 is 75).
 */
module GameRules {
  import opened Wrappers
  import opened Random

  const GOAL_CANS := 20
  const STREAK_THRESHOLD := 3
  /** The game grid is 3x3. */
  const CELLS := 9

  datatype Difficulty = Easy | Medium | Hard

  /** One entry of DIFFICULTY_SETTINGS: spawn rate in ms, round time in seconds, base clean chance. */
  datatype Profile = Profile(spawnRate: nat, time: nat, baseCleanChance: nat)

  function Settings(d: Difficulty): (p: Profile)
    ensures 0 < p.time && p.baseCleanChance <= 100
  {
    match d
    case Easy => Profile(900, 60, 75)
    case Medium => Profile(900, 60, 70)
    case Hard => Profile(900, 60, 60)
  }

  /** The key of a difficulty in DIFFICULTY_SETTINGS. */
  function Name(d: Difficulty): string
  {
    match d
    case Easy => "easy"
    case Medium => "medium"
    case Hard => "hard"
  }

  /** The lookup DIFFICULTY_SETTINGS[level]: a level names a difficulty exactly when it is one of the three keys. */
  function ParseDifficulty(level: string): (r: Option<Difficulty>)
    ensures r.Some? ==> Name(r.value) == level
    ensures r.None? ==> forall d: Difficulty :: Name(d) != level
  {
    if level == "easy" then Some(Easy)
    else if level == "medium" then Some(Medium)
    else if level == "hard" then Some(Hard)
    else None
  }

  /**
   * getSpawnRateForDifficulty: the level's spawn rate, 1500 ms for an unknown
   * level or a zero rate, and never more than 2000 ms.
   */
  function SpawnRate(level: string): (ms: nat)
    ensures 0 < ms <= 2000
    ensures ParseDifficulty(level).None? ==> ms == 1500
    ensures ParseDifficulty(level).Some? ==> ms == Settings(ParseDifficulty(level).value).spawnRate
  {
    var raw := match ParseDifficulty(level)
      case Some(d) => if Settings(d).spawnRate != 0 then Settings(d).spawnRate else 1500
      case None => 1500;
    Min(raw, 2000)
  }

  function Min(a: nat, b: nat): nat
  {
    if a < b then a else b
  }

  datatype ItemType = Clean | Dirty

  /** The data-value an item carries: a clean can earns 1 point, a dirty barrel costs 3. */
  function Value(t: ItemType): (v: int)
    ensures t == Clean <==> v > 0
    ensures -3 <= v <= 1
  {
    match t
    case Clean => 1
    case Dirty => -3
  }

  /** window.dropStreak: the type of the current streak (null after a reset) and its length. */
  datatype Streak = Streak(kind: Option<ItemType>, count: nat)

  /** window.dropStreak together with window.lastSpawnType, the type of the last spawned item. */
  datatype Tracker = Tracker(streak: Streak, last: Option<ItemType>)

  /** The tracker before the first spawn of the page. */
  const Fresh := Tracker(Streak(None, 0), None)

  /** A streak that names a type names the last spawned one and has counted it. */
  predicate Coherent(t: Tracker)
  {
    t.streak.kind.Some? ==> t.streak.kind == t.last && t.streak.count >= 1
  }

  /** The streak update after a spawn of `drawn`. */
  function Record(t: Tracker, drawn: ItemType): (r: Tracker)
    ensures r.last == Some(drawn) && r.streak.count >= 1
    ensures Coherent(t) ==> Coherent(r)
  {
    var streak :=
      if t.last == Some(drawn) then t.streak.(count := t.streak.count + 1)
      else Streak(Some(drawn), 1);
    Tracker(streak, Some(drawn))
  }

  /** The tracker after the spawns h, in order, starting from t. */
  function Track(t: Tracker, h: seq<ItemType>): Tracker
    decreases |h|
  {
    if h == [] then t else Record(Track(t, h[..|h| - 1]), h[|h| - 1])
  }

  /** The length of the run of equal items at the end of h. */
  function TrailingRun(h: seq<ItemType>): nat
    decreases |h|
  {
    if |h| == 0 then 0
    else if |h| >= 2 && h[|h| - 2] == h[|h| - 1] then TrailingRun(h[..|h| - 1]) + 1
    else 1
  }

  /** Without a reset, the streak is the type of the last spawn and the length of its run. */
  lemma {:induction false} StreakCountsRun(h: seq<ItemType>)
    requires |h| > 0
    ensures Track(Fresh, h) == Tracker(Streak(Some(h[|h| - 1]), TrailingRun(h)), Some(h[|h| - 1]))
    decreases |h|
  {
    var init := h[..|h| - 1];
    if |h| > 1 {
      StreakCountsRun(init);
      assert init[|init| - 1] == h[|h| - 2];
      assert init[..|init| - 1] == h[..|h| - 2];
    } else {
      assert init == [];
    }
  }

  /**
   * A reset clears dropStreak but keeps lastSpawnType: while the spawns that
   * follow repeat the last type, the streak stays untyped and only counts.
   */
  lemma {:induction false} ResetRunStaysUntyped(y: ItemType, h: seq<ItemType>)
    requires forall k :: 0 <= k < |h| ==> h[k] == y
    ensures Track(Tracker(Streak(None, 0), Some(y)), h) == Tracker(Streak(None, |h|), Some(y))
    decreases |h|
  {
    if |h| > 0 {
      ResetRunStaysUntyped(y, h[..|h| - 1]);
    }
  }

  /** Two trackers that agree after the first spawn of h agree after all of h. */
  lemma {:induction false} TrackAgreesAfterFirst(t1: Tracker, t2: Tracker, h: seq<ItemType>)
    requires |h| > 0 && Record(t1, h[0]) == Record(t2, h[0])
    ensures Track(t1, h) == Track(t2, h)
    decreases |h|
  {
    var init := h[..|h| - 1];
    if |h| == 1 {
      assert init == [];
      assert Track(t1, init) == t1 && Track(t2, init) == t2;
    } else {
      assert init[0] == h[0];
      TrackAgreesAfterFirst(t1, t2, init);
    }
  }

  /** After a reset, the first spawn of another type starts the tracker afresh. */
  lemma ResetForgottenOnChange(y: ItemType, h: seq<ItemType>)
    requires |h| > 0 && h[0] != y
    ensures Track(Tracker(Streak(None, 0), Some(y)), h) == Track(Fresh, h)
  {
    TrackAgreesAfterFirst(Tracker(Streak(None, 0), Some(y)), Fresh, h);
  }

  /** The clean chance that replaces the base chance once a streak of `kind` reaches the threshold. */
  function StreakChance(d: Difficulty, kind: ItemType): (c: nat)
    ensures c <= 100
    ensures kind == Dirty ==> c > Settings(d).baseCleanChance
    ensures kind == Clean ==> (c < Settings(d).baseCleanChance <==> d == Hard)
  {
    match kind
    case Clean => (match d case Easy => 80 case Medium => 70 case Hard => 30)
    case Dirty => (match d case Easy => 90 case Medium => 80 case Hard => 70)
  }

  /**
   * The chance that the next spawn is clean. A dirty streak always raises it
   * above the base chance; a clean streak lowers it on hard only (it is equal
   * on medium and higher on easy).
   */
  function CleanChance(d: Difficulty, st: Streak): (c: nat)
    ensures c <= 100
    ensures st.count < STREAK_THRESHOLD || st.kind.None? ==> c == Settings(d).baseCleanChance
    ensures st.count >= STREAK_THRESHOLD && st.kind.Some? ==> c == StreakChance(d, st.kind.value)
    ensures st.count >= STREAK_THRESHOLD && st.kind == Some(Dirty) ==> c > Settings(d).baseCleanChance
    ensures st.count >= STREAK_THRESHOLD && st.kind == Some(Clean) ==>
      (d == Easy ==> c > Settings(d).baseCleanChance) &&
      (d == Medium ==> c == Settings(d).baseCleanChance) &&
      (d == Hard ==> c < Settings(d).baseCleanChance)
  {
    if st.count >= STREAK_THRESHOLD && st.kind.Some? then StreakChance(d, st.kind.value)
    else Settings(d).baseCleanChance
  }

  /** Without a reset, the bias applies exactly when the last three or more spawns had one type. */
  lemma BiasFollowsRun(d: Difficulty, h: seq<ItemType>)
    requires |h| > 0
    ensures CleanChance(d, Track(Fresh, h).streak) ==
      if TrailingRun(h) >= STREAK_THRESHOLD then StreakChance(d, h[|h| - 1]) else Settings(d).baseCleanChance
  {
    StreakCountsRun(h);
  }

  /** `Math.random() < chance`, with the chance in percent and Math.random() = u.num / u.den. */
  function Draw(chance: nat, u: Unit): (t: ItemType)
    ensures chance == 0 ==> t == Dirty
    ensures chance >= 100 ==> t == Clean
  {
    MoreThanScaled(u.num, u.den, chance);
    if 100 * u.num < chance * u.den then Clean else Dirty
  }

  lemma MoreThanScaled(num: nat, den: nat, chance: nat)
    requires num < den
    ensures chance >= 100 ==> 100 * num < chance * den
  {
    if chance >= 100 {
      assert 100 * num < 100 * den;
      assert 100 * den <= chance * den;
    }
  }

  /** How many of the draws 0/100, 1/100, ..., (m - 1)/100 come out clean. */
  function CleanDraws(chance: nat, m: nat): nat
    requires m <= 100
  {
    if m == 0 then 0
    else CleanDraws(chance, m - 1) + (if Draw(chance, Fraction(m - 1, 100)) == Clean then 1 else 0)
  }

  /** Of the m smallest draws on a grid of 1/100, the first `chance` are clean and the rest dirty. */
  lemma {:induction false} CleanShare(chance: nat, m: nat)
    requires m <= 100
    ensures CleanDraws(chance, m) == if m < chance then m else chance
  {
    if m > 0 {
      CleanShare(chance, m - 1);
    }
  }

  /** Of the 100 equally likely draws on a grid of 1/100, exactly `chance` are clean. */
  lemma DrawIsCleanWithChance(chance: nat)
    requires chance <= 100
    ensures CleanDraws(chance, 100) == chance
  {
    CleanShare(chance, 100);
  }
}
