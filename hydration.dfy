/**
 * The hydration tracker screen: a count of glasses drunk today and a daily
 * goal, each changed by a pair of guarded buttons and mirrored into the
 * application's preferences store.
 *
 * The first half of the module is a value-level specification (Glasses,
 * Press, PressAll) with the lemmas about it; the second half is the screen's
 * state as a class whose methods are the screen's local functions and button
 * handlers, proved against that specification.
 */
module Hydration {

  /** Preference keys and the defaults used when a key is absent. */
  const CountKey: string := "glasses_drank"
  const MaxKey: string := "max_glasses"
  const DefaultCount: int := 0
  const DefaultMax: int := 8

  /** The preferences store: integer values under string keys. */
  type Prefs = map<string, int>

  /** The store's integer lookup: the stored value, or `default` if absent. */
  function GetInt(prefs: Prefs, key: string, default: int): int
  {
    if key in prefs then prefs[key] else default
  }

  /** The glasses drunk and the goal. */
  datatype Glasses = Glasses(count: int, goal: int)

  /** The bound the buttons maintain: the count between 0 and the goal, the
      goal at least one glass. */
  predicate WithinGoal(g: Glasses)
  {
    0 <= g.count <= g.goal && g.goal >= 1
  }

  /** The state the screen starts from, read from the store. */
  function Load(prefs: Prefs): Glasses
  {
    Glasses(GetInt(prefs, CountKey, DefaultCount), GetInt(prefs, MaxKey, DefaultMax))
  }

  /** The effect of setting the goal to `newMax`: the goal becomes `newMax`
      and the count becomes the smaller of itself and `newMax`. */
  function WithGoal(g: Glasses, newMax: int): (r: Glasses)
    ensures r.goal == newMax
    ensures r.count <= g.count && r.count <= newMax
    ensures r.count == g.count || r.count == newMax
  {
    var clamped := if g.count > newMax then newMax else g.count;
    Glasses(clamped, newMax)
  }

  /** The four buttons: count minus, count plus, goal minus, goal plus. */
  datatype Button = CountDown | CountUp | GoalDown | GoalUp

  /** The guard of each button's click handler. */
  predicate Enabled(g: Glasses, b: Button)
  {
    match b
    case CountDown => g.count > 0
    case CountUp => g.count < g.goal
    case GoalDown => g.goal > 1
    case GoalUp => true
  }

  /** A click: nothing when the guard fails, else the button's action. */
  function Press(g: Glasses, b: Button): Glasses
  {
    if !Enabled(g, b) then g
    else
      match b
      case CountDown => g.(count := g.count - 1)
      case CountUp => g.(count := g.count + 1)
      case GoalDown => WithGoal(g, g.goal - 1)
      case GoalUp => WithGoal(g, g.goal + 1)
  }

  /** The state after the clicks `bs`, in order. */
  function PressAll(g: Glasses, bs: seq<Button>): Glasses
    decreases |bs|
  {
    if bs == [] then g else Press(PressAll(g, bs[..|bs| - 1]), bs[|bs| - 1])
  }

  // ---------------------------------------------------------------------
  // Lemmas
  // ---------------------------------------------------------------------

  /** With an empty store the screen starts at 0 of 8 glasses, within the bound. */
  lemma DefaultsWithinGoal()
    ensures Load(map[]) == Glasses(0, 8)
    ensures WithinGoal(Load(map[]))
  {
  }

  /** Every click keeps the bound. */
  lemma PressKeepsWithinGoal(g: Glasses, b: Button)
    requires WithinGoal(g)
    ensures WithinGoal(Press(g, b))
  {
  }

  /** The bound holds after any sequence of clicks from a state within it. */
  lemma {:induction false} PressAllKeepsWithinGoal(g: Glasses, bs: seq<Button>)
    requires WithinGoal(g)
    ensures WithinGoal(PressAll(g, bs))
    decreases |bs|
  {
    if bs != [] {
      PressAllKeepsWithinGoal(g, bs[..|bs| - 1]);
      PressKeepsWithinGoal(PressAll(g, bs[..|bs| - 1]), bs[|bs| - 1]);
    }
  }

  /** Each button moves its number by exactly one and leaves the other
      alone, except that lowering the goal below the count pulls the count
      down with it; a disabled button does nothing. */
  lemma PressEffect(g: Glasses, b: Button)
    requires WithinGoal(g)
    ensures !Enabled(g, b) ==> Press(g, b) == g
    ensures Enabled(g, CountDown) ==> Press(g, CountDown) == Glasses(g.count - 1, g.goal)
    ensures Enabled(g, CountUp) ==> Press(g, CountUp) == Glasses(g.count + 1, g.goal)
    ensures Enabled(g, GoalDown) && g.count < g.goal ==> Press(g, GoalDown) == Glasses(g.count, g.goal - 1)
    ensures Enabled(g, GoalDown) && g.count == g.goal ==> Press(g, GoalDown) == Glasses(g.goal - 1, g.goal - 1)
    ensures Press(g, GoalUp) == Glasses(g.count, g.goal + 1)
  {
  }

  /** Plus then minus on the count is no change; so is plus then minus on
      the goal, from any state within the bound. */
  lemma UpThenDown(g: Glasses)
    requires WithinGoal(g)
    ensures Enabled(g, CountUp) ==> Press(Press(g, CountUp), CountDown) == g
    ensures Press(Press(g, GoalUp), GoalDown) == g
  {
  }

  /** The count never exceeds the goal and never goes negative over any
      clicks, starting from an empty store. */
  lemma {:induction false} FromEmptyStore(bs: seq<Button>)
    ensures 0 <= PressAll(Load(map[]), bs).count <= PressAll(Load(map[]), bs).goal
    ensures PressAll(Load(map[]), bs).goal >= 1
  {
    PressAllKeepsWithinGoal(Load(map[]), bs);
  }

  // ---------------------------------------------------------------------
  // The screen's state
  // ---------------------------------------------------------------------

  class HydrationTracker {
    var glassCount: int
    var maxGlasses: int
    /** The "water_prefs" preferences store. */
    var prefs: Prefs
    /** Number of complication-and-tile refreshes requested so far. */
    ghost var refreshRequests: nat

    function Current(): Glasses
      reads this
    {
      Glasses(glassCount, maxGlasses)
    }

    /** The in-memory values are what the store holds (with its defaults). */
    ghost predicate Valid()
      reads this
    {
      Load(prefs) == Current()
    }

    /** The screen's initial state, read from the store. */
    constructor (stored: Prefs)
      ensures Valid() && prefs == stored && refreshRequests == 0
      ensures Current() == Load(stored)
    {
      glassCount := GetInt(stored, CountKey, DefaultCount);
      maxGlasses := GetInt(stored, MaxKey, DefaultMax);
      prefs := stored;
      refreshRequests := 0;
    }

    /** Sets the glasses drunk and stores it. */
    method UpdateCount(newCount: int)
      requires Valid()
      modifies this
      ensures Valid()
      ensures glassCount == newCount && maxGlasses == old(maxGlasses)
      ensures prefs == old(prefs)[CountKey := newCount]
      ensures refreshRequests == old(refreshRequests) + 1
    {
      glassCount := newCount;
      prefs := prefs[CountKey := newCount];
      // requestComplicationUpdate and requestTileUpdate
      refreshRequests := refreshRequests + 1;
    }

    /** Sets the goal and stores it; a count above the new goal is lowered
        to it (and stored) as well. */
    method UpdateMaxGlasses(newMax: int)
      requires Valid()
      modifies this
      ensures Valid()
      ensures Current() == WithGoal(old(Current()), newMax)
      ensures old(glassCount) > newMax ==> glassCount == newMax
      ensures old(glassCount) <= newMax ==> glassCount == old(glassCount)
      ensures prefs == if old(glassCount) > newMax
                       then old(prefs)[MaxKey := newMax][CountKey := newMax]
                       else old(prefs)[MaxKey := newMax]
      ensures refreshRequests == old(refreshRequests) + if old(glassCount) > newMax then 2 else 1
    {
      maxGlasses := newMax;
      prefs := prefs[MaxKey := newMax];
      if glassCount > newMax {
        UpdateCount(newMax);
      }
      refreshRequests := refreshRequests + 1;
    }

    /** The click handler of the count's minus button. */
    method OnCountDown()
      requires Valid()
      modifies this
      ensures Valid()
      ensures Current() == Press(old(Current()), CountDown)
      ensures old(glassCount) > 0 ==> glassCount == old(glassCount) - 1
      ensures old(glassCount) <= 0 ==> unchanged(this)
      ensures prefs == if old(glassCount) > 0
                       then old(prefs)[CountKey := old(glassCount) - 1] else old(prefs)
      ensures refreshRequests == old(refreshRequests) + if old(glassCount) > 0 then 1 else 0
      ensures WithinGoal(old(Current())) ==> WithinGoal(Current())
    {
      if glassCount > 0 {
        UpdateCount(glassCount - 1);
      }
    }

    /** The click handler of the count's plus button. */
    method OnCountUp()
      requires Valid()
      modifies this
      ensures Valid()
      ensures Current() == Press(old(Current()), CountUp)
      ensures old(glassCount) < old(maxGlasses) ==> glassCount == old(glassCount) + 1
      ensures old(glassCount) >= old(maxGlasses) ==> unchanged(this)
      ensures prefs == if old(glassCount) < old(maxGlasses)
                       then old(prefs)[CountKey := old(glassCount) + 1] else old(prefs)
      ensures refreshRequests == old(refreshRequests) + if old(glassCount) < old(maxGlasses) then 1 else 0
      ensures WithinGoal(old(Current())) ==> WithinGoal(Current())
    {
      if glassCount < maxGlasses {
        UpdateCount(glassCount + 1);
      }
    }

    /** The click handler of the goal's minus button. */
    method OnGoalDown()
      requires Valid()
      modifies this
      ensures Valid()
      ensures Current() == Press(old(Current()), GoalDown)
      ensures old(maxGlasses) > 1 ==> maxGlasses == old(maxGlasses) - 1
      ensures old(maxGlasses) <= 1 ==> unchanged(this)
      ensures prefs == if old(maxGlasses) <= 1 then old(prefs)
                       else if old(glassCount) > old(maxGlasses) - 1
                       then old(prefs)[MaxKey := old(maxGlasses) - 1][CountKey := old(maxGlasses) - 1]
                       else old(prefs)[MaxKey := old(maxGlasses) - 1]
      ensures refreshRequests == old(refreshRequests) +
                if old(maxGlasses) <= 1 then 0
                else if old(glassCount) > old(maxGlasses) - 1 then 2 else 1
      ensures WithinGoal(old(Current())) ==> WithinGoal(Current())
    {
      if maxGlasses > 1 {
        UpdateMaxGlasses(maxGlasses - 1);
      }
    }

    /** The click handler of the goal's plus button, which has no guard. */
    method OnGoalUp()
      requires Valid()
      modifies this
      ensures Valid()
      ensures Current() == Press(old(Current()), GoalUp)
      ensures maxGlasses == old(maxGlasses) + 1
      ensures WithinGoal(old(Current())) ==> glassCount == old(glassCount)
      ensures prefs == if old(glassCount) > old(maxGlasses) + 1
                       then old(prefs)[MaxKey := old(maxGlasses) + 1][CountKey := old(maxGlasses) + 1]
                       else old(prefs)[MaxKey := old(maxGlasses) + 1]
      ensures refreshRequests == old(refreshRequests) + if old(glassCount) > old(maxGlasses) + 1 then 2 else 1
      ensures WithinGoal(old(Current())) ==> WithinGoal(Current())
    {
      UpdateMaxGlasses(maxGlasses + 1);
    }
  }
}
