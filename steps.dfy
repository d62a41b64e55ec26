/**
 * The step accumulator and minute classifier of the watch application.
 *
 * A step-counter sensor delivers absolute step totals; each reading after the
 * baseline adds its positive difference to a per-minute accumulator. Once a
 * minute a tick exchanges the accumulator for 0 and counts the minute as
 * active (more than ten steps) or inactive.
 *
 * The first half of the module is a value-level specification (Counters,
 * OnReading, OnTick, Run) with the lemmas about it; the second half is the
 * repository class, whose methods change its fields in place and are proved
 * against that specification.
 */
module Steps {

  /** A minute with strictly more steps than this is active. */
  const ActiveThreshold: int := 10

  /** What the repository can observe: a sensor reading or the end of a minute. */
  datatype Event = Reading(total: int) | Tick

  /** The repository's four variables: the last sensor total (0 means "no
      baseline yet"), the steps of the current minute, and the two counters. */
  datatype Counters = Counters(lastTotal: int, acc: int, active: int, inactive: int)

  /** The state right after construction. */
  const Initial: Counters := Counters(0, 0, 0, 0)

  // ---------------------------------------------------------------------
  // One reading, one tick
  // ---------------------------------------------------------------------

  /** The sensor callback: a reading while no baseline is known only records
      the baseline; otherwise the total is recorded and a positive difference
      is added to the accumulator. */
  function OnReading(s: Counters, total: int): Counters
  {
    if s.lastTotal == 0 then
      s.(lastTotal := total)
    else
      var stepsTaken := total - s.lastTotal;
      if stepsTaken > 0 then s.(lastTotal := total, acc := s.acc + stepsTaken)
      else s.(lastTotal := total)
  }

  /** Whether a minute in which `captured` steps were counted is active. */
  predicate IsActiveMinute(captured: int)
  {
    captured > ActiveThreshold
  }

  /** One iteration of the minute timer: the accumulator is exchanged for 0
      and exactly one of the two counters is bumped. The captured value is
      `s.acc`. */
  function OnTick(s: Counters): Counters
  {
    var stepsLastMinute := s.acc;
    var reset := s.(acc := 0);
    if IsActiveMinute(stepsLastMinute) then reset.(active := s.active + 1)
    else reset.(inactive := s.inactive + 1)
  }

  function Step(s: Counters, e: Event): Counters
  {
    match e
    case Reading(total) => OnReading(s, total)
    case Tick => OnTick(s)
  }

  // ---------------------------------------------------------------------
  // Runs of events
  // ---------------------------------------------------------------------

  /** The state after the events `evs`, processed in order, starting from `s`. */
  function Run(s: Counters, evs: seq<Event>): Counters
    decreases |evs|
  {
    if evs == [] then s else Step(Run(s, evs[..|evs| - 1]), evs[|evs| - 1])
  }

  /** The number of ticks in `evs`. */
  function Ticks(evs: seq<Event>): nat
    decreases |evs|
  {
    if evs == [] then 0
    else Ticks(evs[..|evs| - 1]) + (if evs[|evs| - 1].Tick? then 1 else 0)
  }

  /** The sensor totals in `evs`, in order. */
  function Readings(evs: seq<Event>): seq<int>
    decreases |evs|
  {
    if evs == [] then []
    else
      var e := evs[|evs| - 1];
      Readings(evs[..|evs| - 1]) + (if e.Reading? then [e.total] else [])
  }

  /** The sum of the step counts captured by the ticks of `evs`, run from `s`. */
  function Captured(s: Counters, evs: seq<Event>): int
    decreases |evs|
  {
    if evs == [] then 0
    else
      var before := evs[..|evs| - 1];
      Captured(s, before) + (if evs[|evs| - 1].Tick? then Run(s, before).acc else 0)
  }

  // ---------------------------------------------------------------------
  // A reference definition of the steps the sensor has reported
  // ---------------------------------------------------------------------

  /** The steps a reading of `total` reports after the previous total `prev`:
      the increase, if there was a baseline and the total went up; else none. */
  function Contribution(prev: int, total: int): (d: int)
    ensures d >= 0
    ensures d > 0 ==> prev != 0 && d == total - prev
    ensures prev != 0 && total > prev ==> d == total - prev
  {
    if prev != 0 && total > prev then total - prev else 0
  }

  /** The last total seen, or `start` if there are no readings. */
  function LastTotal(start: int, rs: seq<int>): int
  {
    if rs == [] then start else rs[|rs| - 1]
  }

  /** All steps reported by the readings `rs`, when the total before them was
      `start`: the sum of the contributions of consecutive totals. */
  function Gain(start: int, rs: seq<int>): int
    decreases |rs|
  {
    if rs == [] then 0
    else
      var before := rs[..|rs| - 1];
      Gain(start, before) + Contribution(LastTotal(start, before), rs[|rs| - 1])
  }

  // ---------------------------------------------------------------------
  // Properties of one reading and one tick
  // ---------------------------------------------------------------------

  /** A reading without a baseline only records it: whatever its magnitude,
      the accumulator and the counters are unchanged. */
  lemma BaselineReading(s: Counters, total: int)
    requires s.lastTotal == 0
    ensures OnReading(s, total) == Counters(total, s.acc, s.active, s.inactive)
  {
  }

  /** Every reading records its total, adds exactly its contribution to the
      accumulator (so never a negative amount) and leaves the counters alone. */
  lemma ReadingAddsContribution(s: Counters, total: int)
    ensures OnReading(s, total).lastTotal == total
    ensures OnReading(s, total).acc == s.acc + Contribution(s.lastTotal, total)
    ensures OnReading(s, total).active == s.active
    ensures OnReading(s, total).inactive == s.inactive
  {
  }

  /** A tick empties the accumulator, keeps the last total, and bumps exactly
      one counter by one: `active` if and only if the minute had more than
      ten steps. */
  lemma TickClassifies(s: Counters)
    ensures OnTick(s).acc == 0 && OnTick(s).lastTotal == s.lastTotal
    ensures OnTick(s).active + OnTick(s).inactive == s.active + s.inactive + 1
    ensures OnTick(s).active == s.active + 1 <==> s.acc > ActiveThreshold
    ensures OnTick(s).inactive == s.inactive + 1 <==> s.acc <= ActiveThreshold
  {
  }

  /** The threshold is strict: ten steps make an inactive minute, eleven an
      active one. */
  lemma ThresholdIsStrict(s: Counters)
    ensures OnTick(s.(acc := 10)).inactive == s.inactive + 1
    ensures OnTick(s.(acc := 10)).active == s.active
    ensures OnTick(s.(acc := 11)).active == s.active + 1
    ensures OnTick(s.(acc := 11)).inactive == s.inactive
  {
  }

  /** A first reading of 500 leaves the accumulator at 0; a later drop from
      1000 to 998 adds nothing but still records 998. */
  lemma ReadingExamples()
    ensures Run(Initial, [Reading(500)]) == Counters(500, 0, 0, 0)
    ensures OnReading(Counters(1000, 7, 2, 3), 998) == Counters(998, 7, 2, 3)
  {
    assert [Reading(500)][..0] == [];
  }

  /** Since 0 is also the "no baseline" sentinel, a total of 0 is never a
      baseline: after readings 0 and 15 the 15 is taken as the baseline and
      nothing is counted. */
  lemma ZeroTotalIsNoBaseline()
    ensures Run(Initial, [Reading(0), Reading(15)]) == Counters(15, 0, 0, 0)
  {
    RunAppend(Initial, [], Reading(0));
    assert [] + [Reading(0)] == [Reading(0)];
    RunAppend(Initial, [Reading(0)], Reading(15));
    assert [Reading(0)] + [Reading(15)] == [Reading(0), Reading(15)];
  }

  /** After a (positive) baseline, a reading of 0 adds nothing and re-arms
      the baseline: the next reading is recorded as a fresh baseline and adds
      nothing either, whatever its size. */
  lemma ZeroReArms(s: Counters, total: int)
    requires s.lastTotal > 0
    ensures OnReading(s, 0).lastTotal == 0
    ensures OnReading(OnReading(s, 0), total) == s.(lastTotal := total)
  {
  }

  // ---------------------------------------------------------------------
  // Properties of runs
  // ---------------------------------------------------------------------

  lemma RunAppend(s: Counters, evs: seq<Event>, e: Event)
    ensures Run(s, evs + [e]) == Step(Run(s, evs), e)
    ensures Ticks(evs + [e]) == Ticks(evs) + (if e.Tick? then 1 else 0)
    ensures Readings(evs + [e]) == Readings(evs) + (if e.Reading? then [e.total] else [])
    ensures Captured(s, evs + [e]) == Captured(s, evs) + (if e.Tick? then Run(s, evs).acc else 0)
  {
    assert (evs + [e])[..|evs|] == evs;
  }

  /** Over any run from a state with a non-negative accumulator: the
      accumulator stays non-negative, each tick adds exactly one to
      `active + inactive`, neither counter decreases, and without ticks
      the counters do not move. */
  lemma {:induction false} RunInvariant(s: Counters, evs: seq<Event>)
    requires s.acc >= 0
    ensures Run(s, evs).acc >= 0
    ensures Run(s, evs).active + Run(s, evs).inactive == s.active + s.inactive + Ticks(evs)
    ensures Run(s, evs).active >= s.active && Run(s, evs).inactive >= s.inactive
    decreases |evs|
  {
    if evs != [] {
      var before := evs[..|evs| - 1];
      RunInvariant(s, before);
      assert evs == before + [evs[|evs| - 1]];
    }
  }

  /** Since construction, `active + inactive` is the number of elapsed minutes. */
  lemma {:induction false} MinutesAreTicks(evs: seq<Event>)
    ensures Run(Initial, evs).active + Run(Initial, evs).inactive == Ticks(evs)
    ensures Run(Initial, evs).acc >= 0
    ensures Run(Initial, evs).active >= 0 && Run(Initial, evs).inactive >= 0
  {
    RunInvariant(Initial, evs);
  }

  /** Counters never decrease: the state after a longer run has counters at
      least those after any prefix of it. */
  lemma {:induction false} CountersMonotone(evs: seq<Event>, more: seq<Event>)
    ensures Run(Initial, evs + more).active >= Run(Initial, evs).active
    ensures Run(Initial, evs + more).inactive >= Run(Initial, evs).inactive
  {
    RunSplit(Initial, evs, more);
    MinutesAreTicks(evs);
    RunInvariant(Run(Initial, evs), more);
  }

  lemma {:induction false} RunSplit(s: Counters, evs: seq<Event>, more: seq<Event>)
    ensures Run(s, evs + more) == Run(Run(s, evs), more)
    decreases |more|
  {
    if more == [] {
      assert evs + more == evs;
    } else {
      var m := more[..|more| - 1];
      var e := more[|more| - 1];
      assert evs + more == (evs + m) + [e];
      RunAppend(s, evs + m, e);
      RunSplit(s, evs, m);
    }
  }

  /** Readings never change the counters: a run of readings only leaves both
      counters where they were. */
  lemma {:induction false} ReadingsKeepCounters(s: Counters, evs: seq<Event>)
    requires forall i :: 0 <= i < |evs| ==> evs[i].Reading?
    ensures Run(s, evs).active == s.active && Run(s, evs).inactive == s.inactive
    decreases |evs|
  {
    if evs != [] {
      ReadingsKeepCounters(s, evs[..|evs| - 1]);
    }
  }

  /** Without any reading (no sensor on the device), every minute is
      inactive: after n ticks the state is exactly n inactive minutes. */
  lemma {:induction false} NoReadingsAllInactive(evs: seq<Event>)
    requires forall i :: 0 <= i < |evs| ==> evs[i].Tick?
    ensures Run(Initial, evs) == Counters(0, 0, 0, |evs|)
    decreases |evs|
  {
    if evs != [] {
      NoReadingsAllInactive(evs[..|evs| - 1]);
    }
  }

  /** Conservation: along any run, the steps captured by the ticks plus
      what is still in the accumulator are exactly the steps the readings
      reported (by the reference definition Gain, which looks at the
      readings alone), and the last total is the last reading. */
  lemma {:induction false} Conservation(s: Counters, evs: seq<Event>)
    ensures Captured(s, evs) + Run(s, evs).acc == s.acc + Gain(s.lastTotal, Readings(evs))
    ensures Run(s, evs).lastTotal == LastTotal(s.lastTotal, Readings(evs))
    decreases |evs|
  {
    if evs != [] {
      var before := evs[..|evs| - 1];
      var e := evs[|evs| - 1];
      assert evs == before + [e];
      Conservation(s, before);
      RunAppend(s, before, e);
      var rs := Readings(before);
      if e.Reading? {
        var rs' := rs + [e.total];
        assert Readings(evs) == rs';
        assert rs'[..|rs|] == rs;
        assert Gain(s.lastTotal, rs') ==
          Gain(s.lastTotal, rs) + Contribution(LastTotal(s.lastTotal, rs), e.total);
        ReadingAddsContribution(Run(s, before), e.total);
        assert Run(s, evs) == OnReading(Run(s, before), e.total);
        assert Captured(s, evs) == Captured(s, before);
      } else {
        assert Readings(evs) == rs;
        assert Run(s, evs).acc == 0;
      }
    }
  }

  /** From construction: all captured minutes plus the current minute add
      up to every positive step difference the sensor reported. */
  lemma {:induction false} NothingLost(evs: seq<Event>)
    ensures Captured(Initial, evs) + Run(Initial, evs).acc == Gain(0, Readings(evs))
  {
    Conservation(Initial, evs);
  }

  /** Both orders of a tick among two readings lose nothing: with baseline
      100, reading 103 then 105 and a tick captures 5 and leaves 0; reading
      103, a tick, then 105 captures 3 and leaves 2. */
  lemma TickBetweenReadings()
    ensures var s := Counters(100, 0, 0, 0);
      Run(s, [Reading(103), Reading(105), Tick]) == Counters(105, 0, 0, 1) &&
      Captured(s, [Reading(103), Reading(105), Tick]) == 5 &&
      Run(s, [Reading(103), Tick, Reading(105)]) == Counters(105, 2, 0, 1) &&
      Captured(s, [Reading(103), Tick, Reading(105)]) == 3
  {
    var s := Counters(100, 0, 0, 0);
    var one := [Reading(103)];
    RunAppend(s, [], Reading(103));
    assert [] + one == one;
    assert Run(s, one) == Counters(103, 3, 0, 0) && Captured(s, one) == 0;
    AppendKnown(s, one, Reading(105), Counters(103, 3, 0, 0), 0);
    AppendKnown(s, one, Tick, Counters(103, 3, 0, 0), 0);
    AppendKnown(s, one + [Reading(105)], Tick, Counters(105, 5, 0, 0), 0);
    AppendKnown(s, one + [Tick], Reading(105), Counters(103, 0, 0, 1), 3);
    assert one + [Reading(105)] + [Tick] == [Reading(103), Reading(105), Tick];
    assert one + [Tick] + [Reading(105)] == [Reading(103), Tick, Reading(105)];
  }

  /** One more event after a run whose outcome is known. */
  lemma AppendKnown(s: Counters, evs: seq<Event>, e: Event, t: Counters, c: int)
    requires Run(s, evs) == t && Captured(s, evs) == c
    ensures Run(s, evs + [e]) == Step(t, e)
    ensures Captured(s, evs + [e]) == c + (if e.Tick? then t.acc else 0)
  {
    RunAppend(s, evs, e);
  }

  // ---------------------------------------------------------------------
  // The repository object
  // ---------------------------------------------------------------------

  class StepsDataRepository {
    /** The last sensor total; 0 means no baseline yet. */
    var lastTotal: int
    /** Steps counted in the current minute. */
    var acc: int
    /** Minutes classified active and inactive since construction. */
    var active: int
    var inactive: int

    /** Every reading and tick so far, in order. */
    ghost var history: seq<Event>
    /** Sum of the step counts captured by the ticks so far. */
    ghost var captured: int
    /** Number of complication refreshes requested so far. */
    ghost var refreshRequests: nat

    function State(): Counters
      reads this
    {
      Counters(lastTotal, acc, active, inactive)
    }

    /** The fields are the result of running the history from construction,
        and the properties proved about such runs hold of them. */
    ghost predicate Valid()
      reads this
    {
      State() == Run(Initial, history) &&
      captured == Captured(Initial, history) &&
      refreshRequests == Ticks(history) &&
      acc >= 0 && active >= 0 && inactive >= 0 &&
      active + inactive == Ticks(history) &&
      captured + acc == Gain(0, Readings(history)) &&
      lastTotal == LastTotal(0, Readings(history))
    }

    constructor ()
      ensures Valid()
      ensures history == [] && State() == Initial && captured == 0
    {
      lastTotal, acc, active, inactive := 0, 0, 0, 0;
      history, captured, refreshRequests := [], 0, 0;
    }

    /** The sensor callback, with the reading already converted to an integer. */
    method OnSensorChanged(totalSensorSteps: int)
      requires Valid()
      modifies this
      ensures Valid()
      ensures history == old(history) + [Reading(totalSensorSteps)]
      ensures State() == OnReading(old(State()), totalSensorSteps)
      ensures lastTotal == totalSensorSteps
      ensures acc == old(acc) + Contribution(old(lastTotal), totalSensorSteps)
      ensures active == old(active) && inactive == old(inactive)
      ensures captured == old(captured) && refreshRequests == old(refreshRequests)
    {
      RunAppend(Initial, history, Reading(totalSensorSteps));
      Conservation(Initial, history + [Reading(totalSensorSteps)]);
      MinutesAreTicks(history + [Reading(totalSensorSteps)]);
      history := history + [Reading(totalSensorSteps)];
      if lastTotal == 0 {
        lastTotal := totalSensorSteps;
        return;
      }
      var stepsTaken := totalSensorSteps - lastTotal;
      lastTotal := totalSensorSteps;
      if stepsTaken > 0 {
        acc := acc + stepsTaken;
      }
    }

    /** One iteration of the minute timer, after its one-minute wait. Returns
        the steps captured for the minute and whether it was active. */
    method MinuteTick() returns (stepsLastMinute: int, wasActive: bool)
      requires Valid()
      modifies this
      ensures Valid()
      ensures history == old(history) + [Tick]
      ensures State() == OnTick(old(State()))
      ensures stepsLastMinute == old(acc) && acc == 0 && lastTotal == old(lastTotal)
      ensures wasActive <==> IsActiveMinute(stepsLastMinute)
      ensures wasActive ==> active == old(active) + 1 && inactive == old(inactive)
      ensures !wasActive ==> inactive == old(inactive) + 1 && active == old(active)
      ensures captured == old(captured) + stepsLastMinute
      ensures refreshRequests == old(refreshRequests) + 1
    {
      RunAppend(Initial, history, Tick);
      Conservation(Initial, history + [Tick]);
      MinutesAreTicks(history + [Tick]);
      history := history + [Tick];
      // getAndSet(0), as one sequential exchange
      stepsLastMinute, acc := acc, 0;
      wasActive := IsActiveMinute(stepsLastMinute);
      if wasActive {
        active := active + 1;
      } else {
        inactive := inactive + 1;
      }
      captured := captured + stepsLastMinute;
      // updateComplications()
      refreshRequests := refreshRequests + 1;
    }

    /** The current number of active minutes. */
    method ActiveMinutes() returns (n: int)
      requires Valid()
      ensures n == active
      ensures 0 <= n <= Ticks(history)
    {
      n := active;
    }

    /** The current number of inactive minutes. */
    method InactiveMinutes() returns (n: int)
      requires Valid()
      ensures n == inactive
      ensures 0 <= n <= Ticks(history)
    {
      n := inactive;
    }
  }
}
