/**
 * The setup screen (app/setup.tsx): two temperature set-points adjusted in steps of
 * 0.1 °C by four buttons, the check that sends an already configured app on to
 * monitoring, and the start of an incubation, which stores one configuration record.
 *
 * The screen keeps each set-point as the one-decimal string produced by `toFixed(1)`
 * and reads it back with `parseFloat`; here a set-point is that parsed value, a whole
 * number of tenths of a degree (375 is 37.5 °C) or NaN.
 */
module Setup {
  import opened Wrappers
  import opened CivilDates

  /** A parsed temperature: `Tenths(t)` is t / 10 °C. */
  datatype Reading = Tenths(t: int) | NaN

  /** One button press changes a set-point by 0.1 °C. */
  const Step: int := 1
  /** The minimum is never lowered below 35.0 °C. */
  const LowestMin: int := 350
  /** The maximum is never raised above 40.0 °C. */
  const HighestMax: int := 400
  /** Initial set-points of the screen: 37.5 °C and 38.0 °C. */
  const InitialMin: int := 375
  const InitialMax: int := 380
  /** Length of an incubation. */
  const IncubationDays: nat := 21

  /** `r + delta` in floating point: NaN stays NaN. */
  function Shift(r: Reading, delta: int): Reading {
    match r
    case Tenths(t) => Tenths(t + delta)
    case NaN => NaN
  }

  /** `Math.min`: NaN when either argument is NaN. */
  function JsMin(a: Reading, b: Reading): Reading {
    if a.NaN? || b.NaN? then NaN
    else if a.t <= b.t then a
    else b
  }

  /** `Math.max`: NaN when either argument is NaN. */
  function JsMax(a: Reading, b: Reading): Reading {
    if a.NaN? || b.NaN? then NaN
    else if a.t >= b.t then a
    else b
  }

  /** Which set-point a button acts on: the source's `type: 'min' | 'max'`. */
  datatype Target = Min | Max

  /** One button press: the set-point it acts on and whether it raises or lowers it. */
  datatype Press = Press(target: Target, increment: bool)

  /** The pair of set-points the screen holds. */
  datatype Setpoints = Setpoints(min: Reading, max: Reading)

  /** The range the buttons maintain: both numeric, 35.0 <= min < max <= 40.0. */
  predicate InRange(s: Setpoints) {
    s.min.Tenths? && s.max.Tenths? && LowestMin <= s.min.t < s.max.t <= HighestMax
  }

  /**
   * The minimum after one press: raised by a step but kept a step below the maximum,
   * or lowered by a step but not below 35.0.
   */
  function AdjustedMin(min: Reading, max: Reading, increment: bool): (r: Reading)
    ensures r.NaN? <==> min.NaN? || (increment && max.NaN?)
    ensures increment && r.Tenths? ==>
      r.t < max.t && r.t <= min.t + Step && (r.t == min.t + Step || r.t == max.t - Step)
    ensures !increment && r.Tenths? ==>
      LowestMin <= r.t && min.t - Step <= r.t && (r.t == min.t - Step || r.t == LowestMin)
  {
    if increment then JsMin(Shift(min, Step), Shift(max, -Step))
    else JsMax(Shift(min, -Step), Tenths(LowestMin))
  }

  /**
   * The maximum after one press: raised by a step but not above 40.0, or lowered by a
   * step but kept a step above the minimum.
   */
  function AdjustedMax(min: Reading, max: Reading, increment: bool): (r: Reading)
    ensures r.NaN? <==> max.NaN? || (!increment && min.NaN?)
    ensures increment && r.Tenths? ==>
      r.t <= HighestMax && r.t <= max.t + Step && (r.t == max.t + Step || r.t == HighestMax)
    ensures !increment && r.Tenths? ==>
      min.t < r.t && max.t - Step <= r.t && (r.t == max.t - Step || r.t == min.t + Step)
  {
    if increment then JsMin(Shift(max, Step), Tenths(HighestMax))
    else JsMax(Shift(max, -Step), Shift(min, Step))
  }

  /** The effect of one press on the pair: only the targeted set-point changes. */
  function Adjust(s: Setpoints, p: Press): (r: Setpoints)
    ensures p.target == Min ==> r.max == s.max && r.min == AdjustedMin(s.min, s.max, p.increment)
    ensures p.target == Max ==> r.min == s.min && r.max == AdjustedMax(s.min, s.max, p.increment)
  {
    match p.target
    case Min => s.(min := AdjustedMin(s.min, s.max, p.increment))
    case Max => s.(max := AdjustedMax(s.min, s.max, p.increment))
  }

  /** The pair after a sequence of presses, in order. */
  function AfterPresses(s: Setpoints, presses: seq<Press>): Setpoints
    decreases |presses|
  {
    if presses == [] then s else AfterPresses(Adjust(s, presses[0]), presses[1..])
  }

  /** Every single press keeps 35.0 <= min < max <= 40.0. */
  lemma AdjustKeepsRange(s: Setpoints, p: Press)
    requires InRange(s)
    ensures InRange(Adjust(s, p))
  {
  }

  /** Any sequence of presses from a pair in range, in particular from 37.5 / 38.0, stays in range. */
  lemma {:induction false} PressesKeepRange(s: Setpoints, presses: seq<Press>)
    requires InRange(s)
    ensures InRange(AfterPresses(s, presses))
    decreases |presses|
  {
    if presses != [] {
      AdjustKeepsRange(s, presses[0]);
      PressesKeepRange(Adjust(s, presses[0]), presses[1..]);
    }
  }

  /** At each of the four bounds the press that would cross it leaves the pair as it is. */
  lemma PressAtBoundIsNoOp(s: Setpoints)
    requires s.min.Tenths? && s.max.Tenths?
    ensures s.min.t == LowestMin ==> Adjust(s, Press(Min, false)) == s
    ensures s.max.t == HighestMax ==> Adjust(s, Press(Max, true)) == s
    ensures s.min.t == s.max.t - Step ==> Adjust(s, Press(Min, true)) == s
    ensures s.max.t == s.min.t + Step ==> Adjust(s, Press(Max, false)) == s
  {
  }

  /** Away from the bounds a press moves its set-point by exactly one step. */
  lemma PressAwayFromBoundSteps(s: Setpoints)
    requires InRange(s)
    ensures s.min.t > LowestMin ==> Adjust(s, Press(Min, false)).min == Tenths(s.min.t - Step)
    ensures s.max.t < HighestMax ==> Adjust(s, Press(Max, true)).max == Tenths(s.max.t + Step)
    ensures s.min.t + Step <= s.max.t - Step ==> Adjust(s, Press(Min, true)).min == Tenths(s.min.t + Step)
    ensures s.min.t + Step <= s.max.t - Step ==> Adjust(s, Press(Max, false)).max == Tenths(s.max.t - Step)
  {
  }

  /**
   * The range the screen highlights as ideal: minimum in [37.0, 38.0], maximum in
   * [37.5, 38.5], at least 0.5 °C apart. Comparisons with NaN are false.
   */
  function IsIdealRange(min: Reading, max: Reading): (ideal: bool)
    ensures ideal ==> InRange(Setpoints(min, max))
    ensures ideal ==> min.t <= max.t - 5
  {
    min.Tenths? && max.Tenths?
    && 370 <= min.t <= 380 && 375 <= max.t <= 385 && max.t - min.t >= 5
  }

  /** The persisted record, stored under the key `incubationConfig`. */
  datatype Config = Config(
    startDate: DateTime,
    endDate: DateTime,
    minTemp: int,
    maxTemp: int,
    configDate: DateTime)

  datatype SetupError =
    | InvalidTemperatures  // the alert "minimum < maximum"
    | SaveFailed           // the alert that the configuration could not be saved

  /** The route the screen replaces itself with: `/(tabs)/monitoring`. */
  datatype Route = Monitoring

  /** The end of an incubation that starts at `start`: 21 calendar days later, same time of day. */
  function IncubationEnd(start: DateTime): (end: DateTime)
    ensures DayNumber(end.date) == DayNumber(start.date) + IncubationDays
    ensures Before(start.date, end.date)
    ensures end.msOfDay == start.msOfDay
  {
    DateTime(AddDays(start.date, IncubationDays), start.msOfDay)
  }

  /**
   * Validation and construction of the record when the user starts an incubation: a
   * NaN set-point or a minimum not below the maximum is rejected.
   */
  function NewConfig(min: Reading, max: Reading, start: DateTime, now: DateTime): (r: Result<Config, SetupError>)
    ensures r.Success? <==> min.Tenths? && max.Tenths? && min.t < max.t
    ensures r.Failure? ==> r.error == InvalidTemperatures
    ensures r.Success? ==>
      && r.value.minTemp == min.t && r.value.maxTemp == max.t
      && r.value.startDate == start && r.value.configDate == now
      && DayNumber(r.value.endDate.date) == DayNumber(start.date) + IncubationDays
      && r.value.endDate.msOfDay == start.msOfDay
  {
    if min.NaN? || max.NaN? || min.t >= max.t then Failure(InvalidTemperatures)
    else Success(Config(start, IncubationEnd(start), min.t, max.t, now))
  }

  /** Whatever the buttons have done, starting an incubation passes validation, and the record it builds is in range. */
  lemma {:induction false} ReachableSetpointsStart(presses: seq<Press>, start: DateTime, now: DateTime)
    ensures var s := AfterPresses(Setpoints(Tenths(InitialMin), Tenths(InitialMax)), presses);
      && NewConfig(s.min, s.max, start, now).Success?
      && LowestMin <= NewConfig(s.min, s.max, start, now).value.minTemp
      && NewConfig(s.min, s.max, start, now).value.maxTemp <= HighestMax
  {
    PressesKeepRange(Setpoints(Tenths(InitialMin), Tenths(InitialMax)), presses);
  }

  /** An ideal range always passes validation. */
  lemma IdealRangeStarts(min: Reading, max: Reading, start: DateTime, now: DateTime)
    requires IsIdealRange(min, max)
    ensures NewConfig(min, max, start, now).Success?
  {
  }

  /** The device's key-value storage, reduced to its `incubationConfig` slot. */
  class ConfigStore {
    var incubationConfig: Option<Config>

    constructor (initial: Option<Config>)
      ensures incubationConfig == initial
    {
      incubationConfig := initial;
    }
  }

  /** The state of the setup screen while it is mounted. */
  class SetupScreen {
    var minTemp: Reading
    var maxTemp: Reading
    /** `useState(new Date())`: fixed when the screen mounts. */
    const startDate: DateTime
    const store: ConfigStore

    function Current(): Setpoints
      reads this
    {
      Setpoints(minTemp, maxTemp)
    }

    constructor (now: DateTime, store: ConfigStore)
      ensures Current() == Setpoints(Tenths(InitialMin), Tenths(InitialMax))
      ensures InRange(Current())
      ensures startDate == now && this.store == store
    {
      minTemp, maxTemp := Tenths(InitialMin), Tenths(InitialMax);
      startDate := now;
      this.store := store;
    }

    /**
     * The check run when the screen mounts: a stored record sends the user straight to
     * monitoring; a failed read is only logged.
     */
    method CheckExistingConfig(readSucceeds: bool) returns (redirect: Option<Route>)
      ensures redirect.Some? <==> readSucceeds && store.incubationConfig.Some?
      ensures redirect.Some? ==> redirect.value == Monitoring
    {
      if readSucceeds && store.incubationConfig.Some? {
        redirect := Some(Monitoring);
      } else {
        redirect := None;
      }
    }

    /** One press of a +/- button; the other set-point is left alone and the range is kept. */
    method AdjustTemperature(target: Target, increment: bool)
      modifies this
      ensures Current() == Adjust(old(Current()), Press(target, increment))
      ensures old(InRange(Current())) ==> InRange(Current())
    {
      if target == Min {
        minTemp := AdjustedMin(minTemp, maxTemp, increment);
      } else {
        maxTemp := AdjustedMax(minTemp, maxTemp, increment);
      }
      if old(InRange(Current())) {
        AdjustKeepsRange(old(Current()), Press(target, increment));
      }
    }

    /**
     * The start button: validate, write the record, then navigate to monitoring. A
     * rejected range or a failed write leaves storage as it was and does not navigate.
     */
    method HandleStartIncubation(now: DateTime, writeSucceeds: bool) returns (outcome: Result<Route, SetupError>)
      modifies store
      ensures NewConfig(minTemp, maxTemp, startDate, now).Failure? ==>
        outcome == Failure(InvalidTemperatures) && store.incubationConfig == old(store.incubationConfig)
      ensures NewConfig(minTemp, maxTemp, startDate, now).Success? && writeSucceeds ==>
        outcome == Success(Monitoring)
        && store.incubationConfig == Some(NewConfig(minTemp, maxTemp, startDate, now).value)
      ensures NewConfig(minTemp, maxTemp, startDate, now).Success? && !writeSucceeds ==>
        outcome == Failure(SaveFailed) && store.incubationConfig == old(store.incubationConfig)
    {
      var config := NewConfig(minTemp, maxTemp, startDate, now);
      if config.Failure? {
        return Failure(InvalidTemperatures);
      }
      if writeSucceeds {
        store.incubationConfig := Some(config.value);
        outcome := Success(Monitoring);
      } else {
        outcome := Failure(SaveFailed);
      }
    }
  }
}
