/**
  The controller over whole runs: bounds, the meaning of Steady and of the recovery deadline, how far apart
  increases and halvings are, and convergence under sustained health.
*/
module ControllerRuns {
  import opened Prelude
  import opened Controller

  /** Holds after every observation; `last` is the time of the latest one. */
  ghost predicate Inv(c: Control, last: nat) {
    && Usable(c.config) && Representable(c.config)
    && Controller.Below(c.config.floor, c.limits) && Controller.Below(c.limits, c.config.ceiling)
    && (c.mode == Steady ==> c.limits == c.config.ceiling)
    && (c.recoveryAt.Some? <==> c.mode.Paused? && c.mode.reason != Foreground)
    && (c.recoveryAt.Some? ==> c.recoveryAt.value <= last + c.config.maximumRecoveryDelay)
    && (c.holdUntil.None? ==> c.mode.Paused?)
    && (c.holdUntil.Some? ==> c.holdUntil.value <= last + c.config.healthyWindow)
  }

  lemma PauseKeeps(c: Control, last: nat, now: nat, o: Observation)
    requires Inv(c, last) && last <= now && Choose(c, now, o).Pause?
    ensures Inv(Observed(c, now, o), now)
  {
  }

  lemma ObserveKeeps(c: Control, last: nat, now: nat, o: Observation)
    requires Inv(c, last) && last <= now
    ensures Inv(Observed(c, now, o), now)
    ensures Observed(c, now, o).config == c.config
  {
    if Choose(c, now, o).Pause? {
      PauseKeeps(c, last, now, o);
    }
  }

  // ---------------------------------------------------------------- runs

  datatype Sample = Sample(now: nat, o: Observation)

  /** The states after each sample; states[0] is the new controller. */
  ghost predicate Run(config: Config, start: nat, samples: seq<Sample>, states: seq<Control>) {
    && Representable(config)
    && |states| == |samples| + 1
    && states[0] == Start(config, start)
    && (forall i :: 0 <= i < |samples| ==> start <= samples[i].now)
    && (forall i, j :: 0 <= i < j < |samples| ==> samples[i].now <= samples[j].now)
    && (forall i :: 0 <= i < |samples| ==> states[i + 1] == Observed(states[i], samples[i].now, samples[i].o))
  }

  function Latest(start: nat, samples: seq<Sample>, n: nat): nat
    requires n <= |samples|
  {
    if n == 0 then start else samples[n - 1].now
  }

  lemma {:induction false} RunKeeps(config: Config, start: nat, samples: seq<Sample>, states: seq<Control>, n: nat)
    requires Run(config, start, samples, states) && n < |states|
    ensures Inv(states[n], Latest(start, samples, n))
    ensures states[n].config == Normalized(config)
  {
    if n == 0 {
      NormalizedUsable(config);
    } else {
      RunKeeps(config, start, samples, states, n - 1);
      ObserveKeeps(states[n - 1], Latest(start, samples, n - 1), samples[n - 1].now, samples[n - 1].o);
    }
  }

  function ActionAt(samples: seq<Sample>, states: seq<Control>, i: nat): Action
    requires i < |samples| && i < |states|
  {
    Choose(states[i], samples[i].now, samples[i].o)
  }

  /** Pauses since the last increase. */
  function PausesSince(samples: seq<Sample>, states: seq<Control>, n: nat): (k: nat)
    requires n <= |samples| && n <= |states|
    ensures k <= n
  {
    if n == 0 then 0
    else match ActionAt(samples, states, n - 1)
         case Increase => 0
         case Pause(_) => PausesSince(samples, states, n - 1) + 1
         case _ => PausesSince(samples, states, n - 1)
  }

  lemma ExponentStep(c: Control, now: nat, o: Observation)
    ensures Observed(c, now, o).exponent ==
            match Choose(c, now, o)
            case Increase => 0
            case Pause(_) => Min(c.exponent + 1, U32_MAX)
            case _ => c.exponent
  {
  }

  lemma {:induction false} ExponentCounts(config: Config, start: nat, samples: seq<Sample>, states: seq<Control>, n: nat)
    requires Run(config, start, samples, states) && n < |states|
    ensures states[n].exponent == Min(PausesSince(samples, states, n), U32_MAX)
  {
    if n > 0 {
      ExponentCounts(config, start, samples, states, n - 1);
      ExponentStep(states[n - 1], samples[n - 1].now, samples[n - 1].o);
    }
  }

  /** In every run with nondecreasing time: limits between floor and ceiling, Steady only at the ceiling, a
      deadline exactly while paused for something other than foreground work, and each pause's deadline
      doubles with the pauses since the last increase, ten doublings at most, up to the maximum. */
  lemma PacingIsSafe(config: Config, start: nat, samples: seq<Sample>, states: seq<Control>, n: nat)
    requires Run(config, start, samples, states) && n < |states|
    ensures Controller.Below(Normalized(config).floor, states[n].limits)
    ensures Controller.Below(states[n].limits, Normalized(config).ceiling)
    ensures states[n].mode == Steady ==> states[n].limits == Normalized(config).ceiling
    ensures states[n].recoveryAt.Some? <==> states[n].mode.Paused? && states[n].mode.reason != Foreground
    ensures n < |samples| && ActionAt(samples, states, n).Pause? ==>
              states[n + 1].recoveryAt == Some(samples[n].now + Backoff(Normalized(config), PausesSince(samples, states, n)))
  {
    RunKeeps(config, start, samples, states, n);
    ExponentCounts(config, start, samples, states, n);
  }

  // ---------------------------------------------------------------- how far the limits move

  /** The limits an observation starts from: the canary's when it ends a pause that dropped to them. */
  function Basis(c: Control): Limits {
    if c.mode.Paused? && c.mode.reason != Foreground then c.config.canary else c.limits
  }

  predicate Half(x: nat, y: nat, floor: nat) {
    (2 * y <= x || y == floor) && 2 * y + 1 >= x && y >= floor
  }

  predicate HalfOf(a: Limits, b: Limits, floor: Limits) {
    Half(a.rate, b.rate, floor.rate) && Half(a.batch, b.batch, floor.batch) && Half(a.duty, b.duty, floor.duty)
  }

  /** By a tenth or one, up to the ceiling. */
  predicate Tenth(x: nat, y: nat, ceiling: nat) {
    x <= y <= ceiling && y <= x + Max(x / 10, 1) && (y < ceiling ==> y == x + Max(x / 10, 1))
  }

  predicate TenthMore(c: Config, a: Limits, b: Limits) {
    && (if c.unlimitedRate then b.rate == a.rate else Tenth(a.rate, b.rate, c.ceiling.rate))
    && Tenth(a.batch, b.batch, c.ceiling.batch)
    && a.duty <= b.duty <= a.duty + 1 && (b.duty == a.duty ==> b.duty == c.ceiling.duty)
  }

  /** What each action does to the limits. */
  predicate Moved(c: Control, action: Action, limits: Limits) {
    match action
    case Yield => limits == c.limits
    case Wait => limits == c.limits
    case Pause(_) => limits == c.config.canary
    case Halve(_) => HalfOf(Basis(c), limits, c.config.floor)
    case Increase => TenthMore(c.config, Basis(c), limits)
    case Ease => limits == Basis(c)
    case Idle => limits == Basis(c)
  }

  lemma HalvedIsHalf(c: Control)
    requires Controller.Below(c.config.floor, c.limits)
    ensures HalfOf(c.limits, HalvedLimits(c), c.config.floor)
  {
  }

  lemma RaisedIsTenth(c: Control)
    requires Controller.Below(c.limits, c.config.ceiling) && Usable(c.config) && Representable(c.config)
    ensures TenthMore(c.config, c.limits, RaisedLimits(c))
  {
  }

  lemma LimitsMove(c: Control, last: nat, now: nat, o: Observation)
    requires Inv(c, last) && last <= now
    ensures Moved(c, Choose(c, now, o), Observed(c, now, o).limits)
  {
    var w := Recover(Resume(c, now), now);
    if Choose(c, now, o).Halve? || Choose(c, now, o).Increase? {
      assert w.limits == Basis(c) && w.config == c.config;
      HalvedIsHalf(w);
      RaisedIsTenth(w);
    }
  }

  /** In every run: a soft reading halves each limit down to its floor and no further, health raises each by a
      tenth or one up to its ceiling, a hard reading and the end of its pause go to the canary, and nothing else
      moves a limit. */
  lemma LimitsMoveInRun(config: Config, start: nat, samples: seq<Sample>, states: seq<Control>, n: nat)
    requires Run(config, start, samples, states) && n < |samples|
    ensures states[n].config == Normalized(config)
    ensures Moved(states[n], ActionAt(samples, states, n), states[n + 1].limits)
  {
    RunKeeps(config, start, samples, states, n);
    LimitsMove(states[n], Latest(start, samples, n), samples[n].now, samples[n].o);
  }

  /** A reason is given exactly while paused or throttled, and of a pause it is the pause's. */
  ghost predicate Reasoned(c: Control) {
    && (c.lastReason.Some? <==> c.mode.Paused? || c.mode.Throttled?)
    && (c.mode.Paused? ==> c.lastReason == Some(c.mode.reason))
  }

  lemma ReasonStays(c: Control, now: nat, o: Observation)
    requires Reasoned(c)
    ensures Reasoned(Observed(c, now, o))
    ensures Choose(c, now, o).Halve? ==>
              Observed(c, now, o).mode == Throttled && Observed(c, now, o).lastReason == SoftReason(c.config, o)
    ensures Choose(c, now, o).Pause? ==>
              Observed(c, now, o).mode.Paused? && Observed(c, now, o).lastReason == HardReason(c.config, o)
  {
  }

  lemma {:induction false} ReasonsInRun(config: Config, start: nat, samples: seq<Sample>, states: seq<Control>, n: nat)
    requires Run(config, start, samples, states) && n < |states|
    ensures Reasoned(states[n])
    ensures n > 0 && ActionAt(samples, states, n - 1).Halve? ==>
              states[n].mode == Throttled && states[n].lastReason == SoftReason(states[n - 1].config, samples[n - 1].o)
    ensures n > 0 && ActionAt(samples, states, n - 1).Pause? ==>
              states[n].mode.Paused? && states[n].lastReason == HardReason(states[n - 1].config, samples[n - 1].o)
  {
    if n > 0 {
      ReasonsInRun(config, start, samples, states, n - 1);
      ReasonStays(states[n - 1], samples[n - 1].now, samples[n - 1].o);
    }
  }

  /** Halvings among the samples from i up to n. */
  function Halvings(samples: seq<Sample>, states: seq<Control>, i: nat, n: nat): nat
    requires i <= n <= |samples| && n <= |states|
  {
    if n == i then 0
    else Halvings(samples, states, i, n - 1) + if ActionAt(samples, states, n - 1).Halve? then 1 else 0
  }

  predicate Within(x: nat, y: nat, k: nat, floor: nat) {
    y <= floor || y * Pow2(k) <= x
  }

  lemma HalfWithin(x: nat, y: nat, z: nat, k: nat, floor: nat)
    requires Within(x, y, k, floor) && Half(y, z, floor)
    ensures Within(x, z, k + 1, floor)
  {
    if z > floor {
      assert z * Pow2(k + 1) == 2 * z * Pow2(k);
      Smaller(2 * z, y, Pow2(k));
    }
  }

  lemma Smaller(a: nat, b: nat, m: nat)
    requires a <= b
    ensures a * m <= b * m
  {
  }

  predicate AllWithin(a: Limits, b: Limits, k: nat, floor: Limits) {
    Within(a.rate, b.rate, k, floor.rate) && Within(a.batch, b.batch, k, floor.batch) && Within(a.duty, b.duty, k, floor.duty)
  }

  lemma HalfAllWithin(a: Limits, b: Limits, c: Limits, k: nat, floor: Limits)
    requires AllWithin(a, b, k, floor) && HalfOf(b, c, floor)
    ensures AllWithin(a, c, k + 1, floor)
  {
    HalfWithin(a.rate, b.rate, c.rate, k, floor.rate);
    HalfWithin(a.batch, b.batch, c.batch, k, floor.batch);
    HalfWithin(a.duty, b.duty, c.duty, k, floor.duty);
  }

  /** Paused by a hard reading, at the canary limits. */
  predicate HardPaused(c: Control) {
    c.mode.Paused? && c.mode.reason != Foreground
  }

  lemma StaysUp(c: Control, now: nat, o: Observation)
    requires !HardPaused(c) && !Choose(c, now, o).Pause?
    ensures !HardPaused(Observed(c, now, o))
  {
  }

  /** k halvings with no increase and no hard reading in between bring every limit to the floor or to a 2^k-th of
      what it was. */
  lemma {:induction false} HalvingsCompound(
    config: Config, start: nat, samples: seq<Sample>, states: seq<Control>, i: nat, n: nat)
    requires Run(config, start, samples, states) && i <= n <= |samples| && !HardPaused(states[i])
    requires forall j :: i <= j < n ==> !ActionAt(samples, states, j).Increase? && !ActionAt(samples, states, j).Pause?
    ensures !HardPaused(states[n])
    ensures AllWithin(states[i].limits, states[n].limits, Halvings(samples, states, i, n), Normalized(config).floor)
  {
    if i < n {
      HalvingsCompound(config, start, samples, states, i, n - 1);
      LimitsMoveInRun(config, start, samples, states, n - 1);
      StaysUp(states[n - 1], samples[n - 1].now, samples[n - 1].o);
      if ActionAt(samples, states, n - 1).Halve? {
        HalfAllWithin(states[i].limits, states[n - 1].limits, states[n].limits, Halvings(samples, states, i, n - 1),
                      Normalized(config).floor);
      }
    }
  }

  /** The delays of successive pauses: the configured one, doubled each time, ten times at most, and never more
      than the maximum. */
  lemma BackoffDoubles(c: Config, k: nat)
    requires Usable(c)
    ensures Backoff(c, 0) == c.recoveryDelay
    ensures Backoff(c, k + 1) == if k < 10 then Min(2 * Backoff(c, k), c.maximumRecoveryDelay) else Backoff(c, k)
  {
    if k < 10 {
      assert Pow2(k + 1) == 2 * Pow2(k);
      assert c.recoveryDelay * Pow2(k + 1) == 2 * (c.recoveryDelay * Pow2(k));
    }
  }

  // ---------------------------------------------------------------- increases

  /** No increase can come before `soonest`. */
  ghost predicate IncreaseNotBefore(c: Control, soonest: nat) {
    c.holdUntil.None? || c.holdUntil.value >= soonest
  }

  lemma IncreaseGuard(c: Control, last: nat, now: nat, o: Observation, soonest: nat)
    requires Inv(c, last) && last <= now && IncreaseNotBefore(c, soonest)
    requires soonest <= now + c.config.healthyWindow
    ensures Choose(c, now, o).Increase? ==> now >= soonest
    ensures IncreaseNotBefore(Observed(c, now, o), soonest)
  {
  }

  lemma {:induction false} IncreaseHeld(
    config: Config, start: nat, samples: seq<Sample>, states: seq<Control>, i: nat, j: nat)
    requires Run(config, start, samples, states) && i < j < |states|
    requires ActionAt(samples, states, i).Increase?
    ensures IncreaseNotBefore(states[j], samples[i].now + Normalized(config).healthyWindow)
  {
    var soonest := samples[i].now + Normalized(config).healthyWindow;
    RunKeeps(config, start, samples, states, j - 1);
    if j > i + 1 {
      IncreaseHeld(config, start, samples, states, i, j - 1);
      IncreaseGuard(states[j - 1], Latest(start, samples, j - 1), samples[j - 1].now, samples[j - 1].o, soonest);
    }
  }

  /** Two increases are at least a healthy window apart. */
  lemma IncreasesApart(config: Config, start: nat, samples: seq<Sample>, states: seq<Control>, i: nat, j: nat)
    requires Run(config, start, samples, states) && i < j < |samples|
    requires ActionAt(samples, states, i).Increase? && ActionAt(samples, states, j).Increase?
    ensures samples[j].now >= samples[i].now + Normalized(config).healthyWindow
  {
    RunKeeps(config, start, samples, states, j);
    IncreaseHeld(config, start, samples, states, i, j);
    IncreaseGuard(states[j], Latest(start, samples, j), samples[j].now, samples[j].o,
                  samples[i].now + Normalized(config).healthyWindow);
  }

  // ---------------------------------------------------------------- halvings

  /** Since a halving at `at` with no pause in between: still throttled and held, or a window has passed. */
  ghost predicate Cooling(c: Control, last: nat, at: nat) {
    || last >= at + c.config.healthyWindow
    || (c.mode == Throttled && c.holdUntil.Some? && c.holdUntil.value >= at + c.config.healthyWindow)
  }

  lemma HalveCools(c: Control, now: nat, o: Observation)
    requires Choose(c, now, o).Halve?
    ensures Cooling(Observed(c, now, o), now, now)
  {
  }

  lemma CoolingStep(c: Control, last: nat, now: nat, o: Observation, at: nat)
    requires Inv(c, last) && at <= last <= now && Cooling(c, last, at) && !c.mode.Paused?
    ensures Choose(c, now, o).Halve? ==> now >= at + c.config.healthyWindow
    ensures !Observed(c, now, o).mode.Paused? ==> Cooling(Observed(c, now, o), now, at)
  {
  }

  lemma {:induction false} HalvingHeld(
    config: Config, start: nat, samples: seq<Sample>, states: seq<Control>, i: nat, j: nat)
    requires Run(config, start, samples, states) && i < j < |states|
    requires ActionAt(samples, states, i).Halve?
    requires forall k :: i < k <= j ==> !states[k].mode.Paused?
    ensures Cooling(states[j], samples[j - 1].now, samples[i].now)
  {
    RunKeeps(config, start, samples, states, j - 1);
    RunKeeps(config, start, samples, states, j);
    if j == i + 1 {
      HalveCools(states[i], samples[i].now, samples[i].o);
    } else {
      HalvingHeld(config, start, samples, states, i, j - 1);
      CoolingStep(states[j - 1], samples[j - 2].now, samples[j - 1].now, samples[j - 1].o, samples[i].now);
    }
  }

  /** Two halvings with no pause between them are at least a healthy window apart. */
  lemma HalvingsApart(config: Config, start: nat, samples: seq<Sample>, states: seq<Control>, i: nat, j: nat)
    requires Run(config, start, samples, states) && i < j < |samples|
    requires ActionAt(samples, states, i).Halve? && ActionAt(samples, states, j).Halve?
    requires forall k :: i < k <= j ==> !states[k].mode.Paused?
    ensures samples[j].now >= samples[i].now + Normalized(config).healthyWindow
  {
    RunKeeps(config, start, samples, states, j);
    HalvingHeld(config, start, samples, states, i, j);
    CoolingStep(states[j], samples[j - 1].now, samples[j].now, samples[j].o, samples[i].now);
  }

  // ---------------------------------------------------------------- convergence

  /** How far the widest limit is from its ceiling. */
  function Gap(c: Control): (g: int) {
    Max(c.config.ceiling.rate - c.limits.rate,
        Max(c.config.ceiling.batch - c.limits.batch, c.config.ceiling.duty - c.limits.duty))
  }

  function WidestGap(c: Config): int {
    Max(c.ceiling.rate - c.floor.rate, Max(c.ceiling.batch - c.floor.batch, c.ceiling.duty - c.floor.duty))
  }

  /** Long enough for any hold and any recovery deadline to pass. */
  function Spacing(c: Config): nat {
    AtLeast(c.healthyWindow, c.maximumRecoveryDelay)
  }

  /** Unpaused and due: a healthy observation raises every limit short of its ceiling. */
  lemma HealthyRaises(c: Control, last: nat, now: nat, o: Observation)
    requires Inv(c, last) && now >= last + c.config.healthyWindow && !c.mode.Paused? && Healthy(c.config, o)
    ensures var d := Observed(c, now, o);
            && !d.mode.Paused?
            && Gap(d) <= Max(0, Gap(c) - 1)
            && (Gap(d) <= 0 <==> d.mode == Steady)
  {
  }

  /** Whatever the state, two well-spaced healthy observations end any pause. */
  lemma HealthyWakes(c: Control, last: nat, s: Sample, t: Sample)
    requires Inv(c, last) && last <= s.now && t.now >= s.now + Spacing(c.config)
    requires Healthy(c.config, s.o) && Healthy(c.config, t.o)
    ensures !Observed(Observed(c, s.now, s.o), t.now, t.o).mode.Paused?
  {
    ObserveKeeps(c, last, s.now, s.o);
  }

  /** Healthy samples, each at least Spacing after the one before. */
  ghost predicate Sustained(config: Config, samples: seq<Sample>, from: nat, to: nat)
    requires from <= to <= |samples|
  {
    && (forall i :: from <= i < to ==> Healthy(config, samples[i].o))
    && (forall i :: from < i < to ==> samples[i].now >= samples[i - 1].now + Spacing(config))
  }

  lemma {:induction false} ClimbsToSteady(
    config: Config, start: nat, samples: seq<Sample>, states: seq<Control>, from: nat, n: nat)
    requires Run(config, start, samples, states) && from + 2 <= n <= |samples|
    requires Sustained(Normalized(config), samples, from, n)
    ensures !states[n].mode.Paused?
    ensures Gap(states[n]) <= Max(0, WidestGap(Normalized(config)) - (n - from - 2))
    ensures n > from + 2 ==> (states[n].mode == Steady <==> Gap(states[n]) <= 0)
  {
    RunKeeps(config, start, samples, states, n);
    if n == from + 2 {
      RunKeeps(config, start, samples, states, from);
      HealthyWakes(states[from], Latest(start, samples, from), samples[from], samples[from + 1]);
    } else {
      ClimbsToSteady(config, start, samples, states, from, n - 1);
      RunKeeps(config, start, samples, states, n - 1);
      HealthyRaises(states[n - 1], samples[n - 2].now, samples[n - 1].now, samples[n - 1].o);
    }
  }

  /** From any point of any run, healthy observations spaced by the larger of the window and the maximum
      recovery delay reach Steady within 2 + max(1, widest gap) of them, and stay there. */
  lemma HealthConverges(config: Config, start: nat, samples: seq<Sample>, states: seq<Control>, from: nat, n: nat)
    requires Run(config, start, samples, states) && from <= n <= |samples|
    requires Sustained(Normalized(config), samples, from, n)
    requires n - from >= 2 + Max(1, WidestGap(Normalized(config)))
    ensures states[n].mode == Steady && states[n].limits == Normalized(config).ceiling
  {
    ClimbsToSteady(config, start, samples, states, from, n);
    RunKeeps(config, start, samples, states, n);
  }
}
