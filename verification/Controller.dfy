/**
  The adaptive pacing controller: additive increase, multiplicative decrease, pauses with exponential
  backoff. Times and durations are nanoseconds; host metrics are reals, an absent or NaN reading is None.
*/
module Controller {
  import opened Prelude

  const MAX_BATCH: nat := 1_000
  const U32_MAX: nat := 0xFFFF_FFFF
  const U8_MAX: nat := 255
  const MILLISECOND: nat := 1_000_000
  const DURATION_MAX: nat := 0xFFFF_FFFF_FFFF_FFFF * 1_000_000_000 + 999_999_999

  datatype PauseReason =
    Foreground | OpcHealth | HostCpu | Memory | Disk | Database | Operator | Circuit | Maintenance

  datatype Mode = Ramping | Steady | Throttled | Paused(reason: PauseReason)

  datatype Limits = Limits(rate: nat, batch: nat, duty: nat)

  datatype Config = Config(
    floor: Limits, canary: Limits, ceiling: Limits, unlimitedRate: bool,
    healthyWindow: nat, recoveryDelay: nat, maximumRecoveryDelay: nat,
    latencySoft: nat, latencyHard: nat)

  datatype Observation = Observation(
    foregroundActive: bool, foregroundError: bool, foregroundBadQuality: bool,
    foregroundLatency: Option<nat>, inventoryError: bool,
    hostCpu: Option<real>, availableMemory: Option<real>, diskActive: Option<real>, diskQueue: Option<real>,
    commitP95: Option<nat>, insufficientDiskSpace: bool)

  /** The fields of the controller. */
  datatype Control = Control(
    config: Config, mode: Mode, limits: Limits,
    holdUntil: Option<nat>, recoveryAt: Option<nat>, exponent: nat, lastReason: Option<PauseReason>)

  // ---------------------------------------------------------------- configuration

  function Clamp(x: nat, lo: nat, hi: nat): (r: nat)
    requires lo <= hi
    ensures lo <= r <= hi
    ensures lo <= x <= hi ==> r == x
    ensures (x < lo ==> r == lo) && (x > hi ==> r == hi)
  {
    if x < lo then lo else if x > hi then hi else x
  }

  function AtLeast(x: nat, y: nat): (r: nat)
    ensures r >= x && r >= y && (r == x || r == y)
  {
    if x >= y then x else y
  }

  function Normalized(c: Config): Config {
    var floor := Limits(
      if c.unlimitedRate then 0 else AtLeast(c.floor.rate, 1),
      Clamp(c.floor.batch, 1, MAX_BATCH), Clamp(c.floor.duty, 1, 100));
    var ceiling := Limits(
      if c.unlimitedRate then 0 else AtLeast(c.ceiling.rate, floor.rate),
      Clamp(c.ceiling.batch, floor.batch, MAX_BATCH), Clamp(c.ceiling.duty, floor.duty, 100));
    var canary := Limits(
      if c.unlimitedRate then 0 else Clamp(c.canary.rate, floor.rate, ceiling.rate),
      Clamp(c.canary.batch, floor.batch, Min(ceiling.batch, MAX_BATCH)),
      Clamp(c.canary.duty, floor.duty, ceiling.duty));
    Config(
      floor, canary, ceiling, c.unlimitedRate,
      AtLeast(c.healthyWindow, MILLISECOND), AtLeast(c.recoveryDelay, MILLISECOND),
      AtLeast(c.maximumRecoveryDelay, AtLeast(c.recoveryDelay, MILLISECOND)),
      AtLeast(c.latencySoft, 1), AtLeast(c.latencyHard, AtLeast(c.latencySoft, 1)))
  }

  predicate Below(a: Limits, b: Limits) {
    a.rate <= b.rate && a.batch <= b.batch && a.duty <= b.duty
  }

  /** The configuration the rest of the controller relies on. */
  predicate Usable(c: Config) {
    && Below(c.floor, c.canary) && Below(c.canary, c.ceiling)
    && 1 <= c.floor.batch && c.ceiling.batch <= MAX_BATCH
    && 1 <= c.floor.duty && c.ceiling.duty <= 100
    && (if c.unlimitedRate then c.floor.rate == c.ceiling.rate == 0 else c.floor.rate >= 1)
    && 0 < c.healthyWindow && 0 < c.recoveryDelay <= c.maximumRecoveryDelay
    && 1 <= c.latencySoft <= c.latencyHard
  }

  /** The values a Rust configuration can hold. */
  predicate Representable(c: Config) {
    c.ceiling.rate <= U32_MAX && c.floor.rate <= U32_MAX && c.recoveryDelay <= DURATION_MAX && c.maximumRecoveryDelay <= DURATION_MAX
  }

  /** Normalising always yields a usable configuration and leaves one that already is alone but for the
      one-millisecond minimum of its durations. */
  lemma NormalizedUsable(c: Config)
    ensures Usable(Normalized(c))
    ensures Normalized(Normalized(c)) == Normalized(c)
    ensures Usable(c) && c.healthyWindow >= MILLISECOND && c.recoveryDelay >= MILLISECOND ==> Normalized(c) == c
    ensures Representable(c) ==> Representable(Normalized(c))
  {
  }

  // ---------------------------------------------------------------- reading an observation

  predicate Reaches(x: Option<real>, bound: real) {
    x.Some? && x.value >= bound
  }

  predicate DropsTo(x: Option<real>, bound: real) {
    x.Some? && x.value <= bound
  }

  predicate Lasts(x: Option<nat>, bound: nat) {
    x.Some? && x.value >= bound
  }

  function HardReason(c: Config, o: Observation): Option<PauseReason> {
    if o.foregroundError || o.foregroundBadQuality || o.inventoryError then Some(OpcHealth)
    else if Lasts(o.foregroundLatency, c.latencyHard) then Some(OpcHealth)
    else if Reaches(o.hostCpu, 85.0) then Some(HostCpu)
    else if DropsTo(o.availableMemory, 8.0) then Some(Memory)
    else if Reaches(o.diskActive, 90.0) || Reaches(o.diskQueue, 5.0) then Some(Disk)
    else if Lasts(o.commitP95, 1_000) || o.insufficientDiskSpace then Some(Database)
    else None
  }

  function SoftReason(c: Config, o: Observation): Option<PauseReason> {
    if Lasts(o.foregroundLatency, c.latencySoft) then Some(OpcHealth)
    else if Reaches(o.hostCpu, 70.0) then Some(HostCpu)
    else if DropsTo(o.availableMemory, 15.0) then Some(Memory)
    else if Reaches(o.diskActive, 70.0) || Reaches(o.diskQueue, 2.0) then Some(Disk)
    else if Lasts(o.commitP95, 250) then Some(Database)
    else None
  }

  /** Every reading that pauses would at least throttle, errors and a full disk aside. */
  lemma HardImpliesSoft(c: Config, o: Observation)
    requires Usable(c) && HardReason(c, o).Some?
    requires !o.foregroundError && !o.foregroundBadQuality && !o.inventoryError && !o.insufficientDiskSpace
    ensures SoftReason(c, o).Some?
  {
  }

  /** Which readings pause. */
  lemma HardReadings(c: Config, o: Observation)
    ensures HardReason(c, o).Some? <==>
            || o.foregroundError || o.foregroundBadQuality || o.inventoryError || o.insufficientDiskSpace
            || (o.foregroundLatency.Some? && o.foregroundLatency.value >= c.latencyHard)
            || (o.hostCpu.Some? && o.hostCpu.value >= 85.0)
            || (o.availableMemory.Some? && o.availableMemory.value <= 8.0)
            || (o.diskActive.Some? && o.diskActive.value >= 90.0) || (o.diskQueue.Some? && o.diskQueue.value >= 5.0)
            || (o.commitP95.Some? && o.commitP95.value >= 1_000)
  {
  }

  /** Which readings throttle. */
  lemma SoftReadings(c: Config, o: Observation)
    ensures SoftReason(c, o).Some? <==>
            || (o.foregroundLatency.Some? && o.foregroundLatency.value >= c.latencySoft)
            || (o.hostCpu.Some? && o.hostCpu.value >= 70.0)
            || (o.availableMemory.Some? && o.availableMemory.value <= 15.0)
            || (o.diskActive.Some? && o.diskActive.value >= 70.0) || (o.diskQueue.Some? && o.diskQueue.value >= 2.0)
            || (o.commitP95.Some? && o.commitP95.value >= 250)
  {
  }

  predicate Healthy(c: Config, o: Observation) {
    !o.foregroundActive && HardReason(c, o).None? && SoftReason(c, o).None?
  }

  // ---------------------------------------------------------------- what one observation does

  datatype Action =
    | Yield                       // foreground activity
    | Pause(reason: PauseReason)  // a hard reason
    | Wait                        // paused, deadline ahead
    | Halve(reason: PauseReason)  // a soft reason, and not halved too recently
    | Ease                        // a soft reason, halved recently
    | Increase                    // healthy for a whole window
    | Idle                        // healthy, window still running

  predicate Expired(hold: Option<nat>, now: nat) {
    hold.Some? && now >= hold.value
  }

  function Resume(c: Control, now: nat): Control {
    if c.mode == Paused(Foreground) then
      c.(mode := Ramping, holdUntil := Some(now + c.config.healthyWindow), lastReason := None)
    else c
  }

  function Recover(c: Control, now: nat): Control {
    if c.mode.Paused? then
      c.(mode := Ramping, limits := c.config.canary, recoveryAt := None,
         holdUntil := Some(now + c.config.healthyWindow), lastReason := None)
    else c
  }

  predicate Waits(c: Control, now: nat) {
    c.mode.Paused? && c.recoveryAt.Some? && now < c.recoveryAt.value
  }

  function Choose(c: Control, now: nat, o: Observation): Action {
    if o.foregroundActive then Yield
    else if HardReason(c.config, o).Some? then Pause(HardReason(c.config, o).value)
    else
      var r := Resume(c, now);
      if Waits(r, now) then Wait
      else
        var w := Recover(r, now);
        var soft := SoftReason(c.config, o);
        if soft.Some? then
          if !w.mode.Throttled? || w.holdUntil.None? || Expired(w.holdUntil, now) then Halve(soft.value) else Ease
        else if Expired(w.holdUntil, now) then Increase
        else Idle
  }

  function Pow2(k: nat): (r: nat)
    ensures r >= 1
  {
    if k == 0 then 1 else 2 * Pow2(k - 1)
  }

  /** min(base · 2^min(k, 10), maximum). */
  function Backoff(c: Config, k: nat): nat {
    Min(c.recoveryDelay * Pow2(Min(k, 10)), c.maximumRecoveryDelay)
  }

  function Halved(x: nat, floor: nat): nat {
    AtLeast(x / 2, floor)
  }

  function Raised(x: nat, ceiling: nat): nat {
    Min(Min(x + AtLeast(x / 10, 1), U32_MAX), ceiling)
  }

  function HalvedLimits(c: Control): Limits {
    Limits(Halved(c.limits.rate, c.config.floor.rate),
           Halved(c.limits.batch, c.config.floor.batch),
           Halved(c.limits.duty, c.config.floor.duty))
  }

  function RaisedLimits(c: Control): Limits {
    Limits(if c.config.unlimitedRate then c.limits.rate else Raised(c.limits.rate, c.config.ceiling.rate),
           Raised(c.limits.batch, c.config.ceiling.batch),
           Min(Min(c.limits.duty + 1, U8_MAX), c.config.ceiling.duty))
  }

  function Throttling(c: Control, now: nat, reason: PauseReason): Control {
    c.(mode := Throttled, limits := HalvedLimits(c), holdUntil := Some(now + c.config.healthyWindow),
       recoveryAt := None, lastReason := Some(reason))
  }

  function Pausing(c: Control, now: nat, reason: PauseReason): Control {
    c.(mode := Paused(reason), limits := c.config.canary,
       recoveryAt := Some(now + Backoff(c.config, c.exponent)),
       exponent := Min(c.exponent + 1, U32_MAX), holdUntil := None, lastReason := Some(reason))
  }

  function Increasing(c: Control, now: nat): Control {
    var limits := RaisedLimits(c);
    c.(mode := if limits == c.config.ceiling then Steady else Ramping, limits := limits,
       holdUntil := Some(now + c.config.healthyWindow), exponent := 0, lastReason := None)
  }

  function Observed(c: Control, now: nat, o: Observation): Control {
    match Choose(c, now, o)
    case Yield => c.(mode := Paused(Foreground), recoveryAt := None, lastReason := Some(Foreground))
    case Pause(reason) => Pausing(Resume(c, now), now, reason)
    case Wait => Resume(c, now)
    case Halve(reason) => Throttling(Recover(Resume(c, now), now), now, reason)
    case Ease => Recover(Resume(c, now), now)
    case Increase => Increasing(Recover(Resume(c, now), now), now)
    case Idle => Recover(Resume(c, now), now)
  }

  function Start(config: Config, now: nat): Control {
    var c := Normalized(config);
    Control(c, Ramping, c.canary, Some(now + c.healthyWindow), None, 0, None)
  }

  // ---------------------------------------------------------------- the controller object

  datatype Decision = Decision(
    mode: Mode, limits: Limits, paused: bool, reason: Option<PauseReason>,
    recoveryAt: Option<nat>, transitioned: bool)

  class AdaptiveIndexController {
    const config: Config
    var mode: Mode
    var limits: Limits
    var holdUntil: Option<nat>
    var recoveryAt: Option<nat>
    var exponent: nat
    var lastReason: Option<PauseReason>

    function View(): Control
      reads this
    {
      Control(config, mode, limits, holdUntil, recoveryAt, exponent, lastReason)
    }

    constructor (settings: Config, now: nat)
      ensures View() == Start(settings, now)
    {
      var c := Normalized(settings);
      config, mode, limits := c, Ramping, c.canary;
      holdUntil, recoveryAt, exponent, lastReason := Some(now + c.healthyWindow), None, 0, None;
    }

    method Observe(now: nat, o: Observation) returns (d: Decision)
      requires config.maximumRecoveryDelay <= DURATION_MAX
      modifies this
      ensures View() == Observed(old(View()), now, o)
      ensures d == Decision(mode, limits, mode.Paused?, lastReason, recoveryAt,
                            (mode, limits, recoveryAt) != old((mode, limits, recoveryAt)))
    {
      var before := (mode, limits, recoveryAt);
      var hard, soft := HardReason(config, o), SoftReason(config, o);
      if o.foregroundActive {
        mode := Paused(Foreground);
        recoveryAt := None;
        lastReason := Some(Foreground);
        d := Decide(before);
        return;
      }
      if mode == Paused(Foreground) {
        mode := Ramping;
        holdUntil := Some(now + config.healthyWindow);
        lastReason := None;
      }
      assert View() == Resume(old(View()), now);
      if hard.Some? {
        PauseFor(now, hard.value);
        d := Decide(before);
        return;
      }
      if mode.Paused? {
        if recoveryAt.Some? && now < recoveryAt.value {
          d := Decide(before);
          return;
        }
        mode := Ramping;
        limits := config.canary;
        recoveryAt := None;
        holdUntil := Some(now + config.healthyWindow);
        lastReason := None;
      }
      assert View() == Recover(Resume(old(View()), now), now);
      if soft.Some? {
        var holdExpired := holdUntil.None? || now >= holdUntil.value;
        if !mode.Throttled? || holdExpired {
          Throttle(now, soft.value);
        }
      } else if holdUntil.Some? && now >= holdUntil.value {
        IncreaseLimits(now);
      }
      d := Decide(before);
    }

    method Throttle(now: nat, reason: PauseReason)
      modifies this
      ensures View() == Throttling(old(View()), now, reason)
      ensures Below(config.floor, limits)
      ensures Below(config.floor, old(limits)) ==> Below(limits, old(limits))
      ensures 2 * limits.rate <= old(limits.rate) || limits.rate == config.floor.rate
      ensures 2 * limits.batch <= old(limits.batch) || limits.batch == config.floor.batch
      ensures 2 * limits.duty <= old(limits.duty) || limits.duty == config.floor.duty
    {
      mode := Throttled;
      limits := Limits(AtLeast(limits.rate / 2, config.floor.rate), AtLeast(limits.batch / 2, config.floor.batch),
                       AtLeast(limits.duty / 2, config.floor.duty));
      holdUntil := Some(now + config.healthyWindow);
      recoveryAt := None;
      lastReason := Some(reason);
    }

    method PauseFor(now: nat, reason: PauseReason)
      requires config.maximumRecoveryDelay <= DURATION_MAX
      modifies this
      ensures View() == Pausing(old(View()), now, reason)
    {
      mode := Paused(reason);
      limits := config.canary;
      var multiplier := Pow2(Min(exponent, 10));
      var product := config.recoveryDelay * multiplier;
      var delay := if product > DURATION_MAX then config.maximumRecoveryDelay else product;
      delay := Min(delay, config.maximumRecoveryDelay);
      recoveryAt := Some(now + delay);
      exponent := Min(exponent + 1, U32_MAX);
      holdUntil := None;
      lastReason := Some(reason);
    }

    method IncreaseLimits(now: nat)
      modifies this
      ensures View() == Increasing(old(View()), now)
      ensures mode == Steady <==> limits == config.ceiling
      ensures Usable(config) && Representable(config) && Below(old(limits), config.ceiling) ==>
                Below(old(limits), limits) && Below(limits, config.ceiling) &&
                (Below(config.floor, old(limits)) && limits == old(limits) ==> limits == config.ceiling)
    {
      if !config.unlimitedRate {
        var rate := Min(limits.rate + AtLeast(limits.rate / 10, 1), U32_MAX);
        limits := limits.(rate := Min(rate, config.ceiling.rate));
      }
      var batch := Min(limits.batch + AtLeast(limits.batch / 10, 1), U32_MAX);
      limits := limits.(batch := Min(batch, config.ceiling.batch));
      var duty := Min(limits.duty + 1, U8_MAX);
      limits := limits.(duty := Min(duty, config.ceiling.duty));
      mode := if limits == config.ceiling then Steady else Ramping;
      holdUntil := Some(now + config.healthyWindow);
      exponent := 0;
      lastReason := None;
    }

    method Decide(before: (Mode, Limits, Option<nat>)) returns (d: Decision)
      ensures d == Decision(mode, limits, mode.Paused?, lastReason, recoveryAt, before != (mode, limits, recoveryAt))
    {
      d := Decision(mode, limits, mode.Paused?, lastReason, recoveryAt, before != (mode, limits, recoveryAt));
    }
  }
}
