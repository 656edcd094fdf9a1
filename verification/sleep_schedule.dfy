/**
  The sleep/wake decision of `checkSleep` and the gating of `loop`: a two-state
  machine over "sleeping", driven by the current hour and the configured
  active-hours bounds, that asks for a power command only on a transition.
*/
module SleepSchedule {

  /**
    The configuration `checkSleep` reads. An unset active-hours bound is
    written 0: both are falsy and both switch the schedule off.
  */
  datatype Config = Config(simulation: bool, activeHoursStart: int, activeHoursEnd: int)

  datatype PowerCommand = NoCommand | PowerOff | PowerOn

  /** The new sleeping state, the power command issued and the value reported to `loop`. */
  datatype SleepCheck = SleepCheck(sleeping: bool, command: PowerCommand, reportedSleeping: bool)

  /** Simulation, or a bound unset or zero: no schedule is configured. */
  predicate ScheduleDisabled(config: Config) {
    config.simulation || config.activeHoursStart == 0 || config.activeHoursEnd == 0
  }

  function Max(a: int, b: int): int { if a < b then b else a }

  /**
    The sleep condition exactly as written, `hour < start || hour < end`. It
    holds unless the hour has reached both bounds, so the display is only awake
    from the later bound to midnight.
  */
  predicate InSleepWindow(config: Config, hour: int)
    ensures InSleepWindow(config, hour) <==> hour < Max(config.activeHoursStart, config.activeHoursEnd)
  {
    hour < config.activeHoursStart || hour < config.activeHoursEnd
  }

  /**
    `checkSleep` for the current hour and the state before the call. With no
    schedule it reports awake, issues nothing and keeps the state; otherwise the
    state follows the sleep condition, and a command is issued exactly on a
    transition: power off when falling asleep, power on when waking.
  */
  function CheckSleep(config: Config, hour: int, sleeping: bool): (r: SleepCheck)
    ensures ScheduleDisabled(config) ==>
      !r.reportedSleeping && r.command == NoCommand && r.sleeping == sleeping
    ensures !ScheduleDisabled(config) ==>
      r.sleeping == InSleepWindow(config, hour) && r.reportedSleeping == r.sleeping
    ensures r.command != NoCommand <==> r.sleeping != sleeping
    ensures r.command == PowerOff <==> !sleeping && r.sleeping
    ensures r.command == PowerOn <==> sleeping && !r.sleeping
  {
    if ScheduleDisabled(config) then SleepCheck(sleeping, NoCommand, false)
    else if InSleepWindow(config, hour) then
      if !sleeping then SleepCheck(true, PowerOff, true) else SleepCheck(true, NoCommand, true)
    else
      if sleeping then SleepCheck(false, PowerOn, false) else SleepCheck(false, NoCommand, false)
  }

  /**
    Checking again under the same condition (any hour on the same side of the
    sleep condition) issues no further command and keeps the state.
  */
  lemma CheckSleepRepeatIsQuiet(config: Config, hour1: int, hour2: int, sleeping: bool)
    requires InSleepWindow(config, hour1) == InSleepWindow(config, hour2)
    ensures var first := CheckSleep(config, hour1, sleeping);
      && CheckSleep(config, hour2, first.sleeping).command == NoCommand
      && CheckSleep(config, hour2, first.sleeping).sleeping == first.sleeping
  {
  }

  /**
    `loop`: routes are refreshed only when the sleep check succeeded and reported
    awake. Only an issued power command can fail; its failure suppresses the
    refresh even though the state has already changed.
  */
  function RefreshAfterCheck(check: SleepCheck, commandFailed: bool): (refresh: bool)
    ensures refresh <==> !check.reportedSleeping && (check.command == NoCommand || !commandFailed)
  {
    var failed := check.command != NoCommand && commandFailed;
    !failed && !check.reportedSleeping
  }

  /** With a schedule configured, a tick refreshes only in the hours at or after both bounds. */
  lemma RefreshOnlyWhenAwake(config: Config, hour: int, sleeping: bool, commandFailed: bool)
    requires !ScheduleDisabled(config)
    ensures RefreshAfterCheck(CheckSleep(config, hour, sleeping), commandFailed) ==>
      hour >= config.activeHoursStart && hour >= config.activeHoursEnd
    ensures hour >= config.activeHoursStart && hour >= config.activeHoursEnd && (!sleeping || !commandFailed) ==>
      RefreshAfterCheck(CheckSleep(config, hour, sleeping), commandFailed)
  {
  }
}
