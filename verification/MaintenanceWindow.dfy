/**
  The maintenance window of an update: one hour from each trigger of a cron schedule, found by
  walking the schedule forward from seven days ago (internal/controller/update_controller.go).
  Times are integers in the clock's finest unit.
 */
module MaintenanceWindow {
  import opened Wrappers
  import opened Api

  const HOUR := 3600 * SECOND
  const LOOKBACK := 7 * 24 * HOUR

  /** A cron schedule as the library presents it: the first trigger after a moment. */
  datatype Schedule = Schedule(next: int -> int)

  /** Next(t) is the least moment after t at which the schedule fires. */
  ghost predicate FiresAt(fires: iset<int>, schedule: Schedule) {
    forall t :: schedule.next(t) > t && schedule.next(t) in fires && forall u | t < u < schedule.next(t) :: u !in fires
  }

  /** The greatest trigger in the look-back interval, if there is one. */
  ghost predicate IsLastTrigger(fires: iset<int>, now: int, last: Option<int>) {
    match last
    case None => forall t | now - LOOKBACK < t <= now :: t !in fires
    case Some(t) => t in fires && now - LOOKBACK < t <= now && forall u | t < u <= now :: u !in fires
  }

  method FindLastCronTrigger(schedule: Schedule, now: int, ghost fires: iset<int>) returns (last: Option<int>)
    requires FiresAt(fires, schedule)
    ensures IsLastTrigger(fires, now, last)
  {
    var candidate := now - LOOKBACK;
    last := None;
    while true
      invariant now - LOOKBACK <= candidate <= now
      invariant match last
                case None => candidate == now - LOOKBACK
                case Some(t) => t == candidate && t in fires && t > now - LOOKBACK
      decreases now - candidate
    {
      var next := schedule.next(candidate);
      if next > now {
        break;
      }
      last := Some(next);
      candidate := next;
    }
  }

  /** The maintenance window of a server; `parsed` is the library's reading of the cron text. */
  datatype Window = Window(enabled: bool, cron: string, parsed: Option<Schedule>)

  /**
    An update is allowed exactly when no window is configured or some trigger is at most one hour
    old: not before it, and no longer at the full hour.  An unreadable schedule blocks.
   */
  method IsInMaintenanceWindow(w: Window, now: int, ghost fires: iset<int>) returns (allowed: bool)
    requires w.parsed.Some? ==> FiresAt(fires, w.parsed.value)
    ensures allowed <==> !w.enabled || w.cron == "" || (w.parsed.Some? && exists t :: t in fires && t <= now < t + HOUR)
  {
    if !w.enabled || w.cron == "" {
      return true;
    }
    if w.parsed.None? {
      return false;
    }
    var last := FindLastCronTrigger(w.parsed.value, now, fires);
    if last.None? {
      return false;
    }
    return now >= last.value && now < last.value + HOUR;
  }

  datatype Gate = Apply | WaitFor(delay: int) | OutsideWindow

  /**
    The gate in front of an update that was not forced: the delay since the release of the available
    update comes first, then the window.  `release` is the release time of the available update.
   */
  method GateUpdate(w: Window, updateDelay: Option<int>, release: Option<int>, now: int, ghost fires: iset<int>) returns (g: Gate)
    requires w.parsed.Some? ==> FiresAt(fires, w.parsed.value)
    ensures g.WaitFor? <==> updateDelay.Some? && release.Some? && now < release.value + updateDelay.value
    ensures g.WaitFor? ==> g.delay > 0 && now + g.delay == release.value + updateDelay.value
    ensures g.Apply? ==> !w.enabled || w.cron == "" || exists t :: t in fires && t <= now < t + HOUR
  {
    if updateDelay.Some? && release.Some? {
      var since := now - release.value;
      if since < updateDelay.value {
        return WaitFor(updateDelay.value - since);
      }
    }
    var open := IsInMaintenanceWindow(w, now, fires);
    return if open then Apply else OutsideWindow;
  }
}
