/** The activity classifier and interval accountant: the per-tick body of the
    tracking loop that decides whether the user is active, closes the interval
    that just ended, opens the next one and adds the tick to a daily total. */
module Classifier {

  import opened Optional

  /** `ACTIVITY_CHECK_INTERVAL`: the tick period, in seconds. */
  const TICK_INTERVAL: real := 0.1

  /** Idle spells no longer than this are treated as noise and not recorded. */
  const SHORT_IDLE_LIMIT: real := 1.0

  /** The interval-accounting part of the tracker's state, one field per key. */
  datatype Spells = Spells(
    totalActive: real,              // total_active_seconds_today
    totalIdle: real,                // total_idle_seconds_today
    maxIdle: real,                  // max_idle_seconds_today
    maxActive: real,                // max_active_seconds_today
    activityStart: Option<real>,    // current_activity_start_time
    idleStart: Option<real>,        // current_idle_start_time
    lastActivityDuration: real,     // last_activity_duration
    lastInactivityDuration: real,   // last_inactivity_duration
    prevActive: bool                // prev_overall_active_state
  )

  function Max(a: real, b: real): (m: real)
    ensures m >= a && m >= b && (m == a || m == b)
  {
    if a >= b then a else b
  }

  /** The user counts as active while less than `timeout` seconds have passed since the last input. */
  predicate IsActive(now: real, lastActivityTime: real, timeout: real) {
    now - lastActivityTime < timeout
  }

  /** Exactly one of the two interval starts is open. */
  predicate OneOpen(sp: Spells) {
    sp.activityStart.Some? != sp.idleStart.Some?
  }

  /** The start-field invariant: one interval open, and an active previous tick has an
      open activity interval. */
  predicate WellFormed(sp: Spells) {
    OneOpen(sp) && (sp.prevActive ==> sp.activityStart.Some?)
  }

  /** The open interval agrees with the previous tick's classification. Every state
      after a reset, a rollover or any tick that found the user active is synced. */
  predicate Synced(sp: Spells) {
    OneOpen(sp) && (sp.prevActive <==> sp.activityStart.Some?)
  }

  /** The last closed spell of each kind never exceeds the day's maximum of that kind. */
  predicate SpellBounds(sp: Spells) {
    sp.lastActivityDuration <= sp.maxActive && sp.lastInactivityDuration <= sp.maxIdle
  }

  /** The active-to-idle transition: the idle interval is backdated to the last
      input, and the closed active spell is recorded when its length is positive. */
  function BecomeIdle(sp: Spells, lastActivityTime: real): (r: Spells)
    ensures r.idleStart == Some(lastActivityTime) && r.activityStart == None
    ensures sp.activityStart.Some? && lastActivityTime - sp.activityStart.value > 0.0 ==>
      var d := lastActivityTime - sp.activityStart.value;
      r.lastActivityDuration == d && r.maxActive == Max(sp.maxActive, d)
    ensures !(sp.activityStart.Some? && lastActivityTime - sp.activityStart.value > 0.0) ==>
      r.lastActivityDuration == sp.lastActivityDuration && r.maxActive == sp.maxActive
    ensures r.maxIdle == sp.maxIdle && r.lastInactivityDuration == sp.lastInactivityDuration
    ensures r.totalActive == sp.totalActive && r.totalIdle == sp.totalIdle && r.prevActive == sp.prevActive
    ensures SpellBounds(sp) ==> SpellBounds(r)
  {
    var recorded :=
      match sp.activityStart
      case Some(start) =>
        var d := lastActivityTime - start;
        if d > 0.0 then sp.(lastActivityDuration := d, maxActive := Max(sp.maxActive, d)) else sp
      case None => sp;
    recorded.(idleStart := Some(lastActivityTime), activityStart := None)
  }

  /** The idle-to-active transition: the activity interval opens at `now`, and the
      closed idle spell is recorded only when it lasted more than a second. */
  function BecomeActive(sp: Spells, now: real): (r: Spells)
    ensures r.activityStart == Some(now) && r.idleStart == None
    ensures sp.idleStart.Some? && now - sp.idleStart.value > SHORT_IDLE_LIMIT ==>
      var d := now - sp.idleStart.value;
      r.lastInactivityDuration == d && r.maxIdle == Max(sp.maxIdle, d)
    ensures !(sp.idleStart.Some? && now - sp.idleStart.value > SHORT_IDLE_LIMIT) ==>
      r.lastInactivityDuration == sp.lastInactivityDuration && r.maxIdle == sp.maxIdle
    ensures r.maxActive == sp.maxActive && r.lastActivityDuration == sp.lastActivityDuration
    ensures r.totalActive == sp.totalActive && r.totalIdle == sp.totalIdle && r.prevActive == sp.prevActive
    ensures SpellBounds(sp) ==> SpellBounds(r)
  {
    var recorded :=
      match sp.idleStart
      case Some(start) =>
        var d := now - start;
        if d > SHORT_IDLE_LIMIT then
          sp.(lastInactivityDuration := d, maxIdle := if d > sp.maxIdle then d else sp.maxIdle)
        else sp
      case None => sp;
    recorded.(activityStart := Some(now), idleStart := None)
  }

  /** The end of every tick: the tick is added to the active total when active, to the
      idle total when idle with an idle interval open, and the classification is kept. */
  function Accrue(sp: Spells, activeNow: bool): (r: Spells)
    ensures r.totalActive + r.totalIdle ==
      sp.totalActive + sp.totalIdle + (if activeNow || sp.idleStart.Some? then TICK_INTERVAL else 0.0)
    ensures r.totalActive >= sp.totalActive && r.totalIdle >= sp.totalIdle
    // the whole tick goes to exactly one total, or to neither
    ensures activeNow ==> r.totalActive == sp.totalActive + TICK_INTERVAL && r.totalIdle == sp.totalIdle
    ensures !activeNow ==>
      r.totalActive == sp.totalActive &&
      r.totalIdle == sp.totalIdle + (if sp.idleStart.Some? then TICK_INTERVAL else 0.0)
    ensures r == sp.(totalActive := r.totalActive, totalIdle := r.totalIdle, prevActive := activeNow)
  {
    if activeNow then sp.(totalActive := sp.totalActive + TICK_INTERVAL, prevActive := true)
    else if sp.idleStart.Some? then sp.(totalIdle := sp.totalIdle + TICK_INTERVAL, prevActive := false)
    else sp.(prevActive := false)
  }

  /** One tick of the classifier and accountant. */
  function Step(sp: Spells, now: real, lastActivityTime: real, timeout: real): (r: Spells)
    ensures r.prevActive == IsActive(now, lastActivityTime, timeout)
    ensures WellFormed(sp) ==> WellFormed(r)
    ensures Synced(sp) ==> Synced(r)
    ensures WellFormed(sp) && IsActive(now, lastActivityTime, timeout) ==> Synced(r)
    ensures SpellBounds(sp) ==> SpellBounds(r)
    // totals
    ensures IsActive(now, lastActivityTime, timeout) ==>
      r.totalActive == sp.totalActive + TICK_INTERVAL && r.totalIdle == sp.totalIdle
    ensures !IsActive(now, lastActivityTime, timeout) ==>
      r.totalActive == sp.totalActive &&
      r.totalIdle == sp.totalIdle + (if r.idleStart.Some? then TICK_INTERVAL else 0.0)
    ensures Synced(sp) ==> r.totalActive + r.totalIdle == sp.totalActive + sp.totalIdle + TICK_INTERVAL
    // monotone within a day
    ensures r.totalActive >= sp.totalActive && r.totalIdle >= sp.totalIdle
    ensures r.maxActive >= sp.maxActive && r.maxIdle >= sp.maxIdle
    // without a change of state the open interval and the recorded spells stay as they were
    ensures sp.prevActive == IsActive(now, lastActivityTime, timeout) ==>
      r.activityStart == sp.activityStart && r.idleStart == sp.idleStart &&
      r.maxActive == sp.maxActive && r.maxIdle == sp.maxIdle &&
      r.lastActivityDuration == sp.lastActivityDuration &&
      r.lastInactivityDuration == sp.lastInactivityDuration
  {
    var activeNow := IsActive(now, lastActivityTime, timeout);
    var moved :=
      if sp.prevActive && !activeNow then BecomeIdle(sp, lastActivityTime)
      else if !sp.prevActive && activeNow then BecomeActive(sp, now)
      else sp;
    Accrue(moved, activeNow)
  }

  /** The accounting state a day rollover or a manual reset starts from: all totals and
      spells zero, a fresh activity interval open at `now`, the previous tick counted as active. */
  function Fresh(now: real): (r: Spells)
    ensures Synced(r) && SpellBounds(r) && r.activityStart == Some(now) && r.prevActive
    ensures r.totalActive == 0.0 && r.totalIdle == 0.0 && r.maxActive == 0.0 && r.maxIdle == 0.0
    ensures r.lastActivityDuration == 0.0 && r.lastInactivityDuration == 0.0
  {
    Spells(0.0, 0.0, 0.0, 0.0, Some(now), None, 0.0, 0.0, true)
  }

  /** Idle spells no longer than a second never reach the recorded spells, whatever
      the state: the closing idle interval of a blip leaves both idle records alone. */
  lemma ShortIdleIgnored(sp: Spells, now: real, lastActivityTime: real, timeout: real)
    requires !sp.prevActive && IsActive(now, lastActivityTime, timeout)
    requires sp.idleStart.Some? && now - sp.idleStart.value <= SHORT_IDLE_LIMIT
    ensures Step(sp, now, lastActivityTime, timeout).lastInactivityDuration == sp.lastInactivityDuration
    ensures Step(sp, now, lastActivityTime, timeout).maxIdle == sp.maxIdle
    ensures Step(sp, now, lastActivityTime, timeout).activityStart == Some(now)
  {
  }

  /** `INITIAL_INACTIVITY_TIMEOUT`, in seconds. */
  const INITIAL_INACTIVITY_TIMEOUT: real := 10.0

  /** The accepted range of the inactivity timeout, in seconds. */
  predicate TimeoutInRange(x: real) {
    1.0 <= x <= 3600.0
  }

  /** `apply_inactivity_timeout_setting`: `entry` is the parsed text (`None` where it is
      not a number). A value in range replaces the timeout; anything else keeps it. */
  function ApplyTimeout(current: real, entry: Option<real>): (r: (real, bool))
    ensures r.1 <==> entry.Some? && TimeoutInRange(entry.value)
    ensures r.1 ==> r.0 == entry.value
    ensures !r.1 ==> r.0 == current
    ensures TimeoutInRange(current) ==> TimeoutInRange(r.0)
  {
    match entry
    case Some(t) => if TimeoutInRange(t) then (t, true) else (current, false)
    case None => (current, false)
  }
}
