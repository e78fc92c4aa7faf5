/** The tracker as a whole: the shared state the input handlers, the tracking
    loop and the command buttons work on, first as a value with one pure
    function per operation, then as the `Tracker` object whose methods update
    it in place and are proved to agree with those functions. Every handler,
    tick and command is one atomic step, as each runs under the state lock. */
module App {

  import opened Optional
  import opened Classifier
  import opened Pomodoro
  import opened Persistence

  datatype Point = Point(x: int, y: int)

  /** The input-ingest part of the state. */
  datatype Input = Input(
    lastMousePosition: Option<Point>,   // last_mouse_position
    distanceAnchor: Option<Point>,      // mouse_last_pos_for_distance
    mouseTotalDistance: real,           // mouse_total_distance_today
    keystrokes: int,                    // keystrokes_today
    clicks: int,                        // mouse_clicks_today
    lastMovementTime: real,             // last_movement_time
    lastKeyboardTime: real,             // last_keyboard_activity_time
    lastActivityTime: real              // last_activity_time
  )

  datatype TrackerState = TrackerState(
    input: Input,
    spells: Spells,
    day: string,                        // current_day_string
    timer: Timer,
    lastResetTime: Option<real>,        // last_reset_time
    timeout: real                       // the inactivity timeout setting
  )

  /** The tracker invariant: the start fields are consistent, the timer keeps its
      invariant and the inactivity timeout is within its accepted range. */
  predicate Consistent(st: TrackerState) {
    WellFormed(st.spells) && Pomodoro.Inv(st.timer) && TimeoutInRange(st.timeout)
  }

  // ---- input handlers -----------------------------------------------------

  /** `on_key_press`: one more keystroke, and the key press is the latest input. */
  function KeyPress(st: TrackerState, now: real): (r: TrackerState)
    ensures r.input.keystrokes == st.input.keystrokes + 1
    ensures r.input.lastActivityTime == now && r.input.lastKeyboardTime == now
    ensures r.input.clicks == st.input.clicks && r.input.mouseTotalDistance == st.input.mouseTotalDistance
    ensures r.input.lastMousePosition == st.input.lastMousePosition
    ensures r.input.distanceAnchor == st.input.distanceAnchor
    ensures r.input.lastMovementTime == st.input.lastMovementTime
    // nothing outside the input part changes
    ensures r == st.(input := r.input)
  {
    st.(input := st.input.(keystrokes := st.input.keystrokes + 1,
                           lastKeyboardTime := now, lastActivityTime := now))
  }

  /** `on_click`: a press (not a release) is one more click and the latest input;
      a release changes nothing. */
  function Click(st: TrackerState, now: real, pressed: bool): (r: TrackerState)
    ensures !pressed ==> r == st
    ensures pressed ==> r.input.clicks == st.input.clicks + 1 && r.input.lastActivityTime == now
    ensures r.input.keystrokes == st.input.keystrokes
    ensures r.input.mouseTotalDistance == st.input.mouseTotalDistance
    ensures r.input.lastMousePosition == st.input.lastMousePosition
    ensures r.input.distanceAnchor == st.input.distanceAnchor
    ensures r.input.lastMovementTime == st.input.lastMovementTime
    ensures r.input.lastKeyboardTime == st.input.lastKeyboardTime
    ensures r == st.(input := r.input)
  {
    if pressed then
      st.(input := st.input.(clicks := st.input.clicks + 1, lastActivityTime := now))
    else st
  }

  /** `on_move`: `dist` is the straight-line length from the previous position to
      `pos`, which the source computes with a square root. It is added only when a
      previous position is known; the move is the latest input either way. */
  function Move(st: TrackerState, now: real, pos: Point, dist: real): (r: TrackerState)
    ensures r.input.mouseTotalDistance ==
      st.input.mouseTotalDistance + (if st.input.distanceAnchor.Some? then dist else 0.0)
    ensures r.input.distanceAnchor == Some(pos) && r.input.lastMousePosition == Some(pos)
    ensures r.input.lastActivityTime == now && r.input.lastMovementTime == now
    ensures dist >= 0.0 ==> r.input.mouseTotalDistance >= st.input.mouseTotalDistance
    ensures r.input.keystrokes == st.input.keystrokes && r.input.clicks == st.input.clicks
    ensures r.input.lastKeyboardTime == st.input.lastKeyboardTime
    ensures r == st.(input := r.input)
  {
    var travelled :=
      if st.input.distanceAnchor.Some? then st.input.mouseTotalDistance + dist
      else st.input.mouseTotalDistance;
    st.(input := st.input.(mouseTotalDistance := travelled, distanceAnchor := Some(pos),
                           lastMousePosition := Some(pos), lastMovementTime := now,
                           lastActivityTime := now))
  }

  /** Any input at `now` keeps the user active for the next `timeout` seconds: the
      classifier at a later tick `t` reads the user as active exactly when `t - now < timeout`. */
  lemma InputMakesActive(st: TrackerState, now: real, t: real, pos: Point, dist: real)
    ensures var r := KeyPress(st, now); IsActive(t, r.input.lastActivityTime, r.timeout) <==> t - now < st.timeout
    ensures var r := Click(st, now, true); IsActive(t, r.input.lastActivityTime, r.timeout) <==> t - now < st.timeout
    ensures var r := Move(st, now, pos, dist); IsActive(t, r.input.lastActivityTime, r.timeout) <==> t - now < st.timeout
  {
  }

  // ---- daily data ---------------------------------------------------------

  /** The counters `save_daily_data` writes for the current day. */
  function Snapshot(st: TrackerState): (r: DailyRecord)
    ensures r.activeSeconds == st.spells.totalActive && r.idleSeconds == st.spells.totalIdle
    ensures r.maxActiveSeconds == st.spells.maxActive && r.maxIdleSeconds == st.spells.maxIdle
    ensures r.mouseTotalDistance == st.input.mouseTotalDistance && r.keystrokes == st.input.keystrokes
    ensures r.lastActivityDuration == st.spells.lastActivityDuration
    ensures r.lastInactivityDuration == st.spells.lastInactivityDuration
  {
    DailyRecord(st.spells.totalActive, st.spells.totalIdle, st.spells.maxIdle, st.spells.maxActive,
                st.input.mouseTotalDistance, st.input.keystrokes,
                st.spells.lastActivityDuration, st.spells.lastInactivityDuration)
  }

  /** `load_daily_data`: the day becomes `today`, the counters come from the stored
      value for today, and a fresh activity interval opens at `now`. Clicks, the
      previous classification and the last input time are left as they were. */
  function Load(st: TrackerState, today: string, stored: StoredDay, now: real): (r: TrackerState)
    ensures r.day == today && r.spells.activityStart == Some(now) && r.spells.idleStart == None
    ensures r.spells.prevActive == st.spells.prevActive && r.input.clicks == st.input.clicks
    ensures r.input.lastActivityTime == st.input.lastActivityTime
    ensures r.timer == st.timer && r.timeout == st.timeout && r.lastResetTime == st.lastResetTime
    ensures WellFormed(r.spells)
    ensures st.spells.prevActive ==> Synced(r.spells)
    // the input fields the load does not name are kept
    ensures r.input == st.input.(mouseTotalDistance := r.input.mouseTotalDistance, keystrokes := r.input.keystrokes)
  {
    var d := ParseDay(stored);
    st.(day := today,
        spells := st.spells.(totalActive := d.activeSeconds, totalIdle := d.idleSeconds,
                             maxIdle := d.maxIdleSeconds, maxActive := d.maxActiveSeconds,
                             lastActivityDuration := d.lastActivityDuration,
                             lastInactivityDuration := d.lastInactivityDuration,
                             activityStart := Some(now), idleStart := None),
        input := st.input.(mouseTotalDistance := d.mouseTotalDistance, keystrokes := d.keystrokes))
  }

  /** The counters a load leaves are exactly the parse of the stored value, whatever
      the state before; so a start-up, and a date change, take their counters from the
      stored day or, when nothing usable is stored, start them at zero. */
  lemma LoadReadsStored(st: TrackerState, today: string, stored: StoredDay, now: real)
    ensures Snapshot(Load(st, today, stored, now)) == ParseDay(stored)
    ensures Snapshot(Load(st, today, Absent, now)) == Defaults()
  {
  }

  /** The state the module starts with, before the first load: the day's counters
      zero, an activity interval open since start-up, the user not yet seen active. */
  function Boot(now: real, today: string): (r: TrackerState)
    ensures Consistent(r) && r.day == today && r.spells.activityStart == Some(now)
    ensures !r.spells.prevActive && r.timer.mode == Idle
    ensures r.input.lastActivityTime == now && r.spells.idleStart == None
  {
    TrackerState(
      Input(None, None, 0.0, 0, 0, now, now, now),
      Spells(0.0, 0.0, 0.0, 0.0, Some(now), None, 0.0, 0.0, false),
      today, Pomodoro.Initial(), None, INITIAL_INACTIVITY_TIMEOUT)
  }

  /** Start-up: the initial state followed by the load of today's stored counters. */
  function StartUp(now: real, today: string, stored: StoredDay): (r: TrackerState)
    ensures Consistent(r) && r.day == today
    ensures r.timer.mode == Idle && r.timeout == INITIAL_INACTIVITY_TIMEOUT
  {
    Load(Boot(now, today), today, stored, now)
  }

  /** The in-loop reset on a date change, before the reload. */
  function RolloverReset(st: TrackerState, today: string, now: real): (r: TrackerState)
    ensures r.spells == Fresh(now) && r.day == today && r.lastResetTime == None
    ensures r.input.mouseTotalDistance == 0.0 && r.input.keystrokes == 0
    ensures r.input.lastActivityTime == now && r.input.distanceAnchor == None
    ensures r.input.clicks == st.input.clicks
    ensures r.timer == st.timer && r.timeout == st.timeout
    ensures r.input.lastMousePosition == st.input.lastMousePosition
    ensures r.input.lastMovementTime == st.input.lastMovementTime && r.input.lastKeyboardTime == st.input.lastKeyboardTime
  {
    st.(day := today, spells := Fresh(now), lastResetTime := None,
        input := st.input.(mouseTotalDistance := 0.0, keystrokes := 0,
                           lastActivityTime := now, distanceAnchor := None))
  }

  /** A date change: the reset followed by the reload for the new day. */
  function Rollover(st: TrackerState, today: string, stored: StoredDay, now: real): (r: TrackerState)
    ensures Consistent(st) ==> Consistent(r)
    ensures Synced(r.spells) && r.spells.prevActive && r.day == today
    ensures r.input.lastActivityTime == now && r.lastResetTime == None
    ensures r.input.clicks == st.input.clicks && r.timer == st.timer
  {
    Load(RolloverReset(st, today, now), today, stored, now)
  }

  /** `reset_daily_activity_counter`: every daily counter, clicks included, back to zero,
      a fresh activity interval at `now`, and the reset time recorded. */
  function ResetDaily(st: TrackerState, now: real): (r: TrackerState)
    ensures r.spells == Fresh(now) && Synced(r.spells)
    ensures r.input.mouseTotalDistance == 0.0 && r.input.keystrokes == 0
    ensures r.input.clicks == 0 && r.input.lastActivityTime == now && r.input.distanceAnchor == None
    ensures r.lastResetTime == Some(now)
    ensures r.day == st.day && r.timer == st.timer && r.timeout == st.timeout
    ensures Consistent(st) ==> Consistent(r)
    ensures r.input.lastMousePosition == st.input.lastMousePosition
    ensures r.input.lastMovementTime == st.input.lastMovementTime && r.input.lastKeyboardTime == st.input.lastKeyboardTime
  {
    st.(spells := Fresh(now), lastResetTime := Some(now),
        input := st.input.(mouseTotalDistance := 0.0, keystrokes := 0, clicks := 0,
                           lastActivityTime := now, distanceAnchor := None))
  }

  // ---- the tick -------------------------------------------------------------

  /** What a tick leaves behind: the new state, the day saved on a date change (its key
      and counters), and the Pomodoro phase whose start it schedules. */
  datatype TickResult = TickResult(state: TrackerState, saved: Option<(string, DailyRecord)>, handoff: Option<Phase>)

  /** One iteration of the tracking loop at time `now` on date `today`; `stored` is the
      value the data file holds for `today`, read only on a date change. */
  function TrackingTick(st: TrackerState, now: real, today: string, stored: StoredDay): (r: TickResult)
    ensures Consistent(st) ==> Consistent(r.state)
    ensures Synced(st.spells) ==> Synced(r.state.spells)
    ensures r.state.day == today && r.state.timeout == st.timeout
    ensures r.state.spells.prevActive == IsActive(now, r.state.input.lastActivityTime, st.timeout)
    // a date change saves the outgoing day as it stood, under its own key
    ensures st.day != today ==> r.saved == Some((st.day, Snapshot(st)))
    // on the same day only the accounting and the timer move, and no total falls
    ensures st.day == today ==>
      r.saved == None && r.state.input == st.input && r.state.lastResetTime == st.lastResetTime &&
      r.state.spells.totalActive >= st.spells.totalActive &&
      r.state.spells.totalIdle >= st.spells.totalIdle &&
      r.state.spells.maxActive >= st.spells.maxActive &&
      r.state.spells.maxIdle >= st.spells.maxIdle
    ensures st.day == today && Synced(st.spells) ==>
      r.state.spells.totalActive + r.state.spells.totalIdle ==
      st.spells.totalActive + st.spells.totalIdle + TICK_INTERVAL
  {
    var begun := if st.day != today then Rollover(st, today, stored, now) else st;
    var saved := if st.day != today then Some((st.day, Snapshot(st))) else None;
    var spells := Step(begun.spells, now, begun.input.lastActivityTime, begun.timeout);
    var countdown := Countdown(begun.timer, now);
    TickResult(begun.(spells := spells, timer := countdown.0), saved, countdown.1)
  }

  /** A tick on a new day with nothing stored for it starts the day from zero: the only
      time counted is this tick's, as active time, and every other counter but the
      clicks is zero. */
  lemma RolloverStartsFromZero(st: TrackerState, now: real, today: string)
    requires Consistent(st) && st.day != today
    ensures var r := TrackingTick(st, now, today, Absent).state;
      r.spells.totalActive == TICK_INTERVAL && r.spells.totalIdle == 0.0 &&
      r.spells.maxActive == 0.0 && r.spells.maxIdle == 0.0 &&
      r.spells.lastActivityDuration == 0.0 && r.spells.lastInactivityDuration == 0.0 &&
      r.input.keystrokes == 0 && r.input.mouseTotalDistance == 0.0 &&
      r.spells.activityStart == Some(now) && r.spells.prevActive &&
      r.input.clicks == st.input.clicks
  {
  }

  /** Saving the outgoing day on a date change and loading that day later reads back
      exactly the counters it had (with the loader's key names). */
  lemma RolloverSaveRestores(st: TrackerState, now: real, today: string, stored: StoredDay, store: Store)
    requires st.day != today
    ensures var r := TrackingTick(st, now, today, stored);
      r.saved.Some? &&
      ParseDay(Lookup(Save(store, r.saved.value.0, r.saved.value.1), st.day)) == Snapshot(st)
  {
    LoadAfterSave(store, st.day, st.day, Snapshot(st));
  }

  /** The inactive-time reckoning that follows the accounting of a tick, AS WRITTEN:
      `now - app_state.get("current_idle_start_time", now)` when the tick found the user
      inactive. The key is always present, so with no idle interval open the subtraction
      meets `None` and raises, which ends the tracking thread; `None` stands for that raise. */
  function InactiveSecondsAsWritten(st: TrackerState, now: real): (r: Option<real>)
    ensures r.None? <==> !st.spells.prevActive && st.spells.idleStart.None?
    ensures st.spells.prevActive ==> r == Some(0.0)
    ensures !st.spells.prevActive && st.spells.idleStart.Some? ==> r == Some(now - st.spells.idleStart.value)
  {
    if st.spells.prevActive then Some(0.0)
    else match st.spells.idleStart
      case Some(start) => Some(now - start)
      case None => None
  }

  /** The reckoning as intended: zero while active or with no idle interval open. It is
      defined on every tick and agrees with the one as written wherever that one does not raise. */
  function InactiveSeconds(st: TrackerState, now: real): (r: real)
    ensures InactiveSecondsAsWritten(st, now).Some? ==> r == InactiveSecondsAsWritten(st, now).value
    ensures InactiveSecondsAsWritten(st, now).None? ==> r == 0.0
  {
    if !st.spells.prevActive && st.spells.idleStart.Some? then now - st.spells.idleStart.value else 0.0
  }

  /** The raise is reachable: when the first tick comes at least the initial timeout after
      start-up with no input in between, it finds the user inactive with no idle interval
      open, in a state that keeps the tracker invariant. */
  lemma {:induction false} FirstTickRaises(t0: real, t1: real, today: string, stored: StoredDay)
    requires t1 - t0 >= INITIAL_INACTIVITY_TIMEOUT
    ensures var r := TrackingTick(StartUp(t0, today, stored), t1, today, stored).state;
      Consistent(r) && !r.spells.prevActive && r.spells.idleStart == None &&
      InactiveSecondsAsWritten(r, t1) == None
  {
  }

  /** A first tick that comes less than the initial timeout after start-up finds the
      user active, whatever the stored day; it leaves the open interval in agreement
      with the classification, so the raise as written is not met. */
  lemma {:induction false} PromptFirstTickSyncs(t0: real, t1: real, today: string, stored: StoredDay)
    requires t1 - t0 < INITIAL_INACTIVITY_TIMEOUT
    ensures var r := TrackingTick(StartUp(t0, today, stored), t1, today, stored).state;
      r.spells.prevActive && Synced(r.spells) && InactiveSecondsAsWritten(r, t1).Some?
  {
  }

  /** Once the open interval agrees with the classification, as it does after any reset,
      rollover or active tick, the reckoning as written never raises again. */
  lemma SyncedTickNeverRaises(st: TrackerState, now: real, today: string, stored: StoredDay)
    requires Synced(st.spells)
    ensures InactiveSecondsAsWritten(TrackingTick(st, now, today, stored).state, now).Some?
  {
  }

  /** With the save as written, the day saved at a date change reloads with every
      counter zero except the two last-spell durations. */
  lemma RolloverSaveAsWrittenLoses(st: TrackerState, now: real, today: string, stored: StoredDay, store: Store)
    requires st.day != today
    ensures var r := TrackingTick(st, now, today, stored);
      r.saved.Some? &&
      ParseDay(Lookup(SaveAsWritten(store, r.saved.value.0, r.saved.value.1), st.day)) ==
        Defaults().(lastActivityDuration := st.spells.lastActivityDuration,
                    lastInactivityDuration := st.spells.lastInactivityDuration)
  {
    LoadAfterSaveAsWritten(store, st.day, st.day, Snapshot(st));
  }

  // ---- any interleaving of events -----------------------------------------

  /** One atomic step of any thread: a tick, an input event, or a command. */
  datatype Event =
    | TickAt(now: real, today: string, stored: StoredDay)
    | KeyAt(now: real)
    | ClickAt(now: real, pressed: bool)
    | MoveAt(now: real, pos: Point, dist: real)
    | ResetStats(now: real)
    | StartPomodoro(phase: Phase, now: real)
    | PausePomodoro
    | ResumePomodoro(now: real)
    | ResetPomodoro
    | ApplyPomodoro(work: Option<int>, brk: Option<int>)
    | ApplyInactivity(entry: Option<real>)

  function Apply(st: TrackerState, e: Event): TrackerState {
    match e
    case TickAt(now, today, stored) => TrackingTick(st, now, today, stored).state
    case KeyAt(now) => KeyPress(st, now)
    case ClickAt(now, pressed) => Click(st, now, pressed)
    case MoveAt(now, pos, dist) => Move(st, now, pos, dist)
    case ResetStats(now) => ResetDaily(st, now)
    case StartPomodoro(p, now) => st.(timer := Start(st.timer, p, now))
    case PausePomodoro => st.(timer := Pause(st.timer))
    case ResumePomodoro(now) => st.(timer := Resume(st.timer, now))
    case ResetPomodoro => st.(timer := Pomodoro.Reset(st.timer))
    case ApplyPomodoro(w, b) => st.(timer := ApplySettings(st.timer, w, b).0)
    case ApplyInactivity(entry) => st.(timeout := ApplyTimeout(st.timeout, entry).0)
  }

  /** The state after a sequence of events, each applied atomically in order. */
  function Replay(st: TrackerState, events: seq<Event>): (r: TrackerState)
    ensures Consistent(st) ==> Consistent(r)
    ensures Consistent(st) && Synced(st.spells) ==> Synced(r.spells)
    decreases |events|
  {
    if events == [] then st else Replay(Apply(st, events[0]), events[1..])
  }

  /** From start-up, every reachable state keeps the tracker invariant; in particular
      exactly one of the two interval starts is open at every point of every run. */
  lemma {:induction false} EveryRunKeepsInvariant(now: real, today: string, stored: StoredDay, events: seq<Event>)
    ensures Consistent(Replay(StartUp(now, today, stored), events))
    ensures OneOpen(Replay(StartUp(now, today, stored), events).spells)
  {
  }

  // ---- the object ----------------------------------------------------------

  /** The shared `app_state` record and the inactivity timeout, updated in place. The
      record's keys are gathered into the `Input`, `Spells` and `Timer` groups, so that
      each `app_state.update({...})` of the source is a record update of one group. */
  class Tracker {
    var input: Input
    var spells: Spells
    var currentDayString: string
    var timer: Timer
    var lastResetTime: Option<real>
    var inactivityTimeout: real

    /** The fields read as one value. */
    function State(): TrackerState
      reads this
    {
      TrackerState(input, spells, currentDayString, timer, lastResetTime, inactivityTimeout)
    }

    predicate Valid()
      reads this
    {
      Consistent(State())
    }

    /** Start-up: the module's initial state and the load of today's stored counters. */
    constructor (now: real, today: string, stored: StoredDay)
      ensures State() == StartUp(now, today, stored) && Valid()
    {
      var boot := Boot(now, today);
      input := boot.input;
      spells := boot.spells;
      currentDayString := boot.day;
      timer := boot.timer;
      lastResetTime := boot.lastResetTime;
      inactivityTimeout := boot.timeout;
      new;
      LoadDailyData(today, stored, now);
    }

    /** `load_daily_data`, given the stored value for today. */
    method LoadDailyData(today: string, stored: StoredDay, now: real)
      modifies this
      ensures State() == Load(old(State()), today, stored, now)
      ensures old(Valid()) ==> Valid()
    {
      var d := ParseDay(stored);
      currentDayString := today;
      spells := spells.(totalActive := d.activeSeconds, totalIdle := d.idleSeconds,
                        maxIdle := d.maxIdleSeconds, maxActive := d.maxActiveSeconds,
                        lastActivityDuration := d.lastActivityDuration,
                        lastInactivityDuration := d.lastInactivityDuration,
                        activityStart := Some(now), idleStart := None);
      input := input.(mouseTotalDistance := d.mouseTotalDistance, keystrokes := d.keystrokes);
    }

    /** One iteration of `tracking_loop`: the date check, the classifier and accountant,
        then the Pomodoro countdown. */
    method Tick(now: real, today: string, stored: StoredDay)
      returns (saved: Option<(string, DailyRecord)>, handoff: Option<Phase>)
      requires Valid()
      modifies this
      ensures TickResult(State(), saved, handoff) == TrackingTick(old(State()), now, today, stored)
      ensures Valid()
    {
      saved := CheckDayChange(now, today, stored);
      AccountActivity(now);
      handoff := CountDown(now);
    }

    /** The date check at the head of the loop: on a new date, save the outgoing day,
        reset the daily counters and load the new day. */
    method CheckDayChange(now: real, today: string, stored: StoredDay)
      returns (saved: Option<(string, DailyRecord)>)
      modifies this
      ensures old(currentDayString) != today ==>
        State() == Rollover(old(State()), today, stored, now) &&
        saved == Some((old(currentDayString), Snapshot(old(State()))))
      ensures old(currentDayString) == today ==> State() == old(State()) && saved == None
    {
      saved := None;
      if currentDayString != today {
        saved := Some((currentDayString, Snapshot(State())));
        currentDayString := today;
        spells := spells.(totalActive := 0.0, totalIdle := 0.0, maxIdle := 0.0, maxActive := 0.0,
                          lastActivityDuration := 0.0, lastInactivityDuration := 0.0,
                          idleStart := None, activityStart := Some(now), prevActive := true);
        input := input.(mouseTotalDistance := 0.0, keystrokes := 0,
                        lastActivityTime := now, distanceAnchor := None);
        lastResetTime := None;
        LoadDailyData(today, stored, now);
      }
    }

    /** The classifier and interval accountant: read the previous state, apply the
        transition if the classification changed, add the tick to a total. */
    method AccountActivity(now: real)
      modifies this
      ensures State() == old(State()).(spells := Step(old(spells), now, input.lastActivityTime, inactivityTimeout))
    {
      var lastActTime, wasActive := input.lastActivityTime, spells.prevActive;
      var curIdleStart, curActStart := spells.idleStart, spells.activityStart;
      var curMaxIdle, curMaxActive := spells.maxIdle, spells.maxActive;
      var activeNow := IsActive(now, lastActTime, inactivityTimeout);
      if wasActive && !activeNow {
        spells := spells.(idleStart := Some(lastActTime));
        if curActStart.Some? {
          var actDur := lastActTime - curActStart.value;
          if actDur > 0.0 {
            spells := spells.(lastActivityDuration := actDur, maxActive := Max(curMaxActive, actDur));
          }
        }
        spells := spells.(activityStart := None);
      } else if !wasActive && activeNow {
        spells := spells.(activityStart := Some(now));
        if curIdleStart.Some? {
          var idleDur := now - curIdleStart.value;
          if idleDur > SHORT_IDLE_LIMIT {
            spells := spells.(lastInactivityDuration := idleDur);
            if idleDur > curMaxIdle {
              spells := spells.(maxIdle := idleDur);
            }
          }
        }
        spells := spells.(idleStart := None);
      }
      if activeNow {
        spells := spells.(totalActive := spells.totalActive + TICK_INTERVAL);
      } else if spells.idleStart.Some? {
        spells := spells.(totalIdle := spells.totalIdle + TICK_INTERVAL);
      }
      spells := spells.(prevActive := activeNow);
    }

    /** The Pomodoro countdown of a tick; returns the phase whose start it schedules. */
    method CountDown(now: real) returns (handoff: Option<Phase>)
      modifies this
      ensures State() == old(State()).(timer := Countdown(old(timer), now).0)
      ensures handoff == Countdown(old(timer), now).1
    {
      handoff := None;
      var mode, start := timer.mode, timer.startTime;
      if mode.Running? && start > 0.0 {
        var elapsed := now - start;
        var duration := if mode.phase == Work then timer.workSeconds else timer.breakSeconds;
        var left := duration - elapsed;
        var rem := if left > 0.0 then left else 0.0;
        var processed := timer.remaining == FINISHED || timer.startTime == 0.0;
        if !processed {
          timer := timer.(remaining := rem);
        }
        if !processed && rem <= 0.0 {
          var finished := timer.mode;
          timer := timer.(remaining := FINISHED, startTime := 0.0);
          handoff := Some(Next(finished.phase));
        }
      }
    }

    /** `reset_daily_activity_counter`. */
    method ResetDailyActivityCounter(now: real)
      requires Valid()
      modifies this
      ensures State() == ResetDaily(old(State()), now) && Valid()
    {
      spells := spells.(totalActive := 0.0, totalIdle := 0.0, maxIdle := 0.0, maxActive := 0.0,
                        lastActivityDuration := 0.0, lastInactivityDuration := 0.0,
                        idleStart := None, activityStart := Some(now), prevActive := true);
      input := input.(mouseTotalDistance := 0.0, keystrokes := 0, clicks := 0,
                      lastActivityTime := now, distanceAnchor := None);
      lastResetTime := Some(now);
    }

    method OnKeyPress(now: real)
      requires Valid()
      modifies this
      ensures State() == KeyPress(old(State()), now) && Valid()
    {
      input := input.(keystrokes := input.keystrokes + 1);
      input := input.(lastKeyboardTime := now, lastActivityTime := now);
    }

    method OnClick(now: real, pressed: bool)
      requires Valid()
      modifies this
      ensures State() == Click(old(State()), now, pressed) && Valid()
    {
      if pressed {
        input := input.(clicks := input.clicks + 1);
        input := input.(lastActivityTime := now);
      }
    }

    method OnMove(now: real, pos: Point, dist: real)
      requires Valid()
      modifies this
      ensures State() == Move(old(State()), now, pos, dist) && Valid()
    {
      if input.distanceAnchor.Some? {
        input := input.(mouseTotalDistance := input.mouseTotalDistance + dist);
      }
      input := input.(distanceAnchor := Some(pos));
      input := input.(lastMousePosition := Some(pos), lastMovementTime := now, lastActivityTime := now);
    }

    /** `_pomodoro_action`, behind the start-work and start-break commands and the hand-off. */
    method PomodoroAction(phase: Phase, now: real)
      requires Valid()
      modifies this
      ensures State() == old(State()).(timer := Start(old(timer), phase, now)) && Valid()
    {
      var seconds := if phase == Work then timer.workSeconds else timer.breakSeconds;
      timer := timer.(mode := Running(phase), remaining := seconds, startTime := now);
    }

    method PomodoroPause()
      requires Valid()
      modifies this
      ensures State() == old(State()).(timer := Pause(old(timer))) && Valid()
    {
      var mode := timer.mode;
      if !mode.Running? {
        return;
      }
      timer := timer.(mode := Paused(mode.phase), pausedRemaining := timer.remaining, startTime := 0.0);
    }

    method PomodoroResume(now: real)
      requires Valid()
      modifies this
      ensures State() == old(State()).(timer := Resume(old(timer), now)) && Valid()
    {
      var mode := timer.mode;
      if !mode.Paused? {
        return;
      }
      var target := mode.phase;
      var pausedRem := timer.pausedRemaining;
      var fullDur := if target == Work then timer.workSeconds else timer.breakSeconds;
      var startTime := now - (fullDur - pausedRem);
      timer := timer.(mode := Running(target), remaining := pausedRem, startTime := startTime);
    }

    method PomodoroReset()
      requires Valid()
      modifies this
      ensures State() == old(State()).(timer := Pomodoro.Reset(old(timer))) && Valid()
    {
      timer := timer.(mode := Idle, remaining := timer.workSeconds, startTime := 0.0, pausedRemaining := 0.0);
    }

    /** `apply_pomodoro_settings`, given the parsed minute entries. */
    method ApplyPomodoroSettings(work: Option<int>, brk: Option<int>) returns (accepted: bool)
      requires Valid()
      modifies this
      ensures (timer, accepted) == ApplySettings(old(timer), work, brk)
      ensures State() == old(State()).(timer := timer) && Valid()
    {
      if work.None? || brk.None? {
        return false;
      }
      var w, b := work.value, brk.value;
      if !(0 < w < 1000 && 0 < b < 1000) {
        return false;
      }
      timer := timer.(workSeconds := (w * 60) as real, breakSeconds := (b * 60) as real);
      if timer.mode == Idle {
        timer := timer.(remaining := timer.workSeconds);
      }
      accepted := true;
    }

    /** `apply_inactivity_timeout_setting`, given the parsed entry. */
    method ApplyInactivityTimeoutSetting(entry: Option<real>) returns (accepted: bool)
      requires Valid()
      modifies this
      ensures (inactivityTimeout, accepted) == ApplyTimeout(old(inactivityTimeout), entry)
      ensures State() == old(State()).(timeout := inactivityTimeout) && Valid()
    {
      if entry.None? || !(1.0 <= entry.value <= 3600.0) {
        return false;
      }
      inactivityTimeout := entry.value;
      accepted := true;
    }
  }
}
