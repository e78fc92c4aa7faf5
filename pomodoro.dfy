/** The Pomodoro timer: a work/break countdown that the user starts, pauses,
    resumes and resets, and that the tracking loop counts down every tick. */
module Pomodoro {

  import opened Optional

  const INITIAL_WORK_MINUTES: int := 25
  const INITIAL_SHORT_BREAK_MINUTES: int := 5

  /** The value `pomodoro_seconds_remaining` takes when a phase has run out and the
      hand-off to the next phase is pending. */
  const FINISHED: real := -1.0

  datatype Phase = Work | Break

  /** `pomodoro_mode`: `idle`, `work`, `break`, `paused_work` or `paused_break`. */
  datatype Mode = Idle | Running(phase: Phase) | Paused(phase: Phase)

  function PhaseName(p: Phase): string {
    match p
    case Work => "work"
    case Break => "break"
  }

  /** The string the mode is stored as. */
  function ModeName(m: Mode): string {
    match m
    case Idle => "idle"
    case Running(p) => PhaseName(p)
    case Paused(p) => "paused_" + PhaseName(p)
  }

  /** The mode strings are distinct, exactly the paused modes start with `paused_`,
      and the part after the underscore names the phase that resuming goes back to. */
  lemma ModeNames(m: Mode, m': Mode)
    ensures ModeName(m) == ModeName(m') ==> m == m'
    ensures (|ModeName(m)| >= 7 && ModeName(m)[..7] == "paused_") <==> m.Paused?
    ensures m.Paused? ==> ModeName(m)[7..] == PhaseName(m.phase)
  {
  }

  /** The phase the hand-off starts when a phase runs out. */
  function Next(p: Phase): (q: Phase)
    ensures q != p
  {
    match p
    case Work => Break
    case Break => Work
  }

  datatype Timer = Timer(
    mode: Mode,                // pomodoro_mode
    remaining: real,           // pomodoro_seconds_remaining
    startTime: real,           // pomodoro_start_time
    pausedRemaining: real,     // pomodoro_paused_seconds_remaining
    workSeconds: real,         // pomodoro_work_duration_seconds
    breakSeconds: real         // pomodoro_break_duration_seconds
  )

  /** Full length of a phase: `pomodoro_<phase>_duration_seconds`. */
  function Duration(t: Timer, p: Phase): real {
    match p
    case Work => t.workSeconds
    case Break => t.breakSeconds
  }

  predicate RemainingOk(x: real) {
    x == FINISHED || x >= 0.0
  }

  /** The timer invariant: durations are positive, a remaining time is never negative
      except the finished sentinel, and a timer that is not running has no start time. */
  predicate Inv(t: Timer) {
    t.workSeconds > 0.0 && t.breakSeconds > 0.0 &&
    RemainingOk(t.remaining) && RemainingOk(t.pausedRemaining) &&
    (!t.mode.Running? ==> t.startTime == 0.0)
  }

  function Initial(): (t: Timer)
    ensures Inv(t) && t.mode == Idle && t.remaining == t.workSeconds
    ensures t.workSeconds == 1500.0 && t.breakSeconds == 300.0
    ensures t.startTime == 0.0 && t.pausedRemaining == 0.0
  {
    var work := (INITIAL_WORK_MINUTES * 60) as real;
    Timer(Idle, work, 0.0, 0.0, work, (INITIAL_SHORT_BREAK_MINUTES * 60) as real)
  }

  /** `_pomodoro_action`: starting a phase gives it its full duration from `now`. */
  function Start(t: Timer, p: Phase, now: real): (r: Timer)
    ensures r.mode == Running(p) && r.remaining == Duration(t, p) && r.startTime == now
    ensures r.workSeconds == t.workSeconds && r.breakSeconds == t.breakSeconds
    ensures r.pausedRemaining == t.pausedRemaining
    ensures Inv(t) ==> Inv(r)
  {
    t.(mode := Running(p), remaining := Duration(t, p), startTime := now)
  }

  /** `pomodoro_pause`: only a running phase pauses; its remaining time is kept aside. */
  function Pause(t: Timer): (r: Timer)
    ensures !t.mode.Running? ==> r == t
    ensures t.mode.Running? ==>
      r.mode == Paused(t.mode.phase) && r.pausedRemaining == t.remaining && r.startTime == 0.0 &&
      r.remaining == t.remaining && r.workSeconds == t.workSeconds && r.breakSeconds == t.breakSeconds
    ensures Inv(t) ==> Inv(r)
  {
    match t.mode
    case Running(p) => t.(mode := Paused(p), pausedRemaining := t.remaining, startTime := 0.0)
    case _ => t
  }

  /** `pomodoro_resume`: only a paused phase resumes; the start time is set back so that
      the elapsed part of the phase is exactly what had run before the pause. */
  function Resume(t: Timer, now: real): (r: Timer)
    ensures !t.mode.Paused? ==> r == t
    ensures t.mode.Paused? ==>
      r.mode == Running(t.mode.phase) && r.remaining == t.pausedRemaining &&
      Duration(t, t.mode.phase) - (now - r.startTime) == t.pausedRemaining &&
      r.pausedRemaining == t.pausedRemaining &&
      r.workSeconds == t.workSeconds && r.breakSeconds == t.breakSeconds
    ensures Inv(t) ==> Inv(r)
  {
    match t.mode
    case Paused(p) =>
      t.(mode := Running(p), remaining := t.pausedRemaining,
         startTime := now - (Duration(t, p) - t.pausedRemaining))
    case _ => t
  }

  /** `pomodoro_reset`: back to idle with a full work phase on the clock. */
  function Reset(t: Timer): (r: Timer)
    ensures r.mode == Idle && r.remaining == t.workSeconds && r.startTime == 0.0
    ensures r.pausedRemaining == 0.0
    ensures r.workSeconds == t.workSeconds && r.breakSeconds == t.breakSeconds
    ensures Inv(t) ==> Inv(r)
  {
    t.(mode := Idle, remaining := t.workSeconds, startTime := 0.0, pausedRemaining := 0.0)
  }

  /** The countdown step of a tick. While a phase runs with a start time, the remaining
      time is `max(0, duration - elapsed)`; when that reaches zero the timer is marked
      finished and the next phase is handed off to be started. */
  function Countdown(t: Timer, now: real): (r: (Timer, Option<Phase>))
    ensures r.0.mode == t.mode && r.0.pausedRemaining == t.pausedRemaining
    ensures r.0.workSeconds == t.workSeconds && r.0.breakSeconds == t.breakSeconds
    ensures Inv(t) ==> Inv(r.0)
    ensures !(t.mode.Running? && t.startTime > 0.0 && t.remaining != FINISHED) ==> r == (t, None)
    ensures t.mode.Running? && t.startTime > 0.0 && t.remaining != FINISHED ==>
      var left := Duration(t, t.mode.phase) - (now - t.startTime);
      (left > 0.0 ==> r == (t.(remaining := left), None)) &&
      (left <= 0.0 ==> r == (t.(remaining := FINISHED, startTime := 0.0), Some(Next(t.mode.phase))))
  {
    match t.mode
    case Running(p) =>
      if t.startTime > 0.0 then
        var left := Duration(t, p) - (now - t.startTime);
        var rem := if left > 0.0 then left else 0.0;
        if t.remaining == FINISHED then (t, None)
        else if rem <= 0.0 then (t.(remaining := FINISHED, startTime := 0.0), Some(Next(p)))
        else (t.(remaining := rem), None)
      else (t, None)
    case _ => (t, None)
  }

  /** The accepted range of the minute entries. */
  predicate MinutesInRange(m: int) {
    0 < m < 1000
  }

  /** `apply_pomodoro_settings`. `work` and `brk` are the parsed entries (`None` where
      the text is not an integer). Out-of-range or unparsable input changes nothing;
      accepted input sets both durations, and the remaining time only when idle. */
  function ApplySettings(t: Timer, work: Option<int>, brk: Option<int>): (r: (Timer, bool))
    ensures r.1 <==> work.Some? && brk.Some? && MinutesInRange(work.value) && MinutesInRange(brk.value)
    ensures !r.1 ==> r.0 == t
    ensures r.1 ==>
      r.0.workSeconds == (work.value * 60) as real && r.0.breakSeconds == (brk.value * 60) as real &&
      r.0.mode == t.mode && r.0.startTime == t.startTime && r.0.pausedRemaining == t.pausedRemaining &&
      r.0.remaining == (if t.mode == Idle then r.0.workSeconds else t.remaining)
    ensures Inv(t) ==> Inv(r.0)
  {
    if work.Some? && brk.Some? && MinutesInRange(work.value) && MinutesInRange(brk.value) then
      var updated := t.(workSeconds := (work.value * 60) as real, breakSeconds := (brk.value * 60) as real);
      (if updated.mode == Idle then updated.(remaining := updated.workSeconds) else updated, true)
    else (t, false)
  }

  /** Pausing and resuming at any later time gives back the same phase with the same
      remaining time, and the countdown at the moment of resuming reads that same time
      back: a pause does not eat into the phase. */
  lemma PauseResume(t: Timer, now: real)
    requires t.mode.Running? && t.remaining > 0.0
    requires now - (Duration(t, t.mode.phase) - t.remaining) > 0.0
    ensures Resume(Pause(t), now).mode == t.mode
    ensures Resume(Pause(t), now).remaining == t.remaining
    ensures Countdown(Resume(Pause(t), now), now) == (Resume(Pause(t), now), None)
  {
  }

  /** After a resume at `now`, a countdown `d` seconds later leaves `remaining - d`,
      or finishes the phase once that is no longer positive. */
  lemma CountdownAfterResume(t: Timer, now: real, d: real)
    requires t.mode.Paused? && t.pausedRemaining >= 0.0
    requires now - (Duration(t, t.mode.phase) - t.pausedRemaining) > 0.0
    ensures var c := Countdown(Resume(t, now), now + d);
      (t.pausedRemaining - d > 0.0 ==> c.0.remaining == t.pausedRemaining - d && c.1 == None) &&
      (t.pausedRemaining - d <= 0.0 ==> c.0.remaining == FINISHED && c.1 == Some(Next(t.mode.phase)))
  {
  }

  /** A finished work phase hands off to a full break and a finished break to a full work
      phase: the countdown followed by the start it schedules. */
  lemma HandOff(t: Timer, now: real, later: real)
    requires t.mode.Running? && t.startTime > 0.0 && t.remaining != FINISHED
    requires Duration(t, t.mode.phase) - (now - t.startTime) <= 0.0
    ensures var c := Countdown(t, now);
      c.1 == Some(Next(t.mode.phase)) &&
      Start(c.0, Next(t.mode.phase), later).mode == Running(Next(t.mode.phase)) &&
      Start(c.0, Next(t.mode.phase), later).remaining == Duration(t, Next(t.mode.phase))
  {
  }
}
