/** The shape of the persisted daily statistics: the record parsed out of the
    stored value for a day, the object written back for a day, and the
    date-keyed store that a save merges into. File I/O and JSON text are not
    modelled; a stored value is taken as already decoded. */
module Persistence {

  /** One day's counters as `load_daily_data` reads them. */
  datatype DailyRecord = DailyRecord(
    activeSeconds: real,
    idleSeconds: real,
    maxIdleSeconds: real,
    maxActiveSeconds: real,
    mouseTotalDistance: real,
    keystrokes: int,
    lastActivityDuration: real,
    lastInactivityDuration: real
  )

  /** The decoded value found under a date key. `Absent` stands for no entry, and also
      for a missing, empty or unreadable file (the loader then starts from an empty
      store). `Object` holds the numeric members of a JSON object; `Other` is any value
      that is neither an object nor a number (a string, a list, `null`). */
  datatype StoredDay =
    | Absent
    | Number(value: real)
    | Boolean(flag: bool)
    | Object(fields: map<string, real>)
    | Other

  /** A date-keyed store of days, as the data file holds it. */
  type Store = map<string, StoredDay>

  function Defaults(): DailyRecord {
    DailyRecord(0.0, 0.0, 0.0, 0.0, 0.0, 0, 0.0, 0.0)
  }

  /** Python's `int(x)` on a float: truncation toward zero. */
  function Trunc(x: real): (n: int)
    ensures x >= 0.0 ==> n as real <= x < (n + 1) as real
    ensures x < 0.0 ==> (n - 1) as real < x <= n as real
  {
    if x >= 0.0 then x.Floor else -((-x).Floor)
  }

  /** `d.get(key, 0.0)` on a decoded object. */
  function Get(fields: map<string, real>, key: string): real {
    if key in fields then fields[key] else 0.0
  }

  /** The record-shape parse of `load_daily_data`: an object gives each field from its
      key (zero when missing, keystrokes truncated to an integer); a bare number is
      the legacy shape and gives the active seconds only (Python's `bool` is an
      `int`, so `true` reads as one second); anything else gives all zeros. */
  function ParseDay(raw: StoredDay): (r: DailyRecord)
    ensures raw.Absent? || raw.Other? ==> r == Defaults()
    ensures raw.Number? ==> r == Defaults().(activeSeconds := raw.value)
    ensures raw.Boolean? ==> r == Defaults().(activeSeconds := if raw.flag then 1.0 else 0.0)
  {
    match raw
    case Object(f) =>
      DailyRecord(Get(f, "active_seconds"), Get(f, "idle_seconds"), Get(f, "max_idle_seconds"),
                  Get(f, "max_active_seconds"), Get(f, "mouse_total_distance"),
                  Trunc(Get(f, "keystrokes")),
                  Get(f, "last_activity_duration"), Get(f, "last_inactivity_duration"))
    case Number(x) => Defaults().(activeSeconds := x)
    case Boolean(b) => Defaults().(activeSeconds := if b then 1.0 else 0.0)
    case _ => Defaults()
  }

  /** An object is read key by key: each field from the loader's name for it, zero when
      the key is missing, and the keystrokes truncated toward zero. */
  lemma ParseObject(fields: map<string, real>)
    ensures var r := ParseDay(Object(fields));
      r.activeSeconds == Get(fields, "active_seconds") &&
      r.idleSeconds == Get(fields, "idle_seconds") &&
      r.maxIdleSeconds == Get(fields, "max_idle_seconds") &&
      r.maxActiveSeconds == Get(fields, "max_active_seconds") &&
      r.mouseTotalDistance == Get(fields, "mouse_total_distance") &&
      r.keystrokes == Trunc(Get(fields, "keystrokes")) &&
      r.lastActivityDuration == Get(fields, "last_activity_duration") &&
      r.lastInactivityDuration == Get(fields, "last_inactivity_duration")
    ensures ParseDay(Object(map[])) == Defaults()
  {
  }

  /** The object `save_daily_data` writes for a day, AS WRITTEN: it is keyed by the
      tracker's own state names, which are not the names the loader reads back. */
  function SavedFieldsAsWritten(r: DailyRecord): (m: map<string, real>)
    // none of the loader's counter keys is written ...
    ensures "active_seconds" !in m && "idle_seconds" !in m && "max_idle_seconds" !in m
    ensures "max_active_seconds" !in m && "mouse_total_distance" !in m && "keystrokes" !in m
    // ... and the two keys the state and the loader share carry their values
    ensures "last_activity_duration" in m && m["last_activity_duration"] == r.lastActivityDuration
    ensures "last_inactivity_duration" in m && m["last_inactivity_duration"] == r.lastInactivityDuration
  {
    map[
      "total_active_seconds_today" := r.activeSeconds,
      "total_idle_seconds_today" := r.idleSeconds,
      "max_idle_seconds_today" := r.maxIdleSeconds,
      "max_active_seconds_today" := r.maxActiveSeconds,
      "mouse_total_distance_today" := r.mouseTotalDistance,
      "keystrokes_today" := r.keystrokes as real,
      "last_activity_duration" := r.lastActivityDuration,
      "last_inactivity_duration" := r.lastInactivityDuration
    ]
  }

  /** Reloading a day saved by the code as written keeps only the two last-spell
      durations: the totals, maxima, distance and keystrokes all come back as zero. */
  lemma ReloadAsWrittenLosesCounters(r: DailyRecord)
    ensures ParseDay(Object(SavedFieldsAsWritten(r))) ==
      Defaults().(lastActivityDuration := r.lastActivityDuration,
                  lastInactivityDuration := r.lastInactivityDuration)
  {
  }

  /** The concrete case: a day with 100 s active and 50 s idle reloads as 0 s and 0 s. */
  lemma ReloadAsWrittenExample()
    ensures var r := Defaults().(activeSeconds := 100.0, idleSeconds := 50.0);
      ParseDay(Object(SavedFieldsAsWritten(r))).activeSeconds == 0.0 &&
      ParseDay(Object(SavedFieldsAsWritten(r))).idleSeconds == 0.0
  {
    ReloadAsWrittenLosesCounters(Defaults().(activeSeconds := 100.0, idleSeconds := 50.0));
  }

  /** The object a save should write: keyed by the names the loader reads. */
  function SavedFields(r: DailyRecord): map<string, real> {
    map[
      "active_seconds" := r.activeSeconds,
      "idle_seconds" := r.idleSeconds,
      "max_idle_seconds" := r.maxIdleSeconds,
      "max_active_seconds" := r.maxActiveSeconds,
      "mouse_total_distance" := r.mouseTotalDistance,
      "keystrokes" := r.keystrokes as real,
      "last_activity_duration" := r.lastActivityDuration,
      "last_inactivity_duration" := r.lastInactivityDuration
    ]
  }

  /** With the loader's key names, a saved day reads back exactly. */
  lemma ReloadRestores(r: DailyRecord)
    ensures ParseDay(Object(SavedFields(r))) == r
  {
    assert Trunc(r.keystrokes as real) == r.keystrokes;
  }

  /** The value stored for a day, `Absent` when the store has no entry. */
  function Lookup(store: Store, day: string): StoredDay {
    if day in store then store[day] else Absent
  }

  /** `save_daily_data` AS WRITTEN: the day's object, under the state's key names,
      replaces that day's entry; every other day is kept. */
  function SaveAsWritten(store: Store, day: string, r: DailyRecord): (s: Store)
    ensures s.Keys == store.Keys + {day}
    ensures forall d :: d in store && d != day ==> d in s && s[d] == store[d]
  {
    store[day := Object(SavedFieldsAsWritten(r))]
  }

  /** Loading a day after the save as written gives back only the two last-spell
      durations; every other day reads as before. */
  lemma {:induction false} LoadAfterSaveAsWritten(store: Store, day: string, other: string, r: DailyRecord)
    ensures ParseDay(Lookup(SaveAsWritten(store, day, r), day)) ==
      Defaults().(lastActivityDuration := r.lastActivityDuration,
                  lastInactivityDuration := r.lastInactivityDuration)
    ensures other != day ==> Lookup(SaveAsWritten(store, day, r), other) == Lookup(store, other)
  {
    ReloadAsWrittenLosesCounters(r);
  }

  /** A save with the loader's key names: the day's object replaces that day's entry,
      every other day kept. */
  function Save(store: Store, day: string, r: DailyRecord): (s: Store)
    ensures s.Keys == store.Keys + {day}
    ensures forall d :: d in store && d != day ==> d in s && s[d] == store[d]
  {
    store[day := Object(SavedFields(r))]
  }

  /** Loading a day after saving it gives back what was saved; loading any other day
      gives what it gave before. */
  lemma {:induction false} LoadAfterSave(store: Store, day: string, other: string, r: DailyRecord)
    ensures ParseDay(Lookup(Save(store, day, r), day)) == r
    ensures other != day ==> Lookup(Save(store, day, r), other) == Lookup(store, other)
  {
    ReloadRestores(r);
  }
}
