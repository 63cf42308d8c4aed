/**
 * The countdown controller of the stretch reminder, as values: the duration
 * setting, the countdown fields, the settings store, and one function per
 * operation of `TimerManager` giving the state it leaves behind. The class in
 * module TimerObject updates its fields in place and is proved to follow these
 * functions; the lemmas here state what the operations promise together.
 *
 * Time is a whole number of seconds passed in as `now` wherever the source reads
 * `Date()`. The repeating Foundation timer is the environment calling `Tick`.
 */
module Timer {
  import opened Optional
  import Decimal

  /** `TimerPreset`: the three recommended lengths, in minutes. */
  datatype Preset = Twenty | Forty | Fifty {

    function RawValue(): (raw: int)
      ensures raw == 20 || raw == 40 || raw == 50
    {
      match this
      case Twenty => 20
      case Forty => 40
      case Fifty => 50
    }

    /** The preset's length in seconds: whole minutes, which convert back to this preset. */
    function Seconds(): (seconds: int)
      ensures seconds == 1200 || seconds == 2400 || seconds == 3000
      ensures seconds % 60 == 0 && PresetFromRaw(seconds / 60) == Some(this)
    {
      RawValue() * 60
    }

    /**
     * `displayName`, `"\(rawValue)m"`: the minute count in shortest decimal form
     * (read back by `Int(_)`), then `m`.
     */
    function DisplayName(): (name: string)
      ensures 2 <= |name| && name[|name| - 1] == 'm'
      ensures Decimal.AllDigits(name[..|name| - 1]) && name[0] != '0'
      ensures Decimal.DigitsValue(name[..|name| - 1]) == RawValue()
      ensures Decimal.ParseInt(name[..|name| - 1]) == Some(RawValue())
    {
      Decimal.DescribeParses(RawValue());
      var name := Decimal.Describe(RawValue()) + "m";
      assert name[..|name| - 1] == Decimal.Describe(RawValue());
      name
    }
  }

  /** `TimerPreset.allCases`, in declaration order. */
  const AllPresets: seq<Preset> := [Twenty, Forty, Fifty]

  /** `TimerPreset(rawValue:)`: the preset with that minute count, if there is one. */
  function PresetFromRaw(raw: int): (p: Option<Preset>)
    ensures p.Some? <==> raw == 20 || raw == 40 || raw == 50
    ensures p.Some? ==> p.value.RawValue() == raw
  {
    if raw == 20 then Some(Twenty)
    else if raw == 40 then Some(Forty)
    else if raw == 50 then Some(Fifty)
    else None
  }

  lemma PresetRawRoundTrip(p: Preset)
    ensures PresetFromRaw(p.RawValue()) == Some(p)
  {
  }

  // ---------------------------------------------------------------------------
  // Duration setting

  /** The three persisted properties that choose the countdown length. */
  datatype Setting = Setting(isCustomMode: bool, customMinutes: int, selectedPreset: Option<Preset>)

  /** The property initialisers: the 20-minute preset, custom mode off, 25 custom minutes. */
  const DefaultSetting: Setting := Setting(false, 25, Some(Twenty))

  /**
   * `currentMinutes`: the custom count in custom mode; otherwise a preset's count,
   * the selected preset's, or the 20-minute one's when none is selected.
   */
  function CurrentMinutes(st: Setting): (minutes: int)
    ensures st.isCustomMode ==> minutes == st.customMinutes
    ensures !st.isCustomMode && st.selectedPreset.Some? ==> PresetFromRaw(minutes) == st.selectedPreset
    ensures !st.isCustomMode && st.selectedPreset.None? ==> minutes == 20
  {
    if st.isCustomMode then st.customMinutes else st.selectedPreset.GetOr(Twenty).RawValue()
  }

  /** `currentSeconds`: the countdown length every start and stop resets to. */
  function CurrentSeconds(st: Setting): (seconds: int)
    ensures st.isCustomMode ==> seconds == st.customMinutes * 60
    ensures !st.isCustomMode ==> seconds == 1200 || seconds == 2400 || seconds == 3000
    ensures !st.isCustomMode && st.selectedPreset.Some? ==> seconds == st.selectedPreset.value.Seconds()
    ensures !st.isCustomMode && st.selectedPreset.None? ==> seconds == 1200
    ensures st.customMinutes > 0 ==> seconds > 0
  {
    CurrentMinutes(st) * 60
  }

  // ---------------------------------------------------------------------------
  // Settings store

  /** `UserDefaults.standard` as a key-value map; a flag is stored as 1 or 0. */
  type Store = map<string, int>

  const KeyCustomMode: string := "isCustomMode"
  const KeyCustomMinutes: string := "customMinutes"
  const KeyPreset: string := "selectedTimerPreset"

  /** `integer(forKey:)`: 0 for a missing key. */
  function StoredInt(store: Store, key: string): int {
    if key in store then store[key] else 0
  }

  /** `bool(forKey:)`: false for a missing key, true for any non-zero number. */
  function StoredBool(store: Store, key: string): bool {
    StoredInt(store, key) != 0
  }

  /**
   * `saveSettings`: writes the mode flag and the custom count, and the preset only
   * when there is one; every other key is left as it was.
   */
  function Save(st: Setting, store: Store): (r: Store)
    ensures StoredBool(r, KeyCustomMode) == st.isCustomMode
    ensures StoredInt(r, KeyCustomMinutes) == st.customMinutes
    ensures st.selectedPreset.Some? ==> StoredInt(r, KeyPreset) == st.selectedPreset.value.RawValue()
    ensures st.selectedPreset.None? ==> StoredInt(r, KeyPreset) == StoredInt(store, KeyPreset)
    ensures r.Keys == store.Keys + {KeyCustomMode, KeyCustomMinutes} + (if st.selectedPreset.Some? then {KeyPreset} else {})
    ensures forall k :: k in store && k != KeyCustomMode && k != KeyCustomMinutes && k != KeyPreset ==> r[k] == store[k]
  {
    var r := store[KeyCustomMode := if st.isCustomMode then 1 else 0][KeyCustomMinutes := st.customMinutes];
    match st.selectedPreset
    case Some(p) => r[KeyPreset := p.RawValue()]
    case None => r
  }

  /** A later save supersedes an earlier one, unless only the earlier one wrote a preset. */
  lemma SaveOverwrites(st1: Setting, st2: Setting, store: Store)
    requires st1.selectedPreset.Some? ==> st2.selectedPreset.Some?
    ensures Save(st2, Save(st1, store)) == Save(st2, store)
  {
    var a, b := Save(st2, Save(st1, store)), Save(st2, store);
    assert a.Keys == b.Keys;
    forall k | k in a
      ensures a[k] == b[k]
    {
    }
  }

  // ---------------------------------------------------------------------------
  // Countdown state

  /**
   * The fields `isRunning`, `isPaused`, `timeRemaining`, `startTime` and
   * `pausedTime` (seconds).
   */
  datatype Countdown = Countdown(
    isRunning: bool,
    isPaused: bool,
    timeRemaining: int,
    startTime: Option<int>,
    pausedTime: int)

  /** The countdown fields as initialised, before `init` resets the remaining time. */
  const InitialCountdown: Countdown := Countdown(false, false, 0, None, 0)

  /** Everything a `TimerManager` holds, with the store it shares. */
  datatype Manager = Manager(setting: Setting, clock: Countdown, store: Store)

  /**
   * The invariant every operation keeps: only a running countdown is paused, a
   * paused one shows the remaining time it saved, and a running one has a start
   * time.
   */
  predicate Wellformed(m: Manager) {
    && (m.clock.isPaused ==> m.clock.isRunning && m.clock.timeRemaining == m.clock.pausedTime)
    && (m.clock.isRunning ==> m.clock.startTime.Some?)
  }

  function Max(a: int, b: int): int {
    if a >= b then a else b
  }

  // ---------------------------------------------------------------------------
  // Timer control

  /**
   * `startTimer`: does nothing when already running; otherwise runs, unpaused,
   * from the full duration, with `now` as the start time.
   */
  function Start(m: Manager, now: int): (r: Manager)
    ensures m.clock.isRunning ==> r == m
    ensures !m.clock.isRunning ==>
      && r.clock.isRunning && !r.clock.isPaused
      && r.clock.startTime == Some(now) && r.clock.pausedTime == 0
      && r.clock.timeRemaining == CurrentSeconds(m.setting)
    ensures r.setting == m.setting && r.store == m.store
    ensures Wellformed(m) ==> Wellformed(r)
  {
    if m.clock.isRunning then m
    else
      m.(clock := m.clock.(isRunning := true, isPaused := false, startTime := Some(now),
                           pausedTime := 0, timeRemaining := CurrentSeconds(m.setting)))
  }

  /** `resetTimer`: shows the full duration again; nothing else changes. */
  function Reset(m: Manager): (r: Manager)
    ensures r.clock.timeRemaining == CurrentSeconds(m.setting)
    ensures r == m.(clock := r.clock)
    ensures r.clock.isRunning == m.clock.isRunning && r.clock.isPaused == m.clock.isPaused
    ensures r.clock.startTime == m.clock.startTime && r.clock.pausedTime == m.clock.pausedTime
  {
    m.(clock := m.clock.(timeRemaining := CurrentSeconds(m.setting)))
  }

  /**
   * `stopTimer`: from any state, stopped, unpaused, showing the full duration.
   * The start time and the saved pause time are left behind untouched.
   */
  function Stop(m: Manager): (r: Manager)
    ensures !r.clock.isRunning && !r.clock.isPaused
    ensures r.clock.timeRemaining == CurrentSeconds(m.setting)
    ensures r.setting == m.setting && r.store == m.store
    ensures r.clock.startTime == m.clock.startTime && r.clock.pausedTime == m.clock.pausedTime
    ensures Wellformed(r)
  {
    Reset(m.(clock := m.clock.(isRunning := false, isPaused := false)))
  }

  lemma StopIsIdempotent(m: Manager)
    ensures Stop(Stop(m)) == Stop(m)
  {
  }

  /**
   * `pauseTimer`: only a running, unpaused countdown pauses, saving its remaining
   * time; anything else is left as it is.
   */
  function Pause(m: Manager): (r: Manager)
    ensures !(m.clock.isRunning && !m.clock.isPaused) ==> r == m
    ensures m.clock.isRunning && !m.clock.isPaused ==>
      r.clock == m.clock.(isPaused := true, pausedTime := m.clock.timeRemaining)
    ensures r.setting == m.setting && r.store == m.store
    ensures Wellformed(m) ==> Wellformed(r)
  {
    if !(m.clock.isRunning && !m.clock.isPaused) then m
    else m.(clock := m.clock.(isPaused := true, pausedTime := m.clock.timeRemaining))
  }

  /**
   * `resumeTimer`: only a paused countdown resumes, showing its saved remaining
   * time, with `now` as the new start time; anything else is left as it is.
   */
  function Resume(m: Manager, now: int): (r: Manager)
    ensures !(m.clock.isRunning && m.clock.isPaused) ==> r == m
    ensures m.clock.isRunning && m.clock.isPaused ==>
      && r.clock.isRunning && !r.clock.isPaused && r.clock.startTime == Some(now)
      && r.clock.timeRemaining == m.clock.pausedTime && r.clock.pausedTime == m.clock.pausedTime
    ensures r.setting == m.setting && r.store == m.store
    ensures Wellformed(m) ==> Wellformed(r)
  {
    if !(m.clock.isRunning && m.clock.isPaused) then m
    else m.(clock := m.clock.(isPaused := false, timeRemaining := m.clock.pausedTime, startTime := Some(now)))
  }

  /** Pausing and then resuming, with no tick between, keeps the remaining time and keeps running. */
  lemma PauseThenResume(m: Manager, now: int)
    requires Wellformed(m) && m.clock.isRunning && !m.clock.isPaused
    ensures Resume(Pause(m), now).clock
         == m.clock.(startTime := Some(now), pausedTime := m.clock.timeRemaining)
  {
  }

  /** `restartTimer`: stop, then start; running, unpaused, full duration from `now`. */
  function Restart(m: Manager, now: int): (r: Manager)
    ensures r.clock == Countdown(true, false, CurrentSeconds(m.setting), Some(now), 0)
    ensures r.setting == m.setting && r.store == m.store
    ensures Wellformed(r)
  {
    Start(Stop(m), now)
  }

  /** `timerCompleted`, apart from invoking `onTimerComplete`: stops the countdown. */
  function Complete(m: Manager): (r: Manager)
    ensures !r.clock.isRunning && !r.clock.isPaused && r.clock.timeRemaining == CurrentSeconds(m.setting)
    ensures r.setting == m.setting && r.store == m.store
    ensures Wellformed(r)
  {
    Stop(m)
  }

  /**
   * `updateTimer` at time `now`, and whether it invoked `onTimerComplete`. Only a
   * running, unpaused countdown with a start time is touched. Its remaining time
   * becomes the full duration less the time since the start, floored at 0; at 0
   * it completes. The `pausedTime` alternative of the source is written out but
   * never taken: the guard has already ruled out `isPaused`.
   */
  function Tick(m: Manager, now: int): (r: (Manager, bool))
    ensures !(m.clock.isRunning && !m.clock.isPaused && m.clock.startTime.Some?) ==> r == (m, false)
    ensures r.0.setting == m.setting && r.0.store == m.store
    ensures m.clock.isRunning && !m.clock.isPaused && m.clock.startTime.Some? ==>
      var elapsed := now - m.clock.startTime.value;
      && (r.1 <==> elapsed >= CurrentSeconds(m.setting))
      && (r.1 ==> r.0 == Complete(m))
      && (!r.1 ==> r.0.clock == m.clock.(timeRemaining := CurrentSeconds(m.setting) - elapsed))
    ensures m.clock.isRunning && !m.clock.isPaused && m.clock.startTime.Some? ==>
      r.0.clock.isRunning && now >= m.clock.startTime.value ==>
      0 < r.0.clock.timeRemaining <= CurrentSeconds(m.setting)
    ensures Wellformed(m) ==> Wellformed(r.0)
  {
    if !(m.clock.isRunning && !m.clock.isPaused) then (m, false)
    else
      match m.clock.startTime
      case None => (m, false)
      case Some(start) =>
        var elapsed := now - start;
        var totalTime := if m.clock.isPaused then m.clock.pausedTime else CurrentSeconds(m.setting);
        var m1 := m.(clock := m.clock.(timeRemaining := Max(0, totalTime - elapsed)));
        if m1.clock.timeRemaining <= 0 then (Complete(m1), true) else (m1, false)
  }

  /** The dead branch: a tick never reads the saved pause time. */
  lemma TickIgnoresPausedTime(m: Manager, saved: int, now: int)
    ensures Tick(m.(clock := m.clock.(pausedTime := saved)), now).0.clock.timeRemaining
         == Tick(m, now).0.clock.timeRemaining
    ensures Tick(m.(clock := m.clock.(pausedTime := saved)), now).1 == Tick(m, now).1
  {
  }

  /** The ticks at times `times`, in order: the final state and how often `onTimerComplete` ran. */
  function TickAll(m: Manager, times: seq<int>): (Manager, nat)
    decreases |times|
  {
    if times == [] then (m, 0)
    else
      var (m1, fired) := Tick(m, times[0]);
      var (m2, count) := TickAll(m1, times[1..]);
      (m2, count + if fired then 1 else 0)
  }

  /** A countdown that is stopped or paused ignores every tick. */
  lemma {:induction false} IdleIgnoresTicks(m: Manager, times: seq<int>)
    requires !m.clock.isRunning || m.clock.isPaused
    ensures TickAll(m, times) == (m, 0)
  {
    if times != [] {
      IdleIgnoresTicks(m, times[1..]);
    }
  }

  /**
   * One countdown started at `t0` completes at most once, whatever the ticks: it
   * completes exactly when some tick comes a full duration or more after the
   * start, and then ends stopped, showing the full duration. Until then the
   * remaining time depends only on the latest tick, so a missed or late tick
   * costs nothing.
   */
  lemma {:induction false} CompletionFiresOnce(m: Manager, t0: int, times: seq<int>)
    requires m.clock.isRunning && !m.clock.isPaused && m.clock.startTime == Some(t0)
    ensures TickAll(m, times).1 <= 1
    ensures TickAll(m, times).1 == 1 <==>
      exists i :: 0 <= i < |times| && times[i] - t0 >= CurrentSeconds(m.setting)
    ensures TickAll(m, times).1 == 1 ==>
      !TickAll(m, times).0.clock.isRunning
      && TickAll(m, times).0.clock.timeRemaining == CurrentSeconds(m.setting)
    ensures TickAll(m, times).1 == 0 && times != [] ==>
      TickAll(m, times).0.clock.isRunning
      && TickAll(m, times).0.clock.timeRemaining == CurrentSeconds(m.setting) - (times[|times| - 1] - t0)
    decreases |times|
  {
    if times != [] {
      var (m1, fired) := Tick(m, times[0]);
      var rest := times[1..];
      if fired {
        IdleIgnoresTicks(m1, rest);
        assert times[0] - t0 >= CurrentSeconds(m.setting);
      } else {
        CompletionFiresOnce(m1, t0, rest);
        assert m1.setting == m.setting;
        if exists i :: 0 <= i < |times| && times[i] - t0 >= CurrentSeconds(m.setting) {
          var i :| 0 <= i < |times| && times[i] - t0 >= CurrentSeconds(m.setting);
          assert i > 0 && rest[i - 1] == times[i];
        }
        if exists j :: 0 <= j < |rest| && rest[j] - t0 >= CurrentSeconds(m.setting) {
          var j :| 0 <= j < |rest| && rest[j] - t0 >= CurrentSeconds(m.setting);
          assert times[j + 1] == rest[j];
        }
        if rest == [] {
          assert TickAll(m1, rest) == (m1, 0);
        } else {
          assert rest[|rest| - 1] == times[|times| - 1];
        }
      }
    }
  }

  // ---------------------------------------------------------------------------
  // Property observers

  /**
   * Assigning `selectedPreset` (its `didSet`): saves the settings, and restarts a
   * running countdown at the new length. A stopped countdown keeps showing the
   * old remaining time.
   */
  function AssignSelectedPreset(m: Manager, p: Option<Preset>, now: int): (r: Manager)
    ensures r.setting == m.setting.(selectedPreset := p)
    ensures r.store == Save(r.setting, m.store)
    ensures m.clock.isRunning ==> r.clock == Countdown(true, false, CurrentSeconds(r.setting), Some(now), 0)
    ensures !m.clock.isRunning ==> r.clock == m.clock
    ensures Wellformed(m) ==> Wellformed(r)
  {
    var m1 := m.(setting := m.setting.(selectedPreset := p));
    var m2 := m1.(store := Save(m1.setting, m1.store));
    if m2.clock.isRunning then Restart(m2, now) else m2
  }

  /** Assigning `isCustomMode`: the same rule as for `selectedPreset`. */
  function AssignCustomMode(m: Manager, custom: bool, now: int): (r: Manager)
    ensures r.setting == m.setting.(isCustomMode := custom)
    ensures r.store == Save(r.setting, m.store)
    ensures m.clock.isRunning ==> r.clock == Countdown(true, false, CurrentSeconds(r.setting), Some(now), 0)
    ensures !m.clock.isRunning ==> r.clock == m.clock
    ensures Wellformed(m) ==> Wellformed(r)
  {
    var m1 := m.(setting := m.setting.(isCustomMode := custom));
    var m2 := m1.(store := Save(m1.setting, m1.store));
    if m2.clock.isRunning then Restart(m2, now) else m2
  }

  /**
   * Assigning `customMinutes`: saves the settings, and restarts only a countdown
   * that is running in custom mode; in preset mode the countdown is untouched.
   */
  function AssignCustomMinutes(m: Manager, minutes: int, now: int): (r: Manager)
    ensures r.setting == m.setting.(customMinutes := minutes)
    ensures r.store == Save(r.setting, m.store)
    ensures m.clock.isRunning && m.setting.isCustomMode ==>
      r.clock == Countdown(true, false, minutes * 60, Some(now), 0)
    ensures !(m.clock.isRunning && m.setting.isCustomMode) ==> r.clock == m.clock
    ensures Wellformed(m) ==> Wellformed(r)
  {
    var m1 := m.(setting := m.setting.(customMinutes := minutes));
    var m2 := m1.(store := Save(m1.setting, m1.store));
    if m2.clock.isRunning && m2.setting.isCustomMode then Restart(m2, now) else m2
  }

  // ---------------------------------------------------------------------------
  // Loading the settings

  /**
   * `loadSettings`, as written: it assigns `isCustomMode` first, and that
   * assignment's observer saves the in-memory custom count and preset over the
   * stored ones before they are read back. So only the mode flag is restored;
   * the custom count and a present preset keep their in-memory values.
   */
  function Load(m: Manager, now: int): (r: Manager)
    ensures r.setting.isCustomMode == StoredBool(m.store, KeyCustomMode)
    ensures r.setting.customMinutes == m.setting.customMinutes
    ensures m.setting.selectedPreset.Some? ==> r.setting.selectedPreset == m.setting.selectedPreset
    ensures r.store == Save(r.setting, m.store)
    ensures !m.clock.isRunning ==> r.clock == m.clock
    ensures Wellformed(m) ==> Wellformed(r)
  {
    var m1 := AssignCustomMode(m, StoredBool(m.store, KeyCustomMode), now);
    var savedCustom := StoredInt(m1.store, KeyCustomMinutes);
    assert savedCustom == m.setting.customMinutes;
    var m2 := if savedCustom > 0 then AssignCustomMinutes(m1, savedCustom, now) else m1;
    assert m2.setting == m1.setting;
    SaveOverwrites(m1.setting, m2.setting, m.store);
    assert m2.store == Save(m2.setting, m.store);
    var savedValue := StoredInt(m2.store, KeyPreset);
    match PresetFromRaw(savedValue)
    case Some(p) =>
      SaveOverwrites(m2.setting, m2.setting.(selectedPreset := Some(p)), m.store);
      AssignSelectedPreset(m2, Some(p), now)
    case None => m2
  }

  /** The state `init()` leaves: the initial values, then `loadSettings`, then `resetTimer`. */
  function Init(store: Store, now: int): (r: Manager)
    ensures r.setting == DefaultSetting.(isCustomMode := StoredBool(store, KeyCustomMode))
    ensures r.clock == InitialCountdown.(timeRemaining := CurrentSeconds(r.setting))
    ensures r.store == Save(r.setting, store)
    ensures Wellformed(r)
  {
    Reset(Load(Manager(DefaultSetting, InitialCountdown, store), now))
  }

  /** On first run, with nothing stored, the 20-minute preset is active and custom mode is off. */
  lemma FirstRunDefaults(now: int)
    ensures Init(map[], now).setting.selectedPreset == Some(Twenty)
    ensures !Init(map[], now).setting.isCustomMode
    ensures Init(map[], now).clock.timeRemaining == 1200 && !Init(map[], now).clock.isRunning
  {
  }

  /**
   * The discrepancy: settings saved with a 10-minute custom count and the
   * 40-minute preset come back, at the next launch, as 25 minutes and 20.
   */
  lemma LoadDiscardsSavedDurations(now: int)
    ensures var saved := Setting(true, 10, Some(Forty));
            Init(Save(saved, map[]), now).setting == Setting(true, 25, Some(Twenty)) != saved
  {
  }

  /**
   * `loadSettings` as evidently intended: every key is read from the store as it
   * was before the first assignment's observer writes to it. A stored positive
   * custom count and a stored preset minute count replace the in-memory ones.
   */
  function LoadReadFirst(m: Manager, now: int): (r: Manager)
    ensures r.setting.isCustomMode == StoredBool(m.store, KeyCustomMode)
    ensures StoredInt(m.store, KeyCustomMinutes) > 0 ==> r.setting.customMinutes == StoredInt(m.store, KeyCustomMinutes)
    ensures StoredInt(m.store, KeyCustomMinutes) <= 0 ==> r.setting.customMinutes == m.setting.customMinutes
    ensures PresetFromRaw(StoredInt(m.store, KeyPreset)).Some? ==> r.setting.selectedPreset == PresetFromRaw(StoredInt(m.store, KeyPreset))
    ensures PresetFromRaw(StoredInt(m.store, KeyPreset)).None? ==> r.setting.selectedPreset == m.setting.selectedPreset
    ensures !m.clock.isRunning ==> r.clock == m.clock
    ensures Wellformed(m) ==> Wellformed(r)
  {
    var customMode := StoredBool(m.store, KeyCustomMode);
    var savedCustom := StoredInt(m.store, KeyCustomMinutes);
    var savedValue := StoredInt(m.store, KeyPreset);
    var m1 := AssignCustomMode(m, customMode, now);
    var m2 := if savedCustom > 0 then AssignCustomMinutes(m1, savedCustom, now) else m1;
    match PresetFromRaw(savedValue)
    case Some(p) => AssignSelectedPreset(m2, Some(p), now)
    case None => m2
  }

  /** `init()` with the corrected load: stopped, showing the full duration of the loaded setting. */
  function InitReadFirst(store: Store, now: int): (r: Manager)
    ensures r.setting.isCustomMode == StoredBool(store, KeyCustomMode)
    ensures r.setting.customMinutes
         == if StoredInt(store, KeyCustomMinutes) > 0 then StoredInt(store, KeyCustomMinutes) else 25
    ensures r.setting.selectedPreset
         == if PresetFromRaw(StoredInt(store, KeyPreset)).Some? then PresetFromRaw(StoredInt(store, KeyPreset)) else Some(Twenty)
    ensures r.clock == InitialCountdown.(timeRemaining := CurrentSeconds(r.setting))
    ensures Wellformed(r)
  {
    Reset(LoadReadFirst(Manager(DefaultSetting, InitialCountdown, store), now))
  }

  /**
   * With the corrected load, whatever setting the app saved (a positive custom
   * count and a preset, as every path that assigns them ensures) is the setting
   * the next launch starts with, whatever else the store holds.
   */
  lemma SaveThenRelaunchRestores(st: Setting, store: Store, now: int)
    requires st.customMinutes > 0 && st.selectedPreset.Some?
    ensures InitReadFirst(Save(st, store), now).setting == st
    ensures !InitReadFirst(Save(st, store), now).clock.isRunning
    ensures InitReadFirst(Save(st, store), now).clock.timeRemaining == CurrentSeconds(st)
  {
    PresetRawRoundTrip(st.selectedPreset.value);
  }

  // ---------------------------------------------------------------------------
  // Pause and resume: the tick as written and as intended

  /**
   * The discrepancy: a 5-minute countdown started at 0, ticked at 60 (240 s
   * left), paused, and resumed at 500 shows 299 s at the tick at 501: the
   * countdown has started over instead of going on from 240 s.
   */
  lemma ResumeStartsOver()
    ensures var m := Start(Manager(Setting(true, 5, Some(Twenty)), InitialCountdown, map[]), 0);
            var paused := Pause(Tick(m, 60).0);
            && paused.clock.timeRemaining == 240
            && Tick(Resume(paused, 500), 501).0.clock.timeRemaining == 299
  {
  }

  /**
   * As written, whatever was left at the pause, the first tick after a resume at
   * `resumedAt` counts down from the full duration.
   */
  lemma ResumeCountsFromFullDuration(m: Manager, resumedAt: int, now: int)
    requires Wellformed(m) && m.clock.isRunning && !m.clock.isPaused
    requires now - resumedAt < CurrentSeconds(m.setting)
    ensures Tick(Resume(Pause(m), resumedAt), now).0.clock.timeRemaining
         == CurrentSeconds(m.setting) - (now - resumedAt)
  {
  }

  /**
   * `updateTimer` as evidently intended: after a resume the countdown goes on
   * from the remaining time saved at the pause. A start clears `pausedTime` and
   * a pause sets it to the (positive) remaining time, so a positive value marks
   * a countdown that was resumed.
   */
  function TickResumable(m: Manager, now: int): (r: (Manager, bool))
    ensures !(m.clock.isRunning && !m.clock.isPaused && m.clock.startTime.Some?) ==> r == (m, false)
    ensures r.0.setting == m.setting && r.0.store == m.store
    ensures m.clock.isRunning && !m.clock.isPaused && m.clock.startTime.Some? ==>
      var total := if m.clock.pausedTime > 0 then m.clock.pausedTime else CurrentSeconds(m.setting);
      var elapsed := now - m.clock.startTime.value;
      && (r.1 <==> elapsed >= total)
      && (r.1 ==> r.0 == Complete(m))
      && (!r.1 ==> r.0.clock == m.clock.(timeRemaining := total - elapsed))
    ensures Wellformed(m) ==> Wellformed(r.0)
  {
    if !(m.clock.isRunning && !m.clock.isPaused) then (m, false)
    else
      match m.clock.startTime
      case None => (m, false)
      case Some(start) =>
        var elapsed := now - start;
        var totalTime := if m.clock.pausedTime > 0 then m.clock.pausedTime else CurrentSeconds(m.setting);
        var m1 := m.(clock := m.clock.(timeRemaining := Max(0, totalTime - elapsed)));
        if m1.clock.timeRemaining <= 0 then (Complete(m1), true) else (m1, false)
  }

  /** A countdown that was never paused ticks with the intended tick as it does now. */
  lemma TickResumableAgreesUnpaused(m: Manager, now: int)
    requires m.clock.pausedTime == 0
    ensures TickResumable(m, now) == Tick(m, now)
  {
  }

  /**
   * With the intended tick, the time spent paused does not count: after a resume
   * at `resumedAt` the countdown shows what was left at the pause, less the time
   * since the resume, and completes only when that runs out.
   */
  lemma ResumableContinuesFromPause(m: Manager, resumedAt: int, now: int)
    requires Wellformed(m) && m.clock.isRunning && !m.clock.isPaused
    requires m.clock.timeRemaining > 0
    ensures var left := m.clock.timeRemaining;
            var r := TickResumable(Resume(Pause(m), resumedAt), now);
            && (r.1 <==> now - resumedAt >= left)
            && (!r.1 ==> r.0.clock.isRunning && r.0.clock.timeRemaining == left - (now - resumedAt))
  {
  }

  /** The same scenario as `ResumeStartsOver`, with the intended tick: 239 s are left. */
  lemma ResumableScenario()
    ensures var m := Start(Manager(Setting(true, 5, Some(Twenty)), InitialCountdown, map[]), 0);
            var paused := Pause(TickResumable(m, 60).0);
            && paused.clock.timeRemaining == 240
            && TickResumable(Resume(paused, 500), 501).0.clock.timeRemaining == 239
  {
  }

  // ---------------------------------------------------------------------------
  // Derived views

  /** `formattedTimeRemaining`: `mm:ss` of the whole seconds remaining. */
  function FormattedTimeRemaining(m: Manager): string {
    Decimal.ClockText(m.clock.timeRemaining)
  }

  /**
   * Below 100 minutes the display is `mm:ss`, and `Int(_)` reads its two fields
   * back as the whole minutes and the seconds (below 60) of the remaining time.
   */
  lemma FormattedTimeReadsBack(m: Manager)
    requires 0 <= m.clock.timeRemaining < 6000
    ensures var s := FormattedTimeRemaining(m);
            && |s| == 5 && s[2] == ':'
            && Decimal.ParseInt(s[..2]).Some? && Decimal.ParseInt(s[3..]).Some?
            && Decimal.ParseInt(s[3..]).value < 60
            && Decimal.ParseInt(s[..2]).value * 60 + Decimal.ParseInt(s[3..]).value == m.clock.timeRemaining
  {
    var s := FormattedTimeRemaining(m);
    assert s[..|s| - 3] == s[..2] && s[|s| - 2..] == s[3..];
  }

  /** A fraction `num / den` with a positive denominator, standing for a `Double`. */
  datatype Ratio = Ratio(num: int, den: int)

  /**
   * `progress`: the share of the duration already used, `(total - remaining) /
   * total`, and 0 when the duration is not positive. It lies in [0, 1] whenever
   * the remaining time does not exceed the duration; it is 0 at the full
   * duration and 1 at nothing left.
   */
  function Progress(m: Manager): (r: Ratio)
    ensures r.den > 0
    ensures CurrentSeconds(m.setting) > 0 ==>
      r.num * CurrentSeconds(m.setting) == (CurrentSeconds(m.setting) - m.clock.timeRemaining) * r.den
    ensures CurrentSeconds(m.setting) <= 0 ==> r.num == 0
    ensures 0 <= m.clock.timeRemaining <= CurrentSeconds(m.setting) ==> 0 <= r.num <= r.den
    ensures m.clock.timeRemaining == CurrentSeconds(m.setting) ==> r.num == 0
    ensures m.clock.timeRemaining == 0 && CurrentSeconds(m.setting) > 0 ==> r.num == r.den
  {
    var total := CurrentSeconds(m.setting);
    if total > 0 then Ratio(total - m.clock.timeRemaining, total) else Ratio(0, 1)
  }

  /** Right after a start the display reads the full duration and no progress. */
  lemma StartShowsFullDuration(m: Manager, now: int)
    requires !m.clock.isRunning
    ensures Progress(Start(m, now)).num == 0
    ensures FormattedTimeRemaining(Start(m, now)) == Decimal.ClockText(CurrentSeconds(m.setting))
  {
  }
}
