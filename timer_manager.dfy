/**
 * `TimerManager` as an object whose methods update its fields in place, in the
 * order the source does, each proved to leave the state that the matching
 * function of module Timer describes. `UserDefaults.standard` is the field
 * `defaults`; the repeating Foundation timer is the environment calling
 * `UpdateTimer` with the current time. The computed properties
 * `currentMinutes`, `formattedTimeRemaining` and `progress` are the functions
 * of module Timer applied to `Model()`.
 */
module TimerObject {
  import opened Optional
  import opened Timer

  class TimerManager {
    var selectedPreset: Option<Preset>
    var isCustomMode: bool
    var customMinutes: int
    var timeRemaining: int
    var isRunning: bool
    var isPaused: bool
    var startTime: Option<int>
    var pausedTime: int
    var defaults: Store

    /** The whole state as a value of the specification. */
    function Model(): Manager
      reads this
    {
      Manager(Setting(isCustomMode, customMinutes, selectedPreset),
              Countdown(isRunning, isPaused, timeRemaining, startTime, pausedTime),
              defaults)
    }

    predicate Valid()
      reads this
    {
      Wellformed(Model())
    }

    function CurrentSeconds(): int
      reads this
    {
      Timer.CurrentSeconds(Model().setting)
    }

    /**
     * `init()`: the property initialisers, then `loadSettings`, then `resetTimer`.
     * `now` is the time an observer would read to restart a running countdown;
     * nothing is running yet, so it has no effect on the result.
     */
    constructor (defaults: Store, now: int)
      ensures Valid()
      ensures Model() == Init(defaults, now)
    {
      selectedPreset := Some(Twenty);
      isCustomMode := false;
      customMinutes := 25;
      timeRemaining := 0;
      isRunning := false;
      isPaused := false;
      startTime := None;
      pausedTime := 0;
      this.defaults := defaults;
      new;
      LoadSettings(now);
      ResetTimer();
    }

    // Timer control

    method StartTimer(now: int)
      requires Valid()
      modifies this
      ensures Valid()
      ensures Model() == Start(old(Model()), now)
    {
      if isRunning {
        return;
      }
      isRunning := true;
      isPaused := false;
      startTime := Some(now);
      pausedTime := 0;
      timeRemaining := CurrentSeconds();
    }

    method StopTimer()
      modifies this
      ensures Valid()
      ensures Model() == Stop(old(Model()))
    {
      isRunning := false;
      isPaused := false;
      ResetTimer();
    }

    method PauseTimer()
      requires Valid()
      modifies this
      ensures Valid()
      ensures Model() == Pause(old(Model()))
    {
      if !(isRunning && !isPaused) {
        return;
      }
      isPaused := true;
      pausedTime := timeRemaining;
    }

    method ResumeTimer(now: int)
      requires Valid()
      modifies this
      ensures Valid()
      ensures Model() == Resume(old(Model()), now)
    {
      if !(isRunning && isPaused) {
        return;
      }
      isPaused := false;
      timeRemaining := pausedTime;
      startTime := Some(now);
    }

    method ResetTimer()
      modifies this
      ensures Model() == Reset(old(Model()))
    {
      timeRemaining := CurrentSeconds();
    }

    method RestartTimer(now: int)
      modifies this
      ensures Valid()
      ensures Model() == Restart(old(Model()), now)
    {
      StopTimer();
      StartTimer(now);
    }

    /** `updateTimer`; `completed` tells whether it invoked `onTimerComplete`. */
    method UpdateTimer(now: int) returns (completed: bool)
      requires Valid()
      modifies this
      ensures Valid()
      ensures (Model(), completed) == Tick(old(Model()), now)
    {
      completed := false;
      if !(isRunning && !isPaused) {
        return;
      }
      if startTime.Some? {
        var elapsed := now - startTime.value;
        var totalTime := if isPaused then pausedTime else CurrentSeconds();
        timeRemaining := Max(0, totalTime - elapsed);
        if timeRemaining <= 0 {
          TimerCompleted();
          completed := true;
        }
      }
    }

    /** `timerCompleted`, apart from the callback, which `UpdateTimer` reports. */
    method TimerCompleted()
      modifies this
      ensures Valid()
      ensures Model() == Complete(old(Model()))
    {
      StopTimer();
    }

    // Property observers: each assignment followed by its `didSet`

    method SetSelectedPreset(p: Option<Preset>, now: int)
      requires Valid()
      modifies this
      ensures Valid()
      ensures Model() == AssignSelectedPreset(old(Model()), p, now)
    {
      selectedPreset := p;
      SaveSettings();
      if isRunning {
        RestartTimer(now);
      }
    }

    method SetCustomMode(custom: bool, now: int)
      requires Valid()
      modifies this
      ensures Valid()
      ensures Model() == AssignCustomMode(old(Model()), custom, now)
    {
      isCustomMode := custom;
      SaveSettings();
      if isRunning {
        RestartTimer(now);
      }
    }

    method SetCustomMinutes(minutes: int, now: int)
      requires Valid()
      modifies this
      ensures Valid()
      ensures Model() == AssignCustomMinutes(old(Model()), minutes, now)
    {
      customMinutes := minutes;
      SaveSettings();
      if isRunning && isCustomMode {
        RestartTimer(now);
      }
    }

    // Persistence

    method SaveSettings()
      modifies this
      ensures Model() == old(Model()).(store := Save(old(Model()).setting, old(defaults)))
    {
      defaults := defaults[KeyCustomMode := if isCustomMode then 1 else 0];
      defaults := defaults[KeyCustomMinutes := customMinutes];
      if selectedPreset.Some? {
        defaults := defaults[KeyPreset := selectedPreset.value.RawValue()];
      }
    }

    /** `loadSettings`, with every read made at the moment the source makes it. */
    method LoadSettings(now: int)
      requires Valid()
      modifies this
      ensures Valid()
      ensures Model() == Load(old(Model()), now)
    {
      SetCustomMode(StoredBool(defaults, KeyCustomMode), now);
      var savedCustom := StoredInt(defaults, KeyCustomMinutes);
      if savedCustom > 0 {
        SetCustomMinutes(savedCustom, now);
      }
      var savedValue := StoredInt(defaults, KeyPreset);
      var preset := PresetFromRaw(savedValue);
      if preset.Some? {
        SetSelectedPreset(preset, now);
      }
    }
  }
}
