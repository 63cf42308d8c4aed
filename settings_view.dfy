/**
 * The settings popover's controller layer: what its buttons and its text field
 * do to the `TimerManager`, and the labels it derives from the timer's flags.
 * Layout, colours, hovering and the quit button are not part of this model.
 */
module Settings {
  import opened Optional
  import opened Timer
  import Decimal
  import opened TimerObject

  // ---------------------------------------------------------------------------
  // Labels derived from the flags

  /** What the Start/Pause/Resume button does, by the flags the action tests. */
  datatype PrimaryAction = StartAction | PauseAction | ResumeAction

  function PrimaryDispatch(isRunning: bool, isPaused: bool): (a: PrimaryAction)
    ensures a == StartAction <==> !isRunning
    ensures a == PauseAction <==> isRunning && !isPaused
    ensures a == ResumeAction <==> isRunning && isPaused
  {
    if isRunning then (if isPaused then ResumeAction else PauseAction) else StartAction
  }

  function ActionTitle(a: PrimaryAction): string {
    match a
    case StartAction => "Start"
    case PauseAction => "Pause"
    case ResumeAction => "Resume"
  }

  /** The status caption under the time: one word per case of the button's dispatch. */
  function StatusLabel(isRunning: bool, isPaused: bool): (caption: string)
    ensures caption == "Stopped" <==> PrimaryDispatch(isRunning, isPaused) == StartAction
    ensures caption == "Running" <==> PrimaryDispatch(isRunning, isPaused) == PauseAction
    ensures caption == "Paused" <==> PrimaryDispatch(isRunning, isPaused) == ResumeAction
  {
    if isRunning then (if isPaused then "Paused" else "Running") else "Stopped"
  }

  /** The primary button's title names the action a click performs. */
  function PrimaryTitle(isRunning: bool, isPaused: bool): (title: string)
    ensures title == ActionTitle(PrimaryDispatch(isRunning, isPaused))
  {
    if isRunning then (if isPaused then "Resume" else "Pause") else "Start"
  }

  /** The primary button's symbol: a pause sign exactly when a click pauses. */
  function PrimaryIcon(isRunning: bool, isPaused: bool): (icon: string)
    ensures icon == "pause.fill" <==> PrimaryDispatch(isRunning, isPaused) == PauseAction
    ensures icon != "pause.fill" ==> icon == "play.fill"
  {
    if isRunning then (if isPaused then "play.fill" else "pause.fill") else "play.fill"
  }

  /** The Stop button is enabled exactly when the primary button does not offer Start. */
  function StopEnabled(isRunning: bool): (enabled: bool)
    ensures forall paused: bool :: enabled <==> PrimaryDispatch(isRunning, paused) != StartAction
  {
    isRunning
  }

  /**
   * A preset button is highlighted when not in custom mode and it is the selected
   * preset; the highlighted preset is then the length the timer counts down.
   */
  function PresetIsSelected(st: Setting, p: Preset): (selected: bool)
    ensures selected ==> !st.isCustomMode && st.selectedPreset == Some(p) && CurrentSeconds(st) == p.Seconds()
    ensures !st.isCustomMode && st.selectedPreset == Some(p) ==> selected
    ensures st.isCustomMode ==> !selected
  {
    !st.isCustomMode && st.selectedPreset == Some(p)
  }

  /**
   * Of the buttons drawn for `TimerPreset.allCases`, at most one is highlighted,
   * and one is exactly when a preset is selected outside custom mode.
   */
  lemma AtMostOnePresetSelected(st: Setting)
    ensures forall i, j :: 0 <= i < j < |AllPresets| ==>
      !(PresetIsSelected(st, AllPresets[i]) && PresetIsSelected(st, AllPresets[j]))
    ensures (exists i :: 0 <= i < |AllPresets| && PresetIsSelected(st, AllPresets[i]))
        <==> !st.isCustomMode && st.selectedPreset.Some?
  {
    if !st.isCustomMode && st.selectedPreset.Some? {
      var p := st.selectedPreset.value;
      var i := if p == Twenty then 0 else if p == Forty then 1 else 2;
      assert AllPresets[i] == p && PresetIsSelected(st, AllPresets[i]);
    }
  }

  // ---------------------------------------------------------------------------
  // The custom-minutes text field

  /**
   * The field's change filter: the text counts only when `Int(_)` reads it as a
   * number from 1 to 999; anything else is ignored.
   */
  function AcceptCustomInput(text: string): (minutes: Option<int>)
    ensures minutes.Some? ==> 1 <= minutes.value <= 999 && Decimal.ParseInt(text) == minutes
    ensures minutes.None? ==> Decimal.ParseInt(text).None? || !(1 <= Decimal.ParseInt(text).value <= 999)
  {
    match Decimal.ParseInt(text)
    case Some(n) => if n > 0 && n <= 999 then Some(n) else None
    case None => None
  }

  /** The text the Custom button writes into the field is accepted as the same count. */
  lemma CustomTextRoundTrip(minutes: int)
    requires 1 <= minutes <= 999
    ensures AcceptCustomInput(Decimal.Describe(minutes)) == Some(minutes)
  {
    Decimal.DescribeParses(minutes);
  }

  // ---------------------------------------------------------------------------
  // The controller actions, as values

  /** The timer together with the text field's contents. */
  datatype Panel = Panel(manager: Manager, customInputText: string)

  /**
   * A preset button: custom mode off, then the preset selected, each assignment
   * with its observer. A running countdown restarts at the preset's length; a
   * stopped one is left showing what it showed.
   */
  function SelectPreset(m: Manager, p: Preset, now: int): (r: Manager)
    ensures r.setting == m.setting.(isCustomMode := false, selectedPreset := Some(p))
    ensures PresetIsSelected(r.setting, p) && CurrentSeconds(r.setting) == p.Seconds()
    ensures r.store == Save(r.setting, m.store)
    ensures m.clock.isRunning ==> r.clock == Countdown(true, false, p.Seconds(), Some(now), 0)
    ensures !m.clock.isRunning ==> r.clock == m.clock
    ensures Wellformed(m) ==> Wellformed(r)
  {
    var m1 := AssignCustomMode(m, false, now);
    SaveOverwrites(m1.setting, m1.setting.(selectedPreset := Some(p)), m.store);
    AssignSelectedPreset(m1, Some(p), now)
  }

  /**
   * The Custom button: custom mode on (with its observer), then the field shows
   * the custom count, as text `Int(_)` reads back as that count.
   */
  function SelectCustom(v: Panel, now: int): (r: Panel)
    ensures r.manager.setting == v.manager.setting.(isCustomMode := true)
    ensures forall q: Preset :: !PresetIsSelected(r.manager.setting, q)
    ensures r.manager.store == Save(r.manager.setting, v.manager.store)
    ensures v.manager.clock.isRunning ==>
      r.manager.clock == Countdown(true, false, v.manager.setting.customMinutes * 60, Some(now), 0)
    ensures !v.manager.clock.isRunning ==> r.manager.clock == v.manager.clock
    ensures r.customInputText == Decimal.Describe(v.manager.setting.customMinutes)
    ensures Decimal.IntMin <= v.manager.setting.customMinutes <= Decimal.IntMax ==>
      Decimal.ParseInt(r.customInputText) == Some(v.manager.setting.customMinutes)
    ensures Wellformed(v.manager) ==> Wellformed(r.manager)
  {
    var m := AssignCustomMode(v.manager, true, now);
    var text := Decimal.Describe(m.setting.customMinutes);
    if Decimal.IntMin <= m.setting.customMinutes <= Decimal.IntMax then
      Decimal.DescribeParses(m.setting.customMinutes);
      Panel(m, text)
    else
      Panel(m, text)
  }

  /**
   * A change of the field's text: the field holds the new text, and the custom
   * count (with its observer) changes only when the filter accepts the text.
   */
  function EditCustomText(v: Panel, text: string, now: int): (r: Panel)
    ensures r.customInputText == text
    ensures AcceptCustomInput(text).None? ==> r.manager == v.manager
    ensures AcceptCustomInput(text).Some? ==>
      && r.manager.setting == v.manager.setting.(customMinutes := AcceptCustomInput(text).value)
      && r.manager.store == Save(r.manager.setting, v.manager.store)
    ensures v.manager.clock.isRunning && v.manager.setting.isCustomMode && AcceptCustomInput(text).Some? ==>
      r.manager.clock == Countdown(true, false, AcceptCustomInput(text).value * 60, Some(now), 0)
    ensures !(v.manager.clock.isRunning && v.manager.setting.isCustomMode) ==> r.manager.clock == v.manager.clock
    ensures Wellformed(v.manager) ==> Wellformed(r.manager)
  {
    match AcceptCustomInput(text)
    case Some(minutes) => Panel(AssignCustomMinutes(v.manager, minutes, now), text)
    case None => Panel(v.manager, text)
  }

  /**
   * The Start/Pause/Resume button: start when stopped, pause when running,
   * resume when paused. The status caption moves Stopped to Running, Running
   * to Paused, and Paused to Running.
   */
  function PressPrimary(m: Manager, now: int): (r: Manager)
    requires Wellformed(m)
    ensures PrimaryDispatch(m.clock.isRunning, m.clock.isPaused) == StartAction ==>
      r == Start(m, now) && StatusLabel(r.clock.isRunning, r.clock.isPaused) == "Running"
    ensures PrimaryDispatch(m.clock.isRunning, m.clock.isPaused) == PauseAction ==>
      r == Pause(m) && StatusLabel(r.clock.isRunning, r.clock.isPaused) == "Paused"
    ensures PrimaryDispatch(m.clock.isRunning, m.clock.isPaused) == ResumeAction ==>
      r == Resume(m, now) && StatusLabel(r.clock.isRunning, r.clock.isPaused) == "Running"
    ensures r.clock.timeRemaining == m.clock.timeRemaining || !m.clock.isRunning
    ensures Wellformed(r)
  {
    if m.clock.isRunning then
      if m.clock.isPaused then Resume(m, now) else Pause(m)
    else
      Start(m, now)
  }

  /** The Stop button: whatever the state, the caption then reads Stopped and the title Start. */
  function PressStop(m: Manager): (r: Manager)
    ensures r == Stop(m)
    ensures StatusLabel(r.clock.isRunning, r.clock.isPaused) == "Stopped"
    ensures PrimaryTitle(r.clock.isRunning, r.clock.isPaused) == "Start"
    ensures !StopEnabled(r.clock.isRunning)
    ensures r.clock.timeRemaining == CurrentSeconds(m.setting)
  {
    Stop(m)
  }

  /**
   * A stopped timer that showed 50:00 keeps showing it after the 20-minute preset
   * is chosen: choosing a length does not refresh a stopped display, and the
   * progress ratio is then -1.5, outside [0, 1].
   */
  lemma StoppedSelectionKeepsStaleDisplay(store: Store, now: int)
    ensures var m := Manager(Setting(false, 25, Some(Fifty)), InitialCountdown.(timeRemaining := 3000), store);
            var r := SelectPreset(m, Twenty, now);
            && Timer.FormattedTimeRemaining(r) == Timer.FormattedTimeRemaining(m)
            && Timer.Progress(r) == Ratio(-1800, 1200)
  {
  }

  // ---------------------------------------------------------------------------
  // The view object

  class SettingsView {
    const timerManager: TimerManager
    var customInputText: string

    /** The timer's state and the field's text, as a value. */
    function Shown(): Panel
      reads this, timerManager
    {
      Panel(timerManager.Model(), customInputText)
    }

    constructor (timerManager: TimerManager)
      ensures this.timerManager == timerManager && customInputText == ""
    {
      this.timerManager := timerManager;
      customInputText := "";
    }

    /** `onAppear`: the field shows the current custom count. */
    method OnAppear()
      modifies this
      ensures customInputText == Decimal.Describe(timerManager.customMinutes)
    {
      customInputText := Decimal.Describe(timerManager.customMinutes);
    }

    method PresetTapped(p: Preset, now: int)
      requires timerManager.Valid()
      modifies timerManager
      ensures timerManager.Valid()
      ensures timerManager.Model() == SelectPreset(old(timerManager.Model()), p, now)
    {
      timerManager.SetCustomMode(false, now);
      timerManager.SetSelectedPreset(Some(p), now);
    }

    method CustomTapped(now: int)
      requires timerManager.Valid()
      modifies this, timerManager
      ensures timerManager.Valid()
      ensures Shown() == SelectCustom(old(Shown()), now)
    {
      timerManager.SetCustomMode(true, now);
      customInputText := Decimal.Describe(timerManager.customMinutes);
    }

    /** The field's text becomes `newValue`, then its change handler runs. */
    method CustomTextChanged(newValue: string, now: int)
      requires timerManager.Valid()
      modifies this, timerManager
      ensures timerManager.Valid()
      ensures Shown() == EditCustomText(old(Shown()), newValue, now)
    {
      customInputText := newValue;
      var parsed := Decimal.ParseInt(newValue);
      if parsed.Some? && parsed.value > 0 && parsed.value <= 999 {
        timerManager.SetCustomMinutes(parsed.value, now);
      }
    }

    method PrimaryTapped(now: int)
      requires timerManager.Valid()
      modifies timerManager
      ensures timerManager.Valid()
      ensures timerManager.Model() == PressPrimary(old(timerManager.Model()), now)
    {
      if timerManager.isRunning {
        if timerManager.isPaused {
          timerManager.ResumeTimer(now);
        } else {
          timerManager.PauseTimer();
        }
      } else {
        timerManager.StartTimer(now);
      }
    }

    method StopTapped()
      modifies timerManager
      ensures timerManager.Valid()
      ensures timerManager.Model() == PressStop(old(timerManager.Model()))
    {
      timerManager.StopTimer();
    }
  }
}
