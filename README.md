# Stretch Reminder: the countdown controller, verified

StretchReminder is a macOS menu-bar app. It counts down a chosen break interval of 20, 40 or 50 minutes, or a custom number of minutes. When the countdown ends, it covers the screen with a break reminder. This project models the app's one piece of logic: `TimerManager`, the countdown state machine, together with the settings popover's controller layer that drives it. The model is written in Dafny, and the properties the code promises are proved about it.

- `optional.dfy` (module `Optional`) — Swift's `Optional`.
- `decimal.dfy` (module `Decimal`) — the decimal text the app reads and writes: `"\(n)"`, `Int(String)`, `%02d`, and Swift's truncating `/` and `%`.
- `timer.dfy` (module `Timer`) — the timer as values. It holds the duration setting, the countdown fields, the settings store, and one function per operation that gives the state the operation leaves. It also holds the lemmas relating those operations.
- `timer_manager.dfy` (module `TimerObject`) — `class TimerManager`. Its fields are the source's properties. Its methods update them in place, in the order the source does, and each method is proved to leave exactly the state its `Timer` function describes. The computed properties `currentMinutes`, `currentSeconds`, `formattedTimeRemaining` and `progress` are the `Timer` functions of the same names applied to the object's state.
- `settings_view.dfy` (module `Settings`) — the popover's button actions, the custom-minutes filter, and the labels derived from the flags. These are given as functions and as `class SettingsView`, whose methods call the `TimerManager` methods.
- `reminder.dfy` (module `Reminder`) — the application delegate's loop: a completed countdown shows the overlay, and dismissing the overlay starts the timer again.

How the environment is modelled:
- Wall-clock time (`Date()`) is a parameter `now` in whole seconds.
- The repeating Foundation timer is the environment calling `Tick` / `UpdateTimer` with the current time.
- `UserDefaults.standard` is a `map<string, int>`. A missing key reads as 0 or false, and a flag is stored as 1 or 0.
- The `onTimerComplete` callback is the `completed` result of a tick.
- The custom-minutes field exists only in custom mode (SettingsView.swift:94-107), so the environment delivers its text-change event (`Settings.EditCustomText`, `Settings.SettingsView.CustomTextChanged`) only while `isCustomMode` holds; the model itself accepts the event in either mode.

In three places the model records behaviour a user may not expect:
- Choosing a new duration while stopped does not refresh the displayed remaining time. The progress ratio can then fall outside [0, 1] (`Settings.StoppedSelectionKeepsStaleDisplay`).
- A resumed countdown does not go on from the time left at the pause (first finding below).
- The saved custom count and preset are not restored at launch (second finding below).

The classes follow the code as written, so they describe the shipped behaviour. The corrected definitions stand beside them in module `Timer`, with their intended properties proved.

## Model

| member | source | states |
|---|---|---|
| Decimal.NatToDigits | Sources/StretchReminder/Views/SettingsView.swift:72 | the digits of a non-negative count: at least one ASCII digit, a single digit exactly below 10, and no leading zero |
| Decimal.NatToDigitsDenotes | Sources/StretchReminder/Views/SettingsView.swift:72 | the digits written for `n` denote `n` |
| Decimal.Describe | Sources/StretchReminder/Views/SettingsView.swift:72 | `"\(n)"`: a minus sign for a negative value, then digits denoting the magnitude in shortest form (no `+`, no leading zero) |
| Decimal.ParseInt | Sources/StretchReminder/Views/SettingsView.swift:104 | `Int(text)`: a result fits in 64 bits and comes only from an optional `+` or `-` followed by one or more ASCII digits and nothing else, with the signed value of those digits; every such text within range is read |
| Decimal.ParseIntCases | Sources/StretchReminder/Views/SettingsView.swift:104 | `"-5"` and `"+7"` read as -5 and 7, leading zeros are allowed; `"5a"`, `" 5"`, the empty text, a bare sign and a doubled sign are rejected |
| Decimal.DescribeParses | Sources/StretchReminder/Views/SettingsView.swift:104 | `Int(_)` reads back exactly what interpolation writes, for every 64-bit `Int` |
| Decimal.PadTwo | Sources/StretchReminder/Models/TimerManager.swift:176 | `%02d`: a non-negative value gets digits denoting it, exactly two below 100, and no leading zero from 10 up |
| Decimal.TruncDivRem | Sources/StretchReminder/Models/TimerManager.swift:174-175 | Swift's truncating `/` and `%`: `a == b*q + r`, remainder below `b` in magnitude with the sign of `a` |
| Decimal.ClockText | Sources/StretchReminder/Models/TimerManager.swift:173-177 | `mm:ss` of a non-negative `t`: a colon, exactly two seconds digits below 60, minutes*60 + seconds == `t`; five characters below 100 minutes, no leading zero above |
| Timer.Preset.RawValue | Sources/StretchReminder/Models/TimerManager.swift:4-7 | a preset's minute count is 20, 40 or 50 |
| Timer.Preset.Seconds | Sources/StretchReminder/Models/TimerManager.swift:13-15 | a preset's length is 1200, 2400 or 3000 s, whole minutes that convert back to that preset |
| Timer.Preset.DisplayName | Sources/StretchReminder/Models/TimerManager.swift:9-11 | the name is the minute count in shortest decimal form (no leading zero), which `Int(_)` reads back, followed by `m` |
| Timer.PresetFromRaw | Sources/StretchReminder/Models/TimerManager.swift:166 | `TimerPreset(rawValue:)` gives a preset exactly for 20, 40 and 50, and that preset has that count |
| Timer.PresetRawRoundTrip | Sources/StretchReminder/Models/TimerManager.swift:4-7 | a preset's raw value converts back to the same preset |
| Timer.CurrentMinutes | Sources/StretchReminder/Models/TimerManager.swift:58-60 | custom count in custom mode; otherwise a count that `TimerPreset(rawValue:)` converts back to the selected preset, and 20 when none is selected |
| Timer.CurrentSeconds | Sources/StretchReminder/Models/TimerManager.swift:63-65 | custom count * 60 in custom mode, otherwise the selected preset's `seconds` (1200 without a preset); positive whenever the custom count is |
| Timer.Save | Sources/StretchReminder/Models/TimerManager.swift:151-157 | always writes the mode flag and custom count, writes the preset key only when a preset is set, and leaves every other key alone; each written value reads back through `StoredInt`/`StoredBool` (`integer(forKey:)`/`bool(forKey:)`, 0 and false for a missing key) |
| Timer.SaveOverwrites | Sources/StretchReminder/Models/TimerManager.swift:151-157 | a second save supersedes the first unless only the first wrote a preset |
| Timer.Start | Sources/StretchReminder/Models/TimerManager.swift:74-90 | no-op when running; otherwise running, unpaused, `pausedTime` 0, start time `now`, remaining the full duration; keeps the invariant |
| Timer.Reset | Sources/StretchReminder/Models/TimerManager.swift:121-123 | remaining becomes the full duration and nothing else changes |
| Timer.Stop | Sources/StretchReminder/Models/TimerManager.swift:92-98 | from any state: stopped, unpaused, remaining the full duration, setting and store unchanged |
| Timer.StopIsIdempotent | Sources/StretchReminder/Models/TimerManager.swift:92-98 | stopping twice is stopping once |
| Timer.Pause | Sources/StretchReminder/Models/TimerManager.swift:100-106 | no-op unless running and unpaused; otherwise paused with `pausedTime` = remaining |
| Timer.Resume | Sources/StretchReminder/Models/TimerManager.swift:108-119 | no-op unless running and paused; otherwise unpaused, remaining = `pausedTime`, start time `now` |
| Timer.PauseThenResume | Sources/StretchReminder/Models/TimerManager.swift:100-119 | pause then resume with no tick between keeps the remaining time and keeps running |
| Timer.Restart | Sources/StretchReminder/Models/TimerManager.swift:125-128 | from any state: running, unpaused, full duration, start time `now` |
| Timer.Complete | Sources/StretchReminder/Models/TimerManager.swift:144-147 | completion leaves the timer stopped, unpaused and showing the full duration, with the setting and store unchanged |
| Timer.Tick | Sources/StretchReminder/Models/TimerManager.swift:130-142 | no-op unless running and unpaused; completes iff the elapsed time reaches the full duration; otherwise remaining = duration - elapsed, within (0, duration] when the clock has not gone back |
| Timer.TickIgnoresPausedTime | Sources/StretchReminder/Models/TimerManager.swift:135 | the `pausedTime` branch is dead: a tick's outcome does not depend on it |
| Timer.IdleIgnoresTicks | Sources/StretchReminder/Models/TimerManager.swift:131 | a stopped or paused timer ignores any sequence of ticks |
| Timer.CompletionFiresOnce | Sources/StretchReminder/Models/TimerManager.swift:130-147 | over any tick sequence a countdown completes at most once, exactly when some tick is a full duration past the start, and then ends stopped at the full duration; until then the remaining time depends only on the latest tick |
| Timer.AssignSelectedPreset | Sources/StretchReminder/Models/TimerManager.swift:19-26 | saves the new setting; restarts a running countdown at the new length; a stopped one keeps its remaining time |
| Timer.AssignCustomMode | Sources/StretchReminder/Models/TimerManager.swift:28-35 | saves the new setting; restarts a running countdown at the new length; a stopped one keeps its remaining time |
| Timer.AssignCustomMinutes | Sources/StretchReminder/Models/TimerManager.swift:37-44 | saves the new setting; restarts only a countdown running in custom mode |
| Timer.Load | Sources/StretchReminder/Models/TimerManager.swift:159-169 | as written: restores the mode flag, but the custom count and a present preset keep their in-memory values; the store ends holding the result |
| Timer.Init | Sources/StretchReminder/Models/TimerManager.swift:67-70 | a new manager: stopped, the stored mode flag with 25 minutes and the 20-minute preset, showing the full duration |
| Timer.FirstRunDefaults | Sources/StretchReminder/Models/TimerManager.swift:67-70 | with an empty store: the 20-minute preset, custom mode off, 1200 s shown, stopped |
| Timer.LoadDiscardsSavedDurations | Sources/StretchReminder/Models/TimerManager.swift:159-169 | a saved 10-minute custom count and 40-minute preset come back as 25 and 20 |
| Timer.LoadReadFirst | Sources/StretchReminder/Models/TimerManager.swift:159-169 | corrected load: overwrites the custom count only with a stored value > 0 and the preset only with a stored 20/40/50 |
| Timer.InitReadFirst | Sources/StretchReminder/Models/TimerManager.swift:67-70 | `init` with the corrected load: the stored mode flag, the stored custom count when positive (else 25), the stored preset when it is 20/40/50 (else the 20-minute one), stopped, showing the full duration |
| Timer.SaveThenRelaunchRestores | Sources/StretchReminder/Models/TimerManager.swift:151-169 | with the corrected load, the setting saved is the setting the next launch starts with |
| Timer.ResumeStartsOver | Sources/StretchReminder/Models/TimerManager.swift:108-142 | 5 minutes, tick at 60 (240 s left), pause, resume at 500: the tick at 501 shows 299 |
| Timer.ResumeCountsFromFullDuration | Sources/StretchReminder/Models/TimerManager.swift:130-136 | as written, the first tick after a resume counts from the full duration, whatever was left at the pause |
| Timer.TickResumable | Sources/StretchReminder/Models/TimerManager.swift:130-142 | corrected tick: same guard; total is the saved pause remainder when there is one, else the full duration; completes iff the elapsed time reaches the total, and otherwise remaining = total - elapsed |
| Timer.TickResumableAgreesUnpaused | Sources/StretchReminder/Models/TimerManager.swift:130-142 | the correction changes nothing for a countdown that was never paused |
| Timer.ResumableContinuesFromPause | Sources/StretchReminder/Models/TimerManager.swift:108-142 | with the corrected tick, after a resume the remaining time is what was left at the pause less the time since the resume |
| Timer.ResumableScenario | Sources/StretchReminder/Models/TimerManager.swift:130-136 | the same scenario with the corrected tick shows 239 |
| Timer.Progress | Sources/StretchReminder/Models/TimerManager.swift:179-182 | `(total - remaining) / total`, 0 when total is not positive; in [0, 1] when 0 ≤ remaining ≤ total; 0 at full, 1 at nothing left |
| Timer.FormattedTimeReadsBack | Sources/StretchReminder/Models/TimerManager.swift:173-177 | below 100 minutes `formattedTimeRemaining` is five characters `mm:ss`, whose fields `Int(_)` reads back as whole minutes and seconds below 60 of the remaining time |
| Timer.StartShowsFullDuration | Sources/StretchReminder/Models/TimerManager.swift:74-81 | right after a start, progress is 0 and the display reads the full duration |
| TimerObject.TimerManager.constructor | Sources/StretchReminder/Models/TimerManager.swift:67-70 | `init` leaves the state `Init` describes |
| TimerObject.TimerManager.StartTimer | Sources/StretchReminder/Models/TimerManager.swift:74-90 | updates the fields as `Start` describes |
| TimerObject.TimerManager.StopTimer | Sources/StretchReminder/Models/TimerManager.swift:92-98 | updates the fields as `Stop` describes |
| TimerObject.TimerManager.PauseTimer | Sources/StretchReminder/Models/TimerManager.swift:100-106 | updates the fields as `Pause` describes |
| TimerObject.TimerManager.ResumeTimer | Sources/StretchReminder/Models/TimerManager.swift:108-119 | updates the fields as `Resume` describes |
| TimerObject.TimerManager.ResetTimer | Sources/StretchReminder/Models/TimerManager.swift:121-123 | updates the fields as `Reset` describes |
| TimerObject.TimerManager.RestartTimer | Sources/StretchReminder/Models/TimerManager.swift:125-128 | stop then start, as `Restart` describes |
| TimerObject.TimerManager.UpdateTimer | Sources/StretchReminder/Models/TimerManager.swift:130-142 | updates the fields and reports completion as `Tick` describes |
| TimerObject.TimerManager.TimerCompleted | Sources/StretchReminder/Models/TimerManager.swift:144-147 | stops the timer |
| TimerObject.TimerManager.SetSelectedPreset | Sources/StretchReminder/Models/TimerManager.swift:19-26 | assignment plus observer, as `AssignSelectedPreset` describes |
| TimerObject.TimerManager.SetCustomMode | Sources/StretchReminder/Models/TimerManager.swift:28-35 | assignment plus observer, as `AssignCustomMode` describes |
| TimerObject.TimerManager.SetCustomMinutes | Sources/StretchReminder/Models/TimerManager.swift:37-44 | assignment plus observer, as `AssignCustomMinutes` describes |
| TimerObject.TimerManager.SaveSettings | Sources/StretchReminder/Models/TimerManager.swift:151-157 | the store becomes `Save` of the current setting; nothing else changes |
| TimerObject.TimerManager.LoadSettings | Sources/StretchReminder/Models/TimerManager.swift:159-169 | the reads and observer-driven writes in source order, as `Load` describes |
| Settings.PrimaryDispatch | Sources/StretchReminder/Views/SettingsView.swift:123-132 | start when stopped, pause when running and unpaused, resume when paused |
| Settings.StatusLabel | Sources/StretchReminder/Views/SettingsView.swift:43 | "Stopped", "Running", "Paused" exactly in the start, pause and resume cases of the dispatch |
| Settings.PrimaryTitle | Sources/StretchReminder/Views/SettingsView.swift:136 | the button's title names the action the dispatch performs |
| Settings.PrimaryIcon | Sources/StretchReminder/Views/SettingsView.swift:135 | the pause symbol exactly when a click pauses, the play symbol otherwise |
| Settings.StopEnabled | Sources/StretchReminder/Views/SettingsView.swift:153 | Stop is enabled exactly when the primary button does not offer Start |
| Settings.PresetIsSelected | Sources/StretchReminder/Views/SettingsView.swift:59 | highlighted exactly when not in custom mode and the preset is the selected one; a highlighted preset is the length counted down |
| Settings.AtMostOnePresetSelected | Sources/StretchReminder/Views/SettingsView.swift:56-59 | of the buttons for `allCases` (`Timer.AllPresets`) at most one is highlighted, and one is exactly when a preset is selected outside custom mode |
| Settings.AcceptCustomInput | Sources/StretchReminder/Views/SettingsView.swift:104 | accepts exactly the texts `Int(_)` reads as 1..999, with that value |
| Settings.CustomTextRoundTrip | Sources/StretchReminder/Views/SettingsView.swift:72 | the text the Custom button writes is accepted as the same count |
| Settings.SelectPreset | Sources/StretchReminder/Views/SettingsView.swift:62-63 | custom mode off and that preset selected and highlighted; a running countdown restarts at the preset's length, a stopped one is untouched |
| Settings.SelectCustom | Sources/StretchReminder/Views/SettingsView.swift:70-72 | custom mode on, no preset highlighted, a running countdown restarts at the custom length, the invariant is kept, and the field shows `"\(customMinutes)"`, which reads back as the custom count |
| Settings.EditCustomText | Sources/StretchReminder/Views/SettingsView.swift:103-107 | the custom count changes only for text the filter accepts, to its value; otherwise the timer is untouched |
| Settings.PressPrimary | Sources/StretchReminder/Views/SettingsView.swift:123-132 | dispatches to start, pause or resume; the status moves Stopped to Running, Running to Paused, Paused to Running |
| Settings.PressStop | Sources/StretchReminder/Views/SettingsView.swift:143-145 | the Stop button is `stopTimer` (`Timer.Stop`): afterwards the status is Stopped, the title Start, Stop disabled, the full duration shown |
| Settings.StoppedSelectionKeepsStaleDisplay | Sources/StretchReminder/Views/SettingsView.swift:62-63 | stopped at 50:00, choosing 20 minutes keeps 50:00 shown and makes progress -1.5 |
| Settings.SettingsView.constructor | Sources/StretchReminder/Views/SettingsView.swift:3-6 | the view holds the manager it is given and starts with an empty text field |
| Settings.SettingsView.OnAppear | Sources/StretchReminder/Views/SettingsView.swift:174-176 | the field shows the custom count |
| Settings.SettingsView.PresetTapped | Sources/StretchReminder/Views/SettingsView.swift:61-63 | the two assignments in order, as `SelectPreset` describes |
| Settings.SettingsView.CustomTapped | Sources/StretchReminder/Views/SettingsView.swift:70-72 | as `SelectCustom` describes |
| Settings.SettingsView.CustomTextChanged | Sources/StretchReminder/Views/SettingsView.swift:103-107 | as `EditCustomText` describes |
| Settings.SettingsView.PrimaryTapped | Sources/StretchReminder/Views/SettingsView.swift:123-132 | as `PressPrimary` describes |
| Settings.SettingsView.StopTapped | Sources/StretchReminder/Views/SettingsView.swift:143-145 | as `PressStop` describes |
| Reminder.AppTick | Sources/StretchReminder/AppDelegate.swift:54-58 | a tick; the overlay shows iff it already did or the tick completed the countdown |
| Reminder.Dismiss | Sources/StretchReminder/AppDelegate.swift:63-66 | the overlay goes away and the timer starts again |
| Reminder.BreakCycle | Sources/StretchReminder/AppDelegate.swift:54-69 | a full countdown shows the overlay and stops; the timer stays stopped while it shows; dismissing starts a fresh full countdown |

## Left out

- The Foundation `Timer` is not modelled: its scheduling, 1-second repeat, 0.1 s tolerance and invalidation (TimerManager.swift:83-89, 93-94, 105, 115-118). Ticks are explicit calls carrying `now`. So "no tick after stop or pause" is modelled by the tick's guard, not by cancellation.
- Floating point is not modelled. `Date` and `TimeInterval` are whole seconds, so `Int(timeRemaining)` is the identity. `progress` is a ratio `num/den` of integers rather than a `Double`.
- `@Published`/`ObservableObject` change notification, the `weak self` captures and all SwiftUI wiring are not modelled. The properties are plain fields.
- `onTimerComplete` is an optional closure in the source. The model reports completion as a boolean result instead.
- `UserDefaults` internals are not modelled. The store is an abstract map from key to integer, and a flag is stored as 1 or 0.
- SettingsView.swift rendering is not modelled: layout, gradients, hover state, button styles, `PresetButton`'s appearance, `VisualEffectView` (:180-247) and the Quit button (`NSApplication.terminate`, :159-161).
- Settings.SelectCustom, Settings.SettingsView.CustomTapped and Settings.SettingsView.OnAppear: each writes the custom count into the field (SettingsView.swift:72, :174-176). When that changes the field's text (for instance after an edit the filter rejected, such as an emptied field), SwiftUI may then deliver a text-change event. That event is not modelled. It would assign the same count again (`CustomTextRoundTrip`), and the observer would save and restart a countdown running in custom mode (TimerManager.swift:37-44).
- BreakReminderWindow.swift is not part of this model. It is window chrome, fade animations, a beep, key handling and an emoji animation.
- Most of AppDelegate.swift is not part of this model: the status item, the popover, the main-queue hop and the stop at termination. Only its completion and dismiss contract (:54-69) is kept, as module `Reminder`, and the overlay appears at once.
- Package.swift is a build manifest and is not modelled.
- Timer.Tick: the bound 0 < remaining <= duration is stated only when the clock has not gone back past the start time. The source makes no promise when the wall clock goes back.

## Findings

| source | as written | input that shows it | evidently intended | confidence | as-written member | corrected member |
|---|---|---|---|---|---|---|
| Sources/StretchReminder/Models/TimerManager.swift:130-136 | the tick takes `isPaused ? pausedTime : currentSeconds` as the total, but its guard has already excluded `isPaused`; after a resume the countdown starts over from the full duration | 5-minute custom countdown started at 0, ticked at 60 (240 s left), paused, resumed at 500, ticked at 501: shows 299 s | going on from what was left at the pause: 239 s | high; not executed | Timer.ResumeStartsOver | Timer.TickResumable |
| Sources/StretchReminder/Models/TimerManager.swift:159-169 | assigning `isCustomMode` first runs its observer, which saves the in-memory custom count and preset over the stored ones before they are read | store holding custom mode on, 10 custom minutes and preset 40: the next launch has 25 minutes and the 20-minute preset | the stored 10 minutes and 40-minute preset are restored | high; not executed | Timer.LoadDiscardsSavedDurations | Timer.LoadReadFirst |
