/**
 * The loop the application delegate closes around the timer: a completed
 * countdown shows the break overlay (unless one is already showing), and
 * dismissing the overlay starts the next countdown. The timer never restarts
 * itself. Window chrome, animation, sound and the main-queue hop are not part
 * of this model: the overlay is one flag and appears at once.
 */
module Reminder {
  import opened Optional
  import opened Timer

  datatype App = App(manager: Manager, overlayVisible: bool)

  /** A tick of the timer; on completion `showBreakReminder` shows the overlay if it is hidden. */
  function AppTick(a: App, now: int): (r: App)
    ensures r.manager == Tick(a.manager, now).0
    ensures r.overlayVisible <==> a.overlayVisible || Tick(a.manager, now).1
  {
    var (m, completed) := Tick(a.manager, now);
    App(m, a.overlayVisible || completed)
  }

  /** The overlay's `onDismiss`: the overlay goes away and the timer starts again from `now`. */
  function Dismiss(a: App, now: int): (r: App)
    ensures !r.overlayVisible
    ensures a.overlayVisible ==> r.manager == Start(a.manager, now)
    ensures !a.overlayVisible ==> r == a
  {
    if a.overlayVisible then App(Start(a.manager, now), false) else a
  }

  /**
   * One break: a countdown started at `t0` and ticked a full duration later
   * completes and shows the overlay; while the overlay shows the timer stays
   * stopped; dismissing it at `t1` starts a fresh countdown of the full length.
   */
  lemma BreakCycle(m: Manager, t0: int, t: int, t1: int)
    requires m.clock.isRunning && !m.clock.isPaused && m.clock.startTime == Some(t0)
    requires t - t0 >= CurrentSeconds(m.setting)
    ensures var shown := AppTick(App(m, false), t);
            && shown.overlayVisible && !shown.manager.clock.isRunning
            && AppTick(shown, t1) == shown
            && var next := Dismiss(shown, t1);
               && !next.overlayVisible && next.manager.clock.isRunning && !next.manager.clock.isPaused
               && next.manager.clock.timeRemaining == CurrentSeconds(m.setting)
               && next.manager.clock.startTime == Some(t1)
               && next.manager.setting == m.setting
  {
  }
}
