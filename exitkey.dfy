/**
 * Double-press-to-exit: the first press of an exit key shows a warning and starts a
 * 1.5-second timer; a second press of the same key while the timer runs exits.
 */
module ExitKey {
  import opened Wrappers

  /** How long a warning stays up, in milliseconds. */
  const WarningMs: nat := 1500

  /**
   * The `exitWarning` state: the running timer (by its handle), whether the warning is
   * shown, and the key that started it.
   */
  datatype ExitWarning = ExitWarning(timer: Option<nat>, show: bool, keyType: string)

  /** `{ timer: null, show: false, type: "" }`. */
  const Idle := ExitWarning(None, false, "")

  /** The states the handler can reach: a warning is shown exactly while its timer runs. */
  predicate Reachable(w: ExitWarning) {
    w == Idle || (w.timer.Some? && w.show && w.keyType != "")
  }

  /**
   * What one press does: the next state, whether the process is terminated, and the
   * timer that is cleared, if any.
   */
  datatype Press = Press(next: ExitWarning, terminate: bool, cleared: Option<nat>)

  /** `handleExitKey(keyType)`; `freshTimer` is the handle `setTimeout` returns. */
  function PressExitKey(w: ExitWarning, keyType: string, freshTimer: nat): (p: Press)
    ensures p.terminate <==> w.timer.Some? && w.keyType == keyType
    ensures p.cleared == w.timer
    ensures p.terminate ==> p.next == Idle
    ensures !p.terminate ==> p.next.timer == Some(freshTimer) && p.next.show && p.next.keyType == keyType
  {
    if w.timer.Some? && w.keyType == keyType then
      Press(Idle, true, w.timer)
    else
      Press(ExitWarning(Some(freshTimer), true, keyType), false, w.timer)
  }

  /** The timer callback: a timer that was cleared never fires, and the current one resets to idle. */
  function ExpireTimer(w: ExitWarning, t: nat): (r: ExitWarning)
    ensures w.timer == Some(t) ==> r == Idle
    ensures w.timer != Some(t) ==> r == w
  {
    if w.timer == Some(t) then Idle else w
  }

  /** The exit keys: Escape, Ctrl+C and Ctrl+D, tested in that order. */
  function ExitKeyOf(input: string, escape: bool, ctrl: bool): (r: Option<string>)
    ensures r.Some? <==> escape || (ctrl && (input == "c" || input == "d"))
    ensures escape ==> r == Some("Escape")
  {
    if escape then Some("Escape")
    else if ctrl && input == "c" then Some("Ctrl+C")
    else if ctrl && input == "d" then Some("Ctrl+D")
    else None
  }

  /** A press terminates exactly when a warning for the same key is pending. */
  lemma TerminatesOnSecondPress(w: ExitWarning, keyType: string, freshTimer: nat)
    ensures PressExitKey(w, keyType, freshTimer).terminate <==> w.timer.Some? && w.keyType == keyType
    ensures PressExitKey(w, keyType, freshTimer).terminate ==>
              PressExitKey(w, keyType, freshTimer).next == Idle &&
              PressExitKey(w, keyType, freshTimer).cleared == w.timer
  {
  }

  /** Pressing the same key twice in a row, with no expiry between, exits. */
  lemma DoublePressExits(keyType: string, t1: nat, t2: nat)
    requires keyType != ""
    ensures var first := PressExitKey(Idle, keyType, t1);
            !first.terminate && PressExitKey(first.next, keyType, t2).terminate
  {
  }

  /** A different key replaces the pending one, clears its timer and starts a new one. */
  lemma DifferentKeyRestarts(w: ExitWarning, keyType: string, freshTimer: nat)
    requires w.timer.Some? && w.keyType != keyType
    ensures PressExitKey(w, keyType, freshTimer) ==
              Press(ExitWarning(Some(freshTimer), true, keyType), false, w.timer)
  {
  }

  /** Once the warning's timer fires, the next press only warns again. */
  lemma ExpiryForgetsThePress(keyType: string, t1: nat, t2: nat)
    requires keyType != ""
    ensures var pending := PressExitKey(Idle, keyType, t1).next;
            var expired := ExpireTimer(pending, t1);
            expired == Idle && !PressExitKey(expired, keyType, t2).terminate
  {
  }

  /** Presses and expiries keep the state reachable: shown exactly while a timer runs. */
  lemma StepsStayReachable(w: ExitWarning, keyType: string, freshTimer: nat, t: nat)
    requires Reachable(w) && keyType != ""
    ensures Reachable(PressExitKey(w, keyType, freshTimer).next)
    ensures Reachable(ExpireTimer(w, t))
  {
  }

  /** In a reachable state the warning is shown exactly while a timer runs. */
  lemma ShownWhileTimed(w: ExitWarning)
    requires Reachable(w)
    ensures w.show <==> w.timer.Some?
  {
  }
}
