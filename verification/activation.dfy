/**
 * The activation window of `DoorController` (oniondoor/door.py): an optional
 * expiry time during which any press unlocks the door.
 *
 * The expiry branch of `is_activated` assigns to a misspelt attribute,
 * `activate_until`, instead of `active_until`. The model keeps that: an
 * expired `active_until` is never cleared, and the stray attribute is
 * recorded in its own field.
 */
module Activation {
  import opened Wrappers

  /**
   * `active_until` (absent is `None`) and the stray attribute `activate_until`,
   * which does not exist until the expiry branch first assigns `False` to it.
   */
  datatype Window = Window(activeUntil: Option<real>, strayActivateUntil: Option<bool>)

  /** A freshly constructed controller's window. */
  const Closed: Window := Window(None, None)

  /** Whether a window still admits presses at `now`: strictly before its expiry. */
  predicate OpenAt(w: Window, now: real)
  {
    w.activeUntil.Some? && now < w.activeUntil.value
  }

  /** `activate(time_seconds)` called at `now`; any duration is accepted. */
  function Activate(w: Window, now: real, seconds: real): (r: Window)
    ensures r.activeUntil.Some? && r.activeUntil.value == now + seconds
    ensures r.strayActivateUntil == w.strayActivateUntil
  {
    w.(activeUntil := Some(now + seconds))
  }

  /** `deactivate()`. */
  function Deactivate(w: Window): (r: Window)
    ensures r.activeUntil.None?
    ensures r.strayActivateUntil == w.strayActivateUntil
  {
    w.(activeUntil := None)
  }

  /** The answer of `is_activated` and the window it leaves behind. */
  datatype Query = Query(activated: bool, window: Window)

  /** `is_activated()` at `now`. */
  function IsActivated(w: Window, now: real): (r: Query)
    ensures r.activated <==> OpenAt(w, now)
    ensures r.window.activeUntil == w.activeUntil
    ensures w.activeUntil.Some? && !r.activated ==> r.window.strayActivateUntil == Some(false)
    ensures w.activeUntil.None? || r.activated ==> r.window == w
  {
    match w.activeUntil
    case None => Query(false, w)
    case Some(until) =>
      var remaining := until - now;
      if remaining > 0.0 then Query(true, w)
      else Query(false, w.(strayActivateUntil := Some(false)))
  }

  /**
   * After `activate(d)` at `now`, a query at `t` answers true exactly when
   * `t` is strictly before `now + d`.
   */
  lemma ActivateThenQuery(w: Window, now: real, d: real, t: real)
    ensures IsActivated(Activate(w, now, d), t).activated <==> t < now + d
  {
  }

  /** A window opened for no time (or less) is never active from then on. */
  lemma ZeroDurationNeverActive(w: Window, now: real, d: real, t: real)
    requires d <= 0.0
    requires now <= t
    ensures !IsActivated(Activate(w, now, d), t).activated
  {
  }

  /** `deactivate` closes the window whatever it was, and twice is once. */
  lemma DeactivateCloses(w: Window, t: real)
    ensures !IsActivated(Deactivate(w), t).activated
    ensures Deactivate(Deactivate(w)) == Deactivate(w)
  {
  }

  /**
   * Querying an expired window answers false and keeps the stale expiry in
   * `active_until`; only the stray attribute changes.
   */
  lemma ExpiredWindowStaysSet(w: Window, now: real)
    requires w.activeUntil.Some? && w.activeUntil.value <= now
    ensures !IsActivated(w, now).activated
    ensures IsActivated(w, now).window == Window(w.activeUntil, Some(false))
  {
  }

  /**
   * The stale expiry is harmless to the decision: once a query finds the
   * window closed, every later query (on the window it left) finds it closed.
   */
  lemma ExpiryIsPermanent(w: Window, now: real, later: real)
    requires now <= later
    requires !IsActivated(w, now).activated
    ensures !IsActivated(IsActivated(w, now).window, later).activated
  {
  }
}
