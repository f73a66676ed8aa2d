/**
 * `DoorController` of oniondoor/door.py: it owns the activation window, the
 * optional handshake detector and the unlock cycle, and decides what a
 * button press does.
 */
module DoorController {
  import opened Wrappers
  import Handshake
  import Activation
  import Presence
  import UnlockCycle

  /** The configuration keys the controller reads. */
  datatype Config = Config(enableHandshake: bool, enableFritz: bool, fritzBaseline: int)

  /** A controller: its configuration, activation window, handshake (absent when disabled) and door. */
  datatype Controller = Controller(
    config: Config,
    window: Activation.Window,
    handshake: Option<Handshake.Shake>,
    door: UnlockCycle.Door)

  /** The controller right after construction (the pin setup is the door's first LOW). */
  function NewController(config: Config): (c: Controller)
    ensures c.config == config && c.window == Activation.Closed && c.door == UnlockCycle.Fresh
    ensures c.handshake.Some? <==> config.enableHandshake
    ensures config.enableHandshake ==> c.handshake == Some(Handshake.Initial)
    ensures c.window.activeUntil.None?
    ensures UnlockCycle.Idle(c.door) && UnlockCycle.Guarded(c.door)
  {
    Controller(
      config,
      Activation.Closed,
      if config.enableHandshake then Some(Handshake.Initial) else None,
      UnlockCycle.Fresh)
  }

  /** Whether a press unlocks without consulting the handshake: an open window or an occupied office. */
  predicate OpensDirectly(c: Controller, now: real, devices: int)
  {
    || Activation.OpenAt(c.window, now)
    || Presence.IsOfficeOccupied(c.config.enableFritz, c.config.fritzBaseline, devices)
  }

  /** `button_pressed`, with the press time and the live device count passed in. */
  function ButtonPressed(c: Controller, now: real, devices: int): (r: Controller)
    ensures r.config == c.config && r.window.activeUntil == c.window.activeUntil
    ensures r.window.strayActivateUntil ==
      (if c.window.activeUntil.Some? && !Activation.OpenAt(c.window, now) then Some(false)
       else c.window.strayActivateUntil)
    ensures OpensDirectly(c, now, devices) ==>
      r.handshake == c.handshake && r.door == UnlockCycle.UnlockDoor(c.door)
    ensures !OpensDirectly(c, now, devices) && c.handshake.None? ==>
      r.handshake.None? && r.door == c.door
    ensures !OpensDirectly(c, now, devices) && c.handshake.Some? ==>
      var o := Handshake.ShakeEvent(c.handshake.value, now);
      r.handshake == Some(o.next) && r.door == (if o.fired then UnlockCycle.UnlockDoor(c.door) else c.door)
  {
    var q := Activation.IsActivated(c.window, now);
    var c1 := c.(window := q.window);
    if q.activated || Presence.IsOfficeOccupied(c.config.enableFritz, c.config.fritzBaseline, devices) then
      c1.(door := UnlockCycle.UnlockDoor(c1.door))
    else
      match c1.handshake
      case None => c1
      case Some(h) =>
        var o := Handshake.ShakeEvent(h, now);
        c1.(handshake := Some(o.next),
            door := if o.fired then UnlockCycle.UnlockDoor(c1.door) else c1.door)
  }

  /** A press spawned a new unlock thread. */
  predicate UnlockRequested(before: Controller, after: Controller)
  {
    |after.door.cycles| == |before.door.cycles| + 1
  }

  /**
   * A press spawns an unlock thread exactly when the flag is clear and either
   * the press opens directly or it completes a handshake inside the window.
   */
  lemma PressUnlocksIff(c: Controller, now: real, devices: int)
    ensures UnlockRequested(c, ButtonPressed(c, now, devices)) <==>
      && !c.door.unlocked
      && (|| OpensDirectly(c, now, devices)
          || (&& c.handshake.Some?
              && c.handshake.value.phase == Handshake.Waiting
              && Handshake.InWindow(now - c.handshake.value.eventTime)))
    ensures |ButtonPressed(c, now, devices).door.cycles| <= |c.door.cycles| + 1
  {
  }

  /**
   * The guard invariant the corrected trigger keeps does not survive the
   * press path as written: one unlocking press on a new controller leaves a
   * spawned thread with the flag still clear.
   */
  lemma UnlockingPressLeavesGuard(config: Config, now: real, devices: int)
    requires config.enableFritz && devices > config.fritzBaseline
    ensures UnlockCycle.Guarded(NewController(config).door)
    ensures !UnlockCycle.Guarded(ButtonPressed(NewController(config), now, devices).door)
  {
    var p := ButtonPressed(NewController(config), now, devices);
    assert p.door.cycles == [UnlockCycle.Spawned] && !p.door.unlocked;
    assert UnlockCycle.InFlight(p.door.cycles[0]);
  }

  /** While the window is open, the device count does not affect a press. */
  lemma ActivationShortCircuits(c: Controller, now: real, devices: int, other: int)
    requires Activation.OpenAt(c.window, now)
    ensures ButtonPressed(c, now, devices) == ButtonPressed(c, now, other)
  {
  }

  /** With the handshake disabled, a press that does not open directly changes only the stray attribute. */
  lemma DisabledHandshakeIgnoresPress(c: Controller, now: real, devices: int)
    requires c.handshake.None? && !OpensDirectly(c, now, devices)
    ensures ButtonPressed(c, now, devices).(window := c.window) == c
  {
  }

  /** activate(120) at t = 0, then a press at t = 60: the door unlocks without the handshake. */
  lemma ScenarioActivatedPress(config: Config, devices: int)
    ensures var c := NewController(config);
      var a := c.(window := Activation.Activate(c.window, 0.0, 120.0));
      var p := ButtonPressed(a, 60.0, devices);
      p.door.cycles == [UnlockCycle.Spawned] && p.handshake == c.handshake
  {
  }

  /** Handshake on, presence off, no window: presses at 0 and 12 unlock; presses at 0 and 20 do not. */
  lemma ScenarioHandshake(devices: int)
    ensures var c := NewController(Config(true, false, 0));
      var hit := ButtonPressed(ButtonPressed(c, 0.0, devices), 12.0, devices);
      var miss := ButtonPressed(ButtonPressed(c, 0.0, devices), 20.0, devices);
      && hit.door.cycles == [UnlockCycle.Spawned] && hit.handshake == Some(Handshake.Initial)
      && miss.door.cycles == [] && miss.handshake == Some(Handshake.Initial)
  {
  }

  /** Presence on, five devices against a baseline of three: a first press unlocks at once. */
  lemma ScenarioPresence(enableHandshake: bool, now: real)
    ensures var c := NewController(Config(enableHandshake, true, 3));
      var p := ButtonPressed(c, now, 5);
      p.door.cycles == [UnlockCycle.Spawned] && p.handshake == c.handshake
  {
  }

  /**
   * A press while an expired window is still recorded keeps the stale expiry
   * and goes to the handshake, which starts a new attempt.
   */
  lemma ScenarioStaleWindow(now: real, d: real, later: real)
    requires now + d <= later
    ensures var c := NewController(Config(true, false, 0));
      var a := c.(window := Activation.Activate(c.window, now, d));
      var p := ButtonPressed(a, later, 0);
      && p.window == Activation.Window(Some(now + d), Some(false))
      && p.handshake == Some(Handshake.Shake(Handshake.Waiting, later))
      && p.door == c.door
  {
  }
}
