/**
 * The unlock cycle of `DoorController` (oniondoor/door.py): `unlock_door`
 * checks the `unlocked` flag and, if it is clear, spawns a thread running
 * `unlock_door_async`, which sets the flag, writes the output pin LOW, then
 * HIGH, then clears the flag. The sleeps between those writes are not
 * modelled; each thread is a sequence of discrete steps that may interleave
 * with other threads' steps and with further triggers.
 */
module UnlockCycle {
  import opened Wrappers

  /** Output pin levels. */
  datatype Level = Low | High

  /**
   * How far one `unlock_door_async` thread has got: spawned but not yet run,
   * flag set, LOW written, HIGH written, flag cleared.
   */
  datatype Stage = Spawned | Started | Energised | Released | Finished

  /**
   * The `unlocked` flag, every thread ever spawned (by spawn order), and
   * every level written to the output pin, oldest first. The first entry is
   * the LOW the pin is set up with.
   */
  datatype Door = Door(unlocked: bool, cycles: seq<Stage>, output: seq<Level>)

  /** A freshly constructed controller's door. */
  const Fresh: Door := Door(false, [], [Low])

  predicate InFlight(s: Stage)
  {
    s != Finished
  }

  /** No thread is running and the flag is clear. */
  predicate Idle(d: Door)
  {
    !d.unlocked && forall i :: 0 <= i < |d.cycles| ==> !InFlight(d.cycles[i])
  }

  /** The guard's intent: at most one cycle in flight, and the flag is set exactly while one is. */
  predicate Guarded(d: Door)
  {
    && (forall i, j :: 0 <= i < |d.cycles| && 0 <= j < |d.cycles| && InFlight(d.cycles[i]) && InFlight(d.cycles[j]) ==> i == j)
    && (d.unlocked <==> exists i :: 0 <= i < |d.cycles| && InFlight(d.cycles[i]))
  }

  /** `unlock_door()` as written: the flag is read here but only set later, by the thread. */
  function UnlockDoor(d: Door): (r: Door)
    ensures d.unlocked ==> r == d
    ensures !d.unlocked ==> |r.cycles| == |d.cycles| + 1 && r.cycles[|d.cycles|] == Spawned
    ensures r.cycles[..|d.cycles|] == d.cycles && r.output == d.output && r.unlocked == d.unlocked
  {
    if !d.unlocked then d.(cycles := d.cycles + [Spawned]) else d
  }

  /** The trigger with the flag set at the decision, as the guard intends. */
  function UnlockDoorAtomic(d: Door): (r: Door)
    ensures d.unlocked ==> r == d
    ensures !d.unlocked ==> r.unlocked && |r.cycles| == |d.cycles| + 1 && r.cycles[|d.cycles|] == Spawned
    ensures r.cycles[..|d.cycles|] == d.cycles && r.output == d.output
  {
    if !d.unlocked then d.(unlocked := true, cycles := d.cycles + [Spawned]) else d
  }

  /** Thread `i` can take a step. */
  predicate Enabled(d: Door, i: int)
  {
    0 <= i < |d.cycles| && InFlight(d.cycles[i])
  }

  /** The stage a thread reaches with its next step. */
  function Next(s: Stage): Stage
  {
    match s
    case Spawned => Started
    case Started => Energised
    case Energised => Released
    case Released => Finished
    case Finished => Finished
  }

  /**
   * One step of thread `i` of `unlock_door_async`: set the flag, write LOW,
   * write HIGH, or clear the flag.
   */
  function Step(d: Door, i: int): (r: Door)
    requires Enabled(d, i)
    ensures |r.cycles| == |d.cycles| && r.cycles[i] == Next(d.cycles[i])
    ensures forall j :: 0 <= j < |d.cycles| && j != i ==> r.cycles[j] == d.cycles[j]
    ensures |d.output| <= |r.output| <= |d.output| + 1 && r.output[..|d.output|] == d.output
    ensures |r.output| == |d.output| + 1 <==> d.cycles[i] in {Started, Energised}
    ensures r.unlocked != d.unlocked ==> (r.unlocked <==> d.cycles[i] == Spawned)
    ensures !r.unlocked && d.unlocked ==> d.cycles[i] == Released
    ensures d.cycles[i] == Spawned ==> r.unlocked && r.output == d.output
    ensures d.cycles[i] == Started ==> r.output == d.output + [Low] && r.unlocked == d.unlocked
    ensures d.cycles[i] == Energised ==> r.output == d.output + [High] && r.unlocked == d.unlocked
    ensures d.cycles[i] == Released ==> !r.unlocked && r.output == d.output
  {
    match d.cycles[i]
    case Spawned => d.(unlocked := true, cycles := d.cycles[i := Started])
    case Started => d.(output := d.output + [Low], cycles := d.cycles[i := Energised])
    case Energised => d.(output := d.output + [High], cycles := d.cycles[i := Released])
    case Released => d.(unlocked := false, cycles := d.cycles[i := Finished])
  }

  /** What can happen next: a call of the trigger, or the next step of one thread. */
  datatype Event = Trigger | Advance(cycle: int)

  /**
   * Runs a sequence of events with a given trigger; `None` when some event
   * advances a thread that cannot step.
   */
  function Exec(d: Door, events: seq<Event>, trigger: Door -> Door): (r: Option<Door>)
    decreases |events|
  {
    if |events| == 0 then Some(d)
    else match events[0]
      case Trigger => Exec(trigger(d), events[1..], trigger)
      case Advance(i) => if Enabled(d, i) then Exec(Step(d, i), events[1..], trigger) else None
  }

  /** Any number of triggers while the flag is set change nothing. */
  lemma {:induction false} TriggersWhileUnlockedIgnored(d: Door, n: nat)
    requires d.unlocked
    ensures Exec(d, seq(n, _ => Trigger), UnlockDoor) == Some(d)
    decreases n
  {
    if n > 0 {
      assert seq(n, _ => Trigger)[1..] == seq(n - 1, _ => Trigger);
      TriggersWhileUnlockedIgnored(d, n - 1);
    }
  }

  /**
   * From an idle door, a trigger followed by the new thread's four steps,
   * with further triggers after each of the first three, runs exactly one
   * cycle: it writes LOW then HIGH and leaves the flag clear.
   */
  lemma SoloCycle(d: Door)
    requires Idle(d)
    ensures var k := |d.cycles|;
      Exec(d, [Trigger, Advance(k), Trigger, Advance(k), Trigger, Advance(k), Trigger, Advance(k)], UnlockDoor)
        == Some(Door(false, d.cycles + [Finished], d.output + [Low, High]))
  {
    var k := |d.cycles|;
    var ev := [Trigger, Advance(k), Trigger, Advance(k), Trigger, Advance(k), Trigger, Advance(k)];
    var d1 := UnlockDoor(d);
    var d2 := Step(d1, k);
    var d3 := Step(d2, k);
    var d4 := Step(d3, k);
    var d5 := Step(d4, k);
    assert d5 == Door(false, d.cycles + [Finished], d.output + [Low, High]);
    assert Exec(d5, ev[8..], UnlockDoor) == Some(d5);
    assert Exec(d4, ev[7..], UnlockDoor) == Exec(d5, ev[8..], UnlockDoor);
    assert Exec(d4, ev[6..], UnlockDoor) == Exec(d4, ev[7..], UnlockDoor);
    assert Exec(d3, ev[5..], UnlockDoor) == Exec(d4, ev[6..], UnlockDoor);
    assert Exec(d3, ev[4..], UnlockDoor) == Exec(d3, ev[5..], UnlockDoor);
    assert Exec(d2, ev[3..], UnlockDoor) == Exec(d3, ev[4..], UnlockDoor);
    assert Exec(d2, ev[2..], UnlockDoor) == Exec(d2, ev[3..], UnlockDoor);
    assert Exec(d1, ev[1..], UnlockDoor) == Exec(d2, ev[2..], UnlockDoor);
    assert Exec(d, ev, UnlockDoor) == Exec(d1, ev[1..], UnlockDoor);
  }

  /**
   * The flag goes clear only after HIGH is written: along a solo cycle it is
   * set from the first step until the last, and the step that clears it
   * writes nothing.
   */
  lemma SoloCycleFlagSpan(d: Door)
    requires Idle(d)
    ensures var k := |d.cycles|;
      var d1 := Step(UnlockDoor(d), k);
      var d2 := Step(d1, k);
      var d3 := Step(d2, k);
      && d1.unlocked && d1.output == d.output
      && d2.unlocked && d2.output == d.output + [Low]
      && d3.unlocked && d3.output == d.output + [Low, High]
      && !Step(d3, k).unlocked && Step(d3, k).output == d3.output
  {
  }

  /**
   * The first cycle of a fresh controller leaves the pin HIGH, the opposite
   * of the LOW it was set up with; its first write (LOW) changes nothing.
   */
  lemma FirstCycleLeavesPinHigh()
    ensures Exec(Fresh, [Trigger, Advance(0), Advance(0), Advance(0), Advance(0)], UnlockDoor)
      == Some(Door(false, [Finished], [Low, Low, High]))
  {
    var ev := [Trigger, Advance(0), Advance(0), Advance(0), Advance(0)];
    var d1 := UnlockDoor(Fresh);
    var d2 := Step(d1, 0);
    var d3 := Step(d2, 0);
    var d4 := Step(d3, 0);
    var d5 := Step(d4, 0);
    assert d5 == Door(false, [Finished], [Low, Low, High]);
    assert Exec(d5, ev[5..], UnlockDoor) == Some(d5);
    assert Exec(d4, ev[4..], UnlockDoor) == Exec(d5, ev[5..], UnlockDoor);
    assert Exec(d3, ev[3..], UnlockDoor) == Exec(d4, ev[4..], UnlockDoor);
    assert Exec(d2, ev[2..], UnlockDoor) == Exec(d3, ev[3..], UnlockDoor);
    assert Exec(d1, ev[1..], UnlockDoor) == Exec(d2, ev[2..], UnlockDoor);
    assert Exec(Fresh, ev, UnlockDoor) == Exec(d1, ev[1..], UnlockDoor);
  }

  /**
   * With the trigger as written, two triggers before the first thread runs
   * both spawn a cycle: two cycles are in flight, the guard's intent fails,
   * and the pin sees two LOW writes and two HIGH writes.
   */
  lemma RacingTriggersOverlap()
    ensures Guarded(Fresh)
    ensures var two := Exec(Fresh, [Trigger, Trigger], UnlockDoor);
      two == Some(Door(false, [Spawned, Spawned], [Low])) && !Guarded(two.value)
    ensures Exec(Fresh, [Trigger, Trigger, Advance(0), Advance(1), Advance(0), Advance(1), Advance(0), Advance(1), Advance(0), Advance(1)], UnlockDoor)
      == Some(Door(false, [Finished, Finished], [Low, Low, Low, High, High]))
  {
    var ev := [Trigger, Trigger, Advance(0), Advance(1), Advance(0), Advance(1), Advance(0), Advance(1), Advance(0), Advance(1)];
    var two := Door(false, [Spawned, Spawned], [Low]);
    assert UnlockDoor(UnlockDoor(Fresh)) == two;
    assert Exec(two, [], UnlockDoor) == Some(two);
    assert Exec(Fresh, [Trigger, Trigger], UnlockDoor) == Some(two);
    assert InFlight(two.cycles[0]) && InFlight(two.cycles[1]);
    var s := [two, Step(two, 0)];
    s := s + [Step(s[1], 1)];
    s := s + [Step(s[2], 0)];
    s := s + [Step(s[3], 1)];
    s := s + [Step(s[4], 0)];
    s := s + [Step(s[5], 1)];
    s := s + [Step(s[6], 0)];
    s := s + [Step(s[7], 1)];
    assert s[8] == Door(false, [Finished, Finished], [Low, Low, Low, High, High]);
    assert Exec(s[8], ev[10..], UnlockDoor) == Some(s[8]);
    assert Exec(s[7], ev[9..], UnlockDoor) == Exec(s[8], ev[10..], UnlockDoor);
    assert Exec(s[6], ev[8..], UnlockDoor) == Exec(s[7], ev[9..], UnlockDoor);
    assert Exec(s[5], ev[7..], UnlockDoor) == Exec(s[6], ev[8..], UnlockDoor);
    assert Exec(s[4], ev[6..], UnlockDoor) == Exec(s[5], ev[7..], UnlockDoor);
    assert Exec(s[3], ev[5..], UnlockDoor) == Exec(s[4], ev[6..], UnlockDoor);
    assert Exec(s[2], ev[4..], UnlockDoor) == Exec(s[3], ev[5..], UnlockDoor);
    assert Exec(s[1], ev[3..], UnlockDoor) == Exec(s[2], ev[4..], UnlockDoor);
    assert Exec(two, ev[2..], UnlockDoor) == Exec(s[1], ev[3..], UnlockDoor);
    assert Exec(UnlockDoor(Fresh), ev[1..], UnlockDoor) == Exec(two, ev[2..], UnlockDoor);
    assert Exec(Fresh, ev, UnlockDoor) == Exec(UnlockDoor(Fresh), ev[1..], UnlockDoor);
  }

  /** Two distinct cycles are in flight at once. */
  predicate Overlapping(d: Door)
  {
    exists i, j :: 0 <= i < j < |d.cycles| && InFlight(d.cycles[i]) && InFlight(d.cycles[j])
  }

  /** Some thread has been spawned but has not yet set the flag. */
  predicate PendingStart(d: Door)
  {
    exists i :: 0 <= i < |d.cycles| && d.cycles[i] == Spawned
  }

  /**
   * From any door with at most one cycle in flight whose flag is set exactly
   * when that cycle has started, the trigger as written puts two cycles in
   * flight iff a thread is still waiting to set the flag.
   */
  lemma AsWrittenTriggerOverlapsIff(d: Door)
    requires forall i, j :: 0 <= i < |d.cycles| && 0 <= j < |d.cycles| && InFlight(d.cycles[i]) && InFlight(d.cycles[j]) ==> i == j
    requires d.unlocked <==> exists i :: 0 <= i < |d.cycles| && InFlight(d.cycles[i]) && d.cycles[i] != Spawned
    ensures Overlapping(UnlockDoor(d)) <==> PendingStart(d)
  {
    var r := UnlockDoor(d);
    if PendingStart(d) {
      var i :| 0 <= i < |d.cycles| && d.cycles[i] == Spawned;
      assert !d.unlocked;
      assert r.cycles[i] == Spawned && r.cycles[|d.cycles|] == Spawned;
    }
  }

  /** The atomic trigger keeps the guard's intent. */
  lemma AtomicTriggerKeepsGuard(d: Door)
    requires Guarded(d)
    ensures Guarded(UnlockDoorAtomic(d))
  {
    var r := UnlockDoorAtomic(d);
    if !d.unlocked {
      assert r.cycles == d.cycles + [Spawned];
      assert InFlight(r.cycles[|d.cycles|]);
      assert forall i :: 0 <= i < |d.cycles| ==> r.cycles[i] == d.cycles[i];
    }
  }

  /** Every thread step keeps the guard's intent. */
  lemma StepKeepsGuard(d: Door, i: int)
    requires Guarded(d) && Enabled(d, i)
    ensures Guarded(Step(d, i))
  {
    var r := Step(d, i);
    forall j | 0 <= j < |r.cycles| && InFlight(r.cycles[j])
      ensures InFlight(d.cycles[j])
    {
    }
    assert d.unlocked;
    if d.cycles[i] != Released {
      assert InFlight(r.cycles[i]);
    } else {
      forall j | 0 <= j < |r.cycles|
        ensures !InFlight(r.cycles[j])
      {
        assert j != i ==> r.cycles[j] == d.cycles[j];
      }
    }
  }

  /**
   * With the flag set at the decision, every run from a guarded door keeps
   * at most one cycle in flight, whatever the interleaving.
   */
  lemma {:induction false} AtomicRunsStayGuarded(d: Door, events: seq<Event>)
    requires Guarded(d)
    ensures Exec(d, events, UnlockDoorAtomic).Some? ==> Guarded(Exec(d, events, UnlockDoorAtomic).value)
    decreases |events|
  {
    if |events| > 0 {
      match events[0]
      case Trigger =>
        AtomicTriggerKeepsGuard(d);
        AtomicRunsStayGuarded(UnlockDoorAtomic(d), events[1..]);
      case Advance(i) =>
        if Enabled(d, i) {
          StepKeepsGuard(d, i);
          AtomicRunsStayGuarded(Step(d, i), events[1..]);
        }
    }
  }

  /** The same racing triggers against the atomic trigger spawn a single cycle. */
  lemma AtomicTriggerBlocksRace()
    ensures Exec(Fresh, [Trigger, Trigger], UnlockDoorAtomic) == Some(Door(true, [Spawned], [Low]))
  {
  }
}
