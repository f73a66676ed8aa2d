/**
 * The buzzer "secret handshake" of `SecretHandshake` in oniondoor/door.py.
 *
 * An attempt is a pair of presses: the first one is recorded, the second one
 * is compared with it and succeeds when it lands 10 to 15 seconds (both ends
 * included) after the first. Either way the attempt is then over. The success
 * action (the controller's unlock trigger) is not called here: each event
 * reports whether it fired, and the controller performs the unlock.
 */
module Handshake {

  /** The two handshake states, `START` (0) and `WAITING` (1). */
  datatype Phase = Start | Waiting

  /** A detector: its phase and the time stamp of the attempt's first press. */
  datatype Shake = Shake(phase: Phase, eventTime: real)

  /** Bounds of the success window, in seconds after the first press. */
  const WindowMin: real := 10.0
  const WindowMax: real := 15.0

  /** A freshly constructed or freshly reset detector: `event_time = 0`, `state = START`. */
  const Initial: Shake := Shake(Start, 0.0)

  /** The closed success window. */
  predicate InWindow(elapsed: real)
  {
    WindowMin <= elapsed <= WindowMax
  }

  /** The detector after an event, and whether the success action fired. */
  datatype Outcome = Outcome(next: Shake, fired: bool)

  /** `shake_event`, with the press time `now` passed in. */
  function ShakeEvent(s: Shake, now: real): (r: Outcome)
    ensures r.fired <==> s.phase == Waiting && InWindow(now - s.eventTime)
    ensures s.phase == Start ==> r.next.phase == Waiting && r.next.eventTime == now
    ensures s.phase == Waiting ==> r.next == Initial
  {
    match s.phase
    case Start => Outcome(Shake(Waiting, now), false)
    case Waiting =>
      var elapsed := now - s.eventTime;
      Outcome(Initial, elapsed >= WindowMin && elapsed <= WindowMax)
  }

  /** A first press never fires and starts waiting from its own time stamp. */
  lemma FirstPressPending(s: Shake, now: real)
    requires s.phase == Start
    ensures !ShakeEvent(s, now).fired
    ensures ShakeEvent(s, now).next == Shake(Waiting, now)
  {
  }

  /**
   * Both ends of the window fire; just outside either end does not.
   */
  lemma WindowBoundaries(t0: real)
    ensures ShakeEvent(Shake(Waiting, t0), t0 + 10.0).fired
    ensures ShakeEvent(Shake(Waiting, t0), t0 + 15.0).fired
    ensures !ShakeEvent(Shake(Waiting, t0), t0 + 9.99).fired
    ensures !ShakeEvent(Shake(Waiting, t0), t0 + 15.01).fired
  {
  }

  /**
   * After a second press, success or failure, the next press is treated as
   * a fresh first press: it never fires and anchors a new attempt.
   */
  lemma SecondPressResets(s: Shake, now: real, later: real)
    requires s.phase == Waiting
    ensures ShakeEvent(s, now).next == Initial
    ensures !ShakeEvent(ShakeEvent(s, now).next, later).fired
    ensures ShakeEvent(ShakeEvent(s, now).next, later).next == Shake(Waiting, later)
  {
  }

  /** The detector after a run of presses, and which of them fired. */
  datatype Trace = Trace(final: Shake, fired: seq<bool>)

  /** Feeds press times to the detector in delivery order. */
  function Replay(s: Shake, times: seq<real>): (r: Trace)
    ensures |r.fired| == |times|
    decreases |times|
  {
    if |times| == 0 then Trace(s, [])
    else
      var o := ShakeEvent(s, times[0]);
      var rest := Replay(o.next, times[1..]);
      Trace(rest.final, [o.fired] + rest.fired)
  }

  /**
   * Reference reading of a run that starts a fresh attempt: presses pair up
   * as (0, 1), (2, 3), ..., and press k fires exactly when it closes a pair
   * and lands in the window after its partner. There is no sliding window.
   */
  predicate PairFires(times: seq<real>, k: int)
    requires 0 <= k < |times|
  {
    k % 2 == 1 && InWindow(times[k] - times[k - 1])
  }

  /**
   * Replaying presses from the START state agrees with the pairing reading,
   * and leaves the detector waiting on the last press exactly when an odd
   * number of presses was delivered.
   */
  lemma {:induction false} ReplayPairsPresses(s: Shake, times: seq<real>)
    requires s.phase == Start
    ensures forall k :: 0 <= k < |times| ==> (Replay(s, times).fired[k] <==> PairFires(times, k))
    ensures Replay(s, times).final.phase == Start <==> |times| % 2 == 0
    ensures |times| % 2 == 1 ==> Replay(s, times).final == Shake(Waiting, times[|times| - 1])
    ensures |times| % 2 == 0 && |times| > 0 ==> Replay(s, times).final == Initial
    decreases |times|
  {
    if |times| == 0 {
    } else if |times| == 1 {
      assert Replay(Shake(Waiting, times[0]), times[1..]).final == Shake(Waiting, times[0]);
    } else {
      var tail := times[2..];
      var w := Shake(Waiting, times[0]);
      assert times[1..][1..] == tail;
      var inner := Replay(Initial, tail);
      assert Replay(w, times[1..]) == Trace(inner.final, [InWindow(times[1] - times[0])] + inner.fired);
      var whole := Replay(s, times);
      assert whole == Trace(inner.final, [false, InWindow(times[1] - times[0])] + inner.fired);
      ReplayPairsPresses(Initial, tail);
      forall k | 0 <= k < |times|
        ensures whole.fired[k] <==> PairFires(times, k)
      {
        if k >= 2 {
          assert whole.fired[k] == inner.fired[k - 2];
          if k % 2 == 1 {
            assert tail[k - 2] == times[k] && tail[k - 3] == times[k - 1];
          }
        }
      }
    }
  }
}
