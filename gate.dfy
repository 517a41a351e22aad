/** A single-flight gate: a trigger that finds the gate open gets through and
    closes it; triggers that find it closed are dropped, not queued; a release
    opens it again. The header's `ticking` flag (released when the scheduled
    frame runs) and `throttle`'s `inThrottle` flag (released when its timer
    expires) are both this gate. */
module Gate {

  datatype GateEvent = Trigger | Release

  /** Whether the gate is closed after one event. */
  function GateStep(closed: bool, e: GateEvent): bool {
    match e
    case Trigger => true
    case Release => false
  }

  function Releases(es: seq<GateEvent>): (n: nat)
    ensures n <= |es|
  {
    if es == [] then 0 else (if es[0] == Release then 1 else 0) + Releases(es[1..])
  }

  /** How many triggers of `es` get through, starting closed or open. */
  function Passed(closed: bool, es: seq<GateEvent>): (n: nat)
    ensures n <= Releases(es) + (if closed then 0 else 1)
    decreases |es|
  {
    if es == [] then 0
    else (if es[0] == Trigger && !closed then 1 else 0) + Passed(GateStep(closed, es[0]), es[1..])
  }

  /** A burst of triggers with no release in between gets through at most once. */
  lemma {:induction false} BurstPassesOnce(closed: bool, n: nat)
    ensures Passed(closed, seq(n, _ => Trigger)) == if closed || n == 0 then 0 else 1
    decreases n
  {
    if n > 0 {
      var es := seq(n, _ => Trigger);
      assert es[1..] == seq(n - 1, _ => Trigger);
      BurstPassesOnce(true, n - 1);
    }
  }
}
