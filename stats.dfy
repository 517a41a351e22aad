/** The statistics counters: a one-shot trigger when the stats section comes
    into view, and each counter's frame-by-frame climb to its target. */
module StatsCounter {
  import opened Wrappers

  /** The animation's 2000 ms in frames of 16 ms: `duration / 16` is exactly
      125, so each frame adds `target / 125`. */
  const Steps := 125

  /** The section triggers once its top is this many pixels inside the viewport. */
  const TriggerOffset := 100

  /** What a `.stat-number` element shows: a number and a one-character suffix. */
  datatype Display = Display(value: int, suffix: char)

  function Suffix(target: int): char {
    if target == 100 then '%' else '+'
  }

  /** The last frame's display: the exact target. */
  function Final(target: int): Display {
    Display(target, Suffix(target))
  }

  // ---------------------------------------------------------------------------
  // Text of a display
  // ---------------------------------------------------------------------------

  function DigitChar(d: nat): char
    requires d < 10
  {
    "0123456789"[d]
  }

  /** Decimal digits of `n`, as number-to-string conversion writes them. */
  function NatToString(n: nat): (s: string)
    ensures |s| >= 1
    ensures forall k | 0 <= k < |s| :: '0' <= s[k] <= '9'
    ensures s[0] == '0' ==> n == 0
    decreases n
  {
    if n < 10 then [DigitChar(n)] else NatToString(n / 10) + [DigitChar(n % 10)]
  }

  /** The value the decimal digits of `s` denote. */
  function DecimalValue(s: string): int
    decreases |s|
  {
    if s == [] then 0 else 10 * DecimalValue(s[..|s| - 1]) + (s[|s| - 1] as int - '0' as int)
  }

  /** The digits written for `n` read back as `n`. */
  lemma {:induction false} NatToStringRoundTrip(n: nat)
    ensures DecimalValue(NatToString(n)) == n
    decreases n
  {
    var s := NatToString(n);
    if n < 10 {
      DigitValue(n);
      assert s[..0] == [];
    } else {
      NatToStringRoundTrip(n / 10);
      DigitValue(n % 10);
      assert s[..|s| - 1] == NatToString(n / 10);
      assert s[|s| - 1] == DigitChar(n % 10);
    }
  }

  lemma DigitValue(d: nat)
    requires d < 10
    ensures DigitChar(d) as int - '0' as int == d
  {
  }

  function IntToString(i: int): string {
    if i < 0 then "-" + NatToString(-i) else NatToString(i)
  }

  /** The `textContent` a display produces. */
  function Text(d: Display): string {
    IntToString(d.value) + [d.suffix]
  }

  lemma FinalTexts()
    ensures Text(Final(100)) == "100%"
    ensures Text(Final(42)) == "42+"
  {
    assert NatToString(10) == "10";
    assert NatToString(4) == "4";
  }

  // ---------------------------------------------------------------------------
  // One counter's frames
  // ---------------------------------------------------------------------------

  /** Frame `n` of a climb to a positive target shows no less than frame
      `n - 1`, and less than the target. */
  lemma ClimbStep(target: int, n: int)
    requires 0 < target && 0 < n < Steps
    ensures (n - 1) * target / Steps <= n * target / Steps
    ensures 0 <= n * target / Steps < target
  {
    var x := n * target;
    var y := (n - 1) * target;
    assert x == y + target;
    MulBelow(n, Steps - 1, target);
    assert 0 <= y by { MulBelow(0, n - 1, target); }
    assert x <= (Steps - 1) * target;
  }

  lemma MulBelow(a: int, b: int, c: int)
    requires a <= b && 0 <= c
    ensures a * c <= b * c
  {
    assert b * c - a * c == (b - a) * c;
  }

  /** The displays of frames 1 to `n` of a counter climbing to a positive
      target: frame k shows floor(k * target / 125). */
  function Climb(target: int, n: nat): (ds: seq<Display>)
    requires 0 < target && n < Steps
    ensures |ds| == n
    ensures forall k | 0 <= k < n :: ds[k].suffix == Suffix(target)
    ensures forall k | 0 <= k < n :: 0 <= ds[k].value < target
    ensures forall k | 0 <= k < n :: ds[k].value == (k + 1) * target / Steps
    ensures forall i, j | 0 <= i <= j < n :: ds[i].value <= ds[j].value
    decreases n
  {
    if n == 0 then []
    else
      var prev := Climb(target, n - 1);
      ClimbStep(target, n);
      assert n > 1 ==> prev[n - 2].value == (n - 1) * target / Steps;
      prev + [Display(n * target / Steps, Suffix(target))]
  }

  /** Every display a counter shows, first frame to last. */
  function CounterTrace(target: int): (frames: seq<Display>)
    ensures |frames| >= 1 && frames[|frames| - 1] == Final(target)
    ensures forall k | 0 <= k < |frames| - 1 :: frames[k].value < target && frames[k].suffix == Suffix(target)
    ensures forall i, j | 0 <= i <= j < |frames| :: frames[i].value <= frames[j].value
    ensures |frames| == if target > 0 then Steps else 1
    ensures target > 0 ==> forall k | 0 <= k < Steps - 1 :: frames[k].value == (k + 1) * target / Steps
  {
    if target <= 0 then [Final(target)] else Climb(target, Steps - 1) + [Final(target)]
  }

  /** updateCounter run frame after frame: `current += increment` until it
      reaches the target. `acc` is `current` scaled by 125, so that it stays exact. */
  method AnimateCounter(target: int) returns (frames: seq<Display>)
    ensures frames == CounterTrace(target)
  {
    var acc := 0;
    var k: nat := 0;
    frames := [];
    var done := false;
    while !done
      invariant acc == k * target
      invariant !done ==> (target > 0 ==> k < Steps) && (target <= 0 ==> k == 0)
      invariant !done && target > 0 ==> frames == Climb(target, k)
      invariant !done && target <= 0 ==> frames == []
      invariant done ==> frames == CounterTrace(target)
      decreases if done then 0 else Steps + 1 - k
    {
      assert (k + 1) * target == k * target + target;
      acc := acc + target;
      k := k + 1;
      if acc < Steps * target {
        if target > 0 && k >= Steps {
          MulBelow(Steps, k, target);
        }
        frames := frames + [Display(acc / Steps, Suffix(target))];
      } else {
        if target > 0 && k < Steps {
          MulBelow(k, Steps - 1, target);
        }
        frames := frames + [Final(target)];
        done := true;
      }
    }
  }

  // ---------------------------------------------------------------------------
  // The one-shot trigger
  // ---------------------------------------------------------------------------

  /** What one call of animateCounters measures: the stats section's top, if
      the section exists, and the viewport height. */
  datatype Probe = Probe(sectionTop: Option<int>, viewportHeight: int)

  predicate Triggers(p: Probe) {
    p.sectionTop.Some? && p.sectionTop.value < p.viewportHeight - TriggerOffset
  }

  ghost predicate EverTriggers(ps: seq<Probe>) {
    exists k | 0 <= k < |ps| :: Triggers(ps[k])
  }

  /** How many of the calls `ps` start the counters, given `hasAnimated`. */
  function Starts(hasAnimated: bool, ps: seq<Probe>): (n: nat)
    ensures n <= 1
    ensures hasAnimated ==> n == 0
    ensures n == 1 <==> !hasAnimated && EverTriggers(ps)
    decreases |ps|
  {
    if ps == [] then 0
    else
      var started := !hasAnimated && Triggers(ps[0]);
      var n := (if started then 1 else 0) + Starts(hasAnimated || Triggers(ps[0]), ps[1..]);
      assert EverTriggers(ps[1..]) ==> EverTriggers(ps) by {
        if EverTriggers(ps[1..]) {
          var k :| 0 <= k < |ps[1..]| && Triggers(ps[1..][k]);
          assert Triggers(ps[k + 1]);
        }
      }
      assert EverTriggers(ps) && !Triggers(ps[0]) ==> EverTriggers(ps[1..]) by {
        if EverTriggers(ps) && !Triggers(ps[0]) {
          var k :| 0 <= k < |ps| && Triggers(ps[k]);
          assert Triggers(ps[1..][k - 1]);
        }
      }
      n
  }

  /** The controller: the `hasAnimated` flag and what each counter shows
      once started. */
  class Stats {
    var hasAnimated: bool
    /** The parsed `data-target` of each `.stat-item`. */
    const targets: seq<int>
    /** For each item, the displays its counter runs through; empty before the start. */
    var shown: seq<seq<Display>>

    /** initStatsCounter: the flag is clear, then the initial check runs. */
    constructor (targets: seq<int>, p: Probe)
      ensures this.targets == targets
      ensures hasAnimated == Triggers(p)
      ensures shown == if Triggers(p) then seq(|targets|, i requires 0 <= i < |targets| => CounterTrace(targets[i])) else []
    {
      this.targets := targets;
      hasAnimated := false;
      shown := [];
      new;
      AnimateCounters(p);
    }

    /** animateCounters: a no-op once `hasAnimated` is set. */
    method AnimateCounters(p: Probe)
      modifies this
      ensures hasAnimated == (old(hasAnimated) || Triggers(p))
      ensures !old(hasAnimated) && Triggers(p) ==>
        shown == seq(|targets|, i requires 0 <= i < |targets| => CounterTrace(targets[i]))
      ensures old(hasAnimated) || !Triggers(p) ==> shown == old(shown)
    {
      if hasAnimated {
        return;
      }
      if p.sectionTop.None? {
        return;
      }
      if p.sectionTop.value < p.viewportHeight - TriggerOffset {
        hasAnimated := true;
        var out: seq<seq<Display>> := [];
        for i := 0 to |targets|
          modifies {}
          invariant |out| == i
          invariant forall j | 0 <= j < i :: out[j] == CounterTrace(targets[j])
        {
          var frames := AnimateCounter(targets[i]);
          out := out + [frames];
        }
        shown := out;
      }
    }
  }
}
