/** The overflow-counting timer callbacks of the two nodes and the busy-waits
    on their flag. Each node keeps a `uint16 overflow_counter` and a flag
    `g_open_door_flag`; Timer2's overflow interrupt calls the node's callback,
    and the main loop spins until the flag is non-zero. */
module Overflow {
  import opened Wire

  /** A uint16. */
  type U16 = x: int | 0 <= x < 0x1_0000

  /** `c++` on a uint16: 0xFFFF wraps to 0. */
  function Inc16(c: U16): U16 {
    if c == 0xFFFF then 0 else c + 1
  }

  /** The pair (overflow_counter, g_open_door_flag). */
  datatype Ticker = Ticker(counter: U16, flag: Byte)

  /** The two callback shapes. Latch: the back-end's openDoorCallBack and
      systemLockDownCallBack (control.c:263-282) only ever set the flag.
      Pulse: the front-end's openDoorCallBack (hmi.c:300-312) also clears it
      on every call that does not reach the target. */
  datatype Rule = Latch | Pulse

  /** One call of a callback counting towards `target`. */
  function Tick(rule: Rule, target: U16, t: Ticker): (r: Ticker)
    requires 0 < target
    ensures Inc16(t.counter) == target ==> r == Ticker(0, 1)
    ensures Inc16(t.counter) != target ==> r.counter == Inc16(t.counter)
    ensures Inc16(t.counter) != target ==> r.flag == (if rule == Latch then t.flag else 0)
    ensures t.counter < target ==> r.counter < target
  {
    var c := Inc16(t.counter);
    if c == target then Ticker(0, 1)
    else if rule == Latch then Ticker(c, t.flag)
    else Ticker(c, 0)
  }

  /** The ticker after `n` calls of the callback. A counter below the target
      stays below it, and a latched flag, once up, stays up. */
  function Run(rule: Rule, target: U16, t: Ticker, n: nat): (r: Ticker)
    requires 0 < target
    ensures t.counter < target ==> r.counter < target
    ensures rule == Latch && t.flag != 0 ==> r.flag != 0
    decreases n
  {
    if n == 0 then t else Tick(rule, target, Run(rule, target, t, n - 1))
  }

  /** How many calls it takes, from counter `c`, until the counter is
      incremented to `target`: counting up to it, or, from at or above it,
      counting up to 0xFFFF, wrapping to 0 and counting up to it. */
  function Distance(c: U16, target: U16): (d: nat)
    requires 0 < target
    ensures 1 <= d <= 0x1_0000
  {
    if c < target then target - c else 0x1_0000 - c + target
  }

  /** The counter `n` calls from `c` on a uint16. */
  function After(c: U16, n: nat): U16 {
    (c + n) % 0x1_0000
  }

  lemma AfterStep(c: U16, n: nat)
    ensures After(c, n + 1) == Inc16(After(c, n))
  {
  }

  /** Before the target is reached, a callback started with the flag down only
      counts: the flag stays down and the counter is `n` further on. */
  lemma {:induction false} CountsUp(rule: Rule, target: U16, t: Ticker, n: nat)
    requires 0 < target && t.flag == 0
    requires n < Distance(t.counter, target)
    ensures Run(rule, target, t, n) == Ticker(After(t.counter, n), 0)
  {
    if n > 0 {
      CountsUp(rule, target, t, n - 1);
      AfterStep(t.counter, n - 1);
      NotYet(t.counter, target, n);
    }
  }

  /** No call before the Distance-th one increments the counter to the target. */
  lemma NotYet(c: U16, target: U16, n: nat)
    requires 0 < target && 0 < n < Distance(c, target)
    ensures After(c, n) != target
  {
  }

  /** The Distance-th call sets the flag and resets the counter. */
  lemma {:induction false} HitsTarget(rule: Rule, target: U16, t: Ticker)
    requires 0 < target && t.flag == 0
    ensures Run(rule, target, t, Distance(t.counter, target)) == Ticker(0, 1)
  {
    var d := Distance(t.counter, target);
    CountsUp(rule, target, t, d - 1);
    AfterStep(t.counter, d - 1);
    assert After(t.counter, d) == target;
  }

  /** Once set, a latched flag stays set however many more calls follow. */
  lemma {:induction false} LatchStaysSet(target: U16, t: Ticker, n: nat)
    requires 0 < target && t.flag != 0
    ensures Run(Latch, target, t, n).flag != 0
  {
    if n > 0 {
      LatchStaysSet(target, t, n - 1);
    }
  }

  /** From a cleared counter and flag, a latching callback raises the flag on
      exactly the target-th call, and it is up at every call from then on. */
  lemma LatchRaisesAtTarget(target: U16, n: nat)
    requires 0 < target
    ensures Run(Latch, target, Ticker(0, 0), n).flag != 0 <==> n >= target
  {
    var t := Ticker(0, 0);
    if n < target {
      CountsUp(Latch, target, t, n);
    } else {
      HitsTarget(Latch, target, t);
      RunSplit(Latch, target, t, target, n - target);
      LatchStaysSet(target, Ticker(0, 1), n - target);
    }
  }

  /** Running `a` calls and then `b` more is running `a + b`. */
  lemma {:induction false} RunSplit(rule: Rule, target: U16, t: Ticker, a: nat, b: nat)
    requires 0 < target
    ensures Run(rule, target, Run(rule, target, t, a), b) == Run(rule, target, t, a + b)
    decreases b
  {
    if b > 0 {
      RunSplit(rule, target, t, a, b - 1);
    }
  }

  /** A pulsing callback from a cleared counter: the flag is up exactly on the
      calls that complete a full target count, and the counter holds the calls
      since the last completed count. */
  lemma {:induction false} PulsePeriodic(n: nat)
    ensures Run(Pulse, TARGET_OVERFLOWS, Ticker(0, 0), n)
            == Ticker(n % TARGET_OVERFLOWS, if n > 0 && n % TARGET_OVERFLOWS == 0 then 1 else 0)
  {
    if n > 0 {
      PulsePeriodic(n - 1);
      var r := (n - 1) % TARGET_OVERFLOWS;
      assert n - 1 == (n - 1) / TARGET_OVERFLOWS * TARGET_OVERFLOWS + r;
      if r + 1 == TARGET_OVERFLOWS {
        assert n == ((n - 1) / TARGET_OVERFLOWS + 1) * TARGET_OVERFLOWS;
      } else {
        assert n == (n - 1) / TARGET_OVERFLOWS * TARGET_OVERFLOWS + (r + 1);
      }
    }
  }

  /** The busy-wait `while (g_open_door_flag == 0) {}`: the ticker it ends with
      and the number of callback calls it takes. It always ends with the flag
      up; it takes no call iff the flag was already up, and otherwise at most
      one full turn of the uint16 counter, ending with the counter at 0. */
  function Wait(target: U16, t: Ticker): (r: (Ticker, nat))
    requires 0 < target
    ensures r.0.flag != 0
    ensures r.1 == 0 <==> t.flag != 0
    ensures t.flag == 0 ==> r.0.counter == 0 && r.1 <= 0x1_0000
  {
    if t.flag != 0 then (t, 0) else (Ticker(0, 1), Distance(t.counter, target))
  }

  /** The closed form of a wait is the callback run until the flag first goes
      up: it is up after that many calls and down after every fewer number. */
  lemma WaitIsFirstRaise(rule: Rule, target: U16, t: Ticker)
    requires 0 < target
    ensures var (r, n) := Wait(target, t);
            && r == Run(rule, target, t, n) && r.flag != 0
            && (forall m :: 0 <= m < n ==> Run(rule, target, t, m).flag == 0)
  {
    if t.flag == 0 {
      HitsTarget(rule, target, t);
      forall m | 0 <= m < Distance(t.counter, target)
        ensures Run(rule, target, t, m).flag == 0
      {
        CountsUp(rule, target, t, m);
      }
    }
  }
}
