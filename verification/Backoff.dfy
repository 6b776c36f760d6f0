/** The watchdog's waits, in the 64-bit arithmetic that computes them. */
module Backoff {

  type Duration = int  // nanoseconds

  const SECOND: Duration := 1_000_000_000
  const CAP: Duration := 30 * SECOND

  /** Twice a signed 64-bit word, without the bit that leaves it. */
  function Twice(x: int): int {
    if x >= 0x4000_0000_0000_0000 then 2 * x - 0x1_0000_0000_0000_0000
    else if x < -0x4000_0000_0000_0000 then 2 * x + 0x1_0000_0000_0000_0000
    else 2 * x
  }

  /** Twice is doubling in two's complement: congruent modulo 2^64, and a signed word again. */
  lemma TwiceIsDoubling(x: int)
    requires -0x8000_0000_0000_0000 <= x < 0x8000_0000_0000_0000
    ensures -0x8000_0000_0000_0000 <= Twice(x) < 0x8000_0000_0000_0000
    ensures Twice(x) % 0x1_0000_0000_0000_0000 == (2 * x) % 0x1_0000_0000_0000_0000
  {
    if x >= 0x4000_0000_0000_0000 {
      assert Twice(x) == 2 * x - 0x1_0000_0000_0000_0000;
    }
  }

  /** d << n, which shifts one bit n times. */
  function ShiftLeft(d: Duration, n: nat): Duration {
    if n == 0 then d else Twice(ShiftLeft(d, n - 1))
  }

  /** watchdogBackoff */
  function Wait(restartCount: int): Duration {
    var count := if restartCount < 0 then 0 else restartCount;
    var d := ShiftLeft(SECOND, count);
    if d > CAP then CAP else d
  }

  function Pow2(n: nat): nat {
    if n == 0 then 1 else 2 * Pow2(n - 1)
  }

  // ----- when the wait is what was intended -----

  /** The counts beyond 33 whose shifted word happens to come out positive. */
  const LUCKY: set<int> := {37, 41, 42, 45, 47, 50, 51, 53}

  predicate Intended(restartCount: int) {
    SECOND <= Wait(restartCount) <= CAP
  }

  lemma {:induction false} PowersGrow(m: nat, n: nat)
    requires m <= n
    ensures 1 <= Pow2(m) <= Pow2(n)
  {
    if m < n {
      PowersGrow(m, n - 1);
    } else if m > 0 {
      PowersGrow(m - 1, m - 1);
    }
  }

  lemma {:induction false} PowersAdd(m: nat, n: nat)
    ensures Pow2(m + n) == Pow2(m) * Pow2(n)
    decreases n
  {
    if n > 0 {
      PowersAdd(m, n - 1);
    }
  }

  lemma PowersOf32()
    ensures Pow2(32) == 0x1_0000_0000 && Pow2(33) == 0x2_0000_0000
  {
    assert Pow2(8) == 256;
    PowersAdd(8, 8);
    PowersAdd(16, 16);
    PowersAdd(32, 1);
  }

  /** Up to 33 nothing is lost: the word holds 2^n seconds. */
  lemma {:induction false} NoLoss(n: nat)
    requires n <= 33
    ensures ShiftLeft(SECOND, n) == Pow2(n) * SECOND
  {
    if n > 0 {
      NoLoss(n - 1);
      PowersGrow(n - 1, 32);
      PowersOf32();
    }
  }

  /** The words from 34 on, until every bit has left. */
  const WORDS: seq<int> := [
    -1266874889709551616, -2533749779419103232, -5067499558838206464, 8311744956033138688,
    -1823254161643274240, -3646508323286548480, -7293016646573096960, 3860710780563357696,
    7721421561126715392, -3003900951456120832, -6007801902912241664, 6431140267885068288,
    -5584463537939415040, 7277816997830721536, -3891110078048108544, -7782220156096217088,
    2882303761517117440, 5764607523034234880, -6917529027641081856, 4611686018427387904,
    -9223372036854775808, 0
  ]

  lemma WordsDouble(i: nat)
    requires i + 1 < |WORDS|
    ensures WORDS[i + 1] == Twice(WORDS[i])
  {
  }

  lemma SignOfWord(i: nat)
    requires i < 21
    ensures if 34 + i in LUCKY then WORDS[i] > CAP else WORDS[i] < 0
  {
  }

  lemma {:induction false} WordAt(i: nat)
    requires i < |WORDS|
    ensures ShiftLeft(SECOND, 34 + i) == WORDS[i]
  {
    if i == 0 {
      NoLoss(33);
      PowersOf32();
    } else {
      WordAt(i - 1);
      WordsDouble(i - 1);
    }
  }

  lemma LossyWord(n: nat)
    requires 34 <= n < 55
    ensures if n in LUCKY then ShiftLeft(SECOND, n) > CAP else ShiftLeft(SECOND, n) < 0
  {
    SignOfWord(n - 34);
    WordAt(n - 34);
  }

  lemma {:induction false} AllBitsGone(n: nat)
    requires n >= 55
    ensures ShiftLeft(SECOND, n) == 0
  {
    if n == 55 {
      WordAt(21);
    } else {
      AllBitsGone(n - 1);
    }
  }

  /** Exactly when a wait lies between one and thirty seconds. */
  lemma IntendedExactly(restartCount: int)
    ensures Intended(restartCount) <==> restartCount <= 33 || restartCount in LUCKY
  {
    var n := if restartCount < 0 then 0 else restartCount;
    if n <= 33 {
      NoLoss(n);
      PowersGrow(0, n);
    } else if n < 55 {
      LossyWord(n);
    } else {
      AllBitsGone(n);
    }
  }

  /** Within the first 34 counts waits never get shorter. */
  lemma WaitsGrow(m: int, n: int)
    requires m <= n <= 33
    ensures Wait(m) <= Wait(n)
  {
    var a, b := if m < 0 then 0 else m, if n < 0 then 0 else n;
    NoLoss(a);
    NoLoss(b);
    PowersGrow(a, b);
  }

  /** A policy of at most `max` restarts only ever waits as intended exactly if it allows between 1 and 34 of them.
      The API accepts 0 (no limit) up to 100. */
  lemma PolicyWaitsAsIntended(max: nat)
    ensures (forall count: nat :: max == 0 || count < max ==> Intended(count)) <==> 1 <= max <= 34
  {
    IntendedExactly(34);
    if 1 <= max <= 34 {
      forall count: nat | count < max
        ensures Intended(count)
      {
        IntendedExactly(count);
      }
    }
  }

  // ----- the watch loop -----

  /** A timer with a negative duration fires at once. */
  function Slept(d: Duration): nat {
    if d < 0 then 0 else d
  }

  function TotalWait(count: nat, restarts: nat): nat {
    if restarts == 0 then 0 else TotalWait(count, restarts - 1) + Slept(Wait(count + restarts - 1))
  }

  /** The loop of `watch` over a process that exits `exits` times, with no cancel and every relaunch succeeding. */
  method Watch(exits: nat, maxRestarts: nat, count0: nat) returns (count: nat, waited: nat, gaveUp: bool)
    ensures gaveUp <==> maxRestarts > 0 && count0 + exits > maxRestarts && exits > 0
    ensures count == if maxRestarts == 0 || count0 + exits <= maxRestarts then count0 + exits
                     else if count0 <= maxRestarts then maxRestarts else count0
    ensures waited == TotalWait(count0, count - count0)
  {
    count, waited, gaveUp := count0, 0, false;
    var n := 0;
    while n < exits
      invariant n <= exits && !gaveUp && count == count0 + n
      invariant n > 0 && maxRestarts > 0 ==> count <= maxRestarts
      invariant waited == TotalWait(count0, n)
    {
      n := n + 1;
      if maxRestarts > 0 && count >= maxRestarts {
        gaveUp := true;
        return;
      }
      waited := waited + Slept(Wait(count));
      count := count + 1;
    }
  }

  /** The first waits double, then each is the cap. */
  lemma {:induction false} FirstWaits(k: nat)
    requires k <= 34
    ensures TotalWait(0, k) == if k <= 5 then (Pow2(k) - 1) * SECOND else (31 + 30 * (k - 5)) * SECOND
  {
    if k > 0 {
      FirstWaits(k - 1);
      NoLoss(k - 1);
      if k > 5 {
        PowersGrow(5, k - 1);
        assert Pow2(5) == 32;
      } else {
        PowersGrow(k - 1, 4);
        assert Pow2(4) == 16;
      }
    }
  }

  /** What the counts from 34 up to `to` still wait. */
  function LateTotal(to: nat): nat {
    if to <= 34 then 0 else LateTotal(to - 1) + if to - 1 in LUCKY then CAP else 0
  }

  lemma LateWait(n: nat)
    requires n >= 34
    ensures Slept(Wait(n)) == if n in LUCKY then CAP else 0
  {
    if n < 55 {
      LossyWord(n);
    } else {
      AllBitsGone(n);
    }
  }

  lemma {:induction false} LateWaits(k: nat)
    requires k >= 34
    ensures TotalWait(0, k) == 901 * SECOND + LateTotal(k)
  {
    if k > 34 {
      LateWaits(k - 1);
      LateWait(k - 1);
    } else {
      FirstWaits(k);
    }
  }

  lemma {:induction false} EightAreLucky(k: nat)
    requires k >= 55
    ensures LateTotal(k) == 8 * CAP
  {
    if k == 55 {
      assert LateTotal(42) == 2 * CAP;
      assert LateTotal(48) == 5 * CAP;
    } else {
      EightAreLucky(k - 1);
    }
  }

  /** However often a process without a restart limit dies, all waits together are 1141 seconds: from the 55th restart
      on it is relaunched without any wait. */
  lemma WaitsRunDry(restarts: nat)
    requires restarts >= 55
    ensures TotalWait(0, restarts) == 1141 * SECOND && Wait(restarts) == 0
  {
    LateWaits(restarts);
    EightAreLucky(restarts);
    AllBitsGone(restarts);
  }
}
