/**
  The microsecond timer: a 64-bit count that can only be read as two 32-bit halves, busy
  waiting on its low half, and the one-shot alarm.

  The count advances between any two accesses.  `at(k)` is its true value when the k-th access
  takes place; what is proved holds for every monotone `at`, unless a bound is stated.
*/
module Timer {
  import opened Common

  const WRAP: nat := 0x1_0000_0000

  /** A deadline this far ahead, or less, is told from one that has passed. */
  const HORIZON: nat := 0x2000_0000

  ghost predicate Monotone(at: nat -> nat) {
    forall i: nat, j: nat :: i <= j ==> at(i) <= at(j)
  }

  /** The 64-bit count does not overflow. */
  ghost predicate Fits(at: nat -> nat) {
    forall i: nat :: at(i) < WRAP * WRAP
  }

  /** From one access to the next the count advances by at most `d`. */
  ghost predicate Brisk(at: nat -> nat, d: nat) {
    forall i: nat :: at(i + 1) <= at(i) + d
  }

  /** In `m` accesses the count advances; it may stand still from one to the next. */
  ghost predicate Live(at: nat -> nat, m: nat) {
    forall i: nat :: at(i) < at(i + m)
  }

  function Low(t: nat): word {
    t % WRAP
  }

  function High(t: nat): word {
    t / WRAP % WRAP
  }

  /** Subtraction of 32-bit words. */
  function Minus(a: int, b: int): word {
    (a - b) % WRAP
  }

  lemma MinusOfLow(a: nat, b: nat)
    ensures Minus(Low(a), Low(b)) == (a - b) % WRAP
  {
    var qa, qb := a / WRAP, b / WRAP;
    assert Low(a) - Low(b) == (a - b) + WRAP * (qb - qa);
    ModShift(a - b, qb - qa);
  }

  lemma ModShift(x: int, k: int)
    ensures (x + WRAP * k) % WRAP == x % WRAP
  {
    var y := x + WRAP * k;
    assert WRAP * (y / WRAP - x / WRAP - k) == x % WRAP - y % WRAP;
  }

  lemma ModUnique(x: int, k: int, r: int)
    requires 0 <= r < WRAP && x == WRAP * k + r
    ensures x % WRAP == r
  {
    ModShift(r, k);
  }

  // ---------- the 64-bit read ----------

  lemma HighGrows(a: nat, b: nat)
    requires a <= b < WRAP * WRAP
    ensures High(a) <= High(b)
  {
    assert 0 <= a / WRAP <= b / WRAP < WRAP;
  }

  /** The high half is the same at both ends of an interval, so it is in between. */
  lemma SameHigh(a: nat, b: nat, c: nat)
    requires a <= b <= c < WRAP * WRAP && High(a) == High(c)
    ensures High(a) * WRAP + Low(b) == b
  {
    assert 0 <= a / WRAP <= b / WRAP <= c / WRAP < WRAP;
  }

  /** Two carries into the high half are a whole turn of the low half apart. */
  lemma TwoCarries(a: nat, b: nat, c: nat)
    requires a <= b <= c && High(a) != High(b) && High(b) != High(c)
    ensures c - a > WRAP
  {
  }

  lemma InOrder(at: nat -> nat, k: nat)
    requires Monotone(at) && Fits(at)
    ensures at(k) <= at(k + 1) <= at(k + 2) < WRAP * WRAP
  {
  }

  lemma FourSteps(at: nat -> nat, k: nat, d: nat)
    requires Brisk(at, d)
    ensures at(k + 4) <= at(k) + 4 * d
  {
    assert at(k + 1) <= at(k) + d && at(k + 1 + 1) <= at(k + 1) + d;
    assert at(k + 2 + 1) <= at(k + 2) + d && at(k + 3 + 1) <= at(k + 3) + d;
  }

  // ---------- busy waiting ----------

  /** The wait ends at an access only when the time has passed, however late the access is. */
  lemma NeverEarly(start: nat, now: nat, n: word)
    requires start <= now && Minus(Low(now), Low(start)) >= n
    ensures now - start >= n
  {
    MinusOfLow(now, start);
  }

  /** Enough reads see any given time pass. */
  lemma {:induction false} Passes(at: nat -> nat, k: nat, m: nat, n: nat)
    requires Live(at, m)
    ensures at(k + m * n) >= at(k) + n
  {
    if n > 0 {
      Passes(at, k, m, n - 1);
      assert k + m * n == k + m * (n - 1) + m;
    }
  }

  lemma Before(at: nat -> nat, i: nat, j: nat)
    requires Monotone(at) && at(i) < at(j)
    ensures i < j
  {
  }

  lemma OneStep(at: nat -> nat, k: nat, d: nat)
    requires Monotone(at) && Brisk(at, d)
    ensures at(k) <= at(k + 1) <= at(k) + d
  {
  }

  /** It ends there, unless so much time has passed that the difference wrapped. */
  lemma EndsInTime(start: nat, now: nat, n: word)
    requires start + n <= now < start + WRAP
    ensures Minus(Low(now), Low(start)) >= n
  {
    MinusOfLow(now, start);
  }

  // ---------- the alarm ----------

  /** The handler's test for a deadline that is still ahead. */
  predicate Rearms(alarm: word, now: word) {
    Minus(alarm, now + 5) / 0x2000_0000 == 0
  }

  /** On true times: for a deadline within the horizon, exactly those at least 5 us ahead. */
  lemma RearmsIff(deadline: nat, now: nat)
    ensures Rearms(Low(deadline), Low(now)) <==> (deadline - now - 5) % WRAP < HORIZON
    ensures -(7 * HORIZON) <= deadline - now - 5 < HORIZON ==>
            (Rearms(Low(deadline), Low(now)) <==> deadline >= now + 5)
  {
    var qa, qb := deadline / WRAP, now / WRAP;
    var x := deadline - now - 5;
    assert Low(deadline) - (Low(now) + 5) == x + WRAP * (qb - qa);
    ModShift(x, qb - qa);
    if -(7 * HORIZON) <= x < 0 { ModUnique(x, -1, x + WRAP); }
  }

  /**
    The horizon is exact.  For a deadline 5 us ahead or more, but less than a turn of the
    counter, a handler called now runs the callback too early iff the deadline is beyond it.
  */
  lemma HorizonIsExact(deadline: nat, now: nat)
    requires now + 5 <= deadline < now + WRAP
    ensures !Rearms(Low(deadline), Low(now)) <==> deadline >= now + 5 + HORIZON
  {
    RearmsIff(deadline, now);
    ModUnique(deadline - now - 5, 0, deadline - now - 5);
  }

  /** Called at time 0 for a deadline 2^29 + 5 us ahead, the handler would run the callback at once. */
  lemma TooFarAhead()
    ensures !Rearms(Low(HORIZON + 5), Low(0)) && Rearms(Low(HORIZON + 4), Low(0))
  {
    HorizonIsExact(HORIZON + 5, 0);
    HorizonIsExact(HORIZON + 4, 0);
  }

  /** A call of tim_set_timer. */
  datatype Request = Request(delta: int, cb: nat)

  /** A callback that was run: for which arming, when, and which. */
  datatype Run = Run(arming: nat, time: nat, cb: nat)

  class Alarm {
    // hardware
    const at: nat -> nat
    var accesses: nat
    var alarm: word
    // driver
    var timerCb: Option<nat>
    const minMaxSleep: int  // JD_MIN_MAX_SLEEP, and jd_max_sleep
    const maxSleep: word
    // what the n-th callback run asks for, given which it is
    const script: (nat, nat) -> seq<Request>
    var callbacks: nat
    // history: in order of arming, the calls, the access each counts from, and the deadlines; callbacks run
    ghost var armed: seq<Request>
    ghost var from: seq<nat>
    ghost var deadlines: seq<nat>
    ghost var runs: seq<Run>

    /** Each deadline counts the delay of its call from an instant of the true time. */
    ghost predicate Ledger()
      reads this
    {
      && |armed| == |from| == |deadlines|
      && (forall i :: 0 <= i < |from| ==> from[i] < accesses)
      && (forall i :: 0 <= i < |armed| ==> deadlines[i] == at(from[i]) + Delay(armed[i].delta))
    }

    /** Callbacks run in order of arming, each arming once at most, with its own callback, and none 5 us early. */
    ghost predicate InTurn()
      requires |armed| == |deadlines|
      reads this`armed, this`deadlines, this`runs, this`callbacks
    {
      && callbacks == |runs|
      && (forall i :: 0 <= i < |runs| ==> runs[i].arming < |armed| && runs[i].cb == armed[runs[i].arming].cb)
      && (forall i, j :: 0 <= i < j < |runs| ==> runs[i].arming < runs[j].arming)
      && (forall i :: 0 <= i < |runs| ==> runs[i].time + 5 > deadlines[runs[i].arming])
    }

    /** The latest arming, of `cb`, has not run. */
    ghost predicate Outstanding(cb: nat)
      reads this`armed, this`runs
    {
      && armed != [] && armed[|armed| - 1].cb == cb
      && (forall i :: 0 <= i < |runs| ==> runs[i].arming < |armed| - 1)
    }

    /** The pending callback is that of the latest arming, for whose deadline the alarm is set. */
    ghost predicate Valid()
      reads this
    {
      && Monotone(at) && Fits(at) && Ledger() && InTurn()
      && (timerCb.Some? ==> Outstanding(timerCb.value) && alarm == Low(deadlines[|deadlines| - 1]))
    }

    constructor (at: nat -> nat, minMaxSleep: int, maxSleep: word, script: (nat, nat) -> seq<Request>)
      requires Monotone(at) && Fits(at)
      ensures Valid() && timerCb.None? && runs == []
    {
      this.at, this.minMaxSleep, this.maxSleep, this.script := at, minMaxSleep, maxSleep, script;
      accesses, alarm, timerCb, callbacks := 0, 0, None, 0;
      armed, from, deadlines, runs := [], [], [], [];
    }

    /** timerawl. */
    method ReadLow() returns (w: word)
      modifies this`accesses
      ensures accesses == old(accesses) + 1 && w == Low(at(old(accesses)))
    {
      w := at(accesses) % WRAP;
      accesses := accesses + 1;
    }

    /** timerawh. */
    method ReadHigh() returns (w: word)
      modifies this`accesses
      ensures accesses == old(accesses) + 1 && w == High(at(old(accesses)))
    {
      w := at(accesses) / WRAP % WRAP;
      accesses := accesses + 1;
    }

    /** One turn of the loop of tim_get_micros: the low half, then the high half once more. */
    method ReadAgain(hi: word) returns (lo: word, nextHi: word)
      requires Monotone(at) && Fits(at) && accesses > 0 && hi == High(at(accesses - 1))
      modifies this`accesses
      ensures accesses == old(accesses) + 2
      ensures hi <= nextHi && nextHi == High(at(accesses - 1))
      ensures hi == nextHi ==> hi * WRAP + lo == at(accesses - 2)
    {
      hide High, Low, Monotone, Fits;
      ghost var k := accesses - 1;
      lo := ReadLow();
      nextHi := ReadHigh();
      InOrder(at, k);
      HighGrows(at(k), at(k + 2));
      if hi == nextHi { SameHigh(at(k), at(k + 1), at(k + 2)); }
    }

    /**
      tim_get_micros.  Whatever time passes between the reads, the result is the count at one
      access after the call began and before it ends.  With less than a quarter turn of the low
      half from one access to the next, it takes at most one retry.
    */
    method GetMicros() returns (r: nat)
      requires Monotone(at) && Fits(at)
      modifies this`accesses
      ensures old(accesses) + 3 <= accesses && r == at(accesses - 2)
      ensures forall d: nat :: 4 * d <= WRAP && Brisk(at, d) ==> accesses <= old(accesses) + 5
    {
      hide High, Low, Monotone, Fits, Brisk;
      var hi := ReadHigh();
      var lo, nextHi;
      ghost var k := old(accesses);
      while true
        invariant accesses > k && hi == High(at(accesses - 1))
        invariant accesses == k + 1 || (accesses == k + 3 && High(at(k)) != hi) || accesses > k + 3
        invariant accesses > k + 3 ==> at(k + 4) > at(k) + WRAP
        decreases WRAP - hi
      {
        lo, nextHi := ReadAgain(hi);
        if hi == nextHi { break; }
        if accesses == k + 5 { InOrder(at, k); InOrder(at, k + 2); TwoCarries(at(k), at(k + 2), at(k + 4)); }
        hi := nextHi;
      }
      r := hi * WRAP + lo;
      forall d: nat | 4 * d <= WRAP && Brisk(at, d) ensures accesses <= k + 5 {
        FourSteps(at, k, d);
      }
    }

    /**
      target_wait_us.  It returns once `n` us have passed since its first read, and at most `d`
      us after that, if the counter advances by at most `d` from one read to the next.
    */
    method TargetWaitUs(n: word, ghost m: nat, ghost d: nat)
      requires Monotone(at) && Live(at, m) && Brisk(at, d) && n + d <= WRAP
      modifies this`accesses
      ensures accesses >= old(accesses) + 2
      ensures n <= at(accesses - 1) - at(old(accesses)) <= n + d
    {
      hide Low, Live, Minus, Monotone, Brisk;
      ghost var k, first := accesses, at(accesses);
      ghost var last := k + m * n;
      Passes(at, k, m, n);
      OneStep(at, k, d);
      var start := ReadLow();
      var now := ReadLow();
      while Minus(now, start) < n
        invariant accesses >= k + 2 && now == Low(at(accesses - 1))
        invariant first <= at(accesses - 1) <= first + n + d
        invariant n > 0 ==> at(accesses - 1) < first + n + d
        decreases last + 1 - accesses
      {
        ghost var t := at(accesses - 1);
        if t >= first + n { EndsInTime(first, t, n); }
        Before(at, accesses - 1, last);
        OneStep(at, accesses - 1, d);
        now := ReadLow();
      }
      NeverEarly(first, at(accesses - 1), n);
    }

    /** The delay tim_set_timer uses. */
    function Delay(delta: int): nat {
      var d := if delta < 10 then 10 else delta;
      if d == minMaxSleep then maxSleep else d
    }

    /** These calls have armed the timer, each at an access from `first` on. */
    twostate predicate Arms(requests: seq<Request>, first: nat)
      reads this
    {
      && armed == old(armed) + requests
      && old(from) <= from && old(deadlines) <= deadlines
      && (forall i :: |old(from)| <= i < |from| ==> first <= from[i])
    }

    /**
      tim_set_timer: the deadline counts from an instant within the call, and the delay is
      `delta`, but at least 10 us, and another one in place of one certain value.
    */
    method SetTimer(delta: int, cb: nat)
      requires Valid()
      modifies this`accesses, this`alarm, this`timerCb, this`armed, this`from, this`deadlines
      ensures Valid() && timerCb == Some(cb) && accesses >= old(accesses) + 3
      ensures Arms([Request(delta, cb)], old(accesses)) && |deadlines| == |old(deadlines)| + 1
      ensures var x := if delta > 10 then delta else 10;
              var deadline := deadlines[|old(deadlines)|];
              && (x != minMaxSleep ==> at(old(accesses)) <= deadline - x <= at(accesses - 1))
              && (x == minMaxSleep ==> at(old(accesses)) <= deadline - maxSleep <= at(accesses - 1))
    {
      hide Fits, Low, Ledger, InTurn;
      var d := if delta < 10 then 10 else delta;
      if d == minMaxSleep { d := maxSleep; }
      SetAlarm(d, Request(delta, cb));
      assert at(old(accesses)) <= at(accesses - 2) <= at(accesses - 1);
    }

    /** Its part with interrupts disabled. */
    method SetAlarm(d: nat, r: Request)
      requires Valid() && d == Delay(r.delta)
      modifies this`accesses, this`alarm, this`timerCb, this`armed, this`from, this`deadlines
      ensures Valid() && timerCb == Some(r.cb) && accesses >= old(accesses) + 3
      ensures Arms([r], old(accesses)) && deadlines == old(deadlines) + [at(accesses - 2) + d]
    {
      hide Monotone, Fits, Low, High, Brisk, Delay;
      timerCb := Some(r.cb);
      var micros := GetMicros();
      alarm := (micros % WRAP + d) % WRAP;
      armed, from, deadlines := armed + [r], from + [accesses - 2], deadlines + [micros + d];
      LowOfSum(micros, d);
    }

    lemma LowOfSum(t: nat, d: nat)
      ensures (t % WRAP + d) % WRAP == Low(t + d)
    {
      ModShift(t % WRAP + d, t / WRAP);
    }

    /** The callback runs, and may arm the timer again: the only place where runs are logged. */
    method RunCallback(cb: nat, ghost time: nat)
      requires Valid() && timerCb.None? && Outstanding(cb) && time + 5 > deadlines[|deadlines| - 1]
      modifies this
      ensures Valid() && Arms(script(old(callbacks), cb), old(accesses))
      ensures runs == old(runs) + [Run(|old(deadlines)| - 1, time, cb)]
    {
      var requests := script(callbacks, cb);
      callbacks := callbacks + 1;
      runs := runs + [Run(|deadlines| - 1, time, cb)];
      ArmAll(requests);
    }

    method ArmAll(requests: seq<Request>)
      requires Valid()
      modifies this`accesses, this`alarm, this`timerCb, this`armed, this`from, this`deadlines
      ensures Valid() && Arms(requests, old(accesses))
    {
      hide Valid;
      assert requests[..|requests|] == requests;
      for k := 0 to |requests|
        invariant Valid() && accesses >= old(accesses) && Arms(requests[..k], old(accesses))
      {
        SetTimer(requests[k].delta, requests[k].cb);
      }
    }

    /** The end of tim_handler: the callback is removed, then run. */
    method Expire(ghost time: nat)
      requires Valid() && timerCb.Some? && time + 5 > deadlines[|deadlines| - 1]
      modifies this
      ensures Valid() && Arms(script(old(callbacks), old(timerCb).value), old(accesses))
      ensures runs == old(runs) + [Run(|old(deadlines)| - 1, time, old(timerCb).value)]
    {
      var f := timerCb.value;
      timerCb := None;
      RunCallback(f, time);
    }

    /**
      tim_handler.  If the latest deadline is 5 us ahead or more, the same alarm is set again and
      the callback stays; otherwise the callback of that arming runs, having been removed first.
    */
    method TimHandler()
      requires Valid()
      requires timerCb.Some? ==> -(7 * HORIZON) <= deadlines[|deadlines| - 1] - at(accesses) - 5 < HORIZON
      modifies this
      ensures Valid() && old(deadlines) <= deadlines
      ensures old(timerCb).None? ==> unchanged(this)
      ensures old(timerCb).Some? ==>
        var i := |old(deadlines)| - 1;
        var now := at(old(accesses));
        if old(deadlines)[i] >= now + 5
        then timerCb == old(timerCb) && alarm == old(alarm) && deadlines == old(deadlines) && runs == old(runs)
        else
          && runs == old(runs) + [Run(i, now, old(timerCb).value)]
          && Arms(script(old(callbacks), old(timerCb).value), old(accesses) + 1)
    {
      hide Low, Rearms, Monotone, Fits;
      if timerCb.Some? {
        var tal := alarm;
        ghost var i, time := |deadlines| - 1, at(accesses);
        RearmsIff(deadlines[i], time);
        var now := ReadLow();
        if Rearms(tal, now) {
          alarm := tal;
          return;
        }
        Expire(time);
      }
    }
  }
}
