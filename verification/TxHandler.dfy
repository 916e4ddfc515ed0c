/**
  The end of a transmission: the interrupt handler has seen the transmitter stall, takes the pin
  over, and pulls it low for as long as twelve ticks of the microsecond counter take.
*/
module TxHandler {
  import opened Pio
  import opened Sws
  import opened Reception
  import opened Enabling
  import opened Timer
  import opened Transmit
  import opened PacketTrip

  datatype Change = Change(at: real, high: bool)

  class Pin {
    var high: bool
    ghost var changes: seq<Change>

    constructor ()
      ensures high && changes == []
    {
      high, changes := true, [];
    }

    method Set(level: bool, ghost at: real)
      modifies this
      ensures high == level && changes == old(changes) + [Change(at, level)]
    {
      high := level;
      changes := changes + [Change(at, level)];
    }
  }

  /**
    True times, in microseconds: `time(k)` is when the k-th access of the counter takes place, and
    the statement after it is executed at `next(k)`.  The counter shows whole microseconds.
  */
  ghost predicate Shows(at: nat -> nat, time: nat -> real, next: nat -> real) {
    forall k: nat :: at(k) == time(k).Floor && time(k) <= next(k) <= time(k + 1)
  }

  /** Ticks of the counter against the time that has passed. */
  lemma TicksTakeTime(at: nat -> nat, time: nat -> real, next: nat -> real, k: nat, l: nat, n: nat)
    requires Shows(at, time, next) && k < l && at(l) - at(k + 1) >= n && n > 0
    ensures next(l) - next(k) > n as real - 1.0
  {
    assert at(k) == time(k).Floor && next(k) <= time(k + 1);
    assert at(k + 1) == time(k + 1).Floor;
    assert at(l) == time(l).Floor && time(l) <= next(l);
  }

  /** And no more time than they can have taken, if the counter advances by at most `d` between accesses. */
  lemma TicksAreShort(at: nat -> nat, time: nat -> real, next: nat -> real, k: nat, l: nat, n: nat, d: nat)
    requires Shows(at, time, next) && Brisk(at, d) && k < l && at(l) - at(k + 1) <= n + d
    ensures next(l) - next(k) < (n + 1 + 3 * d) as real
  {
    assert at(k) == time(k).Floor && time(k) <= next(k) && at(k + 1) <= at(k) + d;
    assert at(l + 1) == time(l + 1).Floor && next(l) <= time(l + 1) && at(l + 1) <= at(l) + d;
  }

  /**
    The statements of the transmit handler from the stall to the end of the break; `m` and `d`
    bound the progress of the counter.  The pin is high for less than 2 + 3d us, then low for more
    than 11 and less than 13 + 3d us, then high.
  */
  method SendBreak(pin: Pin, timer: Alarm, ghost time: nat -> real, ghost next: nat -> real, ghost m: nat, ghost d: nat)
    returns (ghost fall: real, ghost rise: real)
    requires Monotone(timer.at) && Live(timer.at, m) && Brisk(timer.at, d) && 12 + d <= WRAP
    requires Shows(timer.at, time, next) && timer.accesses > 0
    modifies pin, timer`accesses
    ensures var start := next(old(timer.accesses) - 1);
            && pin.changes == old(pin.changes) + [Change(start, true), Change(fall, false), Change(rise, true)]
            && 0.0 < fall - start < (2 + 3 * d) as real && 11.0 < rise - fall < (13 + 3 * d) as real
  {
    hide Monotone, Live, Brisk, Shows;
    ghost var before := timer.accesses - 1;
    pin.Set(true, next(before));
    timer.TargetWaitUs(1, m, d);
    ghost var stop := timer.accesses - 1;
    TicksTakeTime(timer.at, time, next, before, stop, 1);
    TicksAreShort(timer.at, time, next, before, stop, 1, d);
    fall := next(stop);
    pin.Set(false, fall);
    timer.TargetWaitUs(12, m, d);
    ghost var end := timer.accesses - 1;
    TicksTakeTime(timer.at, time, next, stop, end, 12);
    TicksAreShort(timer.at, time, next, stop, end, 12, d);
    rise := next(end);
    pin.Set(true, rise);
  }

  /** In receiver cycles that is more than the 77 that a break needs, at every tolerated clock. */
  lemma BreakIsWide(p: real, fall: real, rise: real)
    requires 7.7 <= p && rise - fall > 11.0
    ensures p * (rise - fall) > 84.7
  {
    var x := rise - fall;
    assert (p - 7.7) * x >= 0.0 && p * x == 7.7 * x + (p - 7.7) * x;
  }

  /** Receiver time of a moment in microseconds of the transmitter, and width of a pulse. */
  function MomentOf(q: real, o: real, us: real): real {
    o + 8.0 * q * us
  }

  function WidthOf(q: real, fall: real, rise: real): real {
    8.0 * q * (rise - fall)
  }

  /** The wire with the handler's break. */
  function HandlerWire(tx: Sm, feed: Feed, q: real, o: real, fall: real, rise: real): Line
    requires q > 0.0
  {
    BrokenWire(tx, feed, q, o, MomentOf(q, o, fall), WidthOf(q, fall, rise))
  }

  /** The receiver, enabled in phase `ph`, is in time for the start and for the break. */
  ghost predicate InGoodTime(ph: RxPhase, q: real, o: real, d: real, fall: real)
    requires ValidPhase(ph)
  {
    Early(ph, q, o, d) && Settle(ph) as real <= MomentOf(q, o, fall) && 0.0 <= MomentOf(q, o, fall)
  }

  /** What a transmission leaves at the receiver, after any number of cycles. */
  ghost predicate Arrived(tx: Sm, feed: Feed, q: real, o: real, d: real, m: nat, fall: real, rise: real,
                          sm: Sm, c: nat)
    requires q > 0.0
  {
    && SeenAt(TxTrace(feed, m).starts, q, o, d, c)
    && forall n: nat :: PacketOver(TxTrace(feed, m).starts, feed, m, MomentOf(q, o, fall), c, sm,
                                   RxRun(sm, HandlerWire(tx, feed, q, o, fall, rise), n), n)
  }

  lemma HandlerPulse(q: real, o: real, m: nat, fall: real, rise: real)
    requires 7.7 <= 8.0 * q && m as real <= 8.0 * fall && rise - fall > 11.0
    ensures o + q * m as real <= MomentOf(q, o, fall) && WidthOf(q, fall, rise) >= 77.0
  {
    BreakIsWide(8.0 * q, fall, rise);
    Later(q, m as real, 8.0 * fall);
    assert q * (8.0 * fall) == 8.0 * q * fall;
  }

  lemma Later(q: real, x: real, y: real)
    requires q > 0.0 && x <= y
    ensures q * x <= q * y
  {
  }

  /**
    A transmission, from the bytes fed to what the receiver has got, with a break as the handler
    makes it, begun after the transmitter has stalled.  A symbol of 8 transmitter cycles takes a
    microsecond.
  */
  lemma PacketSent(tx: Sm, feed: Feed, q: real, o: real, d: real, m: nat, fall: real, rise: real,
                   sm: Sm, ph: RxPhase)
    returns (c: nat)
    requires ReadyToSend(tx) && LagOk(8.0 * q, d) && Stopped(sm, ph) && InGoodTime(ph, q, o, d, fall)
    requires Finished(feed, m) && m as real <= 8.0 * fall && rise - fall > 11.0
    ensures Arrived(tx, feed, q, o, d, m, fall, rise, sm, c)
  {
    hide PacketOver, SeenAt, TxTrace, RxRun, BrokenWire, Finished, MomentOf, WidthOf;
    HandlerPulse(q, o, m, fall, rise);
    c := PacketDelivered(tx, feed, q, o, d, m, MomentOf(q, o, fall), WidthOf(q, fall, rise), sm, ph);
  }

  /**
    The transmit handler, from the stall on, and what becomes of the transmission: `m` is the
    cycle in which the transmitter drained, before the handler's first statement here.
  */
  method CompleteTransmission(pin: Pin, timer: Alarm, ghost time: nat -> real, ghost next: nat -> real,
                              ghost live: nat, ghost step: nat,
                              ghost tx: Sm, ghost feed: Feed, ghost q: real, ghost o: real, ghost d: real, ghost m: nat,
                              ghost sm: Sm, ghost ph: RxPhase)
    returns (ghost fall: real, ghost rise: real, ghost c: nat)
    requires Monotone(timer.at) && Live(timer.at, live) && Brisk(timer.at, step) && 12 + step <= WRAP
    requires Shows(timer.at, time, next) && timer.accesses > 0
    requires ReadyToSend(tx) && LagOk(8.0 * q, d) && Stopped(sm, ph) && Early(ph, q, o, d)
    requires Finished(feed, m) && m as real <= 8.0 * next(timer.accesses - 1)
    requires var b := MomentOf(q, o, next(timer.accesses - 1)); Settle(ph) as real <= b && 0.0 <= b
    modifies pin, timer`accesses
    ensures pin.changes == old(pin.changes) +
              [Change(next(old(timer.accesses) - 1), true), Change(fall, false), Change(rise, true)]
    ensures Arrived(tx, feed, q, o, d, m, fall, rise, sm, c)
  {
    hide Arrived, MomentOf, Finished, Monotone, Live, Brisk, Shows, LagOk, Early, ReadyToSend;
    ghost var start := next(timer.accesses - 1);
    PositiveRate(q, d);
    fall, rise := SendBreak(pin, timer, time, next, live, step);
    LaterMoment(q, o, start, fall);
    InTimeForBreak(ph, q, o, d, fall);
    c := PacketSent(tx, feed, q, o, d, m, fall, rise, sm, ph);
  }

  lemma PositiveRate(q: real, d: real)
    requires LagOk(8.0 * q, d)
    ensures q > 0.0
  {
  }

  lemma LaterMoment(q: real, o: real, u: real, v: real)
    requires q > 0.0 && u <= v
    ensures MomentOf(q, o, u) <= MomentOf(q, o, v)
  {
    Later(8.0 * q, u, v);
  }

  lemma InTimeForBreak(ph: RxPhase, q: real, o: real, d: real, fall: real)
    requires ValidPhase(ph) && Early(ph, q, o, d)
    requires Settle(ph) as real <= MomentOf(q, o, fall) && 0.0 <= MomentOf(q, o, fall)
    ensures InGoodTime(ph, q, o, d, fall)
  {
  }
}
