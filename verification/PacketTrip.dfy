/**
  A whole packet, from the bytes fed to the transmitter program to the bytes and the interrupt
  the receiver program produces, with two clocks and the closing break.
*/
module PacketTrip {
  import opened Pio
  import opened Sws
  import opened Wave
  import opened Reception
  import opened Enabling
  import opened Transmit
  import opened Packet

  /** The transmitter's wire, pulled low from time `b` for `w` cycles. */
  function BrokenWire(tx: Sm, feed: Feed, q: real, o: real, b: real, w: real): Line
    requires q > 0.0
  {
    (n: nat) => Wire(tx, feed, q, o)(n) && !(b <= n as real < b + w)
  }

  /** Nothing is fed from transmitter cycle `m` on, and all that was fed is out. */
  ghost predicate Finished(feed: Feed, m: nat) {
    Drained(feed, m) && forall c: nat :: m <= c ==> feed(c) == []
  }

  lemma EnoughCycles(q: real, o: real, m: nat, t: real) returns (k: nat)
    requires q > 0.0
    ensures k >= m && t <= o + q * k as real
  {
    var x := (t - o) / q;
    k := if x.Floor + 1 < m then m else x.Floor + 1;
    QuotientAtLeast(t - o, q, k as real);
    Commute(q, k as real);
  }

  /** A finished transmitter shows its frames for ever. */
  lemma WireOfFinished(tx: Sm, feed: Feed, q: real, o: real, m: nat, n: nat)
    requires ReadyToSend(tx)
    requires q > 0.0 && Finished(feed, m)
    ensures Wire(tx, feed, q, o)(n) == Level(Frames(TxTrace(feed, m).starts, q, o), 8.0 * q, n as real)
  {
    hide TxTrace, Wire, Drained, Level;
    var k := EnoughCycles(q, o, m, (n + 1) as real);
    StaysDrained(feed, m, k);
    WireShows(tx, feed, q, o, n + 1, k);
  }

  lemma FinishedShowsPacket(tx: Sm, feed: Feed, q: real, o: real, m: nat, b: real, w: real)
    requires ReadyToSend(tx)
    requires q > 0.0 && Finished(feed, m)
    ensures ShowsPacket(BrokenWire(tx, feed, q, o, b, w), Frames(TxTrace(feed, m).starts, q, o), 8.0 * q, b, w)
  {
    hide TxTrace, Wire, Drained, Level;
    forall n: nat ensures Wire(tx, feed, q, o)(n) == Level(Frames(TxTrace(feed, m).starts, q, o), 8.0 * q, n as real) {
      WireOfFinished(tx, feed, q, o, m, n);
    }
  }

  /** Symbol `k` of a frame started in cycle `a` has begun by cycle `m`. */
  lemma BegunBy(q: real, o: real, a: int, k: int, m: int, b: real)
    requires q > 0.0 && a + 8 * k <= m && o + q * m as real <= b
    ensures o + q * a as real + k as real * (8.0 * q) <= b
  {
    var x := a + 8 * k;
    SymbolStartIs(q, a, k, x);
    ScaleMonotone(q, x, m);
  }

  /** The break comes after the last data symbol. */
  lemma BreakPlaced(feed: Feed, q: real, o: real, m: nat, b: real)
    requires q > 0.0 && Finished(feed, m) && 0.0 <= b && o + q * m as real <= b
    ensures BreakAfter(Frames(TxTrace(feed, m).starts, q, o), 8.0 * q, b)
  {
    AllSent(feed, m);
    var starts := TxTrace(feed, m).starts;
    if starts != [] { BegunBy(q, o, starts[|starts| - 1].at, 9, m, b); }
  }

  lemma FirstFrame(feed: Feed, q: real, o: real, m: nat)
    requires q > 0.0 && Finished(feed, m)
    ensures var fs := Frames(TxTrace(feed, m).starts, q, o);
            && Spaced(fs, 8.0 * q) && Payload(fs) == Fed(feed, m)
            && (fs != [] ==> o + 8.0 * q <= fs[0].start)
  {
    AllSent(feed, m);
    var starts := TxTrace(feed, m).starts;
    FramesSpaced(starts, q, o);
    if starts != [] { ScaleMonotone(q, 8, starts[0].at); }
  }

  /**
    Packet round trip.  The bytes fed to the interpreted `jd_tx`, once its FIFO has drained in
    cycle `m`, are closed by a low pulse of 77 receiver cycles or more, begun at once or later.
    The interpreted `jd_rx`, enabled in any quiet phase, raises its interrupt exactly once and
    then has got exactly these bytes and the zero byte of the break, unless the break had begun
    75 cycles after the cycle `c` that saw the start of the last byte.
  */
  lemma PacketDelivered(tx: Sm, feed: Feed, q: real, o: real, d: real, m: nat, b: real, w: real,
                        sm: Sm, ph: RxPhase)
    returns (c: nat)
    requires ReadyToSend(tx)
    requires LagOk(8.0 * q, d) && Stopped(sm, ph) && Early(ph, q, o, d) && Settle(ph) as real <= b
    requires Finished(feed, m) && 0.0 <= b && o + q * m as real <= b && w >= 77.0
    ensures SeenAt(TxTrace(feed, m).starts, q, o, d, c)
    ensures forall n: nat ::
              PacketOver(TxTrace(feed, m).starts, feed, m, b, c, sm, RxRun(sm, BrokenWire(tx, feed, q, o, b, w), n), n)
  {
    hide TxTrace, RxRun, BrokenWire, Fed, Finished, Frames;
    hide ShowsPacket, BreakAfter, Spaced, SeenAt, PacketOver, PacketState;
    var starts := TxTrace(feed, m).starts;
    var fs := Frames(starts, q, o);
    FirstFrame(feed, q, o, m);
    BreakPlaced(feed, q, o, m, b);
    FinishedShowsPacket(tx, feed, q, o, m, b, w);
    var line := BrokenWire(tx, feed, q, o, b, w);
    c := PacketReceived(fs, 8.0 * q, d, line, b, w, sm, ph);
    SeenInTicks(starts, q, o, d, c);
    forall n: nat ensures PacketOver(starts, feed, m, b, c, sm, RxRun(sm, line, n), n) {
      OverInTicks(starts, q, o, feed, m, b, w, c, sm, RxRun(sm, line, n), n);
    }
  }

  lemma SeenInTicks(starts: seq<Edge>, q: real, o: real, d: real, c: nat)
    requires var fs := Frames(starts, q, o);
             fs != [] ==>
               && fs[|fs| - 1].start <= c as real < fs[|fs| - 1].start + d
               && (d == 1.0 ==> c == Ceiling(fs[|fs| - 1].start))
    ensures SeenAt(starts, q, o, d, c)
  {
    if starts != [] {
      var fs := Frames(starts, q, o);
      assert fs[|fs| - 1].start == o + q * starts[|starts| - 1].at as real;
    }
  }

  lemma OverInTicks(starts: seq<Edge>, q: real, o: real, feed: Feed, m: nat, b: real, w: real, c: nat,
                    sm: Sm, sm': Sm, n: nat)
    requires PacketState(Frames(starts, q, o), b, w, c, sm, sm', n) && Payload(Frames(starts, q, o)) == Fed(feed, m)
    ensures PacketOver(starts, feed, m, b, c, sm, sm', n)
  {
    assert Fed(feed, m) + [] == Fed(feed, m);
  }

  /** The last start is seen in cycle `c`: the first cycle that shows it, for a receiver not enabled too late. */
  ghost predicate SeenAt(starts: seq<Edge>, q: real, o: real, d: real, c: nat) {
    starts != [] ==>
      var t := o + q * starts[|starts| - 1].at as real;
      t <= c as real < t + d && (d == 1.0 ==> c == Ceiling(t))
  }

  /** The machine after `n` cycles. */
  ghost predicate PacketOver(starts: seq<Edge>, feed: Feed, m: nat, b: real, c: nat, sm: Sm, sm': Sm, n: nat) {
    && sm.irqs <= sm'.irqs <= sm.irqs + 1
    && (b + 79.0 <= n as real ==> sm'.irqs == sm.irqs + 1)
    && (sm'.irqs > sm.irqs ==>
          var missing := starts != [] && Ceiling(b) <= c + STOP_AT;
          Got(sm, sm', Fed(feed, m) + (if missing then [] else [0]), 1) && Resumable(sm'))
  }

  /** A whole stop symbol before the break is always enough for the zero byte. */
  lemma FullStopIsEnough(feed: Feed, q: real, o: real, d: real, m: nat, b: real, c: nat)
    requires LagOk(8.0 * q, d) && Finished(feed, m) && o + q * (m + 8) as real <= b
    requires TxTrace(feed, m).starts != []
    requires c as real < o + q * TxTrace(feed, m).starts[|TxTrace(feed, m).starts| - 1].at as real + d
    ensures Ceiling(b) > c + STOP_AT
  {
    AllSent(feed, m);
    var starts := TxTrace(feed, m).starts;
    BegunBy(q, o, starts[|starts| - 1].at, 10, m + 8, b);
  }
}
