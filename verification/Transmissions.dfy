/**
  One transmission after another, through the same two machines.  Neither program is initialised
  between transmissions: each machine is stopped, stays frozen, and is enabled again.
*/
module Transmissions {
  import opened Common
  import opened Pio
  import opened Sws
  import opened Reception
  import opened Tolerance
  import opened Enabling
  import opened Transmit
  import opened Packet
  import opened PacketTrip
  import opened TxHandler
  import opened Loopback

  /**
    A transmission: the bytes fed, drained in transmitter cycle `m`; the break from `fall` to
    `rise`, in microseconds of the transmitter; the two clocks, as for a single packet.  The
    transmitter is stopped after `k` of its cycles, the receiver after `n` of its own.
  */
  datatype Transmission = Transmission(
    feed: Feed, q: real, o: real, m: nat, k: nat, fall: real, rise: real, n: nat)

  /** The break is as the handler makes it, and the receiver is enabled nine cycles early. */
  ghost predicate Orderly(t: Transmission) {
    && 7.7 <= 8.0 * t.q <= 75.0 / 9.0
    && Finished(t.feed, t.m) && t.m < t.k
    && t.m as real <= 8.0 * t.fall && t.rise - t.fall > 11.0
    && 9.0 <= t.o + 8.0 * t.q && 9.0 <= MomentOf(t.q, t.o, t.fall)
  }

  datatype Pair = Pair(tx: Sm, rx: Sm)

  /** The machines after one transmission. */
  function Carry(p: Pair, t: Transmission): Pair {
    if t.q > 0.0 then
      var line := HandlerWire(p.tx, t.feed, t.q, t.o, t.fall, t.rise);
      Pair(TxRun(p.tx, t.feed, t.k), RxRun(p.rx, line, t.n))
    else p
  }

  function CarryAll(p: Pair, ts: seq<Transmission>): Pair {
    if ts == [] then p else Carry(CarryAll(p, ts[..|ts| - 1]), ts[|ts| - 1])
  }

  /** The bytes fed, and the zero byte unless the break had begun by the stop check of the last one. */
  function BytesSent(t: Transmission): seq<byte> {
    var starts := TxTrace(t.feed, t.m).starts;
    var missing := starts != [] &&
      Ceiling(MomentOf(t.q, t.o, t.fall)) <= Ceiling(t.o + t.q * starts[|starts| - 1].at as real) + STOP_AT;
    Fed(t.feed, t.m) + if missing then [] else [0]
  }

  function AllSentBytes(ts: seq<Transmission>): seq<byte> {
    if ts == [] then [] else AllSentBytes(ts[..|ts| - 1]) + BytesSent(ts[|ts| - 1])
  }

  /** Ready for another transmission, at both ends. */
  ghost predicate BothReady(p: Pair) {
    ReadyToSend(p.tx) && Resumable(p.rx)
  }

  /** The receiver is not stopped before the break has raised its interrupt. */
  ghost predicate Awaited(p: Pair, ts: seq<Transmission>) {
    forall i :: 0 <= i < |ts| ==> CarryAll(p, ts[..i]).rx.irqs < Carry(CarryAll(p, ts[..i]), ts[i]).rx.irqs
  }

  lemma AwaitedPrefix(p: Pair, ts: seq<Transmission>)
    requires ts != [] && Awaited(p, ts)
    ensures var k := |ts| - 1;
            Awaited(p, ts[..k]) && CarryAll(p, ts[..k]).rx.irqs < Carry(CarryAll(p, ts[..k]), ts[k]).rx.irqs
  {
    hide CarryAll, Carry;
    var k := |ts| - 1;
    forall i | 0 <= i < k
      ensures CarryAll(p, ts[..k][..i]).rx.irqs < Carry(CarryAll(p, ts[..k][..i]), ts[..k][i]).rx.irqs
    {
      assert ts[..k][..i] == ts[..i];
    }
  }

  lemma EarlyEnough(ph: RxPhase, t: Transmission)
    requires Orderly(t) && ValidPhase(ph) && Quiet(ph)
    ensures LagOk(8.0 * t.q, 1.0) && InGoodTime(ph, t.q, t.o, 1.0, t.fall)
  {
    SettlesInNine(ph);
  }

  lemma SentIsReceived(p: Pair, t: Transmission, c: nat)
    requires t.q > 0.0 && Arrived(p.tx, t.feed, t.q, t.o, 1.0, t.m, t.fall, t.rise, p.rx, c)
    requires p.rx.irqs < Carry(p, t).rx.irqs
    ensures Got(p.rx, Carry(p, t).rx, BytesSent(t), 1) && Resumable(Carry(p, t).rx)
  {
    hide TxTrace, Got, Resumable, HandlerWire, MomentOf, RxRun, TxRun;
    assert PacketOver(TxTrace(t.feed, t.m).starts, t.feed, t.m, MomentOf(t.q, t.o, t.fall), c, p.rx,
                      RxRun(p.rx, HandlerWire(p.tx, t.feed, t.q, t.o, t.fall, t.rise), t.n), t.n);
  }

  lemma OneTransmission(p: Pair, t: Transmission)
    requires BothReady(p) && Orderly(t) && p.rx.irqs < Carry(p, t).rx.irqs
    ensures Got(p.rx, Carry(p, t).rx, BytesSent(t), 1) && BothReady(Carry(p, t))
  {
    hide TxTrace, RxRun, TxRun, BytesSent, Got, Arrived, ReadyToSend, HandlerWire, MomentOf;
    var ph :| Stopped(p.rx, ph);
    EarlyEnough(ph, t);
    var c := PacketSent(p.tx, t.feed, t.q, t.o, 1.0, t.m, t.fall, t.rise, p.rx, ph);
    SentIsReceived(p, t, c);
    DrainedIsReady(p.tx, t.feed, t.m, t.k);
  }

  lemma Unrolled(p: Pair, ts: seq<Transmission>)
    ensures if ts == [] then CarryAll(p, ts) == p && Got(p.rx, p.rx, AllSentBytes(ts), 0)
            else
              var k := |ts| - 1;
              && CarryAll(p, ts) == Carry(CarryAll(p, ts[..k]), ts[k])
              && AllSentBytes(ts) == AllSentBytes(ts[..k]) + BytesSent(ts[k])
  {
    assert p.rx.rx[|p.rx.rx|..] == [];
  }

  /**
    Any number of transmissions through the same two machines, with any clocks in the tolerated
    range and any phase each time: the receiver gets exactly the bytes fed to the transmitter, in
    order, with one interrupt for each transmission, and both machines are ready for another.
  */
  lemma {:induction false} TransmissionAfterTransmission(p: Pair, ts: seq<Transmission>)
    requires BothReady(p) && (forall i :: 0 <= i < |ts| ==> Orderly(ts[i])) && Awaited(p, ts)
    ensures Got(p.rx, CarryAll(p, ts).rx, AllSentBytes(ts), |ts|) && BothReady(CarryAll(p, ts))
    decreases |ts|
  {
    hide *;
    Unrolled(p, ts);
    if ts != [] {
      var k := |ts| - 1;
      AwaitedPrefix(p, ts);
      TransmissionAfterTransmission(p, ts[..k]);
      var before := CarryAll(p, ts[..k]);
      OneTransmission(before, ts[k]);
      GotMore(p.rx, before.rx, CarryAll(p, ts).rx, AllSentBytes(ts[..k]), BytesSent(ts[k]), k);
    }
  }

  // ---------- a cut stop symbol ----------

  /**
    One byte, and a break that the handler begins a quarter of a microsecond after the stall: the
    byte arrives, the interrupt is raised, and there is no zero byte.
  */
  lemma CutStopSymbol()
    ensures Got(FRESH, RxRun(FRESH, HandlerWire(FRESH, Preload([0xff]), 1.0, 0.0, 10.25, 21.75), 170), [0xff], 1)
  {
    hide RxRun, Got, HandlerWire, Arrived, Preload, Finished, InGoodTime, MomentOf;
    var feed := Preload([0xff]);
    OneByteFed();
    NewIsStopped();
    InTimeForOne();
    var c := PacketSent(FRESH, feed, 1.0, 0.0, 1.0, 80, 10.25, 21.75, FRESH, Seek);
    OneByteArrives(c);
  }

  lemma InTimeForOne()
    ensures InGoodTime(Seek, 1.0, 0.0, 1.0, 10.25) && MomentOf(1.0, 0.0, 10.25) == 82.0
  {
  }

  lemma OneByteFed()
    ensures Finished(Preload([0xff]), 80) && Fed(Preload([0xff]), 80) == [0xff]
    ensures TxTrace(Preload([0xff]), 80).starts == [Edge(8, 0xff)]
  {
    PreloadTiming([0xff]);
    PreloadFed([0xff], 80);
  }

  lemma OneByteArrives(c: nat)
    requires Arrived(FRESH, Preload([0xff]), 1.0, 0.0, 1.0, 80, 10.25, 21.75, FRESH, c)
    ensures Got(FRESH, RxRun(FRESH, HandlerWire(FRESH, Preload([0xff]), 1.0, 0.0, 10.25, 21.75), 170), [0xff], 1)
  {
    hide RxRun, TxTrace, Got, HandlerWire, Preload, Fed, MomentOf;
    OneByteFed();
    InTimeForOne();
    var sm := RxRun(FRESH, HandlerWire(FRESH, Preload([0xff]), 1.0, 0.0, 10.25, 21.75), 170);
    assert PacketOver([Edge(8, 0xff)], Preload([0xff]), 80, 82.0, c, FRESH, sm, 170);
    assert SeenAt([Edge(8, 0xff)], 1.0, 0.0, 1.0, c);
    assert Ceiling(82.0) == 82 && Ceiling(8.0) == 8;
    assert [0xff] + [] == [0xff];
  }
}
