/**
  The two machines joined by one line and driven by one clock.
*/
module Loopback {
  import opened Common
  import opened Pio
  import opened Sws
  import opened Reception
  import opened Tolerance
  import opened Enabling
  import opened Transmit

  lemma WireIsPin(feed: Feed, n: nat)
    ensures Wire(FRESH, feed, 1.0, 0.0)(n) == TxRun(FRESH, feed, n + 1).pin
  {
    hide TxRun;
    assert ((n as real - 0.0) / 1.0).Floor == n;
  }

  lemma EqualClocks(feed: Feed, n: nat)
    ensures var sm := RxRun(FRESH, Wire(FRESH, feed, 1.0, 0.0), n);
            && sm.irqs == 0 && Bytes(sm.rx) <= Fed(feed, n)
            && forall m: nat :: m + 8 <= n && Drained(feed, m) && Silent(feed, m, n) ==> Bytes(sm.rx) == Fed(feed, m)
  {
    hide RxRun, TxTrace, Wire, Fed;
    NewIsStopped();
    RoundTrip(FRESH, feed, 1.0, 0.0, 5.0, FRESH, Seek, n, n);
    NewBytes(RxRun(FRESH, Wire(FRESH, feed, 1.0, 0.0), n));
    forall m: nat | m + 8 <= n && Drained(feed, m) && Silent(feed, m, n)
      ensures Bytes(RxRun(FRESH, Wire(FRESH, feed, 1.0, 0.0), n).rx) == Fed(feed, m)
    {
      Delivered(FRESH, feed, 1.0, 0.0, 5.0, FRESH, Seek, n, m, n);
    }
  }

  lemma NewIsStopped()
    ensures Stopped(FRESH, Seek) && Early(Seek, 1.0, 0.0, 5.0) && ReadyToSend(FRESH)
  {
    NewIsReady();
  }

  lemma NewBytes(sm: Sm)
    ensures sm.rx[|FRESH.rx|..] == sm.rx
  {
  }

  /** Nothing is fed in cycles `m` to `n` - 1. */
  ghost predicate Silent(feed: Feed, m: nat, n: nat) {
    forall c: nat :: m <= c < n ==> feed(c) == []
  }

  /** Both machines, clocked together. */
  method Clock(feed: Feed, cycles: nat) returns (received: seq<byte>, breaks: nat)
    ensures breaks == 0 && received <= Fed(feed, cycles)
    ensures forall m: nat :: m + 8 <= cycles && Drained(feed, m) && Silent(feed, m, cycles) ==> received == Fed(feed, m)
  {
    var tx := new StateMachine(TX_PROGRAM);
    var rx := new StateMachine(RX_PROGRAM);
    ghost var line := Wire(FRESH, feed, 1.0, 0.0);
    var n := 0;
    while n < cycles
      invariant n <= cycles
      invariant tx.Valid() && tx.program == TX_PROGRAM && tx.Value() == TxRun(FRESH, feed, n)
      invariant rx.Valid() && rx.program == RX_PROGRAM && rx.Value() == RxRun(FRESH, line, n)
      invariant fresh(tx) && fresh(rx) && tx != rx
    {
      tx.Feed(Lanes(feed(n)));
      tx.Tick(true);
      WireIsPin(feed, n);
      rx.Tick(tx.pin);
      n := n + 1;
    }
    EqualClocks(feed, cycles);
    received, breaks := Bytes(rx.rx), rx.irqs;
  }

  // ---------- a preloaded transmitter ----------

  /** All bytes are in the FIFO before the first cycle. */
  function Preload(data: seq<byte>): Feed {
    n => if n == 0 then data else []
  }

  lemma {:induction false} PreloadFed(data: seq<byte>, n: nat)
    requires n > 0
    ensures Fed(Preload(data), n) == data
    decreases n
  {
    if n == 1 {
      assert Fed(Preload(data), 0) == [];
    } else {
      PreloadFed(data, n - 1);
    }
  }

  /** The exact position of a transmitter that never waits: 80 cycles a byte. */
  ghost predicate OnTime(st: TxState, n: nat, total: nat) {
    && (forall i :: 0 <= i < |st.starts| ==> st.starts[i].at == 80 * i + 8)
    && |st.starts| + |st.fifo| + (if st.ph.Stop? then 1 else 0) == total
    && InRange(st.ph)
    && if Sending(st.ph) then n == 80 * |st.starts| - 72 + Progress(st.ph) && st.starts != []
       else if st.ph.Stop? then n == 80 * |st.starts| + 8 - st.ph.d
       else st.fifo == [] && n > 80 * |st.starts|
  }

  lemma OnTimeStep(st: TxState, n: nat, total: nat)
    requires OnTime(st, n, total)
    ensures OnTime(TxAdvance(st, [], n), n + 1, total)
  {
    assert st.fifo + [] == st.fifo;
  }

  lemma {:induction false} PreloadOnTime(data: seq<byte>, n: nat)
    requires n > 0
    ensures OnTime(TxTrace(Preload(data), n), n, |data|)
    decreases n
  {
    if n == 1 {
      FirstOnTime(data);
    } else {
      hide OnTime, TxAdvance;
      PreloadOnTime(data, n - 1);
      OnTimeStep(TxTrace(Preload(data), n - 1), n - 1, |data|);
    }
  }

  lemma FirstOnTime(data: seq<byte>)
    ensures OnTime(TxTrace(Preload(data), 1), 1, |data|)
  {
    assert TxTrace(Preload(data), 0) == TxState(Ready, [], []) && [] + data == data;
  }

  /**
    Symbols take 8 cycles and bytes 80: frame `i` of a preloaded transmitter starts in cycle
    80i + 8, and all `data` is out after 80 cycles a byte.
  */
  lemma PreloadTiming(data: seq<byte>)
    ensures var n := 80 * |data|;
            var st := TxTrace(Preload(data), n);
            && Drained(Preload(data), n)
            && |st.starts| == |data| && forall i :: 0 <= i < |data| ==> st.starts[i] == Edge(80 * i + 8, data[i])
  {
    var n := 80 * |data|;
    if data != [] {
      PreloadOnTime(data, n);
      var st := TxTrace(Preload(data), n);
      assert st.fifo == [] && AtPull(st.ph);
      PreloadFed(data, n);
      AllSent(Preload(data), n);
      assert Sent(st.starts) == data;
    }
  }

  /** Everything sent through the two programs arrives. */
  method Transfer(data: seq<byte>) returns (received: seq<byte>)
    ensures received == data
  {
    var n := 80 * |data| + 8;
    PreloadTiming(data);
    if data != [] { PreloadFed(data, 80 * |data|); }
    var breaks;
    received, breaks := Clock(Preload(data), n);
    PreloadFed(data, n);
    assert Silent(Preload(data), if data == [] then 1 else 80 * |data|, n);
  }
}
