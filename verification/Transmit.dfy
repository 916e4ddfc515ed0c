/**
  What `jd_tx` puts on the line, and the round trip through `jd_rx`.
*/
module Transmit {
  import opened Common
  import opened Pio
  import opened Sws
  import opened Wave
  import opened Reception
  import opened Tolerance
  import opened Enabling

  /** Bytes the transmit DMA adds to the FIFO before each transmitter cycle; any schedule. */
  type Feed = nat -> seq<byte>

  function Lanes(data: seq<byte>): seq<word> {
    seq(|data|, i requires 0 <= i < |data| => Replicate(data[i]))
  }

  /** At `pull`, with an empty FIFO and the line high; x and the OSR may hold anything. */
  ghost predicate ReadyToSend(tx: Sm) {
    TxRep(tx, Ready) && tx.tx == []
  }

  lemma NewIsReady()
    ensures ReadyToSend(FRESH)
  {
  }

  /** The interpreted transmitter, enabled as `tx`, after `n` cycles. */
  function TxRun(tx: Sm, feed: Feed, n: nat): Sm {
    if n == 0 then tx
    else
      var s := TxRun(tx, feed, n - 1);
      var s' := s.(tx := s.tx + Lanes(feed(n - 1)));
      if s'.pc < |TX_PROGRAM.code| then Step(TX_PROGRAM, s', true) else s'
  }

  /** Everything fed before cycle `n`. */
  function Fed(feed: Feed, n: nat): seq<byte> {
    if n == 0 then [] else Fed(feed, n - 1) + feed(n - 1)
  }

  /** A start symbol that began in a transmitter cycle. */
  datatype Edge = Edge(at: int, data: byte)

  /** The same run in terms of the phase automaton, with the frames started so far. */
  datatype TxState = TxState(ph: TxPhase, fifo: seq<byte>, starts: seq<Edge>)

  predicate Starting(ph: TxPhase) {
    ph.Stop? && ph.d == 0
  }

  function TxAdvance(st: TxState, fed: seq<byte>, c: nat): TxState {
    var fifo := st.fifo + fed;
    TxState(
      TxNext(st.ph, fifo),
      if AtPull(st.ph) && fifo != [] then fifo[1..] else fifo,
      if Starting(st.ph) then st.starts + [Edge(c, st.ph.data)] else st.starts)
  }

  function TxTrace(feed: Feed, n: nat): TxState {
    if n == 0 then TxState(Ready, [], []) else TxAdvance(TxTrace(feed, n - 1), feed(n - 1), n - 1)
  }

  /** The machine is where the automaton says. */
  ghost predicate Follows(sm: Sm, st: TxState) {
    TxRep(sm, st.ph) && FifoHolds(sm.tx, st.fifo) && sm.pin == TxLevel(st.ph)
  }

  lemma FollowsStep(sm: Sm, st: TxState, fed: seq<byte>, c: nat)
    requires Follows(sm, st)
    ensures sm.pc < |TX_PROGRAM.code|
    ensures Follows(Step(TX_PROGRAM, sm.(tx := sm.tx + Lanes(fed)), true), TxAdvance(st, fed, c))
  {
    TxRefines(sm.(tx := sm.tx + Lanes(fed)), st.ph, st.fifo + fed);
  }

  lemma ReadyFollows(tx: Sm)
    ensures ReadyToSend(tx) <==> Follows(tx, TxState(Ready, [], []))
  {
  }

  /** What a transmitter does depends on what it is fed, not on what it was used for before. */
  lemma {:induction false} TraceRefines(tx: Sm, feed: Feed, n: nat)
    requires ReadyToSend(tx)
    ensures Follows(TxRun(tx, feed, n), TxTrace(feed, n))
    decreases n
  {
    hide Follows, ReadyToSend, TxAdvance, Step;
    if n == 0 {
      ReadyFollows(tx);
    } else {
      TraceRefines(tx, feed, n - 1);
      FollowsStep(TxRun(tx, feed, n - 1), TxTrace(feed, n - 1), feed(n - 1), n - 1);
    }
  }

  // ---------- frames ----------

  function Sent(starts: seq<Edge>): seq<byte> {
    seq(|starts|, i requires 0 <= i < |starts| => starts[i].data)
  }

  /** 80 cycles from start to start, at least. */
  ghost predicate Apart(starts: seq<Edge>) {
    && (starts != [] ==> starts[0].at >= 8)
    && forall i :: 0 <= i < |starts| - 1 ==> starts[i].at + 80 <= starts[i + 1].at
  }

  predicate Sending(ph: TxPhase) {
    ph.Start? || ph.Data?
  }

  /** Cycles since the start of the frame being sent. */
  function Progress(ph: TxPhase): int {
    match ph
    case Start(d, _) => 8 - d
    case Data(k, r, _) => 9 + 8 * k + r
    case _ => 0
  }

  predicate InRange(ph: TxPhase) {
    match ph
    case Ready => true
    case Stop(d, _) => d <= 7
    case Start(d, _) => d <= 7
    case Data(k, r, _) => k < 8 && r < 8
  }

  /** The earliest cycle for a phase between frames. */
  function Earliest(ph: TxPhase, starts: seq<Edge>): int {
    var base := if starts == [] then -72 else starts[|starts| - 1].at;
    if ph.Stop? then base + 80 - ph.d else if starts == [] then 0 else base + 73
  }

  /** Where the program stands in cycle `n`, counted from the last start. */
  ghost predicate Placed(st: TxState, n: nat) {
    && InRange(st.ph)
    && if Sending(st.ph) then
         st.starts != [] && st.starts[|st.starts| - 1] == Edge(n - Progress(st.ph), st.ph.data)
       else n >= Earliest(st.ph, st.starts)
  }

  ghost predicate TxInv(feed: Feed, n: nat, st: TxState) {
    && Placed(st, n) && Apart(st.starts)
    && (st.starts != [] ==> st.starts[|st.starts| - 1].at < n)
    && Sent(st.starts) + (if st.ph.Stop? then [st.ph.data] else []) + st.fifo == Fed(feed, n)
  }

  /** What a cycle keeps about the place of the program. */
  ghost predicate PlacedOn(st: TxState, fed: seq<byte>, n: nat) {
    var st' := TxAdvance(st, fed, n);
    Placed(st', n + 1) && Apart(st'.starts) && (st'.starts != [] ==> st'.starts[|st'.starts| - 1].at < n + 1)
  }

  lemma PlacedStepSending(st: TxState, fed: seq<byte>, n: nat)
    requires Placed(st, n) && Apart(st.starts) && Sending(st.ph) && !AtPull(st.ph)
    requires st.starts != [] ==> st.starts[|st.starts| - 1].at < n
    ensures PlacedOn(st, fed, n)
  {
  }

  lemma PlacedStepPull(st: TxState, fed: seq<byte>, n: nat)
    requires Placed(st, n) && Apart(st.starts) && AtPull(st.ph)
    requires st.starts != [] ==> st.starts[|st.starts| - 1].at < n
    ensures PlacedOn(st, fed, n)
  {
  }

  lemma PlacedStepStop(st: TxState, fed: seq<byte>, n: nat)
    requires Placed(st, n) && Apart(st.starts) && st.ph.Stop?
    requires st.starts != [] ==> st.starts[|st.starts| - 1].at < n
    ensures PlacedOn(st, fed, n)
  {
  }

  lemma PlacedStep(st: TxState, fed: seq<byte>, n: nat)
    requires Placed(st, n) && Apart(st.starts)
    requires st.starts != [] ==> st.starts[|st.starts| - 1].at < n
    ensures PlacedOn(st, fed, n)
  {
    hide Placed, Apart, PlacedOn;
    if AtPull(st.ph) {
      PlacedStepPull(st, fed, n);
    } else if st.ph.Stop? {
      PlacedStepStop(st, fed, n);
    } else {
      PlacedStepSending(st, fed, n);
    }
  }

  lemma QueueStep(st: TxState, fed: seq<byte>, n: nat)
    ensures var st' := TxAdvance(st, fed, n);
            Sent(st'.starts) + (if st'.ph.Stop? then [st'.ph.data] else []) + st'.fifo
            == Sent(st.starts) + (if st.ph.Stop? then [st.ph.data] else []) + st.fifo + fed
  {
    var fifo := st.fifo + fed;
    if AtPull(st.ph) && fifo != [] {
      assert fifo == [fifo[0]] + fifo[1..];
    }
    if Starting(st.ph) {
      assert Sent(st.starts + [Edge(n, st.ph.data)]) == Sent(st.starts) + [st.ph.data];
    }
  }

  /** Every cycle keeps what the transmitter has done with the bytes fed to it. */
  lemma TxInvKept(feed: Feed, n: nat, st: TxState, st': TxState)
    requires TxInv(feed, n, st) && st' == TxAdvance(st, feed(n), n)
    ensures TxInv(feed, n + 1, st')
  {
    PlacedStep(st, feed(n), n);
    QueueStep(st, feed(n), n);
  }

  lemma TraceKept(feed: Feed, n: nat)
    requires TxInv(feed, n, TxTrace(feed, n))
    ensures TxInv(feed, n + 1, TxTrace(feed, n + 1))
  {
    TxInvKept(feed, n, TxTrace(feed, n), TxTrace(feed, n + 1));
  }

  lemma TxInvInit(feed: Feed)
    ensures TxInv(feed, 0, TxTrace(feed, 0))
  {
    assert Sent(TxTrace(feed, 0).starts) == [];
  }

  lemma {:induction false} TxInvariant(feed: Feed, n: nat)
    ensures TxInv(feed, n, TxTrace(feed, n))
    decreases n
  {
    hide *;
    if n == 0 {
      TxInvInit(feed);
    } else {
      TxInvariant(feed, n - 1);
      TraceKept(feed, n - 1);
    }
  }

  // ---------- the line in transmitter cycles ----------

  /** Level in transmitter cycle `c` when these frames were started: eight cycles a symbol. */
  predicate TickLevel(starts: seq<Edge>, c: nat) {
    if starts == [] then true
    else
      var s := starts[|starts| - 1];
      if c < s.at then TickLevel(starts[..|starts| - 1], c) else Symbol(s.data, (c - s.at) / 8)
  }

  lemma LevelPlaced(st: TxState, n: nat)
    requires Placed(st, n + 1) && (st.starts != [] ==> st.starts[|st.starts| - 1].at <= n)
    ensures TxLevel(st.ph) == TickLevel(st.starts, n)
  {
    if st.starts != [] {
      var last := st.starts[|st.starts| - 1];
      match st.ph
      case Data(k, r, b) => assert n - last.at == 8 * (k + 1) + r;
      case Start(_, _) => assert (n - last.at) / 8 == 0;
      case _ => assert (n - last.at) / 8 >= 9;
    }
  }

  /** Frames started later do not change the past. */
  lemma StartsGrow(feed: Feed, n: nat, c: nat)
    requires c < n
    ensures TickLevel(TxTrace(feed, n + 1).starts, c) == TickLevel(TxTrace(feed, n).starts, c)
  {
    var starts, starts' := TxTrace(feed, n).starts, TxTrace(feed, n + 1).starts;
    if starts' != starts {
      assert starts'[..|starts'| - 1] == starts;
    }
  }

  lemma PinNow(tx: Sm, feed: Feed, c: nat)
    requires ReadyToSend(tx)
    ensures TxRun(tx, feed, c + 1).pin == TickLevel(TxTrace(feed, c + 1).starts, c)
  {
    TraceRefines(tx, feed, c + 1);
    TxInvariant(feed, c + 1);
    LevelPlaced(TxTrace(feed, c + 1), c);
  }

  /** The pin shows exactly the frames, eight cycles a symbol, in every cycle so far. */
  lemma {:induction false} PinShowsFrames(tx: Sm, feed: Feed, n: nat, c: nat)
    requires ReadyToSend(tx)
    requires c < n
    ensures TxRun(tx, feed, c + 1).pin == TickLevel(TxTrace(feed, n).starts, c)
    decreases n
  {
    hide *;
    if c == n - 1 {
      PinNow(tx, feed, c);
    } else {
      PinShowsFrames(tx, feed, n - 1, c);
      StartsGrow(feed, n - 1, c);
    }
  }

  // ---------- the round trip ----------

  /**
    The line the receiver samples when transmitter cycle `c` lasts from time o + q*c to
    o + q*(c+1), in receiver cycles.  Before the transmitter is clocked the line is high.
  */
  function Wire(tx: Sm, feed: Feed, q: real, o: real): Line
    requires q > 0.0
  {
    n => if (n as real) < o then true else TxRun(tx, feed, ((n as real - o) / q).Floor + 1).pin
  }

  /** The frames in receiver time. */
  function Frames(starts: seq<Edge>, q: real, o: real): (fs: seq<Frame>)
    ensures |fs| == |starts|
  {
    seq(|starts|, i requires 0 <= i < |starts| => Frame(o + q * starts[i].at as real, starts[i].data))
  }

  lemma FramesSpaced(starts: seq<Edge>, q: real, o: real)
    requires q > 0.0 && Apart(starts)
    ensures Spaced(Frames(starts, q, o), 8.0 * q)
    ensures Payload(Frames(starts, q, o)) == Sent(starts)
  {
    var fs := Frames(starts, q, o);
    forall i | 0 <= i < |fs| - 1 ensures fs[i].start + 10.0 * (8.0 * q) <= fs[i + 1].start {
      assert starts[i].at + 80 <= starts[i + 1].at;
      FrameBetween(starts, q, o, i, starts[i].at, starts[i + 1].at);
    }
  }

  /** A frame, in receiver time, given the cycles around it. */
  lemma FrameBetween(starts: seq<Edge>, q: real, o: real, i: nat, low: int, high: int)
    requires q > 0.0 && i < |starts| && low <= starts[i].at && starts[i].at + 80 <= high
    ensures var s := Frames(starts, q, o)[i].start;
            o + q * low as real <= s && s + 10.0 * (8.0 * q) <= o + q * high as real
  {
    var a := starts[i].at;
    ScaleMonotone(q, low, a);
    ScaleMonotone(q, a + 80, high);
    ScaleSum(q, a, 10);
  }

  lemma ScaleMonotone(q: real, a: int, b: int)
    requires q > 0.0 && a <= b
    ensures q * a as real <= q * b as real
  {
  }

  lemma ScaleSum(q: real, a: int, k: int)
    ensures q * (a + 8 * k) as real == q * a as real + k as real * (8.0 * q)
  {
    assert (a + 8 * k) as real == a as real + 8.0 * k as real;
    assert q * (8.0 * k as real) == k as real * (8.0 * q);
  }

  /** Transmitter cycle of a time, against a start edge: same order, symbols are eight cycles. */
  lemma SymbolOfTick(q: real, u: real, a: int)
    requires q > 0.0 && u >= 0.0
    ensures var c := (u / q).Floor;
            && c >= 0
            && (u < q * a as real <==> c < a)
            && (c >= a ==> SymbolIndex(u - q * a as real, 8.0 * q) == (c - a) / 8)
  {
    var c := (u / q).Floor;
    QuotientAtLeast(u, q, 0.0);
    QuotientAtLeast(u, q, a as real);
    QuotientAtLeast(u, q, c as real);
    QuotientAtLeast(u, q, (c + 1) as real);
    Commute(q, c as real);
    Commute(q, (c + 1) as real);
    Commute(q, a as real);
    if c >= a { SymbolOfCycle(q, u, a, c); }
  }

  /** When symbol `k` of a frame started in cycle `a` begins. */
  function SymbolStart(q: real, a: int, k: int): real {
    q * a as real + k as real * (8.0 * q)
  }

  /** The symbol shown during transmitter cycle `c`. */
  lemma SymbolOfCycle(q: real, u: real, a: int, c: int)
    requires q > 0.0 && a <= c && q * c as real <= u < q * (c + 1) as real
    ensures SymbolIndex(u - q * a as real, 8.0 * q) == (c - a) / 8
  {
    hide SymbolStart, SymbolIndex;
    var k := (c - a) / 8;
    assert a + 8 * k <= c && c + 1 <= a + 8 * (k + 1);
    CycleOfSymbol(q, a, c, k);
    CycleOfSymbol(q, a, c, k + 1);
    SymbolBetween(q, u, a, k);
  }

  lemma Commute(x: real, y: real)
    ensures x * y == y * x
  {
  }

  lemma SymbolStartIs(q: real, a: int, k: int, x: int)
    requires x == a + 8 * k
    ensures SymbolStart(q, a, k) == q * x as real
  {
    ScaleSum(q, a, k);
  }

  /** It begins after eight times as many cycles. */
  lemma CycleOfSymbol(q: real, a: int, c: int, k: int)
    requires q > 0.0
    ensures a + 8 * k <= c ==> SymbolStart(q, a, k) <= q * c as real
    ensures c + 1 <= a + 8 * k ==> q * (c + 1) as real <= SymbolStart(q, a, k)
  {
    hide SymbolStart;
    var x := a + 8 * k;
    SymbolStartIs(q, a, k, x);
    if x <= c { ScaleMonotone(q, x, c); }
    if c + 1 <= x { ScaleMonotone(q, c + 1, x); }
  }

  lemma SymbolBetween(q: real, u: real, a: int, k: int)
    requires q > 0.0 && SymbolStart(q, a, k) <= u < SymbolStart(q, a, k + 1)
    ensures SymbolIndex(u - q * a as real, 8.0 * q) == k
  {
    SymbolAt(u - q * a as real, 8.0 * q, k);
  }

  lemma FramesPrefix(starts: seq<Edge>, q: real, o: real, n: nat)
    requires n <= |starts|
    ensures Frames(starts, q, o)[..n] == Frames(starts[..n], q, o)
  {
    var a, b := Frames(starts, q, o)[..n], Frames(starts[..n], q, o);
    forall i | 0 <= i < n ensures a[i] == b[i] {
      assert starts[..n][i] == starts[i];
    }
  }

  lemma LastLevel(fs: seq<Frame>, p: real, t: real, u: real)
    requires p > 0.0 && fs != [] && u == t - fs[|fs| - 1].start
    ensures Level(fs, p, t) ==
            if u < 0.0 then Level(fs[..|fs| - 1], p, t) else Symbol(fs[|fs| - 1].data, SymbolIndex(u, p))
  {
  }

  /** Levels by transmitter cycle are levels by time. */
  lemma {:induction false} LevelOfTick(starts: seq<Edge>, q: real, o: real, t: real)
    requires q > 0.0 && t >= o
    ensures var c := ((t - o) / q).Floor;
            c >= 0 && Level(Frames(starts, q, o), 8.0 * q, t) == TickLevel(starts, c)
    decreases |starts|
  {
    if starts == [] {
      SymbolOfTick(q, t - o, 0);
    } else {
      LevelOfTick(starts[..|starts| - 1], q, o, t);
      LevelOfLastTick(starts, q, o, t);
    }
  }

  lemma LevelOfLastTick(starts: seq<Edge>, q: real, o: real, t: real)
    requires q > 0.0 && t >= o && starts != []
    requires ((t - o) / q).Floor >= 0
    ensures var c, n := ((t - o) / q).Floor, |starts| - 1;
            Level(Frames(starts[..n], q, o), 8.0 * q, t) == TickLevel(starts[..n], c)
            ==> Level(Frames(starts, q, o), 8.0 * q, t) == TickLevel(starts, c)
  {
    var n := |starts| - 1;
    var fs, u, a := Frames(starts, q, o), t - o, starts[n].at;
    SymbolOfTick(q, u, a);
    FramesPrefix(starts, q, o, n);
    assert fs[n] == Frame(o + q * a as real, starts[n].data);
    LastLevel(fs, 8.0 * q, t, u - q * a as real);
  }

  /** What the wire shows up to receiver cycle `n` are the frames started in `m` transmitter cycles. */
  lemma WireShows(tx: Sm, feed: Feed, q: real, o: real, n: nat, m: nat)
    requires ReadyToSend(tx)
    requires q > 0.0 && n as real <= o + q * m as real
    ensures Shows(Wire(tx, feed, q, o), Frames(TxTrace(feed, m).starts, q, o), 8.0 * q, n)
  {
    var fs := Frames(TxTrace(feed, m).starts, q, o);
    TxInvariant(feed, m);
    FramesSpaced(TxTrace(feed, m).starts, q, o);
    forall k: nat | k < n ensures Wire(tx, feed, q, o)(k) == Level(fs, 8.0 * q, k as real) {
      WireAt(tx, feed, q, o, k, m);
    }
  }

  /** Before the transmitter is clocked. */
  lemma WireBefore(tx: Sm, feed: Feed, q: real, o: real, k: nat, m: nat)
    requires q > 0.0 && (k as real) < o && Apart(TxTrace(feed, m).starts)
    ensures Wire(tx, feed, q, o)(k) == Level(Frames(TxTrace(feed, m).starts, q, o), 8.0 * q, k as real)
  {
    hide TxTrace, TxRun, Level, Apart;
    var starts := TxTrace(feed, m).starts;
    FramesSpaced(starts, q, o);
    if starts != [] { FirstLater(q, o, starts); }
    LevelBefore(Frames(starts, q, o), 8.0 * q, k as real);
  }

  lemma FirstLater(q: real, o: real, starts: seq<Edge>)
    requires q > 0.0 && Apart(starts) && starts != []
    ensures Frames(starts, q, o)[0].start >= o
  {
    ScaleMonotone(q, 0, starts[0].at);
  }

  lemma WireAt(tx: Sm, feed: Feed, q: real, o: real, k: nat, m: nat)
    requires ReadyToSend(tx)
    requires q > 0.0 && k as real < o + q * m as real
    requires Apart(TxTrace(feed, m).starts)
    ensures Wire(tx, feed, q, o)(k) == Level(Frames(TxTrace(feed, m).starts, q, o), 8.0 * q, k as real)
  {
    hide TxTrace, TxRun, Level, TickLevel, SymbolIndex, Frames, Apart;
    var t := k as real;
    if t < o {
      WireBefore(tx, feed, q, o, k, m);
    } else {
      var c := ((t - o) / q).Floor;
      LevelOfTick(TxTrace(feed, m).starts, q, o, t);
      SymbolOfTick(q, t - o, m);
      PinShowsFrames(tx, feed, m, c);
    }
  }

  /** The receiver is enabled in time for anything the transmitter may send. */
  ghost predicate Early(ph: RxPhase, q: real, o: real, d: real)
    requires ValidPhase(ph)
  {
    if ph.Seek? then 0.0 < o + 8.0 * q + d else Settle(ph) as real <= o + 8.0 * q
  }

  /**
    Round trip with two clocks.  Whatever bytes are fed to the interpreted `jd_tx`, on any
    schedule, the interpreted `jd_rx` on the other end of the wire, enabled in any quiet phase,
    has pushed a prefix of them and flagged no break, after any number `n` of its cycles; it has
    pushed every byte whose frame is over.  A transmitter cycle may last from 77/80 to 75/72
    receiver cycles, and the two clocks may have any phase `o`.
  */
  lemma RoundTrip(tx: Sm, feed: Feed, q: real, o: real, d: real, sm: Sm, ph: RxPhase, n: nat, m: nat)
    requires ReadyToSend(tx)
    requires LagOk(8.0 * q, d) && Stopped(sm, ph) && Early(ph, q, o, d) && n as real <= o + q * m as real
    ensures var sm' := RxRun(sm, Wire(tx, feed, q, o), n);
            var fs := Frames(TxTrace(feed, m).starts, q, o);
            && |sm.rx| <= |sm'.rx| && sm'.rx[..|sm.rx|] == sm.rx && sm'.irqs >= sm.irqs
            && Received(fs, 8.0 * q, n, sm'.rx[|sm.rx|..], sm'.irqs - sm.irqs) && Payload(fs) <= Fed(feed, m)
  {
    hide TxTrace, RxRun, Wire, Fed, Received;
    var starts := TxTrace(feed, m).starts;
    var fs := Frames(starts, q, o);
    TraceFacts(feed, m);
    FramesSpaced(starts, q, o);
    WireShows(tx, feed, q, o, n, m);
    if starts != [] { FrameBetween(starts, q, o, 0, 8, starts[0].at + 80); }
    StreamReceived(fs, 8.0 * q, d, Wire(tx, feed, q, o), sm, ph, n);
  }

  lemma TraceFacts(feed: Feed, m: nat)
    ensures Apart(TxTrace(feed, m).starts) && Sent(TxTrace(feed, m).starts) <= Fed(feed, m)
  {
    TxInvariant(feed, m);
  }

  /** The transmitter has sent all it was fed before cycle `m`. */
  ghost predicate Drained(feed: Feed, m: nat) {
    AtPull(TxTrace(feed, m).ph) && TxTrace(feed, m).fifo == []
  }

  /** A drained transmitter is ready for the next transmission one cycle later, and remains so. */
  lemma DrainedIsReady(tx: Sm, feed: Feed, m: nat, n: nat)
    requires ReadyToSend(tx) && Drained(feed, m) && m < n && forall c: nat :: m <= c < n ==> feed(c) == []
    ensures ReadyToSend(TxRun(tx, feed, n))
  {
    hide Follows, ReadyToSend, TxRun, TxTrace, Drained;
    StaysDrained(feed, m, n - 1);
    DrainedNext(feed, n - 1);
    TraceRefines(tx, feed, n);
    FollowsReady(TxRun(tx, feed, n), TxTrace(feed, n));
  }

  lemma DrainedNext(feed: Feed, n: nat)
    requires Drained(feed, n) && feed(n) == []
    ensures TxTrace(feed, n + 1).ph == Ready && TxTrace(feed, n + 1).fifo == []
  {
    assert TxTrace(feed, n).fifo + feed(n) == [];
  }

  lemma FollowsReady(sm: Sm, st: TxState)
    requires Follows(sm, st) && st.ph == Ready && st.fifo == []
    ensures ReadyToSend(sm)
  {
  }

  lemma {:induction false} StaysDrained(feed: Feed, m: nat, n: nat)
    requires Drained(feed, m) && m <= n && forall c: nat :: m <= c < n ==> feed(c) == []
    ensures Drained(feed, n) && TxTrace(feed, n).starts == TxTrace(feed, m).starts
    ensures Fed(feed, n) == Fed(feed, m)
    decreases n
  {
    if m < n { StaysDrained(feed, m, n - 1); }
  }

  /**
    Delivery.  Once the transmitter has drained its FIFO in its cycle `m`, and nothing more is
    fed, a stop symbol later the receiver holds exactly the bytes fed, in order.
  */
  lemma Delivered(tx: Sm, feed: Feed, q: real, o: real, d: real, sm: Sm, ph: RxPhase, n: nat, m: nat, horizon: nat)
    requires ReadyToSend(tx)
    requires LagOk(8.0 * q, d) && Stopped(sm, ph) && Early(ph, q, o, d)
    requires Drained(feed, m) && m <= horizon && forall c: nat :: m <= c < horizon ==> feed(c) == []
    requires o + q * (m + 8) as real <= n as real <= o + q * horizon as real
    ensures Got(sm, RxRun(sm, Wire(tx, feed, q, o), n), Fed(feed, m), 0)
  {
    hide TxTrace, RxRun, Wire, Fed;
    var starts := TxTrace(feed, m).starts;
    var fs := Frames(starts, q, o);
    AllSent(feed, m);
    FramesSpaced(starts, q, o);
    StaysDrained(feed, m, horizon);
    RoundTrip(tx, feed, q, o, d, sm, ph, n, horizon);
    if starts != [] {
      FrameBetween(starts, q, o, |starts| - 1, starts[|starts| - 1].at, m + 8);
    }
    var sm' := RxRun(sm, Wire(tx, feed, q, o), n);
    AllReceived(fs, 8.0 * q, n, sm'.rx[|sm.rx|..], sm'.irqs - sm.irqs);
  }

  lemma AllReceived(fs: seq<Frame>, p: real, n: nat, words: seq<word>, irqs: nat)
    requires Received(fs, p, n, words, irqs)
    requires fs != [] ==> fs[|fs| - 1].start + 10.0 * p <= n as real
    ensures Bytes(words) == Payload(fs)
  {
    assert |words| == |Bytes(words)| && |fs| == |Payload(fs)|;
  }

  lemma AllSent(feed: Feed, m: nat)
    requires Drained(feed, m)
    ensures var starts := TxTrace(feed, m).starts;
            && Sent(starts) == Fed(feed, m) && Apart(starts)
            && (starts != [] ==> starts[|starts| - 1].at + 72 <= m)
  {
    TxInvariant(feed, m);
    var starts := TxTrace(feed, m).starts;
    assert Sent(starts) + [] + [] == Sent(starts);
  }
}
