/**
  What the receiver makes of a line, cycle after cycle.

  `RxRun` interprets the instructions of `jd_rx`; `Run` is the same run in terms of the phase
  automaton.  The invariant `Tracking` relates the run to the frames on the line and is kept
  by every cycle, so the results below hold for streams of any length.
*/
module Reception {
  import opened Common
  import opened Pio
  import opened Sws
  import opened Wave

  type Line = nat -> bool

  /** The interpreted machine before cycle `n`, that is after cycles 0 to n-1. */
  function RxRun(sm: Sm, line: Line, n: nat): Sm {
    if n == 0 then sm
    else
      var s := RxRun(sm, line, n - 1);
      if s.pc < |RX_PROGRAM.code| then Step(RX_PROGRAM, s, line(n - 1)) else s
  }

  datatype RxState = RxState(ph: RxPhase, groups: seq<seq<bool>>, irqs: nat)

  function Next(st: RxState, level: bool): RxState {
    RxState(RxNext(st.ph, level), st.groups + RxPush(st.ph, level), st.irqs + if st.ph.Alarm? then 1 else 0)
  }

  function Run(st: RxState, line: Line, n: nat): RxState {
    if n == 0 then st else Next(Run(st, line, n - 1), line(n - 1))
  }

  /** What the receive DMA stores for the pushed words. */
  function Bytes(words: seq<word>): seq<byte> {
    seq(|words|, i requires 0 <= i < |words| => TopLane(words[i]))
  }

  /** From a machine in phase `ph` the program and the automaton agree after every cycle, on every line. */
  lemma {:induction false} RunRefines(sm: Sm, ph: RxPhase, line: Line, n: nat)
    requires RxRep(sm, ph)
    ensures var sm', st' := RxRun(sm, line, n), Run(RxState(ph, [], 0), line, n);
            RxRep(sm', st'.ph) && sm'.rx == sm.rx + Words(st'.groups) && sm'.irqs == sm.irqs + st'.irqs
    decreases n
  {
    if n > 0 {
      RunRefines(sm, ph, line, n - 1);
      var s := Run(RxState(ph, [], 0), line, n - 1);
      WordsAppend(s.groups, RxPush(s.ph, line(n - 1)));
      RxRefines(RxRun(sm, line, n - 1), s.ph, line(n - 1));
    }
  }

  lemma WordsAppend(a: seq<seq<bool>>, b: seq<seq<bool>>)
    ensures Words(a + b) == Words(a) + Words(b)
  {
  }

  /** The bytes of pushed groups of bits. */
  function Decode(groups: seq<seq<bool>>): seq<byte> {
    Bytes(Words(groups))
  }

  lemma DecodeOne(groups: seq<seq<bool>>, b: byte)
    ensures Decode(groups + [ByteBits(b)]) == Decode(groups) + [b]
  {
    TopLaneOfByte(b);
  }

  /** Idle receiver with nothing pushed. */
  const IDLE := RxState(Seek, [], 0)

  // ---------- streams of frames ----------

  /** Bits sampled so far are the first bits of the byte. */
  ghost predicate SampledFrom(bits: seq<bool>, b: byte) {
    |bits| <= 8 && bits == ByteBits(b)[..|bits|]
  }

  predicate Pushed(ph: RxPhase) {
    (ph.Bits? && ph.k == 7 && ph.r > 0) || ph.Check? || ph.Slack?
  }

  predicate InByte(ph: RxPhase) {
    ph.Lead? || ph.Bits? || ph.Check? || ph.Slack?
  }

  /**
    Before cycle `n` the receiver has dealt with frames 0..i-1 and either looks for the start
    of frame `i`, at most `d` late, or is inside frame `i`, having seen its start at most `d` late.
  */
  ghost predicate Tracking(fs: seq<Frame>, p: real, d: real, n: nat, st: RxState, i: nat) {
    && i <= |fs| && st.irqs == 0
    && if st.ph.Seek? then
         && Decode(st.groups) == Payload(fs[..i])
         && (i > 0 ==> fs[i - 1].start + 9.0 * p <= n as real)
         && (i < |fs| ==> (n as real) < fs[i].start + d)
       else
         && InByte(st.ph) && i < |fs|
         && fs[i].start <= (n - Age(st.ph)) as real < fs[i].start + d
         && (st.ph.Lead? ==> 1 <= st.ph.j <= 10)
         && (st.ph.Bits? ==>
               && st.ph.k < 8 && st.ph.r < 8
               && |st.ph.bits| == (if st.ph.r == 0 then st.ph.k else st.ph.k + 1)
               && SampledFrom(st.ph.bits, fs[i].data))
         && Decode(st.groups) == Payload(fs[..i]) + if Pushed(st.ph) then [fs[i].data] else []
  }

  /** Symbol time `p` and lag bound `d` for which all samples fall into their symbols. */
  ghost predicate LagOk(p: real, d: real) {
    && 7.7 <= p <= 75.0 / 9.0
    && 1.0 <= d <= 10.0 * p - 75.0
    && d <= 9.0 * p - 67.0
    && d <= 2.0 * p - 11.0
  }

  /** Before cycle `n` the line shows the frames. */
  ghost predicate Shows(line: Line, fs: seq<Frame>, p: real, n: nat)
    requires p > 0.0
  {
    forall m: nat :: m < n ==> line(m) == Level(fs, p, m as real)
  }

  lemma TrackSeek(fs: seq<Frame>, p: real, d: real, n: nat, st: RxState, i: nat)
    requires LagOk(p, d) && Spaced(fs, p) && Tracking(fs, p, d, n, st, i) && st.ph.Seek?
    ensures Tracking(fs, p, d, n + 1, Next(st, Level(fs, p, n as real)), i)
  {
    var t := n as real;
    assert st.groups + [] == st.groups;
    if i < |fs| && fs[i].start <= t {
      LevelOfSymbol(fs, p, t, i, 0);
    } else if i == 0 {
      LevelBefore(fs, p, t);
    } else {
      LevelAfter(fs, p, t, i - 1);
    }
  }

  lemma SampleInside(p: real, d: real, u: real, k: nat)
    requires LagOk(p, d) && k < 8
    requires SampleAt(k) as real <= u < SampleAt(k) as real + d
    ensures (k + 1) as real * p <= u < (k + 2) as real * p
  {
    if k == 0 {
    } else if k == 1 {
    } else if k == 2 {
    } else if k == 3 {
    } else if k == 4 {
    } else if k == 5 {
    } else if k == 6 {
    } else {
      assert k == 7;
    }
  }

  lemma TrackSample(fs: seq<Frame>, p: real, d: real, n: nat, st: RxState, i: nat)
    requires LagOk(p, d) && Spaced(fs, p) && Tracking(fs, p, d, n, st, i) && st.ph.Bits? && st.ph.r == 0
    ensures Tracking(fs, p, d, n + 1, Next(st, Level(fs, p, n as real)), i)
  {
    var t, k, b := n as real, st.ph.k, fs[i].data;
    SampleInside(p, d, t - fs[i].start, k);
    LevelOfSymbol(fs, p, t, i, k + 1);
    var level := Level(fs, p, t);
    var bits := st.ph.bits + [level];
    assert level == ByteBits(b)[k];
    assert bits == ByteBits(b)[..k + 1];
    if k == 7 {
      assert ByteBits(b)[..8] == ByteBits(b);
      DecodeOne(st.groups, b);
    } else {
      assert st.groups + [] == st.groups;
    }
  }

  lemma TrackStop(fs: seq<Frame>, p: real, d: real, n: nat, st: RxState, i: nat)
    requires LagOk(p, d) && Spaced(fs, p) && Tracking(fs, p, d, n, st, i) && st.ph.Check?
    ensures Tracking(fs, p, d, n + 1, Next(st, Level(fs, p, n as real)), i)
  {
    LevelOfSymbol(fs, p, n as real, i, 9);
    assert st.groups + [] == st.groups;
  }

  lemma TrackSlack(fs: seq<Frame>, p: real, d: real, n: nat, st: RxState, i: nat, level: bool)
    requires LagOk(p, d) && Spaced(fs, p) && Tracking(fs, p, d, n, st, i) && st.ph.Slack?
    ensures Tracking(fs, p, d, n + 1, Next(st, level), i + 1)
  {
    assert st.groups + [] == st.groups;
    assert Payload(fs[..i + 1]) == Payload(fs[..i]) + [fs[i].data];
    if i + 1 < |fs| {
      assert fs[i].start + 10.0 * p <= fs[i + 1].start;
    }
  }

  lemma TrackOther(fs: seq<Frame>, p: real, d: real, n: nat, st: RxState, i: nat, level: bool)
    requires Tracking(fs, p, d, n, st, i)
    requires st.ph.Lead? || (st.ph.Bits? && st.ph.r > 0)
    ensures Tracking(fs, p, d, n + 1, Next(st, level), i)
  {
    assert st.groups + [] == st.groups;
  }

  /** One cycle keeps the invariant. */
  lemma TrackStep(fs: seq<Frame>, p: real, d: real, n: nat, st: RxState, i: nat) returns (i': nat)
    requires LagOk(p, d) && Spaced(fs, p) && Tracking(fs, p, d, n, st, i)
    ensures Tracking(fs, p, d, n + 1, Next(st, Level(fs, p, n as real)), i')
  {
    i' := i;
    match st.ph {
      case Seek => TrackSeek(fs, p, d, n, st, i);
      case Check => TrackStop(fs, p, d, n, st, i);
      case Slack => TrackSlack(fs, p, d, n, st, i, Level(fs, p, n as real)); i' := i + 1;
      case Bits(_, r, _) =>
        if r == 0 { TrackSample(fs, p, d, n, st, i); }
        else { TrackOther(fs, p, d, n, st, i, Level(fs, p, n as real)); }
      case Lead(_) => TrackOther(fs, p, d, n, st, i, Level(fs, p, n as real));
    }
  }

  lemma TrackStart(fs: seq<Frame>, p: real, d: real)
    requires fs != [] ==> 0.0 < fs[0].start + d
    ensures Tracking(fs, p, d, 0, IDLE, 0)
  {
    assert Decode([]) == Payload(fs[..0]);
  }

  ghost predicate Tracked(fs: seq<Frame>, p: real, d: real, n: nat, st: RxState) {
    exists i: nat :: Tracking(fs, p, d, n, st, i)
  }

  lemma TrackedStep(fs: seq<Frame>, p: real, d: real, n: nat, st: RxState)
    requires LagOk(p, d) && Spaced(fs, p) && Tracked(fs, p, d, n, st)
    ensures Tracked(fs, p, d, n + 1, Next(st, Level(fs, p, n as real)))
  {
    var i: nat :| Tracking(fs, p, d, n, st, i);
    var i' := TrackStep(fs, p, d, n, st, i);
  }

  /** The invariant holds after every number of cycles. */
  lemma {:induction false} TrackRun(fs: seq<Frame>, p: real, d: real, line: Line, n: nat)
    requires LagOk(p, d) && Spaced(fs, p)
    requires Shows(line, fs, p, n)
    requires fs != [] ==> 0.0 < fs[0].start + d
    ensures Tracked(fs, p, d, n, Run(IDLE, line, n))
    decreases n
  {
    hide *;
    PositiveSymbol(p, d);
    if n == 0 {
      TrackedStart(fs, p, d, line);
    } else {
      ShowsBefore(fs, p, line, n);
      TrackRun(fs, p, d, line, n - 1);
      TrackedStep(fs, p, d, n - 1, Run(IDLE, line, n - 1));
      RunStep(line, n);
    }
  }

  lemma TrackedStart(fs: seq<Frame>, p: real, d: real, line: Line)
    requires fs != [] ==> 0.0 < fs[0].start + d
    ensures Tracked(fs, p, d, 0, Run(IDLE, line, 0))
  {
    TrackStart(fs, p, d);
  }

  lemma PositiveSymbol(p: real, d: real)
    requires LagOk(p, d)
    ensures p > 0.0
  {
  }

  lemma ShowsBefore(fs: seq<Frame>, p: real, line: Line, n: nat)
    requires p > 0.0 && n > 0 && Shows(line, fs, p, n)
    ensures Shows(line, fs, p, n - 1) && line(n - 1) == Level(fs, p, (n - 1) as real)
  {
    assert line(n - 1) == Level(fs, p, (n - 1) as real);
  }

  lemma RunStep(line: Line, n: nat)
    requires n > 0
    ensures Run(IDLE, line, n) == Next(Run(IDLE, line, n - 1), line(n - 1))
  {
  }

  /** From the invariant: nothing lost, nothing invented, no break flagged. */
  ghost predicate Received(fs: seq<Frame>, p: real, n: nat, words: seq<word>, irqs: nat) {
    && irqs == 0
    && Bytes(words) <= Payload(fs)
    && forall i :: 0 <= i < |fs| && fs[i].start + 10.0 * p <= n as real ==> i < |words|
  }

  lemma TrackingMeansReceived(fs: seq<Frame>, p: real, d: real, n: nat, st: RxState, i: nat)
    requires LagOk(p, d) && Spaced(fs, p) && Tracking(fs, p, d, n, st, i)
    ensures Received(fs, p, n, Words(st.groups), st.irqs)
  {
    if Pushed(st.ph) {
      assert Payload(fs[..i]) + [fs[i].data] == Payload(fs[..i + 1]);
    }
    var m := if Pushed(st.ph) then i + 1 else i;
    assert Decode(st.groups) == Payload(fs[..m]) == Payload(fs)[..m];
    assert |Words(st.groups)| == |Decode(st.groups)| == m;
    forall k | 0 <= k < |fs| && fs[k].start + 10.0 * p <= n as real
      ensures k < m
    {
      if k > i { SpacedFrom(fs, p, i, k); }
    }
  }

  /** Clock tolerance, in terms of the automaton. */
  lemma StreamTracked(fs: seq<Frame>, p: real, d: real, line: Line, n: nat)
    requires LagOk(p, d) && Spaced(fs, p) && Shows(line, fs, p, n)
    requires fs != [] ==> 0.0 < fs[0].start + d
    ensures var st := Run(IDLE, line, n);
            && Received(fs, p, n, Words(st.groups), st.irqs)
            && (|st.groups| == |fs| ==> st.ph.Seek? || Pushed(st.ph))
  {
    TrackRun(fs, p, d, line, n);
    var st := Run(IDLE, line, n);
    var i: nat :| Tracking(fs, p, d, n, st, i);
    TrackingMeansReceived(fs, p, d, n, st, i);
  }
}
