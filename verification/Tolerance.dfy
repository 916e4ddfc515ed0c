/**
  The exact clock tolerance of the receiver.
*/
module Tolerance {
  import opened Pio
  import opened Sws
  import opened Wave
  import opened Reception
  import opened Timing

  /** A machine as configured: at its first instruction, registers and FIFOs empty, the pin high. */
  const FRESH := Sm(0, 0, 0, 0, 0, 0, [], [], 0, true)

  function WaveLine(fs: seq<Frame>, p: real): Line
    requires p > 0.0
  {
    n => Level(fs, p, n as real)
  }

  /** After `n` cycles the program has received this stream exactly. */
  ghost predicate Accepts(fs: seq<Frame>, p: real, n: nat)
    requires p > 0.0
  {
    var sm := RxRun(FRESH, WaveLine(fs, p), n);
    Received(fs, p, n, sm.rx, sm.irqs)
  }

  /** Every stream, with any gaps and any phase of its start edges, is received exactly. */
  ghost predicate Tolerates(p: real)
    requires p > 0.0
  {
    forall fs: seq<Frame>, n: nat :: Spaced(fs, p) && (fs != [] ==> 0.0 <= fs[0].start) ==> Accepts(fs, p, n)
  }

  lemma ToleratesInside(p: real)
    requires 7.7 <= p <= 75.0 / 9.0
    ensures Tolerates(p)
  {
    forall fs: seq<Frame>, n: nat | Spaced(fs, p) && (fs != [] ==> 0.0 <= fs[0].start)
      ensures Accepts(fs, p, n)
    {
      StreamTracked(fs, p, 1.0, WaveLine(fs, p), n);
      RunRefines(FRESH, Seek, WaveLine(fs, p), n);
    }
  }

  lemma {:induction false} ZeroBits(k: nat)
    ensures Shr(0, k) == 0
  {
    if k > 0 { ZeroBits(k - 1); }
  }

  lemma ZeroByteLow(p: real, t: real)
    requires p > 0.0 && 0.0 <= t < 9.0 * p
    ensures !Level([Frame(0.0, 0)], p, t)
  {
    var fs := [Frame(0.0, 0)];
    LevelInFrame(fs, p, t, 0);
    var k := SymbolIndex(t, p);
    QuotientAtLeast(t, p, 0.0);
    QuotientAtLeast(t, p, 9.0);
    assert 0 <= k <= 8;
    if k > 0 { ZeroBits(k - 1); }
  }

  lemma LowStopFlags(line: Line, c: nat)
    requires SeesStart(IDLE, line, c) && !line(c + STOP_AT)
    ensures RxRun(FRESH, line, c + RESUME_AT).irqs > 0
  {
    ByteTiming(IDLE, line, c);
    RunRefines(FRESH, Seek, line, c + RESUME_AT);
  }

  /** Too slow a transmitter: the last data symbol of a zero byte reaches into the stop check. */
  lemma SlowFails(p: real)
    requires p > 75.0 / 9.0
    ensures !Tolerates(p)
  {
    var fs := [Frame(0.0, 0)];
    ZeroByteLow(p, 0.0);
    ZeroByteLow(p, 75.0);
    var c: nat := 0;
    LowStopFlags(WaveLine(fs, p), c);
    assert Spaced(fs, p) && fs[0].start == 0.0;
    assert !Accepts(fs, p, c + RESUME_AT);
  }

  // ---------- too fast a transmitter ----------

  /** Start of the byte that filled the last group, or of the byte being received. */
  ghost predicate Paced(line: Line, n: nat, st: RxState, c: nat) {
    var k := |st.groups|;
    if InByte(st.ph) then
      && n == c + Age(st.ph) && !line(c)
      && c + (if Pushed(st.ph) then RESUME_AT else 0) >= RESUME_AT * k
      && (st.ph.Lead? ==> st.ph.j <= 10) && (st.ph.Bits? ==> st.ph.k < 8 && st.ph.r < 8)
    else
      && (k > 0 ==> !line(c) && c + RESUME_AT >= RESUME_AT * k)
      && n + (if st.ph.Alarm? then 1 else 0) >= RESUME_AT * k
  }

  lemma PacedStep(line: Line, n: nat, st: RxState, c: nat) returns (c': nat)
    requires Paced(line, n, st, c)
    ensures Paced(line, n + 1, Next(st, line(n)), c')
  {
    c' := if st.ph.Seek? && !line(n) then n else c;
  }

  /** On any line the k-th received byte was not started before cycle 77 (k - 1). */
  lemma {:induction false} PushesArePaced(line: Line, n: nat) returns (c: nat)
    ensures Paced(line, n, Run(IDLE, line, n), c)
    decreases n
  {
    if n == 0 {
      c := 0;
    } else {
      hide Paced, Next;
      c := PushesArePaced(line, n - 1);
      c := PacedStep(line, n - 1, Run(IDLE, line, n - 1), c);
    }
  }

  function BackToBackFrames(count: nat, p: real): (fs: seq<Frame>)
    ensures |fs| == count
  {
    seq(count, i requires 0 <= i < count => Frame(i as real * (10.0 * p), 0))
  }

  lemma BackToBackSpaced(count: nat, p: real)
    ensures Spaced(BackToBackFrames(count, p), p)
  {
    var fs := BackToBackFrames(count, p);
    forall i | 0 <= i < |fs| - 1 ensures fs[i].start + 10.0 * p <= fs[i + 1].start {
      assert (i + 1) as real * (10.0 * p) == i as real * (10.0 * p) + 10.0 * p;
    }
  }

  /** So many frames take less time than the receiver needs for them. */
  lemma EnoughFrames(p: real) returns (m: nat)
    requires 0.0 < p < 7.7
    ensures 77.0 * m as real > m as real * (10.0 * p) + 9.0 * p
  {
    var short := 77.0 - 10.0 * p;
    QuotientAtLeast(9.0 * p, short, 0.0);
    m := (9.0 * p / short).Floor + 1;
    QuotientAtLeast(9.0 * p, short, m as real);
    assert m as real * short == 77.0 * m as real - m as real * (10.0 * p);
  }

  /** The start of the last byte is seen before the last data symbol is over. */
  lemma LastStartSeen(fs: seq<Frame>, p: real, n: nat, m: nat)
    requires p > 0.0 && Spaced(fs, p) && |fs| == m + 1
    requires m < |RxRun(FRESH, WaveLine(fs, p), n).rx|
    ensures 77.0 * m as real < fs[m].start + 9.0 * p
  {
    var line := WaveLine(fs, p);
    RunRefines(FRESH, Seek, line, n);
    var c := PushesArePaced(line, n);
    assert !line(c) && c >= RESUME_AT * m;
    if fs[m].start + 9.0 * p <= c as real { LevelAfter(fs, p, c as real, m); }
  }

  /**
    Too fast a transmitter: on no line can the receiver take bytes faster than one in 77
    cycles, so enough back-to-back bytes outrun it.
  */
  lemma FastFails(p: real)
    requires 0.0 < p < 7.7
    ensures !Tolerates(p)
  {
    var m := EnoughFrames(p);
    var fs := BackToBackFrames(m + 1, p);
    BackToBackSpaced(m + 1, p);
    var last := m as real * (10.0 * p);
    assert fs[m].start == last && fs[0].start == 0.0;
    var n := (last + 10.0 * p).Floor + 1;
    if Accepts(fs, p, n) {
      LastStartSeen(fs, p, n, m);
    }
    assert !Accepts(fs, p, n);
  }

  /** The tolerance is exact: symbols of 7.7 to 75/9 receiver cycles, and no others. */
  lemma ToleranceIsExact(p: real)
    requires p > 0.0
    ensures Tolerates(p) <==> 7.7 <= p <= 75.0 / 9.0
  {
    if p < 7.7 {
      FastFails(p);
    } else if p > 75.0 / 9.0 {
      SlowFails(p);
    } else {
      ToleratesInside(p);
    }
  }
}
