/**
  Cycle-exact behaviour of the receiver on an arbitrary line, breaks, and the lag between a
  start edge and the `wait` that sees it.
*/
module Timing {
  import opened Common
  import opened Sws
  import opened Wave
  import opened Reception

  /** The receiver sees a start edge in cycle `c`. */
  predicate SeesStart(st: RxState, line: Line, c: nat) {
    Run(st, line, c).ph.Seek? && !line(c)
  }

  /** The eight levels in the sampling cycles of a byte whose start was seen in cycle `c`. */
  function SamplesOf(line: Line, c: nat): (bits: seq<bool>)
    ensures |bits| == 8
  {
    seq(8, k requires 0 <= k < 8 => line(c + SampleAt(k)))
  }

  /** State `Age` cycles into a byte; `s` is the state in which the start was seen. */
  ghost predicate Within(s: RxState, st: RxState, line: Line, c: nat, age: nat) {
    && InByte(st.ph) && Age(st.ph) == age && st.irqs == s.irqs
    && (st.ph.Lead? ==> 1 <= st.ph.j <= 10)
    && (st.ph.Bits? ==>
          && st.ph.k < 8 && st.ph.r < 8
          && |st.ph.bits| == (if st.ph.r == 0 then st.ph.k else st.ph.k + 1)
          && st.ph.bits == SamplesOf(line, c)[..|st.ph.bits|])
    && st.groups == s.groups + if Pushed(st.ph) then [SamplesOf(line, c)] else []
  }

  lemma WithinStep(s: RxState, st: RxState, line: Line, c: nat, age: nat)
    requires 1 <= age < STOP_AT && Within(s, st, line, c, age)
    ensures Within(s, Next(st, line(c + age)), line, c, age + 1)
  {
    assert st.groups + [] == st.groups;
    if st.ph.Bits? && st.ph.r == 0 {
      var k, all := st.ph.k, SamplesOf(line, c);
      assert line(c + age) == all[k];
      assert st.ph.bits + [all[k]] == all[..k + 1];
      if k == 7 { assert all[..8] == all; }
    }
  }

  lemma {:induction false} WithinRun(st: RxState, line: Line, c: nat, age: nat)
    requires SeesStart(st, line, c) && 1 <= age <= STOP_AT
    ensures Within(Run(st, line, c), Run(st, line, c + age), line, c, age)
    decreases age
  {
    var s := Run(st, line, c);
    if age == 1 {
      assert s.groups + [] == s.groups;
    } else {
      WithinRun(st, line, c, age - 1);
      WithinStep(s, Run(st, line, c + age - 1), line, c, age - 1);
    }
  }

  /**
    Timing of a byte.  If `wait 0` succeeds in cycle `c` then bit `k` is the level in cycle
    c+11+8k, exactly one word is pushed, made of these bits, the level in cycle c+75 decides between a good byte,
    with the receiver back at `wait 0` for cycle c+77, and a raised interrupt.
  */
  lemma ByteTiming(st: RxState, line: Line, c: nat)
    requires SeesStart(st, line, c)
    ensures var s, s' := Run(st, line, c), Run(st, line, c + RESUME_AT);
            && s'.groups == s.groups + [SamplesOf(line, c)]
            && (if line(c + STOP_AT) then s'.ph == Seek && s'.irqs == s.irqs
                else s'.ph == Hold && s'.irqs == s.irqs + 1)
  {
    WithinRun(st, line, c, STOP_AT);
    var s75 := Run(st, line, c + STOP_AT);
    assert s75.groups + [] == s75.groups;
    assert Run(st, line, c + STOP_AT + 1) == Next(s75, line(c + STOP_AT));
    assert Run(st, line, c + RESUME_AT) == Next(Run(st, line, c + STOP_AT + 1), line(c + STOP_AT + 1));
  }

  /** The interrupt is raised in the last of these cycles, not before. */
  lemma NotYetFlagged(st: RxState, line: Line, c: nat)
    requires SeesStart(st, line, c)
    ensures Run(st, line, c + RESUME_AT - 1).irqs == Run(st, line, c).irqs
  {
    WithinRun(st, line, c, STOP_AT);
    assert Run(st, line, c + STOP_AT + 1) == Next(Run(st, line, c + STOP_AT), line(c + STOP_AT));
  }

  /** In between the receiver does not look for a start. */
  lemma Busy(st: RxState, line: Line, c: nat, k: nat)
    requires SeesStart(st, line, c) && 1 <= k < RESUME_AT
    ensures !Run(st, line, c + k).ph.Seek?
  {
    if k <= STOP_AT {
      WithinRun(st, line, c, k);
    } else {
      WithinRun(st, line, c, STOP_AT);
      assert Run(st, line, c + STOP_AT + 1) == Next(Run(st, line, c + STOP_AT), line(c + STOP_AT));
    }
  }

  /** On any line the starts of two bytes are at least 77 cycles apart. */
  lemma StartsApart(st: RxState, line: Line, c: nat, c': nat)
    requires c < c' && SeesStart(st, line, c) && SeesStart(st, line, c')
    ensures c' >= c + RESUME_AT
  {
    if c' < c + RESUME_AT { Busy(st, line, c, c' - c); }
  }

  /** Framing: a byte raises the interrupt exactly when the line is low in its stop cycle. */
  lemma FlaggedIffLow(st: RxState, line: Line, c: nat)
    requires SeesStart(st, line, c)
    ensures Run(st, line, c + RESUME_AT).irqs > Run(st, line, c).irqs <==> !line(c + STOP_AT)
  {
    ByteTiming(st, line, c);
  }

  // ---------- waiting ----------

  lemma StaysPut(s: RxState, level: bool)
    requires if level then s.ph.Seek? else s.ph.Hold?
    ensures Next(s, level) == s
  {
    assert s.groups + [] == s.groups;
  }

  /** While the line is high the receiver waits for a start, at any time. */
  lemma {:induction false} IdleWhileHigh(st: RxState, line: Line, c: nat, n: nat)
    requires c <= n && Run(st, line, c).ph.Seek?
    requires forall m: nat :: c <= m < n ==> line(m)
    ensures Run(st, line, n) == Run(st, line, c)
    decreases n
  {
    if c < n {
      IdleWhileHigh(st, line, c, n - 1);
      StaysPut(Run(st, line, n - 1), true);
      assert Run(st, line, n) == Next(Run(st, line, n - 1), line(n - 1));
    }
  }

  /** After a break the receiver stays at `wait 1` as long as the line is low. */
  lemma {:induction false} HeldWhileLow(st: RxState, line: Line, c: nat, n: nat)
    requires c <= n && Run(st, line, c).ph.Hold?
    requires forall m: nat :: c <= m < n ==> !line(m)
    ensures Run(st, line, n) == Run(st, line, c)
    decreases n
  {
    if c < n {
      HeldWhileLow(st, line, c, n - 1);
      StaysPut(Run(st, line, n - 1), false);
      assert Run(st, line, n) == Next(Run(st, line, n - 1), line(n - 1));
    }
  }

  /** Two cycles after the line has risen it looks for a start again. */
  lemma ReleasedWhenHigh(st: RxState, line: Line, c: nat)
    requires Run(st, line, c).ph.Hold? && line(c)
    ensures Run(st, line, c + 2) == Run(st, line, c).(ph := Seek)
  {
    var s := Run(st, line, c);
    assert s.groups + [] == s.groups;
    assert Run(st, line, c + 1) == Next(s, line(c));
    assert Run(st, line, c + 2) == Next(Run(st, line, c + 1), line(c + 1));
  }

  // ---------- equal clocks: eight receiver cycles a symbol ----------

  /** From cycle `s` on the line shows a frame of `b`. */
  ghost predicate FrameAt(line: Line, s: nat, b: byte) {
    forall m: nat :: s <= m < s + 80 ==> line(m) == Symbol(b, (m - s) / 8)
  }

  /** From cycle `s` on the line shows a start symbol. */
  ghost predicate StartAt(line: Line, s: nat) {
    forall m: nat :: s <= m < s + 8 ==> !line(m)
  }

  /** Lag of the next start edge when frames follow each other without a gap. */
  function NextLag(lag: nat): nat {
    if lag <= 3 then 0 else lag - 3
  }

  lemma FrameSampled(line: Line, s: nat, b: byte, lag: nat)
    requires lag <= 4 && FrameAt(line, s, b)
    ensures SamplesOf(line, s + lag) == ByteBits(b)
    ensures forall m: nat :: s + 72 <= m < s + 80 ==> line(m)
  {
    forall k | 0 <= k < 8 ensures SamplesOf(line, s + lag)[k] == ByteBits(b)[k] {
      assert (lag + SampleAt(k)) / 8 == k + 1;
    }
  }

  /** The lag after a frame whose start was seen `lag` cycles late. */
  lemma LagShrinks(st: RxState, line: Line, s: nat, b: byte, lag: nat)
    requires lag <= 4 && FrameAt(line, s, b) && SeesStart(st, line, s + lag) && StartAt(line, s + 80)
    ensures SeesStart(st, line, s + 80 + NextLag(lag))
    ensures Run(st, line, s + 80 + NextLag(lag)).irqs == Run(st, line, s + lag).irqs
    ensures Decode(Run(st, line, s + 80 + NextLag(lag)).groups) == Decode(Run(st, line, s + lag).groups) + [b]
  {
    var c := s + lag;
    var r := Run(st, line, c);
    ByteTiming(st, line, c);
    FrameSampled(line, s, b, lag);
    DecodeOne(r.groups, b);
    if lag < 3 {
      IdleWhileHigh(st, line, c + RESUME_AT, s + 80);
    }
  }

  /** A run of back-to-back frames from cycle `s` on, followed by one more start. */
  ghost predicate FramesAt(line: Line, s: nat, data: seq<byte>) {
    && (forall i: nat :: i < |data| ==> FrameAt(line, s + 80 * i, data[i]))
    && StartAt(line, s + 80 * |data|)
  }

  lemma NextStart(line: Line, s: nat, data: seq<byte>, i: nat)
    requires FramesAt(line, s, data) && i <= |data|
    ensures StartAt(line, s + 80 * i)
  {
    if i < |data| {
      assert FrameAt(line, s + 80 * i, data[i]);
      forall m: nat | s + 80 * i <= m < s + 80 * i + 8 ensures !line(m) {
        assert (m - (s + 80 * i)) / 8 == 0;
      }
    }
  }

  /** Cycle that sees start `i` when the first start, in cycle `s`, is seen `lag` cycles late. */
  function SeenAt(s: nat, lag: nat, i: nat): nat {
    s + 80 * i + if lag <= 3 * i then 0 else lag - 3 * i
  }

  lemma ChainStep(st: RxState, line: Line, s: nat, data: seq<byte>, lag: nat, i: nat)
    requires FramesAt(line, s, data) && i < |data| && lag <= 4
    requires SeesStart(st, line, SeenAt(s, lag, i))
    ensures SeesStart(st, line, SeenAt(s, lag, i + 1))
    ensures var r, r' := Run(st, line, SeenAt(s, lag, i)), Run(st, line, SeenAt(s, lag, i + 1));
            r'.irqs == r.irqs && Decode(r'.groups) == Decode(r.groups) + [data[i]]
  {
    var s' := s + 80 * i;
    var lag' := SeenAt(s, lag, i) - s';
    assert FrameAt(line, s', data[i]);
    NextStart(line, s, data, i + 1);
    assert s' + 80 == s + 80 * (i + 1);
    assert s' + 80 + NextLag(lag') == SeenAt(s, lag, i + 1);
    LagShrinks(st, line, s', data[i], lag');
  }

  /**
    Equal clocks: any number of back-to-back frames is received whatever the initial lag of 0
    to 4 cycles, and the lag shrinks by three cycles a frame until it is gone.
  */
  lemma {:induction false} BackToBack(st: RxState, line: Line, s: nat, data: seq<byte>, lag: nat, m: nat)
    requires m <= |data| && lag <= 4 && FramesAt(line, s, data) && SeesStart(st, line, s + lag)
    ensures SeesStart(st, line, SeenAt(s, lag, m))
    ensures var r, r' := Run(st, line, s + lag), Run(st, line, SeenAt(s, lag, m));
            r'.irqs == r.irqs && Decode(r'.groups) == Decode(r.groups) + data[..m]
    decreases m
  {
    hide FramesAt, Decode, Run;
    if m == 0 {
      assert SeenAt(s, lag, 0) == s + lag;
    } else {
      BackToBack(st, line, s, data, lag, m - 1);
      ChainStep(st, line, s, data, lag, m - 1);
      assert data[..m] == data[..m - 1] + [data[m - 1]];
    }
  }
}
