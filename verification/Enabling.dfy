/**
  A receiver that is enabled again.  Disabling a state machine freezes it where it stands, and
  enabling it lets it go on from there; so a reception begins in the phase in which the last one
  was stopped.
*/
module Enabling {
  import opened Common
  import opened Pio
  import opened Sws
  import opened Wave
  import opened Reception
  import opened Timing

  /** The phases there are. */
  predicate ValidPhase(ph: RxPhase) {
    match ph
    case Lead(j) => 1 <= j <= 10
    case Bits(k, r, bits) => k < 8 && r < 8 && |bits| == if r == 0 then k else k + 1
    case _ => true
  }

  /** Bits of a byte are still to be sampled. */
  predicate Sampling(ph: RxPhase) {
    ph.Lead? || (ph.Bits? && !Pushed(ph))
  }

  /** Phases that lead to `wait 0` on a high line without a push or an interrupt. */
  predicate Quiet(ph: RxPhase) {
    !Sampling(ph) && !ph.Alarm?
  }

  /** Cycles from a phase to `wait 0` on a high line. */
  function Settle(ph: RxPhase): nat
    requires ValidPhase(ph)
  {
    match ph
    case Seek => 0
    case Alarm => 3
    case Hold => 2
    case Back => 1
    case _ => RESUME_AT - Age(ph)
  }

  function Ones(n: nat): (s: seq<bool>)
    ensures |s| == n
  {
    seq(n, _ => true)
  }

  /** The byte that a high line completes. */
  function Completed(ph: RxPhase): seq<bool> {
    var bits := if ph.Bits? then ph.bits else [];
    bits + Ones(if |bits| < 8 then 8 - |bits| else 0)
  }

  /** Where a high line leads. */
  function Settled(st: RxState): RxState {
    var more := if Sampling(st.ph) then [Completed(st.ph)] else [];
    RxState(Seek, st.groups + more, st.irqs + if st.ph.Alarm? then 1 else 0)
  }

  lemma SettleStep(st: RxState)
    requires ValidPhase(st.ph) && Settle(st.ph) > 0
    ensures var st' := Next(st, true);
            ValidPhase(st'.ph) && Settle(st'.ph) == Settle(st.ph) - 1 && Settled(st') == Settled(st)
  {
    assert st.groups + [] == st.groups;
    if st.ph.Bits? && st.ph.r == 0 {
      var bits := st.ph.bits;
      assert bits + [true] + Ones(7 - |bits|) == bits + Ones(8 - |bits|);
      assert bits + [true] + [] == bits + [true];
    }
  }

  /** On the way there the phase stays in range, and a quiet one stays quiet and changes nothing. */
  lemma {:induction false} Settling(st: RxState, line: Line, n: nat)
    requires ValidPhase(st.ph) && n <= Settle(st.ph) && forall m: nat :: m < n ==> line(m)
    ensures var st' := Run(st, line, n);
            && ValidPhase(st'.ph) && Settle(st'.ph) == Settle(st.ph) - n && Settled(st') == Settled(st)
            && (Quiet(st.ph) ==> Quiet(st'.ph) && st'.groups == st.groups && st'.irqs == st.irqs)
    decreases n
  {
    if n > 0 {
      Settling(st, line, n - 1);
      var s := Run(st, line, n - 1);
      SettleStep(s);
      assert s.groups + [] == s.groups;
    }
  }

  /**
    What an enabled receiver does on a line that is high long enough: it comes to `wait 0`, having
    completed the byte it was stopped in, if it was, and raised the interrupt it was about to
    raise, if it was.
  */
  lemma ResumesExactly(st: RxState, line: Line)
    requires ValidPhase(st.ph) && forall m: nat :: m < Settle(st.ph) ==> line(m)
    ensures Run(st, line, Settle(st.ph)) == Settled(st)
    ensures Run(st, line, Settle(st.ph)) == st.(ph := Seek) <==> Quiet(st.ph)
  {
    Settling(st, line, Settle(st.ph));
    var s := Run(st, line, Settle(st.ph));
    assert s.ph.Seek?;
    assert s.groups + [] == s.groups;
    assert st.groups + [] == st.groups;
    if Sampling(st.ph) { assert |Settled(st).groups| == |st.groups| + 1; }
  }

  /** Stopped after the first sample of a byte, it pushes a byte that nobody sent. */
  lemma ResumedInByte(line: Line)
    requires forall m: nat :: m < 65 ==> line(m)
    ensures Run(RxState(Bits(0, 1, [false]), [], 0), line, 65) == RxState(Seek, [[false] + Ones(7)], 0)
  {
    ResumesExactly(RxState(Bits(0, 1, [false]), [], 0), line);
  }

  // ---------- from there on it is like new ----------

  /** What was pushed and flagged before is not touched. */
  function After(st: RxState, later: RxState): RxState {
    RxState(later.ph, st.groups + later.groups, st.irqs + later.irqs)
  }

  lemma {:induction false} AgreeFrom(st: RxState, line: Line, s: nat, n: nat)
    requires s <= n && Run(st, line, s) == After(st, Run(IDLE, line, s))
    ensures Run(st, line, n) == After(st, Run(IDLE, line, n))
    decreases n
  {
    if s < n {
      AgreeFrom(st, line, s, n - 1);
      var f := Run(IDLE, line, n - 1);
      assert st.groups + f.groups + RxPush(f.ph, line(n - 1)) == st.groups + (f.groups + RxPush(f.ph, line(n - 1)));
    }
  }

  /** A receiver enabled in a quiet phase does what a new one does, once it has settled on a high line. */
  lemma LikeNew(st: RxState, line: Line, n: nat)
    requires ValidPhase(st.ph) && Quiet(st.ph) && Settle(st.ph) <= n
    requires forall m: nat :: m < Settle(st.ph) ==> line(m)
    ensures Run(st, line, n) == After(st, Run(IDLE, line, n))
  {
    hide Run, Settle, Settled, Quiet, ValidPhase;
    var s := Settle(st.ph);
    ResumesExactly(st, line);
    AtFirst(line);
    IdleWhileHigh(IDLE, line, 0, s);
    AfterNothing(st);
    AgreeFrom(st, line, s, n);
  }

  lemma AtFirst(line: Line)
    ensures Run(IDLE, line, 0) == IDLE
  {
  }

  lemma AfterNothing(st: RxState)
    ensures After(st, IDLE) == st.(ph := Seek)
  {
    assert st.groups + [] == st.groups;
  }

  // ---------- the machine ----------

  lemma RepIsValid(sm: Sm, ph: RxPhase)
    requires RxRep(sm, ph)
    ensures ValidPhase(ph)
  {
  }

  /** A machine stopped in a quiet phase. */
  ghost predicate Stopped(sm: Sm, ph: RxPhase) {
    RxRep(sm, ph) && ValidPhase(ph) && Quiet(ph)
  }

  /** It may be enabled for another reception. */
  ghost predicate Resumable(sm: Sm) {
    exists ph :: Stopped(sm, ph)
  }

  /** `later` has pushed these bytes and raised so many interrupts since `sm`. */
  ghost predicate Got(sm: Sm, later: Sm, bytes: seq<byte>, breaks: nat) {
    && |sm.rx| <= |later.rx| && later.rx[..|sm.rx|] == sm.rx
    && Bytes(later.rx[|sm.rx|..]) == bytes && later.irqs == sm.irqs + breaks
  }

  /** Once settled, the machine is in the phase of a new one and has got what a new one has. */
  lemma MachineLikeNew(sm: Sm, ph: RxPhase, line: Line, n: nat)
    requires Stopped(sm, ph) && Settle(ph) <= n && forall m: nat :: m < Settle(ph) ==> line(m)
    ensures var sm', st := RxRun(sm, line, n), Run(IDLE, line, n);
            RxRep(sm', st.ph) && sm'.rx == sm.rx + Words(st.groups) && Got(sm, sm', Decode(st.groups), st.irqs)
  {
    RunRefines(sm, ph, line, n);
    LikeNew(RxState(ph, [], 0), line, n);
    var st := Run(IDLE, line, n);
    assert [] + st.groups == st.groups;
    assert (sm.rx + Words(st.groups))[|sm.rx|..] == Words(st.groups);
  }

  /** Until then it has got nothing. */
  lemma MachineSettling(sm: Sm, ph: RxPhase, line: Line, n: nat)
    requires Stopped(sm, ph) && n <= Settle(ph) && forall m: nat :: m < n ==> line(m)
    ensures var sm' := RxRun(sm, line, n); Got(sm, sm', [], 0) && sm'.rx == sm.rx && Resumable(sm')
  {
    RunRefines(sm, ph, line, n);
    Settling(RxState(ph, [], 0), line, n);
    assert sm.rx + [] == sm.rx;
    assert Stopped(RxRun(sm, line, n), Run(RxState(ph, [], 0), line, n).ph);
  }

  // ---------- streams ----------

  /**
    It is enabled in time: standing at `wait 0`, less than `d` cycles after the first start edge;
    elsewhere, early enough to settle before that edge.
  */
  ghost predicate InTime(ph: RxPhase, fs: seq<Frame>, d: real)
    requires ValidPhase(ph)
  {
    fs != [] ==> if ph.Seek? then 0.0 < fs[0].start + d else Settle(ph) as real <= fs[0].start
  }

  lemma HighUntilFirst(line: Line, fs: seq<Frame>, p: real, n: nat, m: nat)
    requires p > 0.0 && Spaced(fs, p) && Shows(line, fs, p, n) && m < n
    requires fs != [] ==> (m as real) < fs[0].start
    ensures line(m)
  {
    LevelBefore(fs, p, m as real);
  }

  lemma NoneOver(fs: seq<Frame>, p: real, n: nat)
    requires p > 0.0 && Spaced(fs, p) && (fs != [] ==> (n as real) < fs[0].start)
    ensures Received(fs, p, n, [], 0)
  {
    forall i | 0 <= i < |fs| ensures fs[i].start + 10.0 * p > n as real {
      if i > 0 { SpacedFrom(fs, p, 0, i); }
    }
  }

  /**
    Clock tolerance.  With a symbol time between 7.7 and 75/9 receiver cycles `jd_rx`, enabled in
    any quiet phase, receives every stream of frames exactly: after any number of cycles it has
    pushed a prefix of the bytes sent, at least every byte whose frame is over, and flagged no
    break.  When it has pushed all of them it may be stopped and enabled again.
  */
  lemma StreamReceived(fs: seq<Frame>, p: real, d: real, line: Line, sm: Sm, ph: RxPhase, n: nat)
    requires LagOk(p, d) && Spaced(fs, p) && Shows(line, fs, p, n)
    requires Stopped(sm, ph) && InTime(ph, fs, d)
    ensures var sm' := RxRun(sm, line, n);
            && |sm.rx| <= |sm'.rx| && sm'.rx[..|sm.rx|] == sm.rx && sm'.irqs >= sm.irqs
            && Received(fs, p, n, sm'.rx[|sm.rx|..], sm'.irqs - sm.irqs)
            && (|sm'.rx| == |sm.rx| + |fs| ==> Resumable(sm'))
  {
    var s := Settle(ph);
    forall m: nat | m < s && m < n ensures line(m) {
      HighUntilFirst(line, fs, p, n, m);
    }
    if n < s {
      MachineSettling(sm, ph, line, n);
      NoneOver(fs, p, n);
    } else {
      MachineLikeNew(sm, ph, line, n);
      if fs != [] && !ph.Seek? { assert 0.0 <= fs[0].start; }
      StreamTracked(fs, p, d, line, n);
      var st := Run(IDLE, line, n);
      RepIsValid(RxRun(sm, line, n), st.ph);
      if |st.groups| == |fs| { assert Stopped(RxRun(sm, line, n), st.ph); }
    }
  }
}
