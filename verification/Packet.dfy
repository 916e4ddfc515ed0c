/**
  A packet: a stream of frames closed by a break, a low pulse much longer than a byte.
*/
module Packet {
  import opened Common
  import opened Pio
  import opened Sws
  import opened Wave
  import opened Reception
  import opened Timing
  import opened Tolerance
  import opened Enabling

  /** The frames `fs`, then a low pulse from time `b` that lasts `w` cycles, then idle. */
  ghost predicate ShowsPacket(line: Line, fs: seq<Frame>, p: real, b: real, w: real)
    requires p > 0.0
  {
    forall n: nat :: line(n) == (Level(fs, p, n as real) && !(b <= n as real < b + w))
  }

  /** The break follows the last data symbol; it may cut the stop symbol short. */
  ghost predicate BreakAfter(fs: seq<Frame>, p: real, b: real) {
    0.0 <= b && (fs != [] ==> fs[|fs| - 1].start + 9.0 * p <= b)
  }

  function Ceiling(t: real): (n: int)
    ensures t <= n as real < t + 1.0
  {
    if t.Floor as real == t then t.Floor else t.Floor + 1
  }

  // ---------- the last byte ----------

  /** A byte being received was started where its age says. */
  lemma {:induction false} StartOf(line: Line, n: nat)
    requires InByte(Run(IDLE, line, n).ph)
    ensures ValidPhase(Run(IDLE, line, n).ph)
    ensures var a := Age(Run(IDLE, line, n).ph); 1 <= a <= n && SeesStart(IDLE, line, n - a)
    decreases n
  {
    if n > 0 {
      PhaseIsValid(line, n - 1);
      PhaseIsValid(line, n);
      var s := Run(IDLE, line, n - 1);
      if InByte(s.ph) { StartOf(line, n - 1); }
    }
  }

  lemma PhaseIsValid(line: Line, n: nat)
    ensures ValidPhase(Run(IDLE, line, n).ph)
  {
    RunRefines(FRESH, Seek, line, n);
    RepIsValid(RxRun(FRESH, line, n), Run(IDLE, line, n).ph);
  }

  /** Some forty cycles into the last frame the receiver is inside its byte. */
  lemma InsideLast(fs: seq<Frame>, p: real, d: real, n: nat, st: RxState, i: nat)
    requires LagOk(p, d) && Spaced(fs, p) && Tracking(fs, p, d, n, st, i) && fs != []
    requires fs[|fs| - 1].start + 40.0 <= n as real < fs[|fs| - 1].start + 41.0
    ensures i == |fs| - 1 && InByte(st.ph) && !Pushed(st.ph)
  {
    if i < |fs| - 1 { SpacedFrom(fs, p, i, |fs| - 1); }
  }

  /** `c` is the cycle that saw the start of the last frame, after all frames before it were received. */
  ghost predicate SawLast(fs: seq<Frame>, d: real, line: Line, c: nat)
    requires fs != []
  {
    var last := |fs| - 1;
    && SeesStart(IDLE, line, c) && fs[last].start <= c as real < fs[last].start + d
    && Decode(Run(IDLE, line, c).groups) == Payload(fs[..last]) && Run(IDLE, line, c).irqs == 0
  }

  lemma LastStart(fs: seq<Frame>, p: real, d: real, line: Line, n: nat) returns (c: nat)
    requires LagOk(p, d) && Spaced(fs, p) && fs != [] && 0.0 < fs[0].start + d
    requires fs[|fs| - 1].start + 40.0 <= n as real < fs[|fs| - 1].start + 41.0 && Shows(line, fs, p, n)
    ensures SawLast(fs, d, line, c)
  {
    TrackRun(fs, p, d, line, n);
    var st := Run(IDLE, line, n);
    var i: nat :| Tracking(fs, p, d, n, st, i);
    InsideLast(fs, p, d, n, st, i);
    StartOf(line, n);
    c := n - Age(st.ph);
    WithinRun(IDLE, line, c, Age(st.ph));
    assert Run(IDLE, line, c).groups + [] == Run(IDLE, line, c).groups;
  }

  lemma {:induction false} LowIsr(bits: seq<bool>)
    requires forall k :: 0 <= k < |bits| ==> !bits[k]
    ensures IsrOf(bits) == 0
    decreases |bits|
  {
    if bits != [] { LowIsr(bits[..|bits| - 1]); }
  }

  lemma DecodeLow(groups: seq<seq<bool>>, bits: seq<bool>)
    requires forall k :: 0 <= k < |bits| ==> !bits[k]
    ensures Decode(groups + [bits]) == Decode(groups) + [0]
  {
    LowIsr(bits);
  }

  /** A byte that is low in its stop cycle: it is pushed and flagged, and the receiver is held. */
  lemma FlaggedByte(line: Line, c: nat)
    requires SeesStart(IDLE, line, c) && !line(c + STOP_AT) && Run(IDLE, line, c).irqs == 0
    ensures Run(IDLE, line, c + RESUME_AT)
         == RxState(Hold, Run(IDLE, line, c).groups + [SamplesOf(line, c)], 1)
    ensures FirstFlag(line, c + RESUME_AT)
  {
    ByteTiming(IDLE, line, c);
    NotYetFlagged(IDLE, line, c);
  }

  /** The interrupt is first raised by the cycle before `h`, and the receiver is held then. */
  ghost predicate FirstFlag(line: Line, h: nat) {
    h > 0 && Run(IDLE, line, h).ph.Hold? && Run(IDLE, line, h).irqs == 1 && Run(IDLE, line, h - 1).irqs == 0
  }

  /** The state before cycle `n` when the receiver is held from cycle `h` on and the line rises at cycle `e`. */
  lemma AfterBreak(line: Line, h: nat, e: nat, n: nat)
    requires Run(IDLE, line, h).ph.Hold? && h <= n
    requires forall m: nat :: (h <= m < e ==> !line(m)) && (e <= m && h <= m ==> line(m))
    ensures var s, s' := Run(IDLE, line, h), Run(IDLE, line, n);
            && s'.groups == s.groups && s'.irqs == s.irqs
            && (n <= e || n == h ==> s'.ph == Hold)
            && (n >= h + 2 && n >= e + 2 ==> s'.ph == Seek)
  {
    var r := if e > h then e else h;
    if n <= r {
      HeldWhileLow(IDLE, line, h, n);
    } else {
      HeldWhileLow(IDLE, line, h, r);
      ReleasedWhenHigh(IDLE, line, r);
      if n == r + 1 {
        var s := Run(IDLE, line, r);
        assert s.groups + [] == s.groups;
        assert Run(IDLE, line, n) == Next(s, line(r));
      } else {
        IdleWhileHigh(IDLE, line, r + 2, n);
      }
    }
  }

  lemma {:induction false} IrqsGrow(line: Line, m: nat, n: nat)
    requires m <= n
    ensures Run(IDLE, line, m).irqs <= Run(IDLE, line, n).irqs
    decreases n
  {
    if m < n { IrqsGrow(line, m, n - 1); }
  }

  // ---------- the break ----------

  /**
    The bytes a packet yields when the last start was seen in cycle `c`: the zero byte of the
    break is missing exactly if the break has begun by the stop check of the last byte.
  */
  function PacketBytes(fs: seq<Frame>, b: real, c: int): seq<byte> {
    if fs != [] && Ceiling(b) <= c + STOP_AT then Payload(fs) else Payload(fs) + [0]
  }

  /** What the line does around the break. */
  lemma LineAround(fs: seq<Frame>, p: real, line: Line, b: real, w: real)
    requires p > 0.0 && Spaced(fs, p) && BreakAfter(fs, p, b) && w >= 0.0 && ShowsPacket(line, fs, p, b, w)
    ensures forall m: nat :: b <= m as real && m < Ceiling(b + w) ==> !line(m)
    ensures forall m: nat :: Ceiling(b + w) <= m ==> line(m)
    ensures forall m: nat :: (m as real) < b && (fs != [] ==> fs[|fs| - 1].start + 9.0 * p <= m as real) ==> line(m)
  {
    var e := Ceiling(b + w);
    forall m: nat | b <= m as real && m < e ensures !line(m) {
      assert m as real <= (e - 1) as real < b + w;
    }
    forall m: nat | e <= m || ((m as real) < b && (fs != [] ==> fs[|fs| - 1].start + 9.0 * p <= m as real))
      ensures line(m)
    {
      if fs == [] { LevelBefore(fs, p, m as real); }
      else { LevelAfter(fs, p, m as real, |fs| - 1); }
    }
  }

  /** The receiver, waiting in cycle `m` before or just after the break begins, takes it for a zero byte. */
  lemma BreakIsZero(line: Line, m: nat, b: real, w: real) returns (h: nat)
    requires Run(IDLE, line, m).ph.Seek? && Run(IDLE, line, m).irqs == 0
    requires w >= 77.0 && 0.0 <= b && (m as real) < b + 2.0
    requires forall k: nat :: m <= k && (k as real) < b ==> line(k)
    requires forall k: nat :: b <= k as real < b + w ==> !line(k)
    ensures b <= h as real < b + 79.0 && FirstFlag(line, h)
    ensures Decode(Run(IDLE, line, h).groups) == Decode(Run(IDLE, line, m).groups) + [0]
  {
    var c := if Ceiling(b) <= m then m else Ceiling(b);
    IdleWhileHigh(IDLE, line, m, c);
    assert !line(c);
    assert (c + STOP_AT) as real < b + 77.0;
    FlaggedByte(line, c);
    forall k | 0 <= k < 8 ensures !SamplesOf(line, c)[k] {
      assert SampleAt(k) <= STOP_AT;
      assert !line(c + SampleAt(k));
    }
    DecodeLow(Run(IDLE, line, c).groups, SamplesOf(line, c));
    h := c + RESUME_AT;
  }

  lemma LastSample(fs: seq<Frame>, p: real, d: real, line: Line, b: real, w: real, c: nat, k: nat)
    requires LagOk(p, d) && Spaced(fs, p) && fs != [] && BreakAfter(fs, p, b) && ShowsPacket(line, fs, p, b, w)
    requires fs[|fs| - 1].start <= c as real < fs[|fs| - 1].start + d && k < 8
    ensures line(c + SampleAt(k)) == Bit(fs[|fs| - 1].data, k)
  {
    var i, m := |fs| - 1, c + SampleAt(k);
    var u := m as real - fs[i].start;
    SampleInside(p, d, u, k);
    SampleBound(p, k, u);
    LevelOfSymbol(fs, p, m as real, i, k + 1);
    assert (m as real) < b;
  }

  /** The samples of the last byte are its bits, break or no break. */
  lemma LastByte(fs: seq<Frame>, p: real, d: real, line: Line, b: real, w: real, c: nat)
    requires LagOk(p, d) && Spaced(fs, p) && fs != [] && BreakAfter(fs, p, b) && ShowsPacket(line, fs, p, b, w)
    requires SawLast(fs, d, line, c)
    ensures SamplesOf(line, c) == ByteBits(fs[|fs| - 1].data)
  {
    hide LagOk, Spaced, BreakAfter, ShowsPacket, Bit;
    forall k | 0 <= k < 8 ensures SamplesOf(line, c)[k] == ByteBits(fs[|fs| - 1].data)[k] {
      LastSample(fs, p, d, line, b, w, c, k);
    }
  }

  lemma SampleBound(p: real, k: nat, u: real)
    requires p > 0.0 && k < 8 && u < (k + 2) as real * p
    ensures u < 9.0 * p
  {
    assert (k + 2) as real * p <= 9.0 * p;
  }

  /** After the last byte: flagged already, or received and waiting. */
  lemma AfterLast(fs: seq<Frame>, p: real, d: real, line: Line, b: real, w: real, c: nat)
    requires LagOk(p, d) && Spaced(fs, p) && fs != [] && BreakAfter(fs, p, b) && w >= 77.0
    requires ShowsPacket(line, fs, p, b, w) && SawLast(fs, d, line, c)
    ensures Decode(Run(IDLE, line, c + RESUME_AT).groups) == Payload(fs)
    ensures if Ceiling(b) <= c + STOP_AT then FirstFlag(line, c + RESUME_AT)
            else Run(IDLE, line, c + RESUME_AT).ph.Seek? && Run(IDLE, line, c + RESUME_AT).irqs == 0
  {
    var i := |fs| - 1;
    var s := Run(IDLE, line, c);
    LastByte(fs, p, d, line, b, w, c);
    ByteTiming(IDLE, line, c);
    DecodeOne(s.groups, fs[i].data);
    assert Payload(fs[..i]) + [fs[i].data] == Payload(fs);
    LineAround(fs, p, line, b, w);
    if Ceiling(b) <= c + STOP_AT {
      assert (c + STOP_AT) as real < b + 77.0;
      FlaggedByte(line, c);
    } else {
      assert line(c + STOP_AT);
    }
  }

  lemma Held(fs: seq<Frame>, p: real, d: real, line: Line, b: real, w: real, c: nat) returns (h: nat)
    requires LagOk(p, d) && Spaced(fs, p) && BreakAfter(fs, p, b) && w >= 77.0 && ShowsPacket(line, fs, p, b, w)
    requires fs != [] ==> SawLast(fs, d, line, c)
    ensures b <= h as real < b + 79.0 && FirstFlag(line, h)
    ensures Decode(Run(IDLE, line, h).groups) == PacketBytes(fs, b, c)
  {
    LineAround(fs, p, line, b, w);
    if fs == [] {
      assert Decode([]) == [];
      h := BreakIsZero(line, 0, b, w);
      assert Payload(fs) == [];
    } else {
      AfterLast(fs, p, d, line, b, w, c);
      if Ceiling(b) <= c + STOP_AT {
        h := c + RESUME_AT;
      } else {
        h := BreakIsZero(line, c + RESUME_AT, b, w);
      }
    }
  }

  // ---------- packets ----------

  /** The first start edge, or the break if there is none, comes late enough for the machine to settle. */
  ghost predicate PacketInTime(ph: RxPhase, fs: seq<Frame>, d: real, b: real)
    requires ValidPhase(ph)
  {
    InTime(ph, fs, d) && (fs == [] ==> Settle(ph) as real <= b)
  }

  lemma HighBefore(fs: seq<Frame>, p: real, d: real, line: Line, b: real, w: real, ph: RxPhase, m: nat)
    requires p > 0.0 && Spaced(fs, p) && BreakAfter(fs, p, b) && ShowsPacket(line, fs, p, b, w)
    requires ValidPhase(ph) && PacketInTime(ph, fs, d, b) && m < Settle(ph)
    ensures line(m)
  {
    assert Level(fs, p, m as real) by { LevelBefore(fs, p, m as real); }
    if fs != [] && |fs| > 1 { SpacedFrom(fs, p, 0, |fs| - 1); }
  }

  /** What a new receiver has made of the packet, from the cycle `h` on that first holds it. */
  lemma NewReceives(fs: seq<Frame>, p: real, line: Line, b: real, w: real, h: nat, n: nat)
    requires p > 0.0 && Spaced(fs, p) && BreakAfter(fs, p, b) && w >= 77.0 && ShowsPacket(line, fs, p, b, w)
    requires b <= h as real < b + 79.0 && FirstFlag(line, h)
    ensures var st := Run(IDLE, line, n);
            && (st.irqs == if n < h then 0 else 1)
            && (n >= h ==> st.groups == Run(IDLE, line, h).groups && (st.ph.Hold? || st.ph.Back? || st.ph.Seek?))
            && (n >= h && n as real <= b + w ==> st.ph.Hold?)
            && (n >= h && n as real >= b + w + 4.0 ==> st.ph.Seek?)
  {
    if n < h {
      IrqsGrow(line, n, h - 1);
    } else {
      LineAround(fs, p, line, b, w);
      AfterBreak(line, h, Ceiling(b + w), n);
    }
  }

  /**
    Break detection.  A stream of frames closed by a low pulse of at least 77 receiver cycles,
    from any quiet phase, raises the interrupt exactly once, within 79 cycles.  From then on the
    machine has got exactly the bytes sent, and the zero byte of the break unless the break had
    begun by the stop check of the last byte, 75 cycles after the cycle `c` that saw its start.
    It is at `wait 1` (instruction 8) while the line is low, and at `wait 0` four cycles after it
    rises; all along it may be stopped and enabled again.
  */
  lemma PacketReceived(fs: seq<Frame>, p: real, d: real, line: Line, b: real, w: real, sm: Sm, ph: RxPhase)
    returns (c: nat)
    requires LagOk(p, d) && Spaced(fs, p) && BreakAfter(fs, p, b) && w >= 77.0 && ShowsPacket(line, fs, p, b, w)
    requires Stopped(sm, ph) && PacketInTime(ph, fs, d, b)
    ensures fs != [] ==> fs[|fs| - 1].start <= c as real < fs[|fs| - 1].start + d
    ensures fs != [] && d == 1.0 ==> c == Ceiling(fs[|fs| - 1].start)
    ensures fs != [] ==> !line(c) && RxRun(sm, line, c).pc == 0 && RxRun(sm, line, c).delay == 0
    ensures forall n: nat :: PacketState(fs, b, w, c, sm, RxRun(sm, line, n), n)
  {
    var h;
    c, h := Understood(fs, p, d, line, b, w, ph);
    forall n: nat ensures PacketState(fs, b, w, c, sm, RxRun(sm, line, n), n) {
      StateAt(fs, p, d, line, b, w, sm, ph, c, h, n);
    }
    if fs != [] {
      SettledByLast(fs, p, d, line, ph, c);
      forall m: nat | m < Settle(ph) ensures line(m) { HighBefore(fs, p, d, line, b, w, ph, m); }
      MachineLikeNew(sm, ph, line, c);
    }
  }

  /** The machine after `n` cycles of the packet. */
  ghost predicate PacketState(fs: seq<Frame>, b: real, w: real, c: nat, sm: Sm, sm': Sm, n: nat) {
    && sm.irqs <= sm'.irqs <= sm.irqs + 1
    && (b + 79.0 <= n as real ==> sm'.irqs == sm.irqs + 1)
    && (sm'.irqs > sm.irqs ==>
          && Got(sm, sm', PacketBytes(fs, b, c), 1) && Resumable(sm')
          && (n as real <= b + w ==> sm'.pc == 8)
          && (n as real >= b + w + 4.0 ==> sm'.pc == 0 && sm'.delay == 0))
  }

  lemma Understood(fs: seq<Frame>, p: real, d: real, line: Line, b: real, w: real, ph: RxPhase) returns (c: nat, h: nat)
    requires LagOk(p, d) && Spaced(fs, p) && BreakAfter(fs, p, b) && w >= 77.0 && ShowsPacket(line, fs, p, b, w)
    requires ValidPhase(ph) && PacketInTime(ph, fs, d, b)
    ensures fs != [] ==> SawLast(fs, d, line, c)
    ensures b <= h as real < b + 79.0 && FirstFlag(line, h)
    ensures Decode(Run(IDLE, line, h).groups) == PacketBytes(fs, b, c)
  {
    c := 0;
    if fs != [] {
      FirstPositive(fs, p, d, b, ph);
      c := LastStart(fs, p, d, line, Ceiling(fs[|fs| - 1].start + 40.0));
    }
    h := Held(fs, p, d, line, b, w, c);
  }

  lemma FirstPositive(fs: seq<Frame>, p: real, d: real, b: real, ph: RxPhase)
    requires LagOk(p, d) && Spaced(fs, p) && fs != [] && ValidPhase(ph) && PacketInTime(ph, fs, d, b)
    ensures 0.0 < fs[0].start + d && fs[|fs| - 1].start + d > 0.0
  {
    if |fs| > 1 { SpacedFrom(fs, p, 0, |fs| - 1); }
  }

  lemma SettledByLast(fs: seq<Frame>, p: real, d: real, line: Line, ph: RxPhase, c: nat)
    requires LagOk(p, d) && Spaced(fs, p) && fs != [] && ValidPhase(ph) && InTime(ph, fs, d) && SawLast(fs, d, line, c)
    ensures Settle(ph) <= c
  {
    if |fs| > 1 { SpacedFrom(fs, p, 0, |fs| - 1); }
  }

  lemma StateAt(fs: seq<Frame>, p: real, d: real, line: Line, b: real, w: real,
                sm: Sm, ph: RxPhase, c: nat, h: nat, n: nat)
    requires p > 0.0 && Spaced(fs, p) && BreakAfter(fs, p, b) && w >= 77.0 && ShowsPacket(line, fs, p, b, w)
    requires Stopped(sm, ph) && PacketInTime(ph, fs, d, b)
    requires b <= h as real < b + 79.0 && FirstFlag(line, h) && Settle(ph) <= h
    requires Decode(Run(IDLE, line, h).groups) == PacketBytes(fs, b, c)
    ensures PacketState(fs, b, w, c, sm, RxRun(sm, line, n), n)
  {
    forall m: nat | m < Settle(ph) ensures line(m) { HighBefore(fs, p, d, line, b, w, ph, m); }
    if n < Settle(ph) {
      MachineSettling(sm, ph, line, n);
    } else {
      MachineLikeNew(sm, ph, line, n);
      NewReceives(fs, p, line, b, w, h, n);
      var sm', st := RxRun(sm, line, n), Run(IDLE, line, n);
      if n >= h { assert Stopped(sm', st.ph); }
    }
  }

  // ---------- packet after packet ----------

  /**
    One reception: the receiver is enabled at time 0 of this line, at least nine cycles before
    the first start edge, and stopped after `n` cycles.
  */
  datatype Session = Session(fs: seq<Frame>, p: real, line: Line, b: real, w: real, n: nat)

  ghost predicate Regular(s: Session) {
    && 7.7 <= s.p <= 75.0 / 9.0 && Spaced(s.fs, s.p) && BreakAfter(s.fs, s.p, s.b) && s.w >= 77.0
    && ShowsPacket(s.line, s.fs, s.p, s.b, s.w)
    && (if s.fs == [] then 9.0 <= s.b else 9.0 <= s.fs[0].start)
  }

  /** What it yields; enabled in time, the receiver sees the last start in its first cycle. */
  function BytesOf(s: Session): seq<byte> {
    PacketBytes(s.fs, s.b, if s.fs == [] then 0 else Ceiling(s.fs[|s.fs| - 1].start))
  }

  /** The machine after these receptions, frozen in between for any time. */
  function Receptions(sm: Sm, sessions: seq<Session>): Sm {
    if sessions == [] then sm
    else
      var k := |sessions| - 1;
      RxRun(Receptions(sm, sessions[..k]), sessions[k].line, sessions[k].n)
  }

  /** The bytes of the packets, one after the other. */
  function AllBytes(sessions: seq<Session>): seq<byte> {
    if sessions == [] then [] else AllBytes(sessions[..|sessions| - 1]) + BytesOf(sessions[|sessions| - 1])
  }

  lemma SettlesInNine(ph: RxPhase)
    requires ValidPhase(ph) && Quiet(ph)
    ensures Settle(ph) <= 9
  {
  }

  /** Every reception lasts until its interrupt is raised, and any time longer. */
  ghost predicate Interrupted(sm: Sm, sessions: seq<Session>) {
    forall i :: 0 <= i < |sessions| ==>
      var before := Receptions(sm, sessions[..i]);
      before.irqs < RxRun(before, sessions[i].line, sessions[i].n).irqs
  }

  lemma InterruptedPrefix(sm: Sm, sessions: seq<Session>)
    requires sessions != [] && Interrupted(sm, sessions)
    ensures var k := |sessions| - 1;
            && Interrupted(sm, sessions[..k])
            && var before := Receptions(sm, sessions[..k]);
               before.irqs < RxRun(before, sessions[k].line, sessions[k].n).irqs
  {
    hide Receptions, RxRun;
    var k := |sessions| - 1;
    forall i | 0 <= i < k
      ensures var before := Receptions(sm, sessions[..k][..i]);
              before.irqs < RxRun(before, sessions[..k][i].line, sessions[..k][i].n).irqs
    {
      assert sessions[..k][..i] == sessions[..i];
    }
  }

  lemma OneReception(sm: Sm, s: Session)
    requires Resumable(sm) && Regular(s) && sm.irqs < RxRun(sm, s.line, s.n).irqs
    ensures var sm' := RxRun(sm, s.line, s.n);
            Got(sm, sm', BytesOf(s), 1) && Resumable(sm')
  {
    hide RxRun, Got, Spaced, BreakAfter, ShowsPacket;
    var ph :| Stopped(sm, ph);
    SettlesInNine(ph);
    var c := PacketReceived(s.fs, s.p, 1.0, s.line, s.b, s.w, sm, ph);
    assert PacketState(s.fs, s.b, s.w, c, sm, RxRun(sm, s.line, s.n), s.n);
  }

  lemma GotMore(sm: Sm, sm': Sm, later: Sm, bytes: seq<byte>, more: seq<byte>, k: nat)
    requires Got(sm, sm', bytes, k) && Got(sm', later, more, 1)
    ensures Got(sm, later, bytes + more, k + 1)
  {
    assert later.rx[..|sm.rx|] == later.rx[..|sm'.rx|][..|sm.rx|];
    assert later.rx[|sm.rx|..|sm'.rx|] == later.rx[..|sm'.rx|][|sm.rx|..];
    assert later.rx[|sm.rx|..] == later.rx[|sm.rx|..|sm'.rx|] + later.rx[|sm'.rx|..];
  }

  /**
    Any number of packets in a row.  The receiver is stopped at any moment after the break has
    raised its interrupt and enabled again from there, without being initialised in between: it
    gets exactly the bytes of all packets, in order, with one interrupt each.
  */
  lemma {:induction false} PacketAfterPacket(sm: Sm, sessions: seq<Session>)
    requires Resumable(sm) && forall i :: 0 <= i < |sessions| ==> Regular(sessions[i])
    requires Interrupted(sm, sessions)
    ensures Got(sm, Receptions(sm, sessions), AllBytes(sessions), |sessions|)
    ensures Resumable(Receptions(sm, sessions))
    decreases |sessions|
  {
    hide *;
    Unfolded(sm, sessions);
    if sessions != [] {
      var k := |sessions| - 1;
      InterruptedPrefix(sm, sessions);
      PacketAfterPacket(sm, sessions[..k]);
      var before := Receptions(sm, sessions[..k]);
      OneReception(before, sessions[k]);
      GotMore(sm, before, Receptions(sm, sessions), AllBytes(sessions[..k]), BytesOf(sessions[k]), k);
    }
  }

  lemma Unfolded(sm: Sm, sessions: seq<Session>)
    ensures if sessions == [] then Receptions(sm, sessions) == sm && Got(sm, sm, AllBytes(sessions), 0)
            else
              var k := |sessions| - 1;
              && Receptions(sm, sessions) == RxRun(Receptions(sm, sessions[..k]), sessions[k].line, sessions[k].n)
              && AllBytes(sessions) == AllBytes(sessions[..k]) + BytesOf(sessions[k])
  {
    assert sm.rx[|sm.rx|..] == [];
  }

  // ---------- the lag ----------

  /** The lag between a start edge and the cycle that sees it never exceeds its first bound. */
  lemma LagStaysBelow(fs: seq<Frame>, p: real, d: real, line: Line, n: nat) returns (i: nat)
    requires LagOk(p, d) && Spaced(fs, p) && Shows(line, fs, p, n + 1)
    requires (fs != [] ==> 0.0 < fs[0].start + d) && SeesStart(IDLE, line, n)
    ensures i < |fs| && fs[i].start <= n as real < fs[i].start + d
    ensures Decode(Run(IDLE, line, n).groups) == Payload(fs[..i])
  {
    TrackRun(fs, p, d, line, n);
    i :| Tracking(fs, p, d, n, Run(IDLE, line, n), i);
    if i == |fs| && i > 0 {
      LevelAfter(fs, p, n as real, i - 1);
    } else if i == 0 && (fs == [] || (n as real) < fs[0].start) {
      LevelBefore(fs, p, n as real);
    } else if i < |fs| && (n as real) < fs[i].start {
      LevelAfter(fs, p, n as real, i - 1);
    }
  }
}
