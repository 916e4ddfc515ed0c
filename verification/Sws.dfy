/**
  The two programs of the single-wire UART, as assembled from the PIO source, and the two
  small automata they implement.

  `TxPhase` and `RxPhase` say in one datatype value where a program is within a byte.  The
  lemmas `TxRefines` and `RxRefines` prove that the interpreted instructions, delays, counters
  and shift registers follow these automata cycle for cycle, for every input.
*/
module Sws {
  import opened Common
  import opened Pio

  const TX_PROGRAM := Program([
    Instr(Pull, SideSet(true), 7),
    Instr(SetX(7), SideSet(false), 7),
    Instr(OutPin, NoSide, 0),
    Instr(JmpXDec(2), NoSide, 6)], true)

  const RX_PROGRAM := Program([
    Instr(WaitPin(false), NoSide, 0),
    Instr(SetX(7), SideSet(false), 7),
    Instr(Nop, NoSide, 1),
    Instr(InPin, SideSet(true), 0),
    Instr(Nop, SideSet(false), 0),
    Instr(JmpXDec(3), NoSide, 5),
    Instr(JmpPin(10), SideSet(true), 0),
    Instr(Irq, SideSet(false), 0),
    Instr(WaitPin(true), NoSide, 0),
    Instr(Jmp(0), SideSet(true), 0),
    Instr(Nop, NoSide, 0)], false)

  // ---------- bits, least significant first ----------

  function Shr(w: nat, k: nat): (r: nat)
    ensures r <= w
  {
    if k == 0 then w else Shr(w, k - 1) / 2
  }

  predicate Bit(b: nat, k: nat) {
    Shr(b, k) % 2 == 1
  }

  function ByteBits(b: byte): (bits: seq<bool>)
    ensures |bits| == 8
  {
    seq(8, k requires 0 <= k < 8 => Bit(b, k))
  }

  /** An 8-bit DMA write to the TX FIFO is replicated on all four lanes of the bus. */
  function Replicate(b: byte): word {
    b * 0x0101_0101
  }

  /** The receive DMA reads one byte, at offset 3 of the FIFO word. */
  function TopLane(w: word): byte {
    w / 0x0100_0000
  }

  /** The input shift register after `bits` were shifted in. */
  function IsrOf(bits: seq<bool>): word {
    if bits == [] then 0 else ShiftIn(IsrOf(bits[..|bits| - 1]), bits[|bits| - 1])
  }

  lemma {:induction false} Pow2Split(a: nat, b: nat)
    ensures Pow2(a) * Pow2(b) == Pow2(a + b)
  {
    if a > 0 {
      Pow2Split(a - 1, b);
      assert Pow2(a) * Pow2(b) == 2 * (Pow2(a - 1) * Pow2(b));
    }
  }

  /** What sits above the low byte does not reach the low bits in fewer than eight shifts. */
  lemma {:induction false} ShrLowByte(b: byte, m: nat, k: nat)
    requires k <= 8
    ensures Shr(b + 256 * m, k) == Shr(b, k) + Pow2(8 - k) * m
  {
    if k == 0 {
      assert Pow2(8) == 256;
    } else {
      ShrLowByte(b, m, k - 1);
      assert Pow2(9 - k) * m == 2 * (Pow2(8 - k) * m);
    }
  }

  /** The transmitter shifts out the bits of the byte, whatever the other lanes hold. */
  lemma ReplicateBits(b: byte, k: nat)
    requires k < 8
    ensures Bit(Replicate(b), k) == Bit(b, k)
  {
    var m := b * 0x1_0101;
    assert Replicate(b) == b + 256 * m;
    ShrLowByte(b, m, k);
    Doubled(8 - k, m);
    Parity(Shr(b, k), Pow2(7 - k) * m);
  }

  lemma Doubled(n: nat, m: nat)
    requires n > 0
    ensures Pow2(n) * m == 2 * (Pow2(n - 1) * m)
  {
  }

  lemma Parity(x: nat, y: nat)
    ensures (x + 2 * y) % 2 == x % 2
  {
  }

  /** The number whose bits are `bits`. */
  function FromBits(bits: seq<bool>): nat {
    if bits == [] then 0
    else
      var n := |bits| - 1;
      FromBits(bits[..n]) + if bits[n] then Pow2(n) else 0
  }

  lemma {:induction false} IsrIsShifted(bits: seq<bool>)
    requires |bits| <= 8
    ensures IsrOf(bits) == FromBits(bits) * Pow2(32 - |bits|)
  {
    if bits != [] {
      var n := |bits| - 1;
      IsrIsShifted(bits[..n]);
      Pow2Split(n, 31 - n);
      Pow31();
      ShiftedIn(FromBits(bits[..n]), Pow2(31 - n), Pow2(n), bits[n]);
    }
  }

  lemma ShiftedIn(f: nat, p: nat, q: nat, level: bool)
    ensures (f * (2 * p)) / 2 + (if level then q * p else 0) == (f + if level then q else 0) * p
  {
    assert f * (2 * p) == 2 * (f * p);
  }

  lemma Pow31()
    ensures Pow2(31) == 0x8000_0000 && Pow2(24) == 0x0100_0000
  {
    assert Pow2(8) == 256;
    Pow2Split(8, 8);
    Pow2Split(16, 8);
    assert Pow2(7) == 128;
    Pow2Split(24, 7);
  }

  lemma Halved(h: nat, p: nat)
    ensures (h / 2) * (2 * p) + (if h % 2 == 1 then p else 0) == h * p
  {
    var q := h / 2;
    assert h == 2 * q + if h % 2 == 1 then 1 else 0;
    assert q * (2 * p) == 2 * q * p;
  }

  lemma {:induction false} BitsOfByte(b: byte, k: nat)
    requires k <= 8
    ensures FromBits(ByteBits(b)[..k]) + Shr(b, k) * Pow2(k) == b
  {
    if k > 0 {
      BitsOfByte(b, k - 1);
      var s := ByteBits(b);
      assert s[..k][..k - 1] == s[..k - 1];
      Halved(Shr(b, k - 1), Pow2(k - 1));
    }
  }

  lemma {:induction false} ShrBound(b: nat, k: nat)
    ensures Shr(b, k) * Pow2(k) <= b
  {
    if k > 0 {
      ShrBound(b, k - 1);
      var h := Shr(b, k - 1);
      assert 2 * Shr(b, k) <= h;
      assert Shr(b, k) * Pow2(k) == 2 * Shr(b, k) * Pow2(k - 1);
      assert 2 * Shr(b, k) * Pow2(k - 1) <= h * Pow2(k - 1);
    }
  }

  /** Shifting in the eight bits of a byte, first bit lowest, leaves the byte in the top lane. */
  lemma TopLaneOfByte(b: byte)
    ensures TopLane(IsrOf(ByteBits(b))) == b
  {
    var s := ByteBits(b);
    assert s[..8] == s;
    BitsOfByte(b, 8);
    ShrBound(b, 8);
    assert Pow2(8) == 256;
    assert Shr(b, 8) == 0;
    IsrIsShifted(s);
    Pow31();
  }

  // ---------- the transmitter ----------

  /**
    Where `jd_tx` stands between two cycles.
    Ready: at `pull`, the line high.  Stop(d): pulled, `d` delay cycles of the stop level left.
    Start(d): start level on the line, `d` delay cycles left.
    Data(k, r): bit `k` on the line, `r` + 1 of its eight cycles done; after Data(7, 7) the
    program is at `pull` again, with the last bit still on the line.
  */
  datatype TxPhase =
    | Ready
    | Stop(d: nat, data: byte)
    | Start(d: nat, data: byte)
    | Data(k: nat, r: nat, data: byte)

  ghost predicate TxRep(sm: Sm, ph: TxPhase) {
    && sm.irqs == 0 && sm.rx == []
    && match ph
       case Ready => sm.pc == 0 && sm.delay == 0 && sm.pin
       case Stop(d, b) => d <= 7 && sm.pc == 1 && sm.delay == d && sm.osr == Replicate(b) && sm.pin
       case Start(d, b) =>
         d <= 7 && sm.pc == 2 && sm.delay == d && sm.x == 7 && sm.osr == Replicate(b) && !sm.pin
       case Data(k, r, b) =>
         && k < 8 && r < 8
         && sm.osr == Shr(Replicate(b), k + 1)
         && sm.pin == Bit(b, k)
         && (if r == 0 then sm.pc == 3 && sm.delay == 0 && sm.x == 7 - k
             else
               && sm.delay == 7 - r
               && (if k < 7 then sm.pc == 2 && sm.x == 6 - k else sm.pc == 0))
  }

  predicate AtPull(ph: TxPhase) {
    ph.Ready? || (ph.Data? && ph.k == 7 && ph.r == 7)
  }

  /** The automaton, for the contents of the TX FIFO. */
  function TxNext(ph: TxPhase, fifo: seq<byte>): TxPhase {
    if AtPull(ph) then if fifo == [] then Ready else Stop(7, fifo[0])
    else match ph
    case Stop(d, b) => if d > 0 then Stop(d - 1, b) else Start(7, b)
    case Start(d, b) => if d > 0 then Start(d - 1, b) else Data(0, 0, b)
    case Data(k, r, b) =>
      if r < 7 then Data(k, r + 1, b) else Data(k + 1, 0, b)
  }

  /** The FIFO holds these bytes, each replicated on the four lanes. */
  ghost predicate FifoHolds(tx: seq<word>, fifo: seq<byte>) {
    |tx| == |fifo| && forall i :: 0 <= i < |tx| ==> tx[i] == Replicate(fifo[i])
  }

  /** Level on the line after a cycle that ended in `ph`. */
  predicate TxLevel(ph: TxPhase) {
    match ph
    case Ready => true
    case Stop(_, _) => true
    case Start(_, _) => false
    case Data(k, _, b) => Bit(b, k)
  }

  /** `jd_tx` follows the automaton, for every content of the FIFO. */
  lemma TxRefines(sm: Sm, ph: TxPhase, fifo: seq<byte>)
    requires TxRep(sm, ph) && FifoHolds(sm.tx, fifo)
    ensures sm.pc < |TX_PROGRAM.code|
    ensures var sm' := Step(TX_PROGRAM, sm, true);
            && TxRep(sm', TxNext(ph, fifo))
            && FifoHolds(sm'.tx, if AtPull(ph) && fifo != [] then fifo[1..] else fifo)
            && sm'.pin == TxLevel(TxNext(ph, fifo))
  {
    match ph
    case Start(d, b) =>
      ReplicateBits(b, 0);
    case Data(k, r, b) =>
      if k < 7 { ReplicateBits(b, k + 1); }
    case _ =>
  }

  // ---------- the receiver ----------

  /**
    Where `jd_rx` stands before a cycle.
    Seek: at `wait 0`.  Lead(j): `wait 0` succeeded `j` cycles ago, no bit sampled yet.
    Bits(k, r, bits): `r` cycles after the cycle that samples bit `k`; `bits` were sampled.
    Check: at the stop check.  Slack: the cycle after a good one.
    Alarm: at `irq`.  Hold: at `wait 1`.  Back: at the jump to the start.
  */
  datatype RxPhase =
    | Seek
    | Lead(j: nat)
    | Bits(k: nat, r: nat, bits: seq<bool>)
    | Check
    | Slack
    | Alarm
    | Hold
    | Back

  /** Bit `k` is sampled this many cycles after `wait 0` succeeds. */
  function SampleAt(k: nat): nat {
    11 + 8 * k
  }

  /** So is the stop level, and so does the next `wait 0` follow when it is good. */
  const STOP_AT: nat := 75
  const RESUME_AT: nat := 77

  /** Cycles since `wait 0` succeeded. */
  function Age(ph: RxPhase): nat {
    match ph
    case Seek => 0
    case Lead(j) => j
    case Bits(k, r, _) => SampleAt(k) + r
    case Check => STOP_AT
    case Slack => STOP_AT + 1
    case Alarm => STOP_AT + 1
    case Hold => STOP_AT + 2
    case Back => STOP_AT + 3
  }

  /** What shifting in `bits` leaves: at the threshold the word has been pushed. */
  ghost predicate IsrHolds(sm: Sm, bits: seq<bool>) {
    if |bits| < 8 then sm.isr == IsrOf(bits) && sm.isrCount == |bits|
    else sm.isr == 0 && sm.isrCount == 0
  }

  ghost predicate At(sm: Sm, pc: nat, delay: nat) {
    sm.pc == pc && sm.delay == delay
  }

  ghost predicate RxRep(sm: Sm, ph: RxPhase) {
    match ph
    case Seek => At(sm, 0, 0) && IsrHolds(sm, [])
    case Lead(j) =>
      && 1 <= j <= 10 && IsrHolds(sm, [])
      && (if j == 1 then At(sm, 1, 0)
          else sm.x == 7 && if j < 10 then At(sm, 2, 9 - j) else At(sm, 3, 1))
    case Bits(k, r, bits) =>
      && k < 8 && r < 8 && |bits| == (if r == 0 then k else k + 1) && IsrHolds(sm, bits)
      && (if r == 0 then At(sm, 3, 0) && sm.x == 7 - k
          else if r == 1 then At(sm, 4, 0) && sm.x == 7 - k
          else if r == 2 then At(sm, 5, 0) && sm.x == 7 - k
          else if k < 7 then At(sm, 3, 8 - r) && sm.x == 6 - k
          else At(sm, 6, 8 - r))
    case Check => At(sm, 6, 0) && IsrHolds(sm, [])
    case Slack => At(sm, 10, 0) && IsrHolds(sm, [])
    case Alarm => At(sm, 7, 0) && IsrHolds(sm, [])
    case Hold => At(sm, 8, 0) && IsrHolds(sm, [])
    case Back => At(sm, 9, 0) && IsrHolds(sm, [])
  }

  function RxNext(ph: RxPhase, level: bool): RxPhase {
    match ph
    case Seek => if level then Seek else Lead(1)
    case Lead(j) => if j < 10 then Lead(j + 1) else Bits(0, 0, [])
    case Bits(k, r, bits) =>
      if r == 0 then Bits(k, 1, bits + [level])
      else if r < 7 then Bits(k, r + 1, bits)
      else if k < 7 then Bits(k + 1, 0, bits)
      else Check
    case Check => if level then Slack else Alarm
    case Slack => Seek
    case Alarm => Hold
    case Hold => if level then Back else Hold
    case Back => Seek
  }

  /** Groups of bits pushed in a cycle: one, in the cycle that samples the eighth bit. */
  function RxPush(ph: RxPhase, level: bool): seq<seq<bool>> {
    if ph.Bits? && ph.k == 7 && ph.r == 0 then [ph.bits + [level]] else []
  }

  /** The FIFO words of pushed groups of bits. */
  function Words(groups: seq<seq<bool>>): seq<word> {
    seq(|groups|, i requires 0 <= i < |groups| => IsrOf(groups[i]))
  }

  ghost predicate RxFollows(sm: Sm, ph: RxPhase, level: bool)
    requires sm.pc < |RX_PROGRAM.code|
  {
    var sm' := Step(RX_PROGRAM, sm, level);
    && RxRep(sm', RxNext(ph, level))
    && sm'.rx == sm.rx + Words(RxPush(ph, level))
    && sm'.irqs == sm.irqs + if ph.Alarm? then 1 else 0
  }

  /** Delay cycles: nothing is executed. */
  lemma RxFollowsDelay(sm: Sm, ph: RxPhase, level: bool)
    requires RxRep(sm, ph) && sm.delay > 0
    ensures sm.pc < |RX_PROGRAM.code| && RxFollows(sm, ph, level)
  {
    assert |RX_PROGRAM.code| == 11;
    assert Step(RX_PROGRAM, sm, level) == sm.(delay := sm.delay - 1);
  }

  lemma RxFollowsControl(sm: Sm, ph: RxPhase, level: bool)
    requires RxRep(sm, ph) && sm.delay == 0 && !ph.Bits?
    ensures sm.pc < |RX_PROGRAM.code| && RxFollows(sm, ph, level)
  {
  }

  lemma RxFollowsLoop(sm: Sm, ph: RxPhase, level: bool)
    requires RxRep(sm, ph) && sm.delay == 0 && ph.Bits? && ph.r > 0
    ensures sm.pc < |RX_PROGRAM.code| && RxFollows(sm, ph, level)
  {
    assert ph.r == 1 || ph.r == 2;
  }

  lemma RxFollowsSample(sm: Sm, ph: RxPhase, level: bool)
    requires RxRep(sm, ph) && ph.Bits? && ph.r == 0
    ensures sm.pc < |RX_PROGRAM.code| && RxFollows(sm, ph, level)
  {
    var bits := ph.bits + [level];
    assert bits[..|bits| - 1] == ph.bits;
    assert IsrOf(bits) == ShiftIn(sm.isr, level);
  }

  /** `jd_rx` follows the automaton, for every level on the line in every cycle. */
  lemma RxRefines(sm: Sm, ph: RxPhase, level: bool)
    requires RxRep(sm, ph)
    ensures sm.pc < |RX_PROGRAM.code|
    ensures RxFollows(sm, ph, level)
  {
    if sm.delay > 0 {
      RxFollowsDelay(sm, ph, level);
    } else if !ph.Bits? {
      RxFollowsControl(sm, ph, level);
    } else if ph.r > 0 {
      RxFollowsLoop(sm, ph, level);
    } else {
      RxFollowsSample(sm, ph, level);
    }
  }
}
