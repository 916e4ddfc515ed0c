/**
  One RP2040 PIO state machine, stepped one PIO clock cycle at a time (RP2040 Datasheet,
  section 3.4; autopush, section 3.5.4).

  Only the instructions used by `jd_tx` and `jd_rx` are interpreted.  `Step` gives the value
  of the machine after a cycle; the class `StateMachine` holds the same registers as fields
  and updates them in place, and is proved to agree with `Step`.
*/
module Pio {
  import opened Common

  /** Autopush threshold of the receiver: sm_config_set_in_shift(&c, true, true, 8). */
  const PUSH_THRESHOLD: nat := 8

  datatype Op =
    | Pull                    // blocking: stalls while the TX FIFO is empty
    | SetX(value: word)
    | OutPin                  // out pins, 1: shift OSR right by one bit onto the pin
    | InPin                   // in pins, 1: shift ISR right by one bit, autopush at the threshold
    | JmpXDec(target: nat)    // jump if x was non-zero; x is decremented either way
    | JmpPin(target: nat)
    | Jmp(target: nat)
    | WaitPin(level: bool)
    | Irq
    | Nop

  datatype Side = NoSide | SideSet(level: bool)

  datatype Instr = Instr(op: Op, side: Side, delay: nat)

  /** `sideOnPin` tells whether the side-set pin is the OUT pin. */
  datatype Program = Program(code: seq<Instr>, sideOnPin: bool)

  /** Registers of a machine.  `irqs` counts executed `irq` instructions, `pin` is the output latch. */
  datatype Sm = Sm(
    pc: nat, delay: nat, x: word, osr: word, isr: word, isrCount: nat,
    tx: seq<word>, rx: seq<word>, irqs: nat, pin: bool)

  function ShiftIn(isr: word, level: bool): word {
    isr / 2 + if level then 0x8000_0000 else 0
  }

  function Dec(x: word): word {
    if x == 0 then 0xffff_ffff else x - 1
  }

  predicate Stalls(op: Op, sm: Sm, input: bool) {
    || (op.Pull? && sm.tx == [])
    || (op.WaitPin? && op.level != input)
  }

  /** Next program counter of an instruction that does not stall; wraps after the last one. */
  function NextPc(code: seq<Instr>, op: Op, sm: Sm, input: bool): nat {
    var next := if sm.pc + 1 < |code| then sm.pc + 1 else 0;
    match op
    case JmpXDec(t) => if sm.x != 0 then t else next
    case JmpPin(t) => if input then t else next
    case Jmp(t) => t
    case _ => next
  }

  /** Effect of a non-stalling instruction on everything except pc, delay and side-set. */
  function Effect(op: Op, sm: Sm, input: bool): Sm
    requires !Stalls(op, sm, input)
  {
    match op
    case Pull => sm.(osr := sm.tx[0], tx := sm.tx[1..])
    case SetX(v) => sm.(x := v)
    case OutPin => sm.(pin := sm.osr % 2 == 1, osr := sm.osr / 2)
    case InPin =>
      var isr := ShiftIn(sm.isr, input);
      if sm.isrCount + 1 >= PUSH_THRESHOLD
      then sm.(rx := sm.rx + [isr], isr := 0, isrCount := 0)
      else sm.(isr := isr, isrCount := sm.isrCount + 1)
    case JmpXDec(_) => sm.(x := Dec(sm.x))
    case Irq => sm.(irqs := sm.irqs + 1)
    case _ => sm
  }

  /** One clock cycle, with `input` the level of the input pin in that cycle. */
  function Step(p: Program, sm: Sm, input: bool): Sm
    requires sm.pc < |p.code|
  {
    if sm.delay > 0 then sm.(delay := sm.delay - 1)
    else
      var i := p.code[sm.pc];
      var s := if i.side.SideSet? && p.sideOnPin then sm.(pin := i.side.level) else sm;
      if Stalls(i.op, s, input) then s
      else Effect(i.op, s, input).(pc := NextPc(p.code, i.op, s, input), delay := i.delay)
  }

  predicate JumpsInside(op: Op, size: nat) {
    match op
    case JmpXDec(t) => t < size
    case JmpPin(t) => t < size
    case Jmp(t) => t < size
    case _ => true
  }

  /** Every jump stays inside the program. */
  predicate WellFormed(p: Program) {
    forall i :: 0 <= i < |p.code| ==> JumpsInside(p.code[i].op, |p.code|)
  }

  /** The machine as hardware: registers changed in place by the clock. */
  class StateMachine {
    const program: Program
    var pc: nat
    var delay: nat
    var x: word
    var osr: word
    var isr: word
    var isrCount: nat
    var tx: seq<word>
    var rx: seq<word>
    var irqs: nat
    var pin: bool

    ghost predicate Valid()
      reads this
    {
      pc < |program.code| && WellFormed(program)
    }

    /** The register values as one value. */
    ghost function Value(): Sm
      reads this
    {
      Sm(pc, delay, x, osr, isr, isrCount, tx, rx, irqs, pin)
    }

    constructor (program: Program)
      requires |program.code| > 0 && WellFormed(program)
      ensures Valid() && this.program == program
      ensures Value() == Sm(0, 0, 0, 0, 0, 0, [], [], 0, true)
    {
      this.program := program;
      pc, delay, x, osr, isr, isrCount := 0, 0, 0, 0, 0, 0;
      tx, rx, irqs, pin := [], [], 0, true;
    }

    /** The DMA engine writes into the TX FIFO. */
    method Feed(words: seq<word>)
      requires Valid()
      modifies this`tx
      ensures Valid() && Value() == old(Value()).(tx := old(tx) + words)
    {
      tx := tx + words;
    }

    /** Carry out an instruction that may stall; `next` is where to go on. */
    method Execute(op: Op, input: bool) returns (stalled: bool, next: nat)
      requires Valid()
      modifies this
      ensures stalled == Stalls(op, old(Value()), input)
      ensures stalled ==> Value() == old(Value())
      ensures !stalled ==> Value() == Effect(op, old(Value()), input)
      ensures !stalled ==> next == NextPc(program.code, op, old(Value()), input)
    {
      stalled := false;
      next := if pc + 1 < |program.code| then pc + 1 else 0;
      match op {
        case Pull =>
          if tx == [] { return true, next; }
          osr := tx[0];
          tx := tx[1..];
        case SetX(v) =>
          x := v;
        case OutPin =>
          pin := osr % 2 == 1;
          osr := osr / 2;
        case InPin =>
          isr := ShiftIn(isr, input);
          isrCount := isrCount + 1;
          if isrCount >= PUSH_THRESHOLD {
            rx := rx + [isr];
            isr, isrCount := 0, 0;
          }
        case JmpXDec(t) =>
          next := if x != 0 then t else next;
          x := Dec(x);
        case JmpPin(t) =>
          next := if input then t else next;
        case Jmp(t) =>
          next := t;
        case WaitPin(level) =>
          stalled := level != input;
        case Irq =>
          irqs := irqs + 1;
        case Nop =>
      }
    }

    /** Clock the machine once. */
    method Tick(input: bool)
      requires Valid()
      modifies this
      ensures Valid() && Value() == Step(program, old(Value()), input)
    {
      if delay > 0 {
        delay := delay - 1;
        return;
      }
      var instr := program.code[pc];
      assert JumpsInside(instr.op, |program.code|);
      if instr.side.SideSet? && program.sideOnPin {
        pin := instr.side.level;
      }
      var stalled, next := Execute(instr.op, input);
      if !stalled {
        pc := next;
        delay := instr.delay;
      }
    }
  }
}
