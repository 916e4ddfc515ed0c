/**
  The Jacdac link driver under interrupts, as a transition system.

  A state holds the driver's variables, the registers it uses, and where each of the two
  contexts stands: `Thread` is the code that calls uart_start_tx, `Isr` the one interrupt
  routine that may be running (they share a priority and do not nest).  Positions are line
  numbers of the driver.  A step is one statement, or the entry of an interrupt routine, or a
  hardware event, which may happen between any two statements.
*/
module Link {
  import opened Common
  import opened DmaChannel

  datatype Status = Idle | Tx | Rx

  datatype Callback = RxHandler | TxHandler

  /** Shared variables and registers. */
  datatype Hw = Hw(
    status: Status,
    irqOff: nat,           // nesting count of disabled interrupts
    txOn: bool,            // the state machines are enabled
    rxOn: bool,
    brk: bool,             // break flag raised by the receiver program
    brkEnabled: bool,
    edge: bool,            // latched falling edge
    edgeEnabled: bool,
    rx: Channel<Callback>, // the two DMA channels; rx has the lower number
    tx: Channel<Callback>,
    rxStarts: nat,
    failed: bool)          // an assertion failed

  /** Code reached from both contexts: jd_line_falling, uart_start_rx, uart_disable. */
  datatype Code = Fall | StartRx(line: nat) | Disable(line: nat) | Return

  /** What an interrupt routine does after the shared code; `tx`: the tx channel is still to be served. */
  datatype After = Nothing | RxCompleted(tx: bool) | TxCompleted

  datatype Isr =
    | NoIsr
    | PioEnter
    | DmaEnter
    | DmaTurn(rx: bool, tx: bool)  // the snapshot, less what was served
    | ExtiEnter
    | RxDone(tx: bool)
    | TxDone
    | Running(code: Code, after: After)

  datatype Thread = Out | At(line: nat) | Falling(code: Code)

  datatype State = State(h: Hw, isr: Isr, thread: Thread, sending: bool, rxDone: nat, txStarts: nat, txDone: nat)

  /** What is assumed of the surroundings; see the README. */
  datatype Assumptions = Assumptions(
    abortRaises: bool,  // aborting an active DMA channel raises its completion
    ordered: bool,      // of several pending interrupts the lowest number is taken first
    calmWindow: bool)   // no reception ends between lines 302 and 306 of uart_start_tx

  datatype Act =
    | Edge | Break | RxFull | TxEmpty      // hardware
    | EnterPio | EnterDma | EnterExti      // interrupt entries
    | IsrStep(choice: bool)
    | StartTx                              // uart_start_tx is called
    | ThreadStep(choice: bool)

  const INIT := State(
    Hw(Idle, 0, false, false, false, false, false, true,
       Channel(false, false, false, None), Channel(false, false, false, None), 0, false),
    NoIsr, Out, false, 0, 0, 0)

  // ---------- pieces ----------

  function ExtiOff(h: Hw): Hw {
    h.(edge := false, edgeEnabled := false)
  }

  function ExtiOn(h: Hw): Hw {
    h.(edge := false, edgeEnabled := true)
  }

  function IrqOff(h: Hw): Hw {
    h.(irqOff := h.irqOff + 1)
  }

  /** target_enable_irq clamps its counter at zero. */
  function IrqOn(h: Hw): Hw {
    h.(irqOff := if h.irqOff <= 1 then 0 else h.irqOff - 1)
  }

  /** Interrupt lines of the three sources. */
  predicate PioLevel(h: Hw) { h.brk && h.brkEnabled }
  predicate DmaLevel(h: Hw) { Asserted(h.rx) || Asserted(h.tx) }
  predicate ExtiLevel(h: Hw) { h.edge && h.edgeEnabled }

  /** One statement of the shared code; `choice` resolves what the upper layer decides. */
  function CodeStep(asm: Assumptions, h: Hw, c: Code, choice: bool): (Hw, Code) {
    match c
    case Fall => (h, if choice then StartRx(339) else Disable(276))
    case StartRx(l) =>
      if l == 339 then (h.(status := Rx, rxStarts := h.rxStarts + 1), StartRx(340))
      else if l == 340 then (ExtiOff(h), StartRx(342))
      else if l == 342 then (h.(rxOn := true), StartRx(344))
      else if l == 344 then (h.(brk := false), StartRx(345))
      else if l == 345 then
        if h.rx.slot.Some? then (h.(failed := true), Return)
        else (h.(rx := Register(h.rx, RxHandler)), StartRx(346))
      else if l == 346 then (h.(rx := Begin(h.rx)), StartRx(347))
      else (h.(brkEnabled := true), Return)
    case Disable(l) =>
      if l == 276 then (h.(status := Idle), Disable(277))
      else if l == 277 then (IrqOff(h), Disable(278))
      else if l == 278 then
        (h.(rx := Abort(h.rx, asm.abortRaises), tx := Abort(h.tx, asm.abortRaises)), Disable(281))
      else if l == 281 then (h.(txOn := false), Disable(282))
      else if l == 282 then (h.(rxOn := false), Disable(283))
      else if l == 283 then (h.(brkEnabled := false), Disable(284))
      else if l == 284 then (ExtiOn(h), Disable(285))
      else (IrqOn(h), Return)
    case Return => (h, Return)
  }

  /** One statement of the running interrupt routine. */
  function IsrNext(asm: Assumptions, s: State, choice: bool): State {
    var h := s.h;
    match s.isr
    case NoIsr => s
    case PioEnter => s.(h := h.(brk := false), isr := if h.brk then RxDone(false) else NoIsr)
    case DmaEnter =>
      var rx, tx := Asserted(h.rx), Asserted(h.tx);
      s.(h := h.(rx := if rx then Acknowledge(h.rx) else h.rx, tx := if tx then Acknowledge(h.tx) else h.tx),
         isr := DmaTurn(rx, tx))
    case DmaTurn(rx, tx) =>
      if rx then
        if h.rx.slot.Some? then s.(h := h.(rx := Take(h.rx)), isr := RxDone(tx)) else s.(isr := DmaTurn(false, tx))
      else if tx && h.tx.slot.Some? then s.(h := h.(tx := Take(h.tx)), isr := TxDone)
      else s.(isr := NoIsr)
    case ExtiEnter =>
      if ExtiLevel(h) then s.(h := h.(edge := false), isr := Running(Fall, Nothing)) else s.(isr := NoIsr)
    case RxDone(tx) =>
      if h.status == Rx then s.(h := h.(status := Idle), isr := Running(Disable(276), RxCompleted(tx)))
      else s.(isr := DmaTurn(false, tx))
    case TxDone => s.(isr := Running(Disable(276), TxCompleted))
    case Running(Return, after) =>
      (match after
       case Nothing => s.(isr := NoIsr)
       case RxCompleted(tx) => s.(isr := DmaTurn(false, tx), rxDone := s.rxDone + 1)
       case TxCompleted => s.(isr := NoIsr, txDone := s.txDone + 1, sending := false))
    case Running(c, after) =>
      var (h', c') := CodeStep(asm, h, c, choice);
      s.(h := h', isr := Running(c', after))
  }

  /** One statement of uart_start_tx. */
  function ThreadNext(asm: Assumptions, s: State, choice: bool): State {
    var h := s.h;
    match s.thread
    case Out => s
    case Falling(Return) => s.(thread := At(317))
    case Falling(c) =>
      var (h', c') := CodeStep(asm, h, c, choice);
      s.(h := h', thread := Falling(c'))
    case At(l) =>
      if l == 302 then s.(h := ExtiOff(h), thread := At(306))
      else if l == 306 then s.(thread := if h.status == Rx then Out else At(310))
      else if l == 310 then if h.status == Idle then s.(thread := At(311)) else s.(h := h.(failed := true))
      else if l == 311 then s.(h := h.(status := Tx), thread := At(313))
      else if l == 313 then s.(thread := if choice then At(326) else At(315))
      else if l == 315 then s.(h := IrqOff(h), thread := Falling(Fall))
      else if l == 317 then s.(h := IrqOn(h), thread := Out)
      else if l == 326 then s.(h := h.(txOn := true), thread := At(327))
      else if l == 327 then
        if h.tx.slot.Some? then s.(h := h.(failed := true))
        else s.(h := h.(tx := Register(h.tx, TxHandler)), thread := At(328))
      else if l == 328 then
        s.(h := h.(tx := Begin(h.tx)), thread := At(331), sending := true, txStarts := s.txStarts + 1)
      else s.(thread := Out)
  }

  /** Whether a step is possible. */
  predicate Can(asm: Assumptions, s: State, a: Act) {
    var h := s.h;
    var calm := !(asm.calmWindow && s.thread == At(306));
    var open := s.isr.NoIsr? && h.irqOff == 0;
    var runs := s.isr.NoIsr? && (h.irqOff > 0 || (!PioLevel(h) && !DmaLevel(h) && !ExtiLevel(h)));
    && !h.failed
    && match a
       case Edge => true
       case Break => h.rxOn && calm
       case RxFull => h.rx.busy && calm
       case TxEmpty => h.tx.busy
       case EnterPio => open
       case EnterDma => open && (asm.ordered ==> !PioLevel(h))
       case EnterExti => open && (asm.ordered ==> !PioLevel(h) && !DmaLevel(h))
       case IsrStep(_) => !s.isr.NoIsr?
       case StartTx => runs && s.thread.Out? && !s.sending
       case ThreadStep(_) => runs && !s.thread.Out?
  }

  function Step(asm: Assumptions, s: State, a: Act): State {
    match a
    case Edge => s.(h := s.h.(edge := true))
    case Break => s.(h := s.h.(brk := true))
    case RxFull => s.(h := s.h.(rx := Finish(s.h.rx)))
    case TxEmpty => s.(h := s.h.(tx := Finish(s.h.tx)))
    case EnterPio => s.(isr := PioEnter)
    case EnterDma => s.(isr := DmaEnter)
    case EnterExti => s.(isr := ExtiEnter)
    case IsrStep(choice) => IsrNext(asm, s, choice)
    case StartTx => s.(thread := At(302))
    case ThreadStep(choice) => ThreadNext(asm, s, choice)
  }

  /** The state after a run, from the initial state or a given one, if every step of it was possible. */
  function Exec(asm: Assumptions, acts: seq<Act>, first: State := INIT): Option<State> {
    if acts == [] then Some(first)
    else
      var last := |acts| - 1;
      match Exec(asm, acts[..last], first)
      case None => None
      case Some(s) => if Can(asm, s, acts[last]) then Some(Step(asm, s, acts[last])) else None
  }

  /** Some run leads there. */
  ghost predicate Reachable(asm: Assumptions, s: State, first: State := INIT) {
    exists acts: seq<Act> :: Exec(asm, acts, first) == Some(s)
  }
}
