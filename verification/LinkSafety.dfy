/**
  The invariant of the link driver, kept by every statement, interrupt entry and hardware
  event under the stated assumptions, and what follows from it.
*/
module LinkSafety {
  import opened DmaChannel
  import opened Link

  const SOUND := Assumptions(true, true, true)

  // ---------- modes ----------

  predicate Free(c: Channel<Callback>) {
    c.slot.None? && !c.enabled && !c.busy
  }

  /** Registered, and the transfer is in flight or its completion is pending. */
  predicate Armed(c: Channel<Callback>, pending: bool) {
    c.slot.Some? && c.enabled && (c.busy <==> !pending)
  }

  /** Registered, with the completion an abort has left. */
  predicate Stale(c: Channel<Callback>, pending: bool) {
    c.slot.Some? && c.enabled && !c.busy && pending
  }

  /** A completion is raised, or noted in the snapshot of the running dispatcher. */
  predicate RxPending(s: State) {
    s.h.rx.raised || (s.isr.DmaTurn? && s.isr.rx)
  }

  predicate TxPending(s: State) {
    s.h.tx.raised || (s.isr.DmaTurn? && s.isr.tx)
  }

  /** Nothing runs. */
  predicate Silent(h: Hw) {
    !h.txOn && !h.rxOn && !h.brkEnabled && Free(h.tx) && !h.rx.busy
  }

  predicate HwIdle(h: Hw, rxPending: bool) {
    h.status == Idle && Silent(h) && h.edgeEnabled && (Free(h.rx) || Stale(h.rx, rxPending))
  }

  predicate HwRx(h: Hw, rxPending: bool) {
    && h.status == Rx && !h.txOn && h.rxOn && h.brkEnabled && !h.edgeEnabled
    && Free(h.tx) && Armed(h.rx, rxPending)
  }

  /** Waiting for an edge; the dispatcher may still have to absorb a stale completion. */
  predicate IdleMode(s: State) {
    HwIdle(s.h, RxPending(s))
  }

  predicate RxMode(s: State) {
    HwRx(s.h, RxPending(s))
  }

  predicate TxMode(s: State) {
    && s.h.status == Tx && s.h.txOn && !s.h.rxOn && !s.h.brkEnabled && !s.h.edgeEnabled
    && Free(s.h.rx) && Armed(s.h.tx, TxPending(s)) && s.sending
  }

  predicate Settled(s: State) {
    IdleMode(s) || RxMode(s) || TxMode(s)
  }

  /** Mid-way through the shared code. */
  predicate CodeInv(h: Hw, c: Code) {
    match c
    case Fall => Silent(h) && Free(h.rx) && h.status != Rx
    case StartRx(l) =>
      && l in {339, 340, 342, 344, 345, 346, 347}
      && Free(h.tx) && !h.txOn && !h.brkEnabled
      && (h.status == Rx <==> l > 339) && (l > 340 ==> !h.edgeEnabled) && (h.rxOn <==> l > 342)
      && (if l <= 345 then Free(h.rx)
          else if l == 346 then h.rx.slot.Some? && h.rx.enabled && !h.rx.busy && !h.rx.raised
          else Armed(h.rx, h.rx.raised))
    case Disable(l) =>
      && l in {276, 277, 278, 281, 282, 283, 284, 285}
      && Free(h.tx) && !(h.txOn && h.rxOn)
      && h.status != Rx && (l > 276 ==> h.status == Idle)
      && (Free(h.rx) || (if l <= 278 then Armed(h.rx, h.rx.raised) else Stale(h.rx, h.rx.raised)))
      && (l > 281 ==> !h.txOn) && (l > 282 ==> !h.rxOn) && (l > 283 ==> !h.brkEnabled)
      && (l > 284 ==> h.edgeEnabled) && (h.txOn || h.rxOn ==> !h.edgeEnabled)
    case Return => true
  }

  predicate CodeDone(h: Hw) {
    HwIdle(h, h.rx.raised) || HwRx(h, h.rx.raised)
  }

  /** Does the code hold one level of disabled interrupts? */
  function Held(c: Code): nat {
    if c.Disable? && c.line > 277 then 1 else 0
  }

  // ---------- contexts ----------

  /** Reception whose handler the dispatcher has taken from its slot. */
  predicate RxTaken(s: State) {
    && s.h.status == Rx && !s.h.txOn && s.h.rxOn && s.h.brkEnabled && !s.h.edgeEnabled
    && Free(s.h.tx) && Free(s.h.rx)
  }

  predicate TxTaken(s: State) {
    && s.h.status == Tx && s.h.txOn && !s.h.rxOn && !s.h.brkEnabled && !s.h.edgeEnabled
    && Free(s.h.tx) && Free(s.h.rx) && s.sending
  }

  /** The snapshot names registered channels whose completion was acknowledged. */
  predicate Snapshot(s: State) {
    s.isr.DmaTurn? ==>
      && (s.isr.rx ==> s.h.rx.slot.Some? && !s.h.rx.busy && !s.h.rx.raised)
      && (s.isr.tx ==> s.h.tx.slot.Some? && !s.h.tx.busy && !s.h.tx.raised)
      && !(s.isr.rx && s.isr.tx)
  }

  /** When uart_start_tx is not in progress, or has handed over to the DMA. */
  predicate OutsideInv(s: State) {
    match s.isr
    case ExtiEnter => Settled(s) && (s.h.status == Idle ==> Free(s.h.rx))
    case RxDone(tx) => !tx && (Settled(s) || RxTaken(s))
    case TxDone => TxTaken(s)
    case Running(c, after) =>
      && CodeInv(s.h, c)
      && (c.Return? ==> CodeDone(s.h))
      && (s.sending <==> after.TxCompleted?)
      && (after.RxCompleted? ==> !after.tx && (c.Disable? || c.Return?) && s.h.status == Idle)
      && (after.TxCompleted? ==> (c.Disable? || c.Return?) && (c != Disable(276) ==> s.h.status == Idle))
    case _ => Settled(s)
  }

  /** Interrupt routines that find nothing to do. */
  predicate Harmless(isr: Isr) {
    || isr.NoIsr? || isr.PioEnter? || isr.DmaEnter? || isr.ExtiEnter?
    || isr == DmaTurn(false, false) || isr == RxDone(false)
  }

  /** Inside uart_start_tx. */
  predicate InsideInv(s: State, l: nat) {
    var h := s.h;
    && l in {306, 310, 311, 313, 315, 326, 327, 328}
    && Harmless(s.isr) && !h.edgeEnabled && !h.brkEnabled && !h.rxOn && Free(h.rx)
    && (h.txOn <==> l > 326)
    && (if l == 328 then h.tx.slot.Some? && h.tx.enabled && !h.tx.busy && !h.tx.raised else Free(h.tx))
    && h.status == (if l > 311 then Tx else Idle)
  }

  /** At line 306 a reception may be in progress, which does not end there. */
  predicate WindowInv(s: State) {
    && Harmless(s.isr) && s.isr != RxDone(false) && RxMode(s) && s.h.rx.busy && !s.h.brk
  }

  predicate ContextInv(s: State) {
    match s.thread
    case Falling(c) =>
      && s.isr.NoIsr? && CodeInv(s.h, c) && (c.Return? ==> CodeDone(s.h)) && !s.sending
    case Out => OutsideInv(s)
    case At(l) =>
      if l == 302 then OutsideInv(s) && !s.sending
      else if l == 331 then OutsideInv(s)
      else if l == 317 then s.isr.NoIsr? && CodeDone(s.h) && !s.sending
      else !s.sending && (InsideInv(s, l) || (l == 306 && WindowInv(s)))
  }

  predicate Counted(s: State) {
    && s.h.rxStarts == s.rxDone + (if s.h.status == Rx then 1 else 0)
                                + (if s.isr.Running? && s.isr.after.RxCompleted? then 1 else 0)
    && s.txStarts == s.txDone + (if s.sending then 1 else 0)
    && (s.sending <==> TxMode(s) || s.isr.TxDone? || (s.isr.Running? && s.isr.after.TxCompleted?))
    && s.h.irqOff == (if s.thread.Falling? then 1 + Held(s.thread.code) else if s.thread == At(317) then 1
                      else if s.isr.Running? then Held(s.isr.code) else 0)
  }

  predicate Inv(s: State) {
    !s.h.failed && Snapshot(s) && ContextInv(s) && Counted(s)
  }

  lemma InvInit()
    ensures Inv(INIT)
  {
  }

  /** The places where uart_start_tx is not in progress, or has handed over to the DMA. */
  predicate Outside(t: Thread) {
    t.Out? || (t.At? && t.line in {302, 331})
  }

  lemma EdgeOutside(s: State)
    requires Inv(s) && Outside(s.thread) && !s.isr.Running?
    ensures Inv(Step(SOUND, s, Edge))
  {
  }

  lemma EdgeRunning(s: State)
    requires Inv(s) && Outside(s.thread) && s.isr.Running?
    ensures Inv(Step(SOUND, s, Edge))
  {
  }

  lemma EdgeInside(s: State)
    requires Inv(s) && !Outside(s.thread)
    ensures Inv(Step(SOUND, s, Edge))
  {
  }

  lemma EdgeKeeps(s: State)
    requires Inv(s)
    ensures Inv(Step(SOUND, s, Edge))
  {
    hide Inv, Step;
    if !Outside(s.thread) { EdgeInside(s); } else if s.isr.Running? { EdgeRunning(s); } else { EdgeOutside(s); }
  }

  lemma BreakKeeps(s: State)
    requires Inv(s) && Can(SOUND, s, Break)
    ensures Inv(Step(SOUND, s, Break))
  {
  }

  lemma RxFullOutside(s: State)
    requires Inv(s) && Can(SOUND, s, RxFull) && Outside(s.thread) && !s.isr.Running?
    ensures Inv(Step(SOUND, s, RxFull))
  {
  }

  lemma RxFullRunning(s: State)
    requires Inv(s) && Can(SOUND, s, RxFull) && Outside(s.thread) && s.isr.Running?
    ensures Inv(Step(SOUND, s, RxFull))
  {
  }

  lemma RxFullInside(s: State)
    requires Inv(s) && Can(SOUND, s, RxFull) && !Outside(s.thread)
    ensures Inv(Step(SOUND, s, RxFull))
  {
  }

  lemma RxFullKeeps(s: State)
    requires Inv(s) && Can(SOUND, s, RxFull)
    ensures Inv(Step(SOUND, s, RxFull))
  {
    hide Inv, Step, Can;
    if !Outside(s.thread) { RxFullInside(s); } else if s.isr.Running? { RxFullRunning(s); } else { RxFullOutside(s); }
  }

  lemma TxEmptyKeeps(s: State)
    requires Inv(s) && Can(SOUND, s, TxEmpty)
    ensures Inv(Step(SOUND, s, TxEmpty))
  {
  }

  lemma EntryKeeps(s: State, a: Act)
    requires Inv(s) && Can(SOUND, s, a) && (a.EnterPio? || a.EnterDma? || a.EnterExti?)
    ensures Inv(Step(SOUND, s, a))
  {
  }

  lemma OutsideKeeps(s: State, choice: bool)
    requires Inv(s) && Can(SOUND, s, ThreadStep(choice)) && s.thread.At? && s.thread.line in {302, 317, 331}
    ensures Inv(Step(SOUND, s, ThreadStep(choice)))
  {
  }

  lemma WindowKeeps(s: State, choice: bool)
    requires Inv(s) && Can(SOUND, s, ThreadStep(choice)) && s.thread == At(306)
    ensures Inv(Step(SOUND, s, ThreadStep(choice)))
  {
  }

  lemma InsideKeeps(s: State, choice: bool)
    requires Inv(s) && Can(SOUND, s, ThreadStep(choice)) && s.thread.At? && s.thread.line !in {302, 306, 317, 331}
    ensures Inv(Step(SOUND, s, ThreadStep(choice)))
  {
  }

  function Receiving(h: Hw): nat {
    if h.status == Rx then 1 else 0
  }

  /** What one statement of the shared code keeps. */
  ghost predicate CodeKept(h: Hw, c: Code, h': Hw, c': Code) {
    && CodeInv(h', c') && !h'.failed
    && (c'.Return? ==> CodeDone(h'))
    && (c.Disable? ==> (c'.Disable? || c'.Return?) && c' != Disable(276) && h'.status == Idle)
    && h'.irqOff + Held(c) == h.irqOff + Held(c')
    && h'.rxStarts + Receiving(h) == h.rxStarts + Receiving(h')
  }

  lemma StartKeeps(h: Hw, c: Code, choice: bool)
    requires CodeInv(h, c) && !h.failed && (c.Fall? || c.StartRx?)
    ensures var (h', c') := CodeStep(SOUND, h, c, choice); CodeKept(h, c, h', c')
  {
  }

  lemma StopKeeps(h: Hw, c: Code, choice: bool)
    requires CodeInv(h, c) && !h.failed && c.Disable? && c.line <= 278 && h.irqOff >= Held(c)
    ensures var (h', c') := CodeStep(SOUND, h, c, choice); CodeKept(h, c, h', c')
  {
  }

  lemma ReleaseKeeps(h: Hw, c: Code, choice: bool)
    requires CodeInv(h, c) && !h.failed && c.Disable? && c.line > 278 && h.irqOff >= Held(c)
    ensures var (h', c') := CodeStep(SOUND, h, c, choice); CodeKept(h, c, h', c')
  {
  }

  lemma CodeKeeps(h: Hw, c: Code, choice: bool)
    requires CodeInv(h, c) && !h.failed && !c.Return? && h.irqOff >= Held(c)
    ensures var (h', c') := CodeStep(SOUND, h, c, choice); CodeKept(h, c, h', c')
  {
    hide *;
    if c.Disable? && c.line <= 278 {
      StopKeeps(h, c, choice);
    } else if c.Disable? {
      ReleaseKeeps(h, c, choice);
    } else {
      StartKeeps(h, c, choice);
    }
  }

  lemma FallingKeeps(s: State, choice: bool)
    requires Inv(s) && Can(SOUND, s, ThreadStep(choice)) && s.thread.Falling?
    ensures Inv(Step(SOUND, s, ThreadStep(choice)))
  {
    hide CodeStep, CodeInv;
    if !s.thread.code.Return? {
      CodeKeeps(s.h, s.thread.code, choice);
    }
  }

  lemma PioKeeps(s: State, choice: bool)
    requires Inv(s) && Can(SOUND, s, IsrStep(choice)) && (s.isr.PioEnter? || s.isr.RxDone? || s.isr.TxDone?)
    ensures Inv(Step(SOUND, s, IsrStep(choice)))
  {
  }

  lemma DmaKeeps(s: State, choice: bool)
    requires Inv(s) && Can(SOUND, s, IsrStep(choice)) && s.isr.DmaEnter?
    ensures Inv(Step(SOUND, s, IsrStep(choice)))
  {
  }

  lemma TurnOutside(s: State, choice: bool)
    requires Inv(s) && Can(SOUND, s, IsrStep(choice)) && s.isr.DmaTurn? && Outside(s.thread)
    ensures Inv(Step(SOUND, s, IsrStep(choice)))
  {
  }

  lemma TurnInside(s: State, choice: bool)
    requires Inv(s) && Can(SOUND, s, IsrStep(choice)) && s.isr.DmaTurn? && !Outside(s.thread)
    ensures Inv(Step(SOUND, s, IsrStep(choice)))
  {
  }

  lemma TurnKeeps(s: State, choice: bool)
    requires Inv(s) && Can(SOUND, s, IsrStep(choice)) && s.isr.DmaTurn?
    ensures Inv(Step(SOUND, s, IsrStep(choice)))
  {
    hide Inv, Step, Can;
    if Outside(s.thread) { TurnOutside(s, choice); } else { TurnInside(s, choice); }
  }

  lemma ExtiKeeps(s: State, choice: bool)
    requires Inv(s) && Can(SOUND, s, IsrStep(choice)) && s.isr.ExtiEnter?
    ensures Inv(Step(SOUND, s, IsrStep(choice)))
  {
  }

  lemma RunningKeeps(s: State, choice: bool)
    requires Inv(s) && Can(SOUND, s, IsrStep(choice)) && s.isr.Running? && !s.isr.code.Return?
    ensures Inv(Step(SOUND, s, IsrStep(choice)))
  {
    hide CodeStep, CodeInv;
    CodeKeeps(s.h, s.isr.code, choice);
  }

  lemma ReturnKeeps(s: State, choice: bool)
    requires Inv(s) && Can(SOUND, s, IsrStep(choice)) && s.isr.Running? && s.isr.code.Return?
    ensures Inv(Step(SOUND, s, IsrStep(choice)))
  {
  }

  /** Every step keeps the invariant. */
  lemma StepKeeps(s: State, a: Act)
    requires Inv(s) && Can(SOUND, s, a)
    ensures Inv(Step(SOUND, s, a))
  {
    hide Inv, Step;
    match a
    case Edge => EdgeKeeps(s);
    case Break => BreakKeeps(s);
    case RxFull => RxFullKeeps(s);
    case TxEmpty => TxEmptyKeeps(s);
    case EnterPio => EntryKeeps(s, a);
    case EnterDma => EntryKeeps(s, a);
    case EnterExti => EntryKeeps(s, a);
    case StartTx => CallKeeps(s);
    case ThreadStep(choice) =>
      if s.thread.Falling? {
        FallingKeeps(s, choice);
      } else if s.thread == At(306) {
        WindowKeeps(s, choice);
      } else if s.thread.line in {302, 317, 331} {
        OutsideKeeps(s, choice);
      } else {
        InsideKeeps(s, choice);
      }
    case IsrStep(choice) => IsrKeeps(s, choice);
  }

  lemma IsrKeeps(s: State, choice: bool)
    requires Inv(s) && Can(SOUND, s, IsrStep(choice))
    ensures Inv(Step(SOUND, s, IsrStep(choice)))
  {
    hide Inv, Step;
    match s.isr
    case DmaEnter => DmaKeeps(s, choice);
    case DmaTurn(_, _) => TurnKeeps(s, choice);
    case ExtiEnter => ExtiKeeps(s, choice);
    case Running(Return, _) => ReturnKeeps(s, choice);
    case Running(_, _) => RunningKeeps(s, choice);
    case _ => PioKeeps(s, choice);
  }

  lemma CallKeeps(s: State)
    requires Inv(s) && Can(SOUND, s, StartTx)
    ensures Inv(Step(SOUND, s, StartTx))
  {
  }

  /** The invariant holds in every state of every run. */
  lemma {:induction false} RunKeeps(acts: seq<Act>)
    requires Exec(SOUND, acts).Some?
    ensures Inv(Exec(SOUND, acts).value)
    decreases |acts|
  {
    hide Inv, Step, Can;
    if acts == [] {
      InvInit();
    } else {
      var last := |acts| - 1;
      RunKeeps(acts[..last]);
      StepKeeps(Exec(SOUND, acts[..last]).value, acts[last]);
    }
  }

  // ---------- what follows ----------

  /** Exclusion: one direction at a time, no edge interrupt while one is active, no failed assertion. */
  predicate Safe(s: State) {
    && !s.h.failed
    && !(s.h.txOn && s.h.rxOn)
    && (s.h.txOn || s.h.rxOn ==> !s.h.edgeEnabled)
    && (s.thread == At(311) ==> !s.h.edgeEnabled)
  }

  lemma InvIsSafe(s: State)
    requires Inv(s)
    ensures Safe(s)
  {
  }

  /** Link exclusion, in every interleaving. */
  lemma LinkExclusion(acts: seq<Act>)
    requires Exec(SOUND, acts).Some?
    ensures Safe(Exec(SOUND, acts).value)
  {
    hide *;
    RunKeeps(acts);
    InvIsSafe(Exec(SOUND, acts).value);
  }

  /**
    Exactly one completion.  Every uart_start_rx that has run is either the reception in
    progress, or being completed by the running interrupt routine, or has had its one
    jd_rx_completed; likewise for accepted transmissions.
  */
  lemma OneCompletionEach(acts: seq<Act>)
    requires Exec(SOUND, acts).Some?
    ensures var s := Exec(SOUND, acts).value;
            && s.rxDone <= s.h.rxStarts <= s.rxDone + 1
            && (s.h.rxStarts == s.rxDone + 1 <==> s.h.status == Rx || (s.isr.Running? && s.isr.after.RxCompleted?))
            && s.txDone <= s.txStarts <= s.txDone + 1
            && (s.txStarts == s.txDone + 1 <==> s.sending)
  {
    RunKeeps(acts);
    CountsAreSharp(Exec(SOUND, acts).value);
  }

  lemma CountsAreSharp(s: State)
    requires Inv(s)
    ensures s.h.rxStarts <= s.rxDone + 1
    ensures s.h.rxStarts == s.rxDone + 1 <==> s.h.status == Rx || (s.isr.Running? && s.isr.after.RxCompleted?)
  {
  }

  /** Nothing is executing or about to. */
  predicate Quiescent(s: State) {
    s.isr.NoIsr? && s.thread.Out? && !PioLevel(s.h) && !DmaLevel(s.h)
  }

  /** All is off, the slots are free, and the edge interrupt is armed. */
  predicate Listening(h: Hw) {
    h.status == Idle && Silent(h) && Free(h.rx) && h.edgeEnabled && h.irqOff == 0
  }

  /** A reception in flight, both of whose ends lead to rx_done. */
  predicate Receives(h: Hw) {
    && h.status == Rx && h.rxOn && h.brkEnabled && h.irqOff == 0
    && h.rx.busy && h.rx.enabled && h.rx.slot.Some? && Free(h.tx)
  }

  /** A transmission in flight, whose end leads to the transmit handler. */
  predicate Transmits(h: Hw) {
    && h.status == Tx && h.txOn && h.irqOff == 0
    && h.tx.busy && h.tx.enabled && h.tx.slot.Some? && Free(h.rx)
  }

  /** Never deaf: every quiescent state listens, or waits for the end of a transfer. */
  lemma NeverDeaf(acts: seq<Act>)
    requires Exec(SOUND, acts).Some? && Quiescent(Exec(SOUND, acts).value)
    ensures var h := Exec(SOUND, acts).value.h; Listening(h) || Receives(h) || Transmits(h)
  {
    RunKeeps(acts);
    QuietModes(Exec(SOUND, acts).value);
  }

  lemma QuietModes(s: State)
    requires Inv(s) && Quiescent(s)
    ensures Listening(s.h) || Receives(s.h) || Transmits(s.h)
  {
  }

  // ---------- transfers end ----------

  function CodeRank(c: Code): nat {
    match c
    case Return => 0
    case Fall => 9
    case StartRx(l) => if l == 339 then 7 else if l == 340 then 6 else if l == 342 then 5 else if l == 344 then 4
                       else if l == 345 then 3 else if l == 346 then 2 else 1
    case Disable(l) => if l == 276 then 8 else if l == 277 then 7 else if l == 278 then 6 else if l == 281 then 5
                       else if l == 282 then 4 else if l == 283 then 3 else if l == 284 then 2 else 1
  }

  /** Statements the running interrupt routine has left, at most. */
  function IsrRank(isr: Isr): nat {
    match isr
    case NoIsr => 0
    case PioEnter => 13
    case DmaEnter => 24
    case DmaTurn(rx, tx) => if rx then (if tx then 23 else 13) else if tx then 11 else 1
    case ExtiEnter => 11
    case RxDone(tx) => if tx then 22 else 12
    case TxDone => 10
    case Running(c, after) =>
      CodeRank(c) + (match after case Nothing => 1 case TxCompleted => 1 case RxCompleted(tx) => if tx then 12 else 2)
  }

  lemma CodeDescends(asm: Assumptions, h: Hw, c: Code, choice: bool)
    requires !c.Return?
    ensures CodeRank(CodeStep(asm, h, c, choice).1) < CodeRank(c)
  {
  }

  /** No interrupt routine runs for more than 24 of its statements, whatever else happens. */
  lemma RoutinesEnd(asm: Assumptions, s: State, choice: bool)
    requires !s.isr.NoIsr?
    ensures IsrRank(Step(asm, s, IsrStep(choice)).isr) < IsrRank(s.isr) <= 24
  {
    hide CodeStep;
    if s.isr.Running? && !s.isr.code.Return? {
      CodeDescends(asm, s.h, s.isr.code, choice);
    }
  }

  lemma RoutinesAreNotPreempted(asm: Assumptions, s: State, a: Act)
    requires Can(asm, s, a) && !s.isr.NoIsr? && !a.IsrStep?
    ensures Step(asm, s, a).isr == s.isr && Step(asm, s, a).thread == s.thread
  {
  }

  /** When the routine that ends a transfer is about to report it, the link listens again. */
  lemma EndReopens(acts: seq<Act>)
    requires Exec(SOUND, acts).Some?
    requires var isr := Exec(SOUND, acts).value.isr; isr.Running? && isr.code.Return? && !isr.after.Nothing?
    ensures var h := Exec(SOUND, acts).value.h;
            h.status == Idle && Silent(h) && h.edgeEnabled && h.irqOff == 0 && (Free(h.rx) || Asserted(h.rx))
  {
    RunKeeps(acts);
    EndListens(Exec(SOUND, acts).value);
  }

  lemma EndListens(s: State)
    requires Inv(s) && s.isr.Running? && s.isr.code.Return? && !s.isr.after.Nothing?
    ensures s.h.status == Idle && Silent(s.h) && s.h.edgeEnabled && s.h.irqOff == 0
    ensures Free(s.h.rx) || Asserted(s.h.rx)
  {
  }
}
