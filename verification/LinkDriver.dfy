/**
  The driver's functions as code: fields updated in place, statement by statement.  Each
  method is proved to have the effect of running the corresponding statements of the
  transition system to their end, so the two descriptions of the driver agree.
*/
module LinkDriver {
  import opened Common
  import opened DmaChannel
  import opened Link
  import opened LinkSafety

  /** The shared code, run to its end without interruption. */
  function Finished(asm: Assumptions, h: Hw, c: Code, choice: bool): Hw
    decreases CodeRank(c)
  {
    if c.Return? then h
    else
      var (h', c') := CodeStep(asm, h, c, choice);
      CodeDescends(asm, h, c, choice);
      Finished(asm, h', c', choice)
  }

  lemma FinishedStep(asm: Assumptions, h: Hw, c: Code, choice: bool)
    requires !c.Return?
    ensures var (h', c') := CodeStep(asm, h, c, choice); Finished(asm, h, c, choice) == Finished(asm, h', c', choice)
  {
  }

  class Driver {
    const asm: Assumptions
    var status: Status
    var irqOff: nat
    var txOn: bool
    var rxOn: bool
    var brk: bool
    var brkEnabled: bool
    var edge: bool
    var edgeEnabled: bool
    var rx: Channel<Callback>
    var tx: Channel<Callback>
    var rxStarts: nat
    var failed: bool

    ghost function View(): Hw
      reads this
    {
      Hw(status, irqOff, txOn, rxOn, brk, brkEnabled, edge, edgeEnabled, rx, tx, rxStarts, failed)
    }

    constructor (asm: Assumptions)
      ensures View() == INIT.h && this.asm == asm
    {
      this.asm := asm;
      status, irqOff, txOn, rxOn := Idle, 0, false, false;
      brk, brkEnabled, edge, edgeEnabled := false, false, false, true;
      rx, tx := Channel(false, false, false, None), Channel(false, false, false, None);
      rxStarts, failed := 0, false;
    }

    /** target_disable_irq and target_enable_irq nest, and balanced pairs restore the count. */
    method DisableIrq()
      modifies this`irqOff
      ensures View() == IrqOff(old(View()))
    {
      irqOff := irqOff + 1;
    }

    method EnableIrq()
      modifies this`irqOff
      ensures View() == IrqOn(old(View()))
    {
      var n := irqOff - 1;
      irqOff := if n <= 0 then 0 else n;
    }

    method ExtiDisable()
      modifies this`edge, this`edgeEnabled
      ensures View() == ExtiOff(old(View()))
    {
      edge := false;
      edgeEnabled := false;
    }

    method ExtiEnable()
      modifies this`edge, this`edgeEnabled
      ensures View() == ExtiOn(old(View()))
    {
      edge := false;
      edgeEnabled := true;
    }

    method AbortTransfers()
      modifies this`rx, this`tx
      ensures View() == old(View()).(rx := Abort(old(rx), asm.abortRaises), tx := Abort(old(tx), asm.abortRaises))
    {
      rx, tx := Abort(rx, asm.abortRaises), Abort(tx, asm.abortRaises);
    }

    method StopMachines()
      modifies this`txOn, this`rxOn, this`brkEnabled
      ensures View() == old(View()).(txOn := false, rxOn := false, brkEnabled := false)
    {
      txOn := false;
      rxOn := false;
      brkEnabled := false;
    }

    /** uart_disable. */
    method UartDisable()
      modifies this
      ensures View() == Finished(asm, old(View()), Disable(276), true)
    {
      hide Finished, CodeStep, Abort;
      DisableEffect(asm, View());
      status := Idle;
      DisableIrq();
      AbortTransfers();
      StopMachines();
      ExtiEnable();
      EnableIrq();
    }

    /** The statements of uart_start_rx up to its slot check. */
    method PrepareRx()
      modifies this`status, this`rxStarts, this`edge, this`edgeEnabled, this`rxOn, this`brk
      ensures View() == Prepared(old(View()))
    {
      status := Rx;
      rxStarts := rxStarts + 1;
      ExtiDisable();
      rxOn := true;
      brk := false;
    }

    /** uart_start_rx; the assertion of dma_set_ch_cb may fail. */
    method UartStartRx()
      modifies this
      ensures View() == Finished(asm, old(View()), StartRx(339), true)
    {
      hide Finished, CodeStep, Prepared;
      StartEffect(asm, View());
      PrepareRx();
      if rx.slot.Some? {
        failed := true;
      } else {
        rx := Register(rx, RxHandler);
        rx := Begin(rx);
        brkEnabled := true;
      }
    }

    /** rx_done: the result tells whether jd_rx_completed is called. */
    method RxDone() returns (completed: bool)
      modifies this
      ensures completed <==> old(status) == Rx
      ensures View() == if completed then Finished(asm, old(View()).(status := Idle), Disable(276), true)
                        else old(View())
    {
      completed := status == Rx;
      if completed {
        status := Idle;
        UartDisable();
      }
    }

    /** jd_line_falling, as far as the driver sees it. */
    method LineFalling(fall: bool)
      modifies this
      ensures View() == Finished(asm, old(View()), Fall, fall)
    {
      ghost var before := View();
      if fall { UartStartRx(); } else { UartDisable(); }
      FinishedStep(asm, before, Fall, fall);
      ChoiceOnlyAtFall(asm, before, if fall then StartRx(339) else Disable(276), fall);
    }

    /** The end of uart_start_tx; the assertion of dma_set_ch_cb may fail. */
    method BeginSending()
      modifies this`txOn, this`tx, this`failed
      ensures View() == (var h := old(View()).(txOn := true);
                         if h.tx.slot.Some? then h.(failed := true)
                         else h.(tx := Begin(Register(h.tx, TxHandler))))
    {
      txOn := true;
      if tx.slot.Some? {
        failed := true;
      } else {
        tx := Register(tx, TxHandler);
        tx := Begin(tx);
      }
    }

    /** The statements of uart_start_tx up to the probe; the result is false if it goes no further. */
    method Claim() returns (go: bool)
      modifies this`edge, this`edgeEnabled, this`status, this`failed
      ensures var h := ExtiOff(old(View()));
              && (go <==> h.status == Idle)
              && View() == if h.status == Rx then h else if go then h.(status := Tx) else h.(failed := true)
    {
      ExtiDisable();
      go := false;
      if status == Rx { return; }
      if status != Idle {
        failed := true;
        return;
      }
      status := Tx;
      go := true;
    }

    /** uart_start_tx from the probe on; `high` is the probed line, `fall` what jd_line_falling decides. */
    method Probed(high: bool, fall: bool, ghost s: State) returns (result: int)
      requires s.h == View() && s.thread == At(313)
      modifies this
      ensures var s' := Sent(asm, s, high, fall);
              View() == s'.h && (!failed ==> s'.thread.Out? && result == if s'.txStarts > s.txStarts then 0 else -1)
    {
      hide Sent, Finished, CodeStep, IrqOn, IrqOff, Register;
      if high {
        SentHigh(asm, s, fall);
        BeginSending();
        return if failed then -1 else 0;
      }
      SentLow(asm, s, fall);
      DisableIrq();
      LineFalling(fall);
      EnableIrq();
      return -1;
    }

    /**
      uart_start_tx, undisturbed.  It does what the transition system's statements do from line
      302 on, and returns 0 exactly if these have begun a transmission.
    */
    method UartStartTx(high: bool, fall: bool, ghost s: State) returns (result: int)
      requires s.h == View() && s.thread == At(302)
      modifies this
      ensures var s' := Sent(asm, s, high, fall);
              View() == s'.h && (!failed ==> s'.thread.Out? && result == if s'.txStarts > s.txStarts then 0 else -1)
    {
      hide Sent, ExtiOff;
      SentHead(asm, s, high, fall);
      var go := Claim();
      if go {
        result := Probed(high, fall, s.(h := View(), thread := At(313)));
      } else {
        result := -1;
      }
    }
  }

  // ---------- uart_start_tx without interruption ----------

  /** Statements the thread has left, at most. */
  function ThreadRank(t: Thread): nat {
    match t
    case Out => 0
    case Falling(c) => 2 + CodeRank(c)
    case At(l) =>
      if l == 302 then 17 else if l == 306 then 16 else if l == 310 then 15 else if l == 311 then 14
      else if l == 313 then 13 else if l == 315 then 12 else if l == 326 then 5 else if l == 327 then 4
      else if l == 328 then 3 else if l == 317 then 1 else 2
  }

  predicate Choice(t: Thread, high: bool, fall: bool) {
    if t == At(313) then high else fall
  }

  lemma ThreadDescends(asm: Assumptions, s: State, choice: bool)
    requires !s.thread.Out? && ThreadNext(asm, s, choice).thread != s.thread
    ensures ThreadRank(ThreadNext(asm, s, choice).thread) < ThreadRank(s.thread)
  {
    hide CodeStep;
    if s.thread.Falling? && !s.thread.code.Return? {
      CodeDescends(asm, s.h, s.thread.code, choice);
    }
  }

  /** The thread's statements run to their end, or to the assertion that stops them. */
  function Sent(asm: Assumptions, s: State, high: bool, fall: bool): State
    decreases ThreadRank(s.thread)
  {
    if s.thread.Out? then s
    else
      var s' := ThreadNext(asm, s, Choice(s.thread, high, fall));
      if s'.thread == s.thread then s'
      else
        ThreadDescends(asm, s, Choice(s.thread, high, fall));
        Sent(asm, s', high, fall)
  }

  lemma SentStep(asm: Assumptions, s: State, high: bool, fall: bool)
    requires !s.thread.Out?
    ensures var s' := ThreadNext(asm, s, Choice(s.thread, high, fall));
            Sent(asm, s, high, fall) == if s'.thread == s.thread then s' else Sent(asm, s', high, fall)
  {
  }

  lemma SentOut(asm: Assumptions, s: State, high: bool, fall: bool)
    requires s.thread.Out?
    ensures Sent(asm, s, high, fall) == s
  {
  }

  /** The shared code inside it runs as it does on its own. */
  lemma {:induction false} SentFalling(asm: Assumptions, s: State, c: Code, high: bool, fall: bool)
    requires s.thread == Falling(c)
    ensures Sent(asm, s, high, fall)
         == s.(h := IrqOn(Finished(asm, s.h, c, fall)), thread := Out)
    decreases CodeRank(c)
  {
    hide CodeStep, Finished, Sent, IrqOn;
    SentStep(asm, s, high, fall);
    if c.Return? {
      var s' := s.(thread := At(317));
      SentStep(asm, s', high, fall);
      SentOut(asm, s'.(h := IrqOn(s'.h), thread := Out), high, fall);
      FinishedReturn(asm, s.h, fall);
    } else {
      var (h', c') := CodeStep(asm, s.h, c, fall);
      CodeDescends(asm, s.h, c, fall);
      SentFalling(asm, s.(h := h', thread := Falling(c')), c', high, fall);
      FinishedStep(asm, s.h, c, fall);
    }
  }

  lemma FinishedReturn(asm: Assumptions, h: Hw, choice: bool)
    ensures Finished(asm, h, Return, choice) == h
  {
  }

  /** Its two early exits, and the way to the probe. */
  lemma SentHead(asm: Assumptions, s: State, high: bool, fall: bool)
    requires s.thread == At(302)
    ensures var h := ExtiOff(s.h);
            Sent(asm, s, high, fall) ==
            if h.status == Rx then s.(h := h, thread := Out)
            else if h.status != Idle then s.(h := h.(failed := true), thread := At(310))
            else Sent(asm, s.(h := h.(status := Tx), thread := At(313)), high, fall)
  {
    hide Sent, ExtiOff;
    var a := s.(h := ExtiOff(s.h), thread := At(306));
    SentStep(asm, s, high, fall);
    SentStep(asm, a, high, fall);
    if a.h.status == Rx {
      SentOut(asm, a.(thread := Out), high, fall);
    } else {
      var b := a.(thread := At(310));
      SentStep(asm, b, high, fall);
      if b.h.status == Idle { SentStep(asm, b.(thread := At(311)), high, fall); }
    }
  }

  lemma SentHigh(asm: Assumptions, s: State, fall: bool)
    requires s.thread == At(313)
    ensures var h := s.h.(txOn := true);
            Sent(asm, s, true, fall) ==
            if h.tx.slot.Some? then s.(h := h.(failed := true), thread := At(327))
            else s.(h := h.(tx := Begin(Register(h.tx, TxHandler))), thread := Out,
                    sending := true, txStarts := s.txStarts + 1)
  {
    hide Sent;
    SentStep(asm, s, true, fall);
    SentStep(asm, s.(thread := At(326)), true, fall);
    var a := s.(h := s.h.(txOn := true), thread := At(327));
    SentStep(asm, a, true, fall);
    if a.h.tx.slot.None? { SentTail(asm, a.(h := a.h.(tx := Register(a.h.tx, TxHandler)), thread := At(328)), fall); }
  }

  lemma SentTail(asm: Assumptions, s: State, fall: bool)
    requires s.thread == At(328)
    ensures Sent(asm, s, true, fall)
         == s.(h := s.h.(tx := Begin(s.h.tx)), thread := Out, sending := true, txStarts := s.txStarts + 1)
  {
    hide Sent;
    SentStep(asm, s, true, fall);
    var a := s.(h := s.h.(tx := Begin(s.h.tx)), thread := At(331), sending := true, txStarts := s.txStarts + 1);
    SentStep(asm, a, true, fall);
    SentOut(asm, a.(thread := Out), true, fall);
  }

  lemma SentLow(asm: Assumptions, s: State, fall: bool)
    requires s.thread == At(313)
    ensures Sent(asm, s, false, fall) == s.(h := IrqOn(Finished(asm, IrqOff(s.h), Fall, fall)), thread := Out)
  {
    hide Sent, IrqOff, IrqOn, Finished;
    SentStep(asm, s, false, fall);
    SentStep(asm, s.(thread := At(315)), false, fall);
    SentFalling(asm, s.(h := IrqOff(s.h), thread := Falling(Fall)), Fall, false, fall);
  }

  // ---------- disabling and enabling ----------

  /** Calls of target_disable_irq (true) and target_enable_irq (false), in order. */
  function Nest(h: Hw, calls: seq<bool>): Hw {
    if calls == [] then h
    else
      var n := |calls| - 1;
      if calls[n] then IrqOff(Nest(h, calls[..n])) else IrqOn(Nest(h, calls[..n]))
  }

  function Depth(calls: seq<bool>): int {
    if calls == [] then 0
    else Depth(calls[..|calls| - 1]) + if calls[|calls| - 1] then 1 else -1
  }

  /** No more enables than disables so far, at any point. */
  ghost predicate Bracketed(calls: seq<bool>) {
    forall k :: 0 <= k <= |calls| ==> Depth(calls[..k]) >= 0
  }

  /**
    Nesting.  In bracketed calls the clamp of the counter is never reached: the count is what it
    was before, plus the depth.  So balanced calls restore it, whatever it was, and interrupts
    stay disabled between a disable and its enable.
  */
  lemma {:induction false} NestingCounts(h: Hw, calls: seq<bool>)
    requires Bracketed(calls)
    ensures Depth(calls) >= 0 && Nest(h, calls) == h.(irqOff := h.irqOff + Depth(calls))
    decreases |calls|
  {
    if calls != [] {
      var n := |calls| - 1;
      BracketedPrefix(calls);
      NestingCounts(h, calls[..n]);
    }
  }

  lemma BracketedPrefix(calls: seq<bool>)
    requires Bracketed(calls)
    ensures Depth(calls) >= 0 && (calls != [] ==> Bracketed(calls[..|calls| - 1]))
  {
    hide Depth;
    assert calls[..|calls|] == calls;
    if calls != [] {
      var n := |calls| - 1;
      forall k | 0 <= k <= n ensures Depth(calls[..n][..k]) >= 0 {
        assert calls[..n][..k] == calls[..k];
      }
    }
  }

  /** Past its first decision the shared code makes no choice. */
  lemma {:induction false} ChoiceOnlyAtFall(asm: Assumptions, h: Hw, c: Code, choice: bool)
    requires !c.Fall?
    ensures Finished(asm, h, c, choice) == Finished(asm, h, c, true)
    decreases CodeRank(c)
  {
    if !c.Return? {
      var (h', c') := CodeStep(asm, h, c, choice);
      CodeDescends(asm, h, c, choice);
      ChoiceOnlyAtFall(asm, h', c', choice);
    }
  }

  /** Everything is off, the edge interrupt is on, and the interrupt nesting is what it was. */
  lemma DisableEffect(asm: Assumptions, h: Hw)
    ensures Finished(asm, h, Disable(276), true)
         == h.(status := Idle, rx := Abort(h.rx, asm.abortRaises), tx := Abort(h.tx, asm.abortRaises),
               txOn := false, rxOn := false, brkEnabled := false, edge := false, edgeEnabled := true)
  {
    var a := IrqOff(h.(status := Idle));
    DisableHead(asm, h);
    var b := a.(rx := Abort(h.rx, asm.abortRaises), tx := Abort(h.tx, asm.abortRaises));
    DisableTail(asm, b);
  }

  lemma DisableHead(asm: Assumptions, h: Hw)
    ensures Finished(asm, h, Disable(276), true)
         == Finished(asm, IrqOff(h.(status := Idle)).(rx := Abort(h.rx, asm.abortRaises),
                                                      tx := Abort(h.tx, asm.abortRaises)),
                     Disable(281), true)
  {
    var a := h.(status := Idle);
    FinishedStep(asm, h, Disable(276), true);
    FinishedStep(asm, a, Disable(277), true);
    FinishedStep(asm, IrqOff(a), Disable(278), true);
  }

  lemma DisableTail(asm: Assumptions, h: Hw)
    ensures Finished(asm, h, Disable(281), true)
         == IrqOn(ExtiOn(h.(txOn := false, rxOn := false, brkEnabled := false)))
  {
    var a := h.(txOn := false);
    var b := a.(rxOn := false);
    var c := b.(brkEnabled := false);
    FinishedStep(asm, h, Disable(281), true);
    FinishedStep(asm, a, Disable(282), true);
    FinishedStep(asm, b, Disable(283), true);
    FinishedStep(asm, c, Disable(284), true);
    FinishedStep(asm, ExtiOn(c), Disable(285), true);
  }

  /** uart_start_rx up to its slot check. */
  function Prepared(h: Hw): Hw {
    ExtiOff(h.(status := Rx, rxStarts := h.rxStarts + 1)).(rxOn := true, brk := false)
  }

  lemma StartHead(asm: Assumptions, h: Hw)
    ensures Finished(asm, h, StartRx(339), true) == Finished(asm, Prepared(h), StartRx(345), true)
  {
    var a := h.(status := Rx, rxStarts := h.rxStarts + 1);
    var b := ExtiOff(a);
    FinishedStep(asm, h, StartRx(339), true);
    FinishedStep(asm, a, StartRx(340), true);
    FinishedStep(asm, b, StartRx(342), true);
    FinishedStep(asm, b.(rxOn := true), StartRx(344), true);
  }

  lemma StartTail(asm: Assumptions, h: Hw)
    ensures Finished(asm, h, StartRx(345), true)
         == if h.rx.slot.Some? then h.(failed := true)
            else h.(rx := Begin(Register(h.rx, RxHandler)), brkEnabled := true)
  {
    FinishedStep(asm, h, StartRx(345), true);
    if h.rx.slot.None? {
      var e := h.(rx := Register(h.rx, RxHandler));
      FinishedStep(asm, e, StartRx(346), true);
      FinishedStep(asm, e.(rx := Begin(e.rx)), StartRx(347), true);
    }
  }

  lemma StartEffect(asm: Assumptions, h: Hw)
    ensures Finished(asm, h, StartRx(339), true)
         == (var p := Prepared(h);
             if p.rx.slot.Some? then p.(failed := true)
             else p.(rx := Begin(Register(p.rx, RxHandler)), brkEnabled := true))
  {
    hide Finished, CodeStep;
    StartHead(asm, h);
    StartTail(asm, Prepared(h));
  }
}
