/**
  Each of the three assumptions about the surroundings is needed: without any one of them
  some run of the driver goes wrong.  Together they are enough, so they are exact.
*/
module LinkAssumptions {
  import opened Common
  import opened DmaChannel
  import opened Link
  import opened LinkSafety
  import opened LinkRuns

  /** A break during a reception, up to the call of uart_disable. */
  lemma BreakToDone(asm: Assumptions) returns (s: State)
    ensures Reachable(asm, s) && !s.h.failed && s.isr == RxDone(false) && s.h.status == Rx && s.h.irqOff == 0
    ensures s.thread.Out? && s.h.rx == Channel(true, false, true, Some(RxHandler)) && Free(s.h.tx) && !s.h.brk
  {
    hide Reachable;
    s := Init(asm);
    s := EdgeToSlot(asm, s);
    s := SlotToReception(asm, s);
    s := Extend(asm, s, Break);
    s := Extend(asm, s, EnterPio);
    s := Extend(asm, s, IsrStep(true));
  }

  /** A reception, ended by a break. */
  lemma ReceiveThenBreak(asm: Assumptions) returns (s: State)
    ensures Reachable(asm, s) && !s.h.failed && s.isr.NoIsr? && s.h.irqOff == 0 && s.h.edgeEnabled && s.thread.Out?
    ensures !PioLevel(s.h) && s.h.rx == Channel(false, asm.abortRaises, true, Some(RxHandler)) && Free(s.h.tx)
  {
    hide Reachable;
    s := BreakToDone(asm);
    s := Extend(asm, s, IsrStep(true));
    s := DisableRun(asm, s);
    s := Extend(asm, s, IsrStep(true));
    s := Extend(asm, s, IsrStep(true));
  }

  /**
    If aborting did not complete the channel, or if an edge could be served before the
    completion an abort leaves, the reception after a break would find its slot taken.
  */
  lemma SlotTaken(asm: Assumptions) returns (s: State)
    requires !asm.abortRaises || !asm.ordered
    ensures Reachable(asm, s) && s.h.failed
  {
    hide Reachable;
    s := ReceiveThenBreak(asm);
    s := EdgeToSlot(asm, s);
    s := Extend(asm, s, IsrStep(true));
  }

  /** uart_start_tx is called during a reception and stands before line 306. */
  lemma CalledDuringReception(asm: Assumptions) returns (s: State)
    ensures Reachable(asm, s) && !s.h.failed && s.isr.NoIsr? && s.thread == At(306)
    ensures s.h.status == Rx && s.h.irqOff == 0 && !s.h.brk && Free(s.h.tx)
    ensures s.h.rx == Channel(true, false, true, Some(RxHandler))
  {
    hide Reachable;
    s := Init(asm);
    s := EdgeToSlot(asm, s);
    s := SlotToReception(asm, s);
    s := Extend(asm, s, StartTx);
    s := Extend(asm, s, ThreadStep(true));
  }

  lemma HandlerInWindow(asm: Assumptions) returns (s: State)
    requires !asm.calmWindow
    ensures Reachable(asm, s) && !s.h.failed && s.isr == RxDone(false) && s.thread == At(306)
    ensures s.h.status == Rx && s.h.irqOff == 0 && !s.h.brk && Free(s.h.rx) && !s.h.rx.raised && Free(s.h.tx)
  {
    hide Reachable;
    s := CalledDuringReception(asm);
    s := Extend(asm, s, RxFull);
    s := Extend(asm, s, EnterDma);
    s := Extend(asm, s, IsrStep(true));
    s := Extend(asm, s, IsrStep(true));
  }

  /** The reception ends there: the edge interrupt is enabled again. */
  lemma EndInWindow(asm: Assumptions) returns (s: State)
    requires !asm.calmWindow
    ensures Reachable(asm, s) && !s.h.failed && s.isr.NoIsr? && s.thread == At(306)
    ensures s.h.status == Idle && s.h.irqOff == 0 && s.h.edgeEnabled && !s.h.edge
    ensures !PioLevel(s.h) && !DmaLevel(s.h) && Free(s.h.rx) && Free(s.h.tx)
  {
    hide Reachable;
    s := HandlerInWindow(asm);
    s := Extend(asm, s, IsrStep(true));
    s := DisableRun(asm, s);
    s := Extend(asm, s, IsrStep(true));
    s := Extend(asm, s, IsrStep(true));
  }

  /**
    If a reception could end between lines 302 and 306, uart_start_tx would enable the
    transmitter with the edge interrupt enabled; an edge would then enable the receiver too.
  */
  lemma BothOn(asm: Assumptions) returns (s: State)
    requires !asm.calmWindow
    ensures Reachable(asm, s) && s.h.txOn && s.h.rxOn
  {
    hide Reachable;
    s := EndInWindow(asm);
    s := Extend(asm, s, ThreadStep(true));
    s := Extend(asm, s, ThreadStep(true));
    s := Extend(asm, s, ThreadStep(true));
    s := Extend(asm, s, ThreadStep(true));
    s := Extend(asm, s, ThreadStep(true));
    s := EdgeToSlot(asm, s);
  }

  /** The assumptions are exact: the link is safe in all runs if and only if all three hold. */
  lemma AssumptionsAreExact(asm: Assumptions)
    ensures (forall s: State :: Reachable(asm, s) ==> Safe(s)) <==> asm == SOUND
  {
    hide Exec;
    if asm == SOUND {
      forall s: State | Reachable(asm, s) ensures Safe(s) {
        var acts: seq<Act> :| Exec(asm, acts) == Some(s);
        LinkExclusion(acts);
      }
    } else if asm.calmWindow {
      var s := SlotTaken(asm);
      assert !Safe(s);
    } else {
      var s := BothOn(asm);
      assert !Safe(s);
    }
  }
}
