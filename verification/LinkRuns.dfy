/** Runs of the link driver, put together from those of its routines, from any state. */
module LinkRuns {
  import opened Common
  import opened DmaChannel
  import opened Link

  lemma Init(asm: Assumptions) returns (s: State)
    ensures s == INIT && Reachable(asm, s)
  {
    s := INIT;
    assert Exec(asm, []) == Some(INIT);
  }

  lemma Extend(asm: Assumptions, s: State, a: Act, first: State := INIT) returns (s': State)
    requires Reachable(asm, s, first) && Can(asm, s, a)
    ensures s' == Step(asm, s, a) && Reachable(asm, s', first)
  {
    hide Step, Can;
    var acts: seq<Act> :| Exec(asm, acts, first) == Some(s);
    s' := Step(asm, s, a);
    var acts' := acts + [a];
    assert acts'[..|acts'| - 1] == acts;
    assert Exec(asm, acts', first) == Some(s');
  }

  lemma EdgeToFall(asm: Assumptions, s: State, first: State := INIT) returns (s': State)
    requires Reachable(asm, s, first) && !s.h.failed && s.isr.NoIsr? && s.h.irqOff == 0 && s.h.edgeEnabled
    requires asm.ordered ==> !PioLevel(s.h) && !DmaLevel(s.h)
    ensures Reachable(asm, s', first) && s' == s.(h := s.h.(edge := false), isr := Running(Fall, Nothing))
  {
    hide Reachable;
    s' := Extend(asm, s, Edge, first);
    s' := Extend(asm, s', EnterExti, first);
    s' := Extend(asm, s', IsrStep(true), first);
  }

  lemma FallToStatus(asm: Assumptions, s: State, first: State := INIT) returns (s': State)
    requires Reachable(asm, s, first) && !s.h.failed && s.isr == Running(Fall, Nothing)
    ensures Reachable(asm, s', first)
    ensures s' == s.(h := s.h.(status := Rx, rxStarts := s.h.rxStarts + 1), isr := Running(StartRx(340), Nothing))
  {
    hide Reachable;
    s' := Extend(asm, s, IsrStep(true), first);
    s' := Extend(asm, s', IsrStep(true), first);
  }

  lemma FallToStart(asm: Assumptions, s: State, first: State := INIT) returns (s': State)
    requires Reachable(asm, s, first) && !s.h.failed && s.isr == Running(Fall, Nothing)
    ensures Reachable(asm, s', first)
    ensures s' == s.(h := s.h.(status := Rx, rxStarts := s.h.rxStarts + 1, edge := false, edgeEnabled := false),
                     isr := Running(StartRx(342), Nothing))
  {
    hide Reachable;
    s' := FallToStatus(asm, s, first);
    s' := Extend(asm, s', IsrStep(true), first);
  }

  /** An edge arrives and the upper layer starts a reception, up to the slot check. */
  lemma EdgeToSlot(asm: Assumptions, s: State, first: State := INIT) returns (s': State)
    requires Reachable(asm, s, first) && !s.h.failed && s.isr.NoIsr? && s.h.irqOff == 0 && s.h.edgeEnabled
    requires asm.ordered ==> !PioLevel(s.h) && !DmaLevel(s.h)
    ensures Reachable(asm, s', first)
    ensures s' == s.(h := s.h.(status := Rx, rxStarts := s.h.rxStarts + 1, edge := false, edgeEnabled := false,
                               rxOn := true, brk := false),
                     isr := Running(StartRx(345), Nothing))
  {
    hide Reachable;
    s' := EdgeToFall(asm, s, first);
    s' := FallToStart(asm, s', first);
    s' := Extend(asm, s', IsrStep(true), first);
    s' := Extend(asm, s', IsrStep(true), first);
  }

  /** From a free slot the reception is started. */
  lemma SlotToReception(asm: Assumptions, s: State, first: State := INIT) returns (s': State)
    requires Reachable(asm, s, first) && !s.h.failed && s.isr == Running(StartRx(345), Nothing) && s.h.rx.slot.None?
    ensures Reachable(asm, s', first)
    ensures s' == s.(h := s.h.(rx := Channel(true, false, true, Some(RxHandler)), brkEnabled := true), isr := NoIsr)
  {
    hide Reachable;
    s' := Extend(asm, s, IsrStep(true), first);
    s' := Extend(asm, s', IsrStep(true), first);
    s' := Extend(asm, s', IsrStep(true), first);
    s' := Extend(asm, s', IsrStep(true), first);
  }

  lemma DisableEntry(asm: Assumptions, s: State, first: State := INIT) returns (s': State)
    requires Reachable(asm, s, first) && !s.h.failed && s.isr.Running? && s.isr.code == Disable(276)
    ensures Reachable(asm, s', first)
    ensures s' == s.(h := s.h.(status := Idle, irqOff := s.h.irqOff + 1), isr := Running(Disable(278), s.isr.after))
  {
    hide Reachable;
    s' := Extend(asm, s, IsrStep(true), first);
    s' := Extend(asm, s', IsrStep(true), first);
  }

  lemma DisableAbort(asm: Assumptions, s: State, first: State := INIT) returns (s': State)
    requires Reachable(asm, s, first) && !s.h.failed && s.isr.Running? && s.isr.code == Disable(276)
    ensures Reachable(asm, s', first)
    ensures s' == s.(h := s.h.(status := Idle,
                               rx := Abort(s.h.rx, asm.abortRaises), tx := Abort(s.h.tx, asm.abortRaises),
                               irqOff := s.h.irqOff + 1),
                     isr := Running(Disable(281), s.isr.after))
  {
    hide Reachable;
    s' := DisableEntry(asm, s, first);
    s' := Extend(asm, s', IsrStep(true), first);
  }

  lemma DisableMachines(asm: Assumptions, s: State, first: State := INIT) returns (s': State)
    requires Reachable(asm, s, first) && !s.h.failed && s.isr.Running? && s.isr.code == Disable(281)
    ensures Reachable(asm, s', first)
    ensures s' == s.(h := s.h.(txOn := false, rxOn := false, brkEnabled := false),
                     isr := Running(Disable(284), s.isr.after))
  {
    hide Reachable;
    s' := Extend(asm, s, IsrStep(true), first);
    s' := DisableReceiver(asm, s', first);
  }

  lemma DisableReceiver(asm: Assumptions, s: State, first: State := INIT) returns (s': State)
    requires Reachable(asm, s, first) && !s.h.failed && s.isr.Running? && s.isr.code == Disable(282)
    ensures Reachable(asm, s', first)
    ensures s' == s.(h := s.h.(rxOn := false, brkEnabled := false), isr := Running(Disable(284), s.isr.after))
  {
    hide Reachable;
    s' := Extend(asm, s, IsrStep(true), first);
    s' := Extend(asm, s', IsrStep(true), first);
  }

  /** uart_disable, run by an interrupt routine to its end. */
  lemma DisableRun(asm: Assumptions, s: State, first: State := INIT) returns (s': State)
    requires Reachable(asm, s, first) && !s.h.failed && s.isr.Running? && s.isr.code == Disable(276) && s.h.irqOff == 0
    ensures Reachable(asm, s', first)
    ensures s' == s.(h := s.h.(status := Idle,
                               rx := Abort(s.h.rx, asm.abortRaises), tx := Abort(s.h.tx, asm.abortRaises),
                               txOn := false, rxOn := false, brkEnabled := false, edge := false, edgeEnabled := true),
                     isr := Running(Return, s.isr.after))
  {
    hide Reachable;
    s' := DisableAbort(asm, s, first);
    s' := DisableMachines(asm, s', first);
    s' := Extend(asm, s', IsrStep(true), first);
    s' := Extend(asm, s', IsrStep(true), first);
  }
}
