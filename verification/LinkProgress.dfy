/**
  What becomes of a transfer whose end the hardware has signalled: it is reported, once, before
  the link is quiescent again.
*/
module LinkProgress {
  import opened DmaChannel
  import opened Link
  import opened LinkSafety

  // ---------- an end is not forgotten ----------

  /** uart_start_rx is being executed. */
  predicate Starting(s: State) {
    (s.thread.Falling? && s.thread.code.StartRx?) || (s.isr.Running? && s.isr.code.StartRx?)
  }

  /** Reception number `k` was reported, or its end is on the way to be. */
  predicate RxOver(s: State, k: nat) {
    || s.rxDone >= k
    || (s.h.rxStarts == k && !Starting(s) && (s.h.status == Rx ==> !s.h.rx.busy || s.h.brk || s.isr.RxDone?))
  }

  /** The same for a transmission. */
  predicate TxOver(s: State, k: nat) {
    s.txDone >= k || (s.txStarts == k && !s.h.tx.busy)
  }

  lemma HardwareKeepsOver(s: State, a: Act, k: nat)
    requires Inv(s) && Can(SOUND, s, a) && (a.Edge? || a.Break? || a.RxFull? || a.TxEmpty? || a.StartTx?)
    ensures RxOver(s, k) ==> RxOver(Step(SOUND, s, a), k)
    ensures TxOver(s, k) ==> TxOver(Step(SOUND, s, a), k)
  {
  }

  lemma EntryKeepsOver(s: State, a: Act, k: nat)
    requires Inv(s) && Can(SOUND, s, a) && (a.EnterPio? || a.EnterDma? || a.EnterExti?)
    ensures RxOver(s, k) ==> RxOver(Step(SOUND, s, a), k)
    ensures TxOver(s, k) ==> TxOver(Step(SOUND, s, a), k)
  {
  }

  lemma ThreadKeepsOver(s: State, choice: bool, k: nat)
    requires Inv(s) && Can(SOUND, s, ThreadStep(choice)) && !s.thread.Falling?
    ensures RxOver(s, k) ==> RxOver(Step(SOUND, s, ThreadStep(choice)), k)
    ensures TxOver(s, k) ==> TxOver(Step(SOUND, s, ThreadStep(choice)), k)
  {
  }

  /** What one statement of the shared code does to the two transfers. */
  ghost predicate CodeRespects(h: Hw, c: Code, h': Hw, c': Code) {
    && (h'.tx.busy ==> h.tx.busy)
    && (c.StartRx? || c'.StartRx? || (h'.rxStarts == h.rxStarts && h'.status != Rx) || c.Return?)
  }

  lemma DisableRespects(h: Hw, c: Code, choice: bool)
    requires CodeInv(h, c) && c.Disable?
    ensures var (h', c') := CodeStep(SOUND, h, c, choice); CodeRespects(h, c, h', c')
  {
  }

  lemma StartRespects(h: Hw, c: Code, choice: bool)
    requires CodeInv(h, c) && !c.Disable?
    ensures var (h', c') := CodeStep(SOUND, h, c, choice); CodeRespects(h, c, h', c')
  {
  }

  lemma CodeKeepsOver(h: Hw, c: Code, choice: bool)
    requires CodeInv(h, c)
    ensures var (h', c') := CodeStep(SOUND, h, c, choice); CodeRespects(h, c, h', c')
  {
    hide *;
    if c.Disable? { DisableRespects(h, c, choice); } else { StartRespects(h, c, choice); }
  }

  lemma FallingKeepsOver(s: State, choice: bool, k: nat)
    requires Inv(s) && Can(SOUND, s, ThreadStep(choice)) && s.thread.Falling?
    requires Inv(Step(SOUND, s, ThreadStep(choice)))
    ensures RxOver(s, k) ==> RxOver(Step(SOUND, s, ThreadStep(choice)), k)
    ensures TxOver(s, k) ==> TxOver(Step(SOUND, s, ThreadStep(choice)), k)
  {
    CodeKeepsOver(s.h, s.thread.code, choice);
  }

  lemma RunningKeepsOver(s: State, choice: bool, k: nat)
    requires Inv(s) && Can(SOUND, s, IsrStep(choice)) && s.isr.Running?
    ensures RxOver(s, k) ==> RxOver(Step(SOUND, s, IsrStep(choice)), k)
    ensures TxOver(s, k) ==> TxOver(Step(SOUND, s, IsrStep(choice)), k)
  {
    CodeKeepsOver(s.h, s.isr.code, choice);
  }

  lemma TurnKeepsOver(s: State, choice: bool, k: nat)
    requires Inv(s) && Can(SOUND, s, IsrStep(choice)) && s.isr.DmaTurn?
    ensures RxOver(s, k) ==> RxOver(Step(SOUND, s, IsrStep(choice)), k)
    ensures TxOver(s, k) ==> TxOver(Step(SOUND, s, IsrStep(choice)), k)
  {
  }

  lemma EntryRoutineKeepsOver(s: State, choice: bool, k: nat)
    requires Inv(s) && Can(SOUND, s, IsrStep(choice)) && !s.isr.Running? && !s.isr.DmaTurn?
    ensures RxOver(s, k) ==> RxOver(Step(SOUND, s, IsrStep(choice)), k)
    ensures TxOver(s, k) ==> TxOver(Step(SOUND, s, IsrStep(choice)), k)
  {
  }

  lemma RoutineKeepsOver(s: State, choice: bool, k: nat)
    requires Inv(s) && Can(SOUND, s, IsrStep(choice)) && !s.isr.Running?
    ensures RxOver(s, k) ==> RxOver(Step(SOUND, s, IsrStep(choice)), k)
    ensures TxOver(s, k) ==> TxOver(Step(SOUND, s, IsrStep(choice)), k)
  {
    hide Inv, Step, Can, RxOver, TxOver;
    if s.isr.DmaTurn? { TurnKeepsOver(s, choice, k); } else { EntryRoutineKeepsOver(s, choice, k); }
  }

  /** Every step keeps an end on its way, until it is reported. */
  lemma StepKeepsOver(s: State, a: Act, k: nat)
    requires Inv(s) && Can(SOUND, s, a)
    ensures RxOver(s, k) ==> RxOver(Step(SOUND, s, a), k)
    ensures TxOver(s, k) ==> TxOver(Step(SOUND, s, a), k)
  {
    hide Inv, Step, Can, RxOver, TxOver;
    match a
    case EnterPio => EntryKeepsOver(s, a, k);
    case EnterDma => EntryKeepsOver(s, a, k);
    case EnterExti => EntryKeepsOver(s, a, k);
    case ThreadStep(choice) =>
      if s.thread.Falling? {
        StepKeeps(s, a);
        FallingKeepsOver(s, choice, k);
      } else {
        ThreadKeepsOver(s, choice, k);
      }
    case IsrStep(choice) =>
      if s.isr.Running? { RunningKeepsOver(s, choice, k); } else { RoutineKeepsOver(s, choice, k); }
    case _ => HardwareKeepsOver(s, a, k);
  }

  lemma {:induction false} RunKeepsOver(acts: seq<Act>, n: nat, k: nat)
    requires n <= |acts| && Exec(SOUND, acts).Some? && Exec(SOUND, acts[..n]).Some?
    ensures RxOver(Exec(SOUND, acts[..n]).value, k) ==> RxOver(Exec(SOUND, acts).value, k)
    ensures TxOver(Exec(SOUND, acts[..n]).value, k) ==> TxOver(Exec(SOUND, acts).value, k)
    decreases |acts|
  {
    hide Inv, Step, Can, RxOver, TxOver;
    if n == |acts| {
      assert acts[..n] == acts;
    } else {
      var last := |acts| - 1;
      assert acts[..last][..n] == acts[..n];
      RunKeepsOver(acts[..last], n, k);
      RunKeeps(acts[..last]);
      StepKeepsOver(Exec(SOUND, acts[..last]).value, acts[last], k);
    }
  }

  // ---------- every end is reported ----------

  /** The end of the transfer in flight. */
  predicate Ends(s: State, a: Act) {
    ((a.RxFull? || a.Break?) && Receives(s.h)) || (a.TxEmpty? && Transmits(s.h))
  }

  lemma EndIsOver(s: State, a: Act)
    requires Inv(s) && Can(SOUND, s, a) && Quiescent(s) && Ends(s, a)
    ensures var s' := Step(SOUND, s, a);
            if a.TxEmpty? then s.txStarts == s.txDone + 1 && TxOver(s', s.txStarts)
            else s.h.rxStarts == s.rxDone + 1 && RxOver(s', s.h.rxStarts)
  {
  }

  lemma QuietOver(s: State, k: nat)
    requires Inv(s) && Quiescent(s)
    ensures RxOver(s, k) ==> s.rxDone >= k
    ensures TxOver(s, k) ==> s.txDone >= k
    ensures s.h.rxStarts == s.rxDone + (if Receives(s.h) then 1 else 0)
    ensures s.txStarts == s.txDone + (if Transmits(s.h) then 1 else 0)
  {
  }

  /**
    Every end is reported.  If a run passes through a quiescent state with a transfer in flight,
    the hardware then signals its end, and the run comes to a quiescent state again, then that
    transfer has been reported: exactly one completion more if no other transfer was started, and
    in any case as many as there are transfers over.  The link then listens, or a transfer
    started later is in flight.
  */
  lemma EveryEndIsReported(acts: seq<Act>, n: nat)
    requires Exec(SOUND, acts).Some? && n < |acts| && Exec(SOUND, acts[..n]).Some?
    requires Exec(SOUND, acts[..n + 1]).Some?
    requires Quiescent(Exec(SOUND, acts[..n]).value) && Ends(Exec(SOUND, acts[..n]).value, acts[n])
    requires Quiescent(Exec(SOUND, acts).value)
    ensures var s, t := Exec(SOUND, acts[..n]).value, Exec(SOUND, acts).value;
            && (acts[n].TxEmpty? ==>
                  t.txDone >= s.txDone + 1 && (t.txStarts == s.txStarts ==> t.txDone == s.txDone + 1))
            && (!acts[n].TxEmpty? ==>
                  t.rxDone >= s.rxDone + 1 && (t.h.rxStarts == s.h.rxStarts ==> t.rxDone == s.rxDone + 1))
            && t.h.rxStarts == t.rxDone + (if Receives(t.h) then 1 else 0)
            && t.txStarts == t.txDone + (if Transmits(t.h) then 1 else 0)
            && (Listening(t.h) || Receives(t.h) || Transmits(t.h))
  {
    hide Inv, Step, Can, RxOver, TxOver, Quiescent, Ends, Receives, Transmits, Listening;
    var s, t := Exec(SOUND, acts[..n]).value, Exec(SOUND, acts).value;
    assert acts[..n + 1][..n] == acts[..n];
    assert acts[..n + 1][n] == acts[n];
    RunKeeps(acts[..n]);
    RunKeeps(acts);
    EndIsOver(s, acts[n]);
    var k := if acts[n].TxEmpty? then s.txStarts else s.h.rxStarts;
    RunKeepsOver(acts, n + 1, k);
    QuietOver(t, k);
    QuietModes(t);
  }

  // ---------- and soon ----------

  /** Only the running interrupt routine and the hardware act. */
  ghost predicate StaysIn(asm: Assumptions, s: State, acts: seq<Act>)
    decreases |acts|
  {
    !s.isr.NoIsr? && (acts != [] ==> Can(asm, s, acts[0]) && StaysIn(asm, Step(asm, s, acts[0]), acts[1..]))
  }

  function IsrSteps(acts: seq<Act>): nat {
    if acts == [] then 0 else (if acts[0].IsrStep? then 1 else 0) + IsrSteps(acts[1..])
  }

  /** An interrupt routine executes fewer than 24 statements before it ends, however the hardware interferes. */
  lemma {:induction false} RoutineIsShort(asm: Assumptions, s: State, acts: seq<Act>)
    requires StaysIn(asm, s, acts)
    ensures IsrSteps(acts) < IsrRank(s.isr) <= 24
    decreases |acts|
  {
    hide Can, Step;
    if acts == [] {
      RoutinesEnd(asm, s, true);
    } else {
      RoutineIsShort(asm, Step(asm, s, acts[0]), acts[1..]);
      if acts[0].IsrStep? {
        RoutinesEnd(asm, s, acts[0].choice);
      } else {
        RoutinesAreNotPreempted(asm, s, acts[0]);
      }
    }
  }

  // ---------- stale edges ----------

  /** The statement that enables the edge interrupt, and drops a latched edge, is executed. */
  predicate Enables(s: State, a: Act) {
    || (a.ThreadStep? && s.thread == Falling(Disable(284)))
    || (a.IsrStep? && s.isr.Running? && s.isr.code == Disable(284))
  }

  /** jd_line_falling is entered from the edge interrupt. */
  predicate Falls(asm: Assumptions, s: State, a: Act) {
    a.IsrStep? && s.isr.ExtiEnter? && Step(asm, s, a).isr == Running(Fall, Nothing)
  }

  lemma EnableDropsEdge(asm: Assumptions, s: State, a: Act)
    requires Can(asm, s, a) && Enables(s, a)
    ensures !Step(asm, s, a).h.edge
  {
  }

  lemma DisableLatchesNothing(asm: Assumptions, h: Hw, l: nat, choice: bool)
    requires !h.edge
    ensures !CodeStep(asm, h, Disable(l), choice).0.edge
  {
    hide IrqOff, IrqOn;
    IrqsLeaveEdges(h);
  }

  lemma StartLatchesNothing(asm: Assumptions, h: Hw, l: nat, choice: bool)
    requires !h.edge
    ensures !CodeStep(asm, h, StartRx(l), choice).0.edge
  {
  }

  lemma IrqsLeaveEdges(h: Hw)
    ensures IrqOff(h).edge == h.edge && IrqOn(h).edge == h.edge
  {
  }

  lemma CodeLatchesNothing(asm: Assumptions, h: Hw, c: Code, choice: bool)
    requires !h.edge
    ensures !CodeStep(asm, h, c, choice).0.edge
  {
    match c
    case Disable(l) => DisableLatchesNothing(asm, h, l, choice);
    case StartRx(l) => StartLatchesNothing(asm, h, l, choice);
    case _ =>
  }

  lemma EarlyLatchesNothing(asm: Assumptions, s: State, choice: bool)
    requires !s.h.edge && s.thread.At? && s.thread.line in {302, 306, 310, 311, 313}
    ensures !ThreadNext(asm, s, choice).h.edge
  {
  }

  lemma LateLatchesNothing(asm: Assumptions, s: State, choice: bool)
    requires !s.h.edge && s.thread.At? && s.thread.line !in {302, 306, 310, 311, 313}
    ensures !ThreadNext(asm, s, choice).h.edge
  {
    hide IrqOff, IrqOn, Register, Begin;
    IrqsLeaveEdges(s.h);
  }

  lemma StatementLatchesNothing(asm: Assumptions, s: State, choice: bool)
    requires !s.h.edge && s.thread.At?
    ensures !ThreadNext(asm, s, choice).h.edge
  {
    hide ThreadNext;
    if s.thread.line in {302, 306, 310, 311, 313} {
      EarlyLatchesNothing(asm, s, choice);
    } else {
      LateLatchesNothing(asm, s, choice);
    }
  }

  lemma ThreadLatchesNothing(asm: Assumptions, s: State, choice: bool)
    requires !s.h.edge
    ensures !ThreadNext(asm, s, choice).h.edge
  {
    hide CodeStep;
    match s.thread
    case Falling(c) => CodeLatchesNothing(asm, s.h, c, choice);
    case At(l) => StatementLatchesNothing(asm, s, choice);
    case _ =>
  }

  lemma SharedLatchesNothing(asm: Assumptions, s: State, choice: bool)
    requires !s.h.edge && s.isr.Running?
    ensures !IsrNext(asm, s, choice).h.edge
  {
    hide CodeStep;
    CodeLatchesNothing(asm, s.h, s.isr.code, choice);
  }

  lemma DmaLatchesNothing(asm: Assumptions, s: State, choice: bool)
    requires !s.h.edge && (s.isr.DmaEnter? || s.isr.DmaTurn?)
    ensures !IsrNext(asm, s, choice).h.edge
  {
    hide Asserted, Acknowledge, Take;
  }

  lemma DispatchLatchesNothing(asm: Assumptions, s: State, choice: bool)
    requires !s.h.edge && !s.isr.Running? && !s.isr.DmaEnter? && !s.isr.DmaTurn?
    ensures !IsrNext(asm, s, choice).h.edge
  {
    hide ExtiLevel;
  }

  lemma RoutineLatchesNothing(asm: Assumptions, s: State, choice: bool)
    requires !s.h.edge
    ensures !IsrNext(asm, s, choice).h.edge
  {
    hide IsrNext;
    if s.isr.Running? {
      SharedLatchesNothing(asm, s, choice);
    } else if s.isr.DmaEnter? || s.isr.DmaTurn? {
      DmaLatchesNothing(asm, s, choice);
    } else {
      DispatchLatchesNothing(asm, s, choice);
    }
  }

  /** Only an edge latches an edge. */
  lemma StepLatchesNothing(asm: Assumptions, s: State, a: Act)
    requires a != Edge && !s.h.edge
    ensures !Step(asm, s, a).h.edge
  {
    hide ThreadNext, IsrNext;
    match a
    case ThreadStep(choice) => ThreadLatchesNothing(asm, s, choice);
    case IsrStep(choice) => RoutineLatchesNothing(asm, s, choice);
    case _ =>
  }

  lemma FallNeedsLatch(asm: Assumptions, s: State, a: Act)
    requires Falls(asm, s, a)
    ensures s.h.edge
  {
  }

  lemma {:induction false} ExecPrefix(asm: Assumptions, acts: seq<Act>, n: nat)
    requires n <= |acts| && Exec(asm, acts).Some?
    ensures Exec(asm, acts[..n]).Some?
    decreases |acts|
  {
    hide Can, Step;
    if n < |acts| {
      ExecPrefix(asm, acts[..|acts| - 1], n);
      assert acts[..|acts| - 1][..n] == acts[..n];
    } else {
      assert acts[..n] == acts;
    }
  }

  lemma ExecStep(asm: Assumptions, acts: seq<Act>, k: nat)
    requires k < |acts| && Exec(asm, acts).Some?
    ensures Exec(asm, acts[..k]).Some? && Exec(asm, acts[..k + 1]).Some?
    ensures var s := Exec(asm, acts[..k]).value;
            Can(asm, s, acts[k]) && Exec(asm, acts[..k + 1]).value == Step(asm, s, acts[k])
  {
    hide Can, Step;
    ExecPrefix(asm, acts, k);
    ExecPrefix(asm, acts, k + 1);
    assert acts[..k + 1][..k] == acts[..k];
  }

  /** After the enable in step `i` nothing is latched as long as no edge arrives. */
  lemma {:induction false} NothingLatched(asm: Assumptions, acts: seq<Act>, i: nat, j: nat)
    requires Exec(asm, acts).Some? && i < j <= |acts|
    requires Exec(asm, acts[..i]).Some? && Enables(Exec(asm, acts[..i]).value, acts[i])
    requires forall k :: i < k < j ==> acts[k] != Edge
    ensures Exec(asm, acts[..j]).Some? && !Exec(asm, acts[..j]).value.h.edge
    decreases j
  {
    hide Exec, Can, Step, Enables;
    ExecStep(asm, acts, j - 1);
    if i == j - 1 {
      EnableDropsEdge(asm, Exec(asm, acts[..i]).value, acts[i]);
    } else {
      NothingLatched(asm, acts, i, j - 1);
      StepLatchesNothing(asm, Exec(asm, acts[..j - 1]).value, acts[j - 1]);
    }
  }

  /**
    No reception starts from a stale edge.  In every run, if the edge interrupt is enabled in step
    `i` and jd_line_falling is entered from it in step `j`, an edge has arrived in between.
  */
  lemma StaleEdgesAreDropped(asm: Assumptions, acts: seq<Act>, i: nat, j: nat)
    requires Exec(asm, acts).Some? && i < j < |acts|
    requires Exec(asm, acts[..i]).Some? && Enables(Exec(asm, acts[..i]).value, acts[i])
    requires Exec(asm, acts[..j]).Some? && Falls(asm, Exec(asm, acts[..j]).value, acts[j])
    ensures exists k :: i < k < j && acts[k] == Edge
  {
    hide Exec, Step, Enables, Falls;
    FallNeedsLatch(asm, Exec(asm, acts[..j]).value, acts[j]);
    if forall k :: i < k < j ==> acts[k] != Edge {
      NothingLatched(asm, acts, i, j);
    }
  }
}
