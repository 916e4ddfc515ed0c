/**
  Nothing gets stuck: every reachable state can settle without further hardware events, and
  every transfer can be started and its end be reported.
*/
module LinkLiveness {
  import opened Common
  import opened DmaChannel
  import opened Link
  import opened LinkSafety
  import opened LinkRuns

  // ---------- settling ----------

  /** Statements of uart_start_tx left, if no reception is wanted and nothing is sent. */
  function ThreadRank(t: Thread): nat {
    match t
    case Out => 0
    case Falling(c) => 2 + CodeRank(c)
    case At(l) => if l == 302 then 17 else if l == 306 then 16 else if l == 310 then 15 else if l == 311 then 14
                  else if l == 313 then 13 else if l == 315 then 12 else if l == 326 then 4 else if l == 327 then 3
                  else if l == 328 then 2 else 1
  }

  /** Completions that a channel may still raise; one that the dispatcher is about to acknowledge does not count. */
  function ChannelRank(c: Channel<Callback>, entered: bool): nat {
    (if c.busy then 2 else 0) + (if c.raised && !(entered && c.enabled) then 1 else 0)
  }

  /** Interrupts that may still be taken, except the one whose routine was just entered. */
  function Pending(h: Hw, isr: Isr): nat {
    (if h.brk && !isr.PioEnter? then 1 else 0) + (if ExtiLevel(h) && !isr.ExtiEnter? then 1 else 0)
    + ChannelRank(h.rx, isr.DmaEnter?) + ChannelRank(h.tx, isr.DmaEnter?)
  }

  /** A reception that is yet to be started will have an end. */
  function InterruptRank(h: Hw, isr: Isr): (r: nat)
    ensures r < 1000
  {
    (if isr.Running? && isr.code.StartRx? && isr.code.line <= 346 then 400 else 0) + 50 * Pending(h, isr) + IsrRank(isr)
  }

  function Rank(s: State): nat {
    1000 * ThreadRank(s.thread) + InterruptRank(s.h, s.isr)
  }

  /** What happens next if the hardware stays quiet and the upper layer wants nothing. */
  function Next(s: State): Act {
    if !s.isr.NoIsr? then IsrStep(false)
    else if s.h.irqOff == 0 && PioLevel(s.h) then EnterPio
    else if s.h.irqOff == 0 && DmaLevel(s.h) then EnterDma
    else if s.h.irqOff == 0 && ExtiLevel(s.h) then EnterExti
    else ThreadStep(false)
  }

  lemma NextIsPossible(s: State)
    requires Inv(s) && !Quiescent(s)
    ensures Can(SOUND, s, Next(s))
  {
  }

  lemma EntryLowers(s: State)
    requires Inv(s) && !Quiescent(s) && !Next(s).IsrStep? && !Next(s).ThreadStep?
    ensures Rank(Step(SOUND, s, Next(s))) < Rank(s)
  {
  }

  lemma PendingFalls(h: Hw, h': Hw, isr: Isr, isr': Isr)
    requires Pending(h', isr') <= Pending(h, isr) && IsrRank(isr') < IsrRank(isr)
    requires isr'.Running? && isr'.code.StartRx? ==>
               isr.Running? && isr.code.StartRx? && isr.code.line <= isr'.code.line
    ensures InterruptRank(h', isr') < InterruptRank(h, isr)
  {
  }

  /** Part by part, no more is pending; `more` for a reception that is started. */
  predicate Calmer(h: Hw, isr: Isr, h': Hw, isr': Isr, more: nat) {
    && (h'.brk && !isr'.PioEnter? ==> h.brk && !isr.PioEnter?)
    && (ExtiLevel(h') && !isr'.ExtiEnter? ==> ExtiLevel(h) && !isr.ExtiEnter?)
    && ChannelRank(h'.rx, isr'.DmaEnter?) <= ChannelRank(h.rx, isr.DmaEnter?) + more
    && ChannelRank(h'.tx, isr'.DmaEnter?) <= ChannelRank(h.tx, isr.DmaEnter?)
  }

  lemma CalmerPending(h: Hw, isr: Isr, h': Hw, isr': Isr, more: nat)
    requires Calmer(h, isr, h', isr', more)
    ensures Pending(h', isr') <= Pending(h, isr) + more
  {
    hide ChannelRank;
  }

  lemma ChannelOperations(c: Channel<Callback>)
    ensures ChannelRank(Abort(c, true), false) <= ChannelRank(c, false)
    ensures ChannelRank(Register(c, RxHandler), false) <= ChannelRank(c, false)
    ensures ChannelRank(Begin(c), false) <= ChannelRank(c, false) + 2
    ensures ChannelRank(Take(c), false) == ChannelRank(c, false)
  {
  }

  /** No flag or edge is added, and these are the channels. */
  predicate Changes(h: Hw, h': Hw, rx: Channel<Callback>, tx: Channel<Callback>) {
    (h'.brk ==> h.brk) && (ExtiLevel(h') ==> ExtiLevel(h)) && h'.rx == rx && h'.tx == tx
  }

  /** What uart_start_rx changes. */
  lemma StartChanges(h: Hw, c: Code)
    requires c.StartRx?
    ensures var (h', c') := CodeStep(SOUND, h, c, false);
            Changes(h, h', if c.line == 345 && h.rx.slot.None? then Register(h.rx, RxHandler)
                           else if c.line == 346 then Begin(h.rx) else h.rx, h.tx)
  {
  }

  /** What uart_disable changes: its abort, ... */
  lemma AbortChanges(h: Hw)
    ensures var (h', c') := CodeStep(SOUND, h, Disable(278), false);
            Changes(h, h', Abort(h.rx, true), Abort(h.tx, true))
  {
    hide Abort;
  }

  /** ... before it, ... */
  lemma StopChanges(h: Hw, c: Code)
    requires c.Fall? || c == Disable(276) || c == Disable(277)
    ensures var (h', c') := CodeStep(SOUND, h, c, false); Changes(h, h', h.rx, h.tx)
  {
  }

  /** ... and after it. */
  lemma ReleaseChanges(h: Hw, c: Code)
    requires c.Disable? && !(276 <= c.line <= 278)
    ensures var (h', c') := CodeStep(SOUND, h, c, false); Changes(h, h', h.rx, h.tx)
  {
    if c.line == 281 || c.line == 282 {
    } else if c.line == 284 {
    }
  }

  lemma DisableCalmer(h: Hw, c: Code, after: After)
    requires c.Disable? || c.Fall?
    ensures var (h', c') := CodeStep(SOUND, h, c, false); Calmer(h, Running(c, after), h', Running(c', after), 0)
  {
    hide CodeStep, Abort, ChannelRank, ExtiLevel;
    ChannelOperations(h.rx);
    ChannelOperations(h.tx);
    if c.Fall? || 276 <= c.line < 278 {
      StopChanges(h, c);
    } else if c.line == 278 {
      AbortChanges(h);
    } else {
      ReleaseChanges(h, c);
    }
  }

  lemma StartLowers(h: Hw, c: Code, after: After)
    requires CodeInv(h, c) && c.StartRx?
    ensures var (h', c') := CodeStep(SOUND, h, c, false);
            InterruptRank(h', Running(c', after)) < InterruptRank(h, Running(c, after))
  {
    var (h', c') := CodeStep(SOUND, h, c, false);
    StartChanges(h, c);
    ChannelOperations(h.rx);
    CodeDescends(SOUND, h, c, false);
    assert c.line == 346 ==> c' == StartRx(347);
    assert c.line > 346 ==> c' == Return;
    hide InterruptRank, IsrRank, CodeStep, CodeInv, Calmer, Pending;
    CalmerPending(h, Running(c, after), h', Running(c', after), if c.line == 346 then 2 else 0);
    RunningRank(h, c, after);
    RunningRank(h', c', after);
  }

  lemma CodeLowers(h: Hw, c: Code, after: After)
    requires CodeInv(h, c) && !c.Return?
    ensures var (h', c') := CodeStep(SOUND, h, c, false);
            InterruptRank(h', Running(c', after)) < InterruptRank(h, Running(c, after))
  {
    if c.StartRx? {
      StartLowers(h, c, after);
    } else {
      DisableCalmer(h, c, after);
      CodeDescends(SOUND, h, c, false);
      var (h', c') := CodeStep(SOUND, h, c, false);
      hide Pending, InterruptRank, Calmer;
      CalmerPending(h, Running(c, after), h', Running(c', after), 0);
      PendingFalls(h, h', Running(c, after), Running(c', after));
    }
  }

  /** The rank of a routine in the shared code. */
  lemma RunningRank(h: Hw, c: Code, after: After)
    ensures InterruptRank(h, Running(c, after)) ==
              (if c.StartRx? && c.line <= 346 then 400 else 0) + 50 * Pending(h, NoIsr) + CodeRank(c)
              + IsrRank(Running(Return, after))
  {
  }

  lemma AcknowledgeCalmer(s: State)
    requires s.isr.DmaEnter?
    ensures var s' := Step(SOUND, s, IsrStep(false)); Calmer(s.h, s.isr, s'.h, s'.isr, 0)
  {
  }

  /** What a statement outside the shared code changes of it. */
  lemma RoutineChannels(s: State)
    requires !s.isr.NoIsr? && !s.isr.DmaEnter? && (s.isr.Running? ==> s.isr.code.Return?)
    ensures var s' := Step(SOUND, s, IsrStep(false));
            && !s'.isr.PioEnter? && !s'.isr.DmaEnter? && !s'.isr.ExtiEnter?
            && (s'.h.rx == s.h.rx || s'.h.rx == Take(s.h.rx)) && (s'.h.tx == s.h.tx || s'.h.tx == Take(s.h.tx))
  {
    hide Take, CodeStep;
    if s.isr.DmaTurn? {
    } else if s.isr.PioEnter? || s.isr.ExtiEnter? {
    } else if s.isr.Running? {
    }
  }

  lemma RoutineLevels(s: State)
    requires !s.isr.NoIsr? && !s.isr.DmaEnter? && (s.isr.Running? ==> s.isr.code.Return?)
    ensures var s' := Step(SOUND, s, IsrStep(false));
            && (s'.h.brk ==> s.h.brk && !s.isr.PioEnter?) && (ExtiLevel(s'.h) ==> ExtiLevel(s.h) && !s.isr.ExtiEnter?)
  {
    hide Take, CodeStep;
    if s.isr.DmaTurn? {
    } else if s.isr.PioEnter? || s.isr.ExtiEnter? {
    } else if s.isr.Running? {
    }
  }

  lemma RoutineCalmer(s: State)
    requires !s.isr.NoIsr? && !s.isr.DmaEnter? && (s.isr.Running? ==> s.isr.code.Return?)
    ensures var s' := Step(SOUND, s, IsrStep(false)); Calmer(s.h, s.isr, s'.h, s'.isr, 0)
  {
    hide ChannelRank, ExtiLevel, Take, Step;
    RoutineChannels(s);
    RoutineLevels(s);
    ChannelOperations(s.h.rx);
    ChannelOperations(s.h.tx);
  }

  lemma RoutineSame(s: State)
    requires !s.isr.NoIsr? && (s.isr.Running? ==> s.isr.code.Return?)
    ensures var s' := Step(SOUND, s, IsrStep(false));
            s'.thread == s.thread && (s'.isr.Running? ==> !s'.isr.code.StartRx?)
  {
  }

  lemma RoutineLowers(s: State)
    requires !s.isr.NoIsr? && (s.isr.Running? ==> s.isr.code.Return?)
    ensures Rank(Step(SOUND, s, IsrStep(false))) < Rank(s)
  {
    var s' := Step(SOUND, s, IsrStep(false));
    if s.isr.DmaEnter? { AcknowledgeCalmer(s); } else { RoutineCalmer(s); }
    RoutineSame(s);
    RoutinesEnd(SOUND, s, false);
    hide Pending, InterruptRank, Step, ThreadRank, IsrRank, Calmer;
    CalmerPending(s.h, s.isr, s'.h, s'.isr, 0);
    PendingFalls(s.h, s'.h, s.isr, s'.isr);
  }

  lemma ThreadLowers(s: State)
    requires Inv(s) && s.isr.NoIsr? && !s.thread.Out?
    ensures Rank(Step(SOUND, s, ThreadStep(false))) < Rank(s)
  {
    hide InterruptRank;
    ThreadDescends(s);
  }

  lemma ThreadDescends(s: State)
    requires Inv(s) && s.isr.NoIsr? && !s.thread.Out?
    ensures ThreadRank(Step(SOUND, s, ThreadStep(false)).thread) < ThreadRank(s.thread)
  {
    if s.thread.Falling? && !s.thread.code.Return? { CodeDescends(SOUND, s.h, s.thread.code, false); }
  }

  lemma NextLowers(s: State)
    requires Inv(s) && !Quiescent(s)
    ensures Can(SOUND, s, Next(s)) && Rank(Step(SOUND, s, Next(s))) < Rank(s)
  {
    NextIsPossible(s);
    if s.isr.Running? && !s.isr.code.Return? {
      CodeLowers(s.h, s.isr.code, s.isr.after);
    } else if !s.isr.NoIsr? {
      RoutineLowers(s);
    } else if Next(s).ThreadStep? {
      ThreadLowers(s);
    } else {
      EntryLowers(s);
    }
  }

  /** Neither the hardware nor the sender does anything. */
  predicate Unaided(acts: seq<Act>) {
    forall a :: a in acts ==> !a.Edge? && !a.Break? && !a.RxFull? && !a.TxEmpty? && !a.StartTx?
  }

  lemma {:induction false} SettlesOn(s: State, first: State, acts: seq<Act>) returns (all: seq<Act>)
    requires Exec(SOUND, acts, first) == Some(s) && Inv(s) && Unaided(acts)
    ensures Unaided(all) && Exec(SOUND, all, first).Some?
    ensures var t := Exec(SOUND, all, first).value; Inv(t) && Quiescent(t)
    decreases Rank(s)
  {
    hide Inv, Quiescent, Next, Step, Can, Rank;
    all := acts;
    if !Quiescent(s) {
      NextLowers(s);
      StepKeeps(s, Next(s));
      var more := acts + [Next(s)];
      assert more[..|more| - 1] == acts;
      NextIsUnaided(s);
      all := SettlesOn(Step(SOUND, s, Next(s)), first, more);
    }
  }

  lemma NextIsUnaided(s: State)
    ensures Unaided([Next(s)])
  {
  }

  lemma ReachableInv(s: State)
    requires Reachable(SOUND, s)
    ensures Inv(s)
  {
    var acts: seq<Act> :| Exec(SOUND, acts) == Some(s);
    RunKeeps(acts);
  }

  /** From every reachable state, without any hardware event or new transmission, a quiescent one is reached. */
  lemma Settles(s: State) returns (acts: seq<Act>)
    requires Reachable(SOUND, s)
    ensures Unaided(acts) && Exec(SOUND, acts, s).Some?
    ensures var t := Exec(SOUND, acts, s).value; Inv(t) && Quiescent(t)
  {
    hide Reachable, Inv, Quiescent;
    ReachableInv(s);
    assert Exec(SOUND, [], s) == Some(s);
    acts := SettlesOn(s, s, []);
  }

  // ---------- transfers that end ----------

  /** The link listens, with this many more transfers completed and none started. */
  predicate Over(s: State, t: State, received: nat, transmitted: nat) {
    && Quiescent(t) && Listening(t.h) && t.h.rxStarts == s.h.rxStarts && t.txStarts == s.txStarts
    && t.rxDone == s.rxDone + received && t.txDone == s.txDone + transmitted
  }

  lemma Here(asm: Assumptions, s: State)
    ensures Reachable(asm, s, s)
  {
    assert Exec(asm, [], s) == Some(s);
  }

  /** The routine has found the reception over. */
  lemma CompleteReception(s: State, first: State) returns (t: State)
    requires Reachable(SOUND, s, first) && !s.h.failed && s.isr == RxDone(false) && s.h.status == Rx && s.h.irqOff == 0
    ensures Reachable(SOUND, t, first)
    ensures t == s.(h := s.h.(status := Idle, rx := Abort(s.h.rx, true), tx := Abort(s.h.tx, true),
                              txOn := false, rxOn := false, brkEnabled := false, edge := false, edgeEnabled := true),
                    isr := NoIsr, rxDone := s.rxDone + 1)
  {
    hide Reachable;
    t := Extend(SOUND, s, IsrStep(true), first);
    t := DisableRun(SOUND, t, first);
    t := Extend(SOUND, t, IsrStep(true), first);
    t := Extend(SOUND, t, IsrStep(true), first);
  }

  /** A completion of the receive channel, up to its handler. */
  lemma DispatchReception(s: State, first: State) returns (t: State)
    requires Reachable(SOUND, s, first) && !s.h.failed && s.isr.NoIsr? && s.h.irqOff == 0 && !PioLevel(s.h)
    requires Asserted(s.h.rx) && s.h.rx.slot.Some? && !Asserted(s.h.tx)
    ensures Reachable(SOUND, t, first)
    ensures t == s.(h := s.h.(rx := Take(Acknowledge(s.h.rx))), isr := RxDone(false))
  {
    hide Reachable;
    t := Extend(SOUND, s, EnterDma, first);
    t := Extend(SOUND, t, IsrStep(true), first);
    t := Extend(SOUND, t, IsrStep(true), first);
  }

  lemma AfterFull(s: State, first: State) returns (t: State)
    requires Inv(s) && Quiescent(s) && Receives(s.h) && Reachable(SOUND, Step(SOUND, s, RxFull), first)
    ensures Reachable(SOUND, t, first) && Over(s, t, 1, 0)
  {
    hide Reachable;
    t := Step(SOUND, s, RxFull);
    t := DispatchReception(t, first);
    t := CompleteReception(t, first);
  }

  /** The break ends it; the completion of its aborted channel is absorbed. */
  lemma AfterBreak(s: State, first: State) returns (t: State)
    requires Inv(s) && Quiescent(s) && Receives(s.h) && Reachable(SOUND, Step(SOUND, s, Break), first)
    ensures Reachable(SOUND, t, first) && Over(s, t, 1, 0)
  {
    hide Reachable;
    t := Step(SOUND, s, Break);
    t := Extend(SOUND, t, EnterPio, first);
    t := Extend(SOUND, t, IsrStep(true), first);
    t := CompleteReception(t, first);
    t := DispatchReception(t, first);
    t := Extend(SOUND, t, IsrStep(true), first);
    t := Extend(SOUND, t, IsrStep(true), first);
  }

  lemma AfterEmpty(s: State, first: State) returns (t: State)
    requires Inv(s) && Quiescent(s) && Transmits(s.h) && Reachable(SOUND, Step(SOUND, s, TxEmpty), first)
    ensures Reachable(SOUND, t, first) && Over(s, t, 0, 1)
  {
    hide Reachable;
    t := Step(SOUND, s, TxEmpty);
    t := Extend(SOUND, t, EnterDma, first);
    t := Extend(SOUND, t, IsrStep(true), first);
    t := Extend(SOUND, t, IsrStep(true), first);
    t := Extend(SOUND, t, IsrStep(true), first);
    t := DisableRun(SOUND, t, first);
    t := Extend(SOUND, t, IsrStep(true), first);
  }

  /**
    From every reachable quiescent state with a reception in flight, both of its ends are
    possible, and after either some run reports it and listens again.
  */
  lemma ReceptionCanEnd(s: State) returns (full: State, broken: State)
    requires Reachable(SOUND, s) && Quiescent(s) && Receives(s.h)
    ensures Can(SOUND, s, RxFull) && Reachable(SOUND, full, Step(SOUND, s, RxFull)) && Over(s, full, 1, 0)
    ensures Can(SOUND, s, Break) && Reachable(SOUND, broken, Step(SOUND, s, Break)) && Over(s, broken, 1, 0)
  {
    hide Reachable, Over;
    ReachableInv(s);
    Here(SOUND, Step(SOUND, s, RxFull));
    full := AfterFull(s, Step(SOUND, s, RxFull));
    Here(SOUND, Step(SOUND, s, Break));
    broken := AfterBreak(s, Step(SOUND, s, Break));
  }

  /** And the same for a transmission. */
  lemma TransmissionCanEnd(s: State) returns (t: State)
    requires Reachable(SOUND, s) && Quiescent(s) && Transmits(s.h)
    ensures Can(SOUND, s, TxEmpty) && Reachable(SOUND, t, Step(SOUND, s, TxEmpty)) && Over(s, t, 0, 1)
  {
    hide Reachable, Over;
    ReachableInv(s);
    Here(SOUND, Step(SOUND, s, TxEmpty));
    t := AfterEmpty(s, Step(SOUND, s, TxEmpty));
  }

  // ---------- transfers that begin ----------

  /** An edge is served, and the upper layer wants no reception. */
  lemma EdgeDeclined(s: State, first: State) returns (t: State)
    requires Reachable(SOUND, s, first) && !s.h.failed && Quiescent(s) && Listening(s.h)
    ensures Reachable(SOUND, t, first) && t == s.(h := s.h.(edge := false))
  {
    hide Reachable;
    t := EdgeToFall(SOUND, s, first);
    t := Extend(SOUND, t, IsrStep(false), first);
    t := DisableRun(SOUND, t, first);
    t := Extend(SOUND, t, IsrStep(true), first);
  }

  /** uart_start_tx up to its decision to transmit. */
  lemma ToTransmit(s: State, first: State) returns (t: State)
    requires Reachable(SOUND, s, first) && Inv(s) && Quiescent(s) && Listening(s.h) && !s.h.edge
    ensures Reachable(SOUND, t, first)
    ensures t == s.(h := s.h.(edgeEnabled := false, status := Tx), thread := At(326))
  {
    hide Reachable;
    t := Extend(SOUND, s, StartTx, first);
    t := Extend(SOUND, t, ThreadStep(true), first);
    t := Extend(SOUND, t, ThreadStep(true), first);
    t := Extend(SOUND, t, ThreadStep(true), first);
    t := Extend(SOUND, t, ThreadStep(true), first);
    t := Extend(SOUND, t, ThreadStep(true), first);
  }

  lemma TransmitOn(s: State, first: State) returns (t: State)
    requires Reachable(SOUND, s, first) && !s.h.failed && s.isr.NoIsr? && s.thread == At(326) && s.h.irqOff == 0
    requires !s.h.brkEnabled && !s.h.edgeEnabled && Free(s.h.rx) && Free(s.h.tx)
    ensures Reachable(SOUND, t, first)
    ensures t == s.(h := s.h.(txOn := true, tx := Channel(true, false, true, Some(TxHandler))), thread := Out,
                    sending := true, txStarts := s.txStarts + 1)
  {
    hide Reachable;
    t := Extend(SOUND, s, ThreadStep(true), first);
    t := Extend(SOUND, t, ThreadStep(true), first);
    t := Extend(SOUND, t, ThreadStep(true), first);
    t := Extend(SOUND, t, ThreadStep(true), first);
  }

  /**
    From every reachable state in which the link listens, some run leads to a reception in
    flight, and another to a transmission in flight.
  */
  lemma TransfersCanBegin(s: State) returns (receives: State, transmits: State)
    requires Reachable(SOUND, s) && Quiescent(s) && Listening(s.h)
    ensures Reachable(SOUND, receives, s) && Quiescent(receives) && Receives(receives.h)
    ensures receives.h.rxStarts == s.h.rxStarts + 1 && receives.txStarts == s.txStarts
    ensures Reachable(SOUND, transmits, s) && Quiescent(transmits) && Transmits(transmits.h)
    ensures transmits.txStarts == s.txStarts + 1 && transmits.h.rxStarts == s.h.rxStarts
  {
    hide Reachable;
    ReachableInv(s);
    Here(SOUND, s);
    receives := EdgeToSlot(SOUND, s, s);
    receives := SlotToReception(SOUND, receives, s);
    transmits := EdgeDeclined(s, s);
    transmits := ToTransmit(transmits, s);
    transmits := TransmitOn(transmits, s);
  }

  /**
    Nothing is ever lost for good: from every reachable state some run leads to one in which the
    link listens and every transfer that was started has been reported.
  */
  lemma AllCanBeReported(s: State) returns (t: State)
    requires Reachable(SOUND, s)
    ensures Reachable(SOUND, t, s) && Quiescent(t) && Listening(t.h)
    ensures t.rxDone == t.h.rxStarts && t.txDone == t.txStarts
  {
    var acts := Settles(s);
    hide Reachable;
    t := Finish(Exec(SOUND, acts, s).value, s);
  }

  lemma Finish(q: State, first: State) returns (t: State)
    requires Reachable(SOUND, q, first) && Inv(q) && Quiescent(q)
    ensures Reachable(SOUND, t, first) && Quiescent(t) && Listening(t.h)
    ensures t.rxDone == t.h.rxStarts && t.txDone == t.txStarts
  {
    hide Reachable;
    QuietModes(q);
    t := q;
    if Receives(q.h) {
      t := Extend(SOUND, q, RxFull, first);
      t := AfterFull(q, first);
    } else if Transmits(q.h) {
      t := Extend(SOUND, q, TxEmpty, first);
      t := AfterEmpty(q, first);
    }
  }
}
