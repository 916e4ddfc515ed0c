/**
  The DMA interrupt dispatcher: a table of one-shot handlers for twelve channels.

  Handlers are code that may register and start further transfers while the interrupt routine
  is still running, and the hardware may complete transfers between any two statements.  Both
  are modelled by arbitrary oracles, so what is proved holds for every handler behaviour and
  every timing.
*/
module Dma {
  import opened Common
  import opened DmaChannel

  const CHANNELS: nat := 12

  /** A handler: which code, and its context argument. */
  datatype Handler = Handler(code: nat, context: nat)

  /** A registration of a handler on a channel. */
  datatype Request = Request(channel: nat, handler: Handler)

  /** What code may do: start a transfer it has registered for, or one on a channel without a handler. */
  datatype Action = Watched(r: Request) | Unwatched(channel: nat)

  /** What code leaves behind: channels with a handler, registrations made, channels started without a handler. */
  datatype Outcome = Outcome(taken: set<nat>, requests: seq<Request>, unwatched: seq<nat>)

  /** An action counts exactly if its slot is free; a registration takes the slot. */
  function Do(o: Outcome, a: Action): Outcome {
    match a
    case Watched(r) =>
      if r.channel < CHANNELS && r.channel !in o.taken
      then Outcome(o.taken + {r.channel}, o.requests + [r], o.unwatched) else o
    case Unwatched(ch) =>
      if ch < CHANNELS && ch !in o.taken then o.(unwatched := o.unwatched + [ch]) else o
  }

  function DoAll(taken: set<nat>, actions: seq<Action>): Outcome {
    if actions == [] then Outcome(taken, [], [])
    else Do(DoAll(taken, actions[..|actions| - 1]), actions[|actions| - 1])
  }

  /** Where the action counts from does not matter. */
  lemma DoFrom(o: Outcome, a: Action)
    ensures var d := Do(Outcome(o.taken, [], []), a);
            Do(o, a) == Outcome(d.taken, o.requests + d.requests, o.unwatched + d.unwatched)
  {
    assert o.requests + [] == o.requests && o.unwatched + [] == o.unwatched;
  }

  lemma DoNext(taken: set<nat>, actions: seq<Action>, k: nat)
    requires k < |actions|
    ensures DoAll(taken, actions[..k + 1]) == Do(DoAll(taken, actions[..k]), actions[k])
  {
    assert actions[..k + 1][..k] == actions[..k];
  }

  /** The handlers run are those of the registrations called, in order. */
  ghost predicate SameHandlers(issued: seq<Request>, calls: seq<nat>, ran: seq<Handler>) {
    |ran| == |calls| && forall k :: 0 <= k < |calls| ==> calls[k] < |issued| && ran[k] == issued[calls[k]].handler
  }

  /** Registration `i` is still in the table. */
  ghost predicate Registered(issued: seq<Request>, current: map<nat, nat>, i: nat)
    requires i < |issued|
  {
    issued[i].channel in current && current[issued[i].channel] == i
  }

  /**
    Registration `i`, of channel `ch` in state `c`: not called yet, its completion waiting to be
    served; `noted` tells that the interrupt routine has already seen it.
  */
  ghost predicate Waits(issued: seq<Request>, started: set<nat>, finished: set<nat>, calls: seq<nat>,
                        i: nat, ch: nat, c: Channel<Handler>, noted: bool)
  {
    && i < |issued| && i !in calls
    && c.slot.Some? && issued[i] == Request(ch, c.slot.value)
    && (i in finished <==> c.raised || noted)
    && (i in started <==> i in finished || c.busy)
    && (i in finished ==> !c.busy)
  }

  lemma WaitsOn(issued: seq<Request>, started: set<nat>, finished: set<nat>, calls: seq<nat>,
                i: nat, ch: nat, c: Channel<Handler>, noted: bool, r: Request, more: set<nat>)
    requires Waits(issued, started, finished, calls, i, ch, c, noted) && more <= {|issued|}
    ensures Waits(issued + [r], started + more, finished, calls, i, ch, c, noted)
  {
  }

  lemma WaitEnds(issued: seq<Request>, started: set<nat>, finished: set<nat>, calls: seq<nat>, i: nat, ch: nat,
                 c: Channel<Handler>, noted: bool, ends: bool, more: set<nat>)
    requires Waits(issued, started, finished, calls, i, ch, c, noted)
    requires (i in more <==> ends) && (ends ==> c.busy)
    ensures Waits(issued, started, finished + more, calls, i, ch, if ends then Finish(c) else c, noted)
  {
  }

  lemma BeginsToWait(issued: seq<Request>, started: set<nat>, finished: set<nat>, calls: seq<nat>,
                     ch: nat, c: Channel<Handler>, h: Handler)
    requires |issued| !in started && |issued| !in finished && |issued| !in calls
    ensures var more := if c.busy then {|issued|} else {};
            Waits(issued + [Request(ch, h)], started + more, finished, calls, |issued|, ch, Register(c, h), false)
  {
  }

  /** Every registration is either in the table, or was called once, after its transfer completed. */
  ghost predicate Consistent(issued: seq<Request>, current: map<nat, nat>, started: set<nat>, finished: set<nat>,
                             calls: seq<nat>)
  {
    && (forall i :: 0 <= i < |issued| ==> (Registered(issued, current, i) <==> i !in calls))
    && (forall i :: i in calls ==> i in finished)
    && (forall i :: i in started ==> i < |issued|)
    && finished <= started
    && (forall i, j :: 0 <= i < j < |calls| ==> calls[i] != calls[j])
  }

  lemma RegisteringKeeps(issued: seq<Request>, current: map<nat, nat>, started: set<nat>, finished: set<nat>,
                         calls: seq<nat>, r: Request, more: set<nat>)
    requires Consistent(issued, current, started, finished, calls)
    requires r.channel !in current && more <= {|issued|}
    ensures Consistent(issued + [r], current[r.channel := |issued|], started + more, finished, calls)
  {
    var issued', current' := issued + [r], current[r.channel := |issued|];
    forall i | 0 <= i < |issued'| ensures Registered(issued', current', i) <==> i !in calls {
      if i < |issued| { assert Registered(issued, current, i) <==> i !in calls; }
    }
  }

  lemma DetachKeeps(issued: seq<Request>, current: map<nat, nat>, started: set<nat>, finished: set<nat>,
                    calls: seq<nat>, ch: nat)
    requires Consistent(issued, current, started, finished, calls)
    requires ch in current && current[ch] < |issued| && issued[current[ch]].channel == ch
    requires current[ch] in finished && current[ch] !in calls
    ensures Consistent(issued, current - {ch}, started, finished, calls + [current[ch]])
  {
    var current', calls' := current - {ch}, calls + [current[ch]];
    forall i | 0 <= i < |issued| ensures Registered(issued, current', i) <==> i !in calls' {
      assert Registered(issued, current, i) <==> i !in calls;
    }
  }

  class Controller {
    // driver state
    const table: array<Option<Handler>>
    // hardware registers, as sets of channel numbers
    var intr: set<nat>
    var inte: set<nat>
    var busy: set<nat>
    // oracles: what the n-th handler run does, and which transfers complete at each instant
    const script: (nat, Handler) -> seq<Action>
    const hardware: nat -> set<nat>
    var instant: nat
    var served: nat
    // history: registrations in order, those whose transfer has started or completed, calls in order
    ghost var issued: seq<Request>
    ghost var current: map<nat, nat>
    ghost var started: set<nat>
    ghost var finished: set<nat>
    ghost var calls: seq<nat>
    // handlers run, in order, and channels on which a transfer was started without one
    ghost var ran: seq<Handler>
    ghost var unwatched: seq<nat>

    ghost function View(ch: nat): Channel<Handler>
      requires ch < table.Length
      reads this, table
    {
      Channel(ch in busy, ch in intr, ch in inte, table[ch])
    }

    ghost predicate Waiting(ch: nat, mask: set<nat>)
      requires ch in current && ch < table.Length
      reads this, table
    {
      Waits(issued, started, finished, calls, current[ch], ch, View(ch), ch in mask)
    }

    /** Interrupts are enabled exactly for the registered channels; their state is as their history says. */
    ghost predicate Slots(mask: set<nat>)
      reads this, table
    {
      && table.Length == CHANNELS
      && current.Keys == inte
      && (forall ch :: ch in inte ==> ch < CHANNELS)
      && (forall ch :: 0 <= ch < CHANNELS && ch !in inte ==> table[ch] == None)
      && (forall ch :: ch in mask ==> ch in inte && ch !in intr)
      && (forall ch :: ch in busy ==> ch < CHANNELS)
      && (forall ch :: ch in inte ==> Waiting(ch, mask))
    }

    /** Each call is the run of the handler that was registered. */
    ghost predicate Ledger()
      reads this
    {
      Consistent(issued, current, started, finished, calls) && SameHandlers(issued, calls, ran) && served == |calls|
    }

    /**
      The invariant, while the interrupt routine still has to serve the channels in `mask`.  A
      channel without a handler may be busy, and may have a completion raised that nobody asked for.
    */
    ghost predicate Serving(mask: set<nat>)
      reads this, table
    {
      Slots(mask) && Ledger()
    }

    ghost predicate Valid()
      reads this, table
    {
      Serving({})
    }

    /** History only grows. */
    twostate predicate Later()
      reads this
    {
      && old(issued) <= issued && old(started) <= started && old(finished) <= finished
      && old(calls) <= calls && old(ran) <= ran
    }

    constructor (script: (nat, Handler) -> seq<Action>, hardware: nat -> set<nat>)
      ensures Valid() && fresh(table) && issued == [] && calls == []
    {
      table := new Option<Handler>[CHANNELS](_ => None);
      this.script, this.hardware := script, hardware;
      intr, inte, busy := {}, {}, {};
      instant, served := 0, 0;
      issued, current, started, finished, calls := [], map[], {}, {}, [];
      ran, unwatched := [], [];
    }

    /** An instant passes: any of the transfers in flight may complete. */
    method Elapse(ghost mask: set<nat>)
      requires Serving(mask)
      modifies this`intr, this`busy, this`instant, this`finished
      ensures Serving(mask) && Later()
      ensures var done := hardware(old(instant)) * old(busy); intr == old(intr) + done && busy == old(busy) - done
      ensures instant == old(instant) + 1
    {
      hide Consistent, SameHandlers, Waits;
      var done := hardware(instant) * busy;
      ghost var more := set ch | ch in done && ch in current :: current[ch];
      Completing(mask, done, more);
      intr, busy, instant := intr + done, busy - done, instant + 1;
      finished := finished + more;
      forall ch | ch in inte ensures Waiting(ch, mask) {
        assert old(Waiting(ch, mask));
        assert View(ch) == if ch in done then Finish(old(View(ch))) else old(View(ch));
        WaitEnds(issued, started, old(finished), calls, current[ch], ch, old(View(ch)), ch in mask, ch in done, more);
      }
    }

    lemma Completing(mask: set<nat>, done: set<nat>, more: set<nat>)
      requires Serving(mask) && done <= busy && more == set ch | ch in done && ch in current :: current[ch]
      ensures Consistent(issued, current, started, finished + more, calls)
      ensures forall ch :: ch in inte ==> (current[ch] in more <==> ch in done) && (ch in mask ==> ch !in done)
    {
      forall ch | ch in inte
        ensures (current[ch] in more <==> ch in done) && (ch in done ==> current[ch] in started && ch !in mask)
      {
        assert Waiting(ch, mask);
        forall ch' | ch' in done && ch' in current && current[ch'] == current[ch] ensures ch' == ch {
          assert Waiting(ch', mask);
        }
      }
    }

    /**
      dma_set_ch_cb.  The result is false when its assertion fails: the slot is taken.  A stale
      completion of the channel is dropped; a transfer in flight there becomes the one that the
      new registration waits for.
    */
    method SetChCb(channel: nat, handler: Handler, ghost mask: set<nat>) returns (ok: bool)
      requires Serving(mask)
      modifies table, this`intr, this`inte, this`issued, this`current, this`started
      ensures Serving(mask) && Later()
      ensures ok <==> channel >= CHANNELS || !old(channel in inte)
      ensures !ok || channel >= CHANNELS ==> unchanged(this) && unchanged(table)
      ensures ok && channel < CHANNELS ==>
        && View(channel) == Register(old(View(channel)), handler)
        && (forall ch :: 0 <= ch < CHANNELS && ch != channel ==> View(ch) == old(View(ch)))
        && issued == old(issued) + [Request(channel, handler)] && current == old(current)[channel := old(|issued|)]
        && intr == old(intr) - {channel} && inte == old(inte) + {channel}
        && started == old(started) + if channel in busy then {old(|issued|)} else {}
    {
      if channel >= CHANNELS { return true; }
      if table[channel].Some? { return false; }
      Fill(channel, handler, mask);
      forall ch | 0 <= ch < CHANNELS && ch != channel ensures View(ch) == old(View(ch)) {
        assert table[ch] == table[..][ch] == old(table[..])[ch];
      }
      assert table[channel] == table[..][channel];
      ok := true;
    }

    /** Registering on a free slot. */
    method Fill(channel: nat, handler: Handler, ghost mask: set<nat>)
      requires Serving(mask) && channel < CHANNELS && channel !in inte
      modifies table, this`intr, this`inte, this`issued, this`current, this`started
      ensures Serving(mask)
      ensures table[..] == old(table[..])[channel := Some(handler)]
      ensures intr == old(intr) - {channel} && inte == old(inte) + {channel}
      ensures issued == old(issued) + [Request(channel, handler)] && current == old(current)[channel := old(|issued|)]
      ensures started == old(started) + if channel in busy then {old(|issued|)} else {}
    {
      hide Consistent, Waits;
      ghost var i := |issued|;
      ghost var more := if channel in busy then {i} else {};
      RegisteringKeeps(issued, current, started, finished, calls, Request(channel, handler), more);
      FreshIndex();
      BeginsToWait(issued, started, finished, calls, channel, View(channel), handler);
      table[channel] := Some(handler);
      intr := intr - {channel};
      inte := inte + {channel};
      issued, current := issued + [Request(channel, handler)], current[channel := i];
      started := started + more;
      forall ch | ch in inte ensures Waiting(ch, mask) {
        if ch != channel {
          assert old(Waiting(ch, mask)) && View(ch) == old(View(ch));
          WaitsOn(old(issued), old(started), finished, calls, current[ch], ch, View(ch), ch in mask,
                  Request(channel, handler), more);
        }
      }
    }

    lemma FreshIndex()
      requires Ledger()
      ensures |issued| !in started && |issued| !in finished && |issued| !in calls
    {
    }

    /** The client starts the transfer it has registered for. */
    method Start(channel: nat, ghost mask: set<nat>)
      requires Serving(mask) && channel in inte && current[channel] !in started
      modifies this`busy, this`started
      ensures Serving(mask) && Later()
      ensures View(channel) == Begin(old(View(channel)))
      ensures busy == old(busy) + {channel} && started == old(started) + {current[channel]}
    {
      assert Waiting(channel, mask);
      busy := busy + {channel};
      started := started + {current[channel]};
      forall ch | ch in inte ensures Waiting(ch, mask) {
        assert old(Waiting(ch, mask)) && old(Waiting(channel, mask));
      }
    }

    /** A client starts a transfer on a channel without a handler, as jd_spi_xfer does. */
    method StartUnwatched(channel: nat, ghost mask: set<nat>)
      requires Serving(mask) && channel < CHANNELS && channel !in inte
      modifies this`busy, this`unwatched
      ensures Serving(mask) && Later()
      ensures View(channel) == Begin(old(View(channel)))
      ensures busy == old(busy) + {channel} && unwatched == old(unwatched) + [channel]
    {
      busy := busy + {channel};
      unwatched := unwatched + [channel];
      forall ch | ch in inte ensures Waiting(ch, mask) {
        assert old(Waiting(ch, mask));
      }
    }

    /** Registrations in the table before are still there. */
    twostate predicate KeepsRegistered()
      reads this
    {
      forall ch :: ch in old(current) ==> ch in current && current[ch] == old(current)[ch]
    }

    /** Since the old state this outcome was left behind; each registration made has its transfer started. */
    twostate predicate Left(o: Outcome)
      reads this
    {
      && inte == o.taken && issued == old(issued) + o.requests && unwatched == old(unwatched) + o.unwatched
      && forall i :: |old(issued)| <= i < |issued| ==> i in started
    }

    /** Register for a transfer and start it, if the slot is free. */
    method Launch(r: Request, ghost mask: set<nat>)
      requires Serving(mask)
      modifies table, this`intr, this`inte, this`busy, this`instant
      modifies this`issued, this`current, this`started, this`finished, this`unwatched
      ensures Serving(mask) && Later() && KeepsRegistered()
      ensures Left(Do(Outcome(old(inte), [], []), Watched(r)))
    {
      hide Serving;
      Elapse(mask);
      FreeSlots(mask);
      if r.channel < CHANNELS && table[r.channel].None? {
        LaunchFree(r, mask);
      }
    }

    lemma FreeSlots(mask: set<nat>)
      requires Serving(mask)
      ensures table.Length == CHANNELS && current.Keys == inte && mask <= inte
      ensures forall ch :: 0 <= ch < CHANNELS ==> (table[ch].None? <==> ch !in inte)
    {
      forall ch | 0 <= ch < CHANNELS && ch in inte ensures table[ch].Some? { assert Waiting(ch, mask); }
    }

    method LaunchFree(r: Request, ghost mask: set<nat>)
      requires Serving(mask) && r.channel < CHANNELS && r.channel !in inte
      modifies table, this`intr, this`inte, this`busy, this`instant
      modifies this`issued, this`current, this`started, this`finished, this`unwatched
      ensures Serving(mask) && Later() && KeepsRegistered()
      ensures inte == old(inte) + {r.channel} && issued == old(issued) + [r] && unwatched == old(unwatched)
      ensures old(|issued|) in started
    {
      hide Serving;
      FreeSlots(mask);
      var ok := SetChCb(r.channel, r.handler, mask);
      if r.channel !in busy {
        FreeSlots(mask);
        NotYet(r.channel, mask);
        ElapseThenStart(r.channel, mask);
      }
    }

    /** A registration without a transfer stays so until one is started. */
    method ElapseThenStart(channel: nat, ghost mask: set<nat>)
      requires Serving(mask) && channel in inte && current[channel] !in started && channel !in busy
      modifies this`intr, this`busy, this`instant, this`finished, this`started
      ensures Serving(mask) && Later() && current[channel] in started
    {
      Elapse(mask);
      Start(channel, mask);
    }

    lemma NotYet(channel: nat, mask: set<nat>)
      requires Serving(mask) && channel in inte && channel !in busy && channel !in intr && channel !in mask
      ensures current[channel] !in started
    {
      assert Waiting(channel, mask);
    }

    method Act(a: Action, ghost mask: set<nat>)
      requires Serving(mask)
      modifies table, this`intr, this`inte, this`busy, this`instant
      modifies this`issued, this`current, this`started, this`finished, this`unwatched
      ensures Serving(mask) && Later() && KeepsRegistered()
      ensures Left(Do(Outcome(old(inte), [], []), a))
    {
      match a
      case Watched(r) => Launch(r, mask);
      case Unwatched(channel) =>
        Elapse(mask);
        if channel < CHANNELS && channel !in inte { StartUnwatched(channel, mask); }
    }

    /** The code of a handler: it may start transfers on channels whose slot is free. */
    method Perform(actions: seq<Action>, ghost mask: set<nat>)
      requires Serving(mask)
      modifies table, this`intr, this`inte, this`busy, this`instant
      modifies this`issued, this`current, this`started, this`finished, this`unwatched
      ensures Serving(mask) && Later() && KeepsRegistered()
      ensures Left(DoAll(old(inte), actions))
    {
      hide Serving, Do;
      assert actions[..0] == [] && actions[..|actions|] == actions;
      for k := 0 to |actions|
        invariant Serving(mask) && Later() && KeepsRegistered()
        invariant Left(DoAll(old(inte), actions[..k]))
      {
        DoNext(old(inte), actions, k);
        DoFrom(DoAll(old(inte), actions[..k]), actions[k]);
        Act(actions[k], mask);
      }
      Elapse(mask);
    }

    /** Registration `i` has been taken from the table, and is about to be called. */
    ghost predicate Due(i: nat, h: Handler, mask: set<nat>)
      reads this, table
    {
      && Slots(mask) && Consistent(issued, current, started, finished, calls + [i])
      && SameHandlers(issued, calls, ran) && served == |calls|
      && i < |issued| && issued[i].handler == h
    }

    lemma OthersWait(i: nat, h: Handler, mask: set<nat>)
      requires Due(i, h, mask)
      ensures forall ch :: ch in inte ==> current[ch] != i
    {
      forall ch | ch in inte ensures current[ch] != i {
        assert Waiting(ch, mask);
        assert Registered(issued, current, current[ch]);
      }
    }

    /** A handler is called: the only place where calls are logged. */
    method RunHandler(h: Handler, ghost i: nat, ghost mask: set<nat>)
      requires Due(i, h, mask)
      modifies this, table
      ensures Serving(mask) && Later() && KeepsRegistered()
      ensures calls == old(calls) + [i] && ran == old(ran) + [h]
      ensures Left(DoAll(old(inte), script(old(served), h)))
    {
      OthersWait(i, h, mask);
      var actions := script(served, h);
      served := served + 1;
      calls, ran := calls + [i], ran + [h];
      assert Slots(mask) by {
        forall ch | ch in inte ensures Waiting(ch, mask) { assert old(Waiting(ch, mask)); }
      }
      Perform(actions, mask);
    }

    /**
      One turn of the routine's loop for a channel in the snapshot: the slot is emptied, then the
      handler found there is called.
    */
    method Serve(ch: nat, ghost mask: set<nat>)
      requires Serving(mask) && ch in mask && table[ch].Some?
      modifies this, table
      ensures Serving(mask - {ch}) && Later()
      ensures calls == old(calls) + [old(current[ch])] && ran == old(ran) + [old(table[ch]).value]
      ensures Left(DoAll(old(inte) - {ch}, script(old(served), old(table[ch]).value)))
      ensures forall c :: c in old(current) && c != ch ==> c in current && current[c] == old(current)[c]
    {
      var h := Detach(ch, mask);
      RunHandler(h, old(current[ch]), mask - {ch});
    }

    /** The handler and its context are read, the interrupt disabled, and the slot emptied. */
    method Detach(ch: nat, ghost mask: set<nat>) returns (h: Handler)
      requires Serving(mask) && ch in mask && table[ch].Some?
      modifies this`inte, this`current, table
      ensures old(table[ch]) == Some(h) && Due(old(current[ch]), h, mask - {ch})
      ensures inte == old(inte) - {ch} && current == old(current) - {ch}
    {
      ghost var i := current[ch];
      assert Waiting(ch, mask);
      h := table[ch].value;
      inte := inte - {ch};
      table[ch] := None;
      current := current - {ch};
      forall c | c in inte ensures Waiting(c, mask - {ch}) {
        assert old(Waiting(c, mask)) && old(Waiting(ch, mask));
      }
      DetachKeeps(issued, old(current), started, finished, calls, ch);
    }

    /** Read and acknowledge the pending interrupts. */
    method Snapshot() returns (mask: set<nat>)
      requires Valid()
      modifies this`intr
      ensures Serving(mask) && Later()
      ensures mask == old(intr * inte) && intr == old(intr) - mask
      ensures forall ch :: ch in mask ==> ch < CHANNELS && ch in current && current[ch] in finished
      ensures forall i :: i in finished ==> i in calls || exists ch :: ch in mask && current[ch] == i
    {
      mask := intr * inte;
      intr := intr - mask;
      forall c | c in inte ensures Waiting(c, mask) {
        assert old(Waiting(c, {}));
      }
      forall i | i in finished && i !in calls ensures exists ch :: ch in mask && current[ch] == i {
        assert Registered(issued, current, i);
        assert issued[i].channel in mask;
      }
    }

    /** Channels of the snapshot still to be served at turn `ch` of the loop. */
    static ghost function From(mask: set<nat>, ch: nat): set<nat> {
      set c | c in mask && c >= ch
    }

    /** `first` are the registrations in the table at the snapshot, `done` those completed by then. */
    ghost predicate Turned(mask: set<nat>, ch: nat, first: map<nat, nat>, done: set<nat>)
      reads this
    {
      && mask <= first.Keys
      && (forall c :: c in mask && c >= ch ==> c in current && current[c] == first[c])
      && (forall c :: c in mask && c < ch ==> first[c] in calls)
      && (forall c :: c in mask ==> first[c] in done)
      && (forall i :: i in calls ==> i in done)
    }

    lemma InRange(mask: set<nat>, ch: nat)
      requires Serving(mask)
      ensures ch in mask ==> ch < CHANNELS
    {
    }

    /** One turn of the routine's loop. */
    method Turn(ch: nat, mask: set<nat>, ghost first: map<nat, nat>, ghost done: set<nat>)
      requires Serving(From(mask, ch)) && Turned(mask, ch, first, done)
      modifies this, table
      ensures Serving(From(mask, ch + 1)) && Later() && Turned(mask, ch + 1, first, done)
    {
      hide Serving;
      assert From(mask, ch) - {ch} == From(mask, ch + 1);
      assert ch !in mask ==> From(mask, ch) == From(mask, ch + 1);
      Elapse(From(mask, ch));
      FreeSlots(From(mask, ch));
      InRange(From(mask, ch), ch);
      if ch in mask && table[ch].Some? {
        Serve(ch, From(mask, ch));
      }
    }

    /**
      isr_dma_0.  When it returns, the registrations called are exactly those whose transfer had
      completed when it was entered, by the invariant each of them once, with the handler it had
      registered; a completion that arrives while the routine runs is still pending.
    */
    method IsrDma0()
      requires Valid()
      modifies this, table
      ensures Valid() && Later()
      ensures forall i :: i in old(finished) <==> i in calls
      ensures forall k :: 0 <= k < |calls| ==> calls[k] < |issued| && ran[k] == issued[calls[k]].handler
    {
      var mask := Snapshot();
      ghost var first, done := current, finished;
      assert From(mask, 0) == mask;
      for ch := 0 to CHANNELS
        invariant Serving(From(mask, ch)) && Later() && Turned(mask, ch, first, done)
      {
        hide Serving, From;
        Turn(ch, mask, first, done);
      }
      assert From(mask, CHANNELS) == {};
    }
  }
}
