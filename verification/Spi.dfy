/**
  The SPI driver: one transfer at a time, completed by a DMA interrupt that leaves the
  caller's callback for the main loop.

  Any transfers may complete and the DMA interrupt may run between any two statements of the
  main loop; `Preempt` marks these points and an oracle decides what happens there.
*/
module Spi {
  import opened Common
  import opened DmaChannel

  const BLOCK_SIZE: nat := 4096

  datatype Event = TxFinishes | RxFinishes | Interrupt

  /** Arguments of jd_spi_xfer: which buffers are given, the length, and the callback. */
  datatype Request = Request(tx: bool, rx: bool, numbytes: nat, done: nat)

  predicate Fitting(r: Request) {
    0 < r.numbytes <= BLOCK_SIZE
  }

  /** A transfer needs a buffer unless it is refused for its length. */
  predicate Proper(r: Request) {
    Fitting(r) ==> r.tx || r.rx
  }

  /** The index of the first request that fits, or the number of requests. */
  function FirstFitting(requests: seq<Request>): (k: nat)
    ensures k <= |requests| && (k < |requests| ==> Fitting(requests[k]))
    ensures forall j :: 0 <= j < k ==> !Fitting(requests[j])
  {
    if requests == [] || Fitting(requests[0]) then 0 else 1 + FirstFitting(requests[1..])
  }

  lemma OneMoreRequest(requests: seq<Request>, k: nat)
    requires k < |requests|
    ensures var i := FirstFitting(requests[..k]);
            FirstFitting(requests[..k + 1]) == if i < k || Fitting(requests[k]) then i else k + 1
  {
    var i, i' := FirstFitting(requests[..k]), FirstFitting(requests[..k + 1]);
    assert forall j :: 0 <= j < k ==> requests[..k][j] == requests[..k + 1][j];
    if i < k { assert Fitting(requests[..k + 1][i]) && i' <= i; }
  }

  class Driver {
    var configured: bool      // spi != NULL
    var inUse: bool
    var doneCb: Option<nat>
    var tx: Channel<nat>      // slots hold the context: the callback
    var rx: Channel<nat>
    var failed: bool          // an assertion failed
    // oracles
    const events: nat -> seq<Event>
    const nested: (nat, nat) -> seq<Request>  // what the n-th callback asks for, given which it is
    var instant: nat
    var callbacks: nat
    // history
    ghost var accepted: seq<nat>
    ghost var done: seq<nat>
    // of either channel: the lengths of the transfers begun, and how many have ended
    ghost var txBegun: seq<nat>
    ghost var txEnded: nat
    ghost var rxBegun: seq<nat>
    ghost var rxEnded: nat

    /** On each channel every transfer begun has ended, except one in flight. */
    ghost predicate Books()
      reads this`tx, this`rx, this`txBegun, this`rxBegun, this`txEnded, this`rxEnded
    {
      && |txBegun| == txEnded + (if tx.busy then 1 else 0)
      && |rxBegun| == rxEnded + (if rx.busy then 1 else 0)
    }

    /** No slot is filled and nothing is in flight. */
    ghost predicate Still()
      reads this`tx, this`rx
    {
      tx.slot.None? && rx.slot.None? && !tx.enabled && !rx.enabled && !tx.busy && !rx.busy
    }

    /** One channel carries the callback; its completion is pending iff its transfer is over. */
    ghost predicate InFlight(c: Channel<nat>, other: Channel<nat>, f: nat)
      reads this`tx, this`rx
    {
      && c.slot == Some(f) && c.enabled && (c.busy <==> !c.raised)
      && other.slot.None? && !other.enabled
    }

    ghost predicate Flying(f: nat)
      reads this`tx, this`rx
    {
      || (InFlight(rx, tx, f) && (rx.busy || !tx.busy))
      || (InFlight(tx, rx, f) && !rx.busy)
    }

    /** Registered but not started. */
    ghost predicate Armed(f: nat, onRx: bool)
      reads this`tx, this`rx
    {
      var c, other := if onRx then rx else tx, if onRx then tx else rx;
      && c.slot == Some(f) && c.enabled && !c.raised && !c.busy
      && other.slot.None? && !other.enabled && !other.busy
    }

    /**
      Between calls: nothing outstanding, or one accepted transfer in flight, or its callback
      waiting for the main loop.
    */
    ghost predicate Valid()
      reads this
    {
      && !failed && Books()
      && if !inUse then Still() && doneCb.None? && accepted == done
         else
           && |accepted| == |done| + 1 && done <= accepted
           && var f := accepted[|done|];
              (Flying(f) && doneCb.None?) || (Still() && doneCb == Some(f))
    }

    constructor (events: nat -> seq<Event>, nested: (nat, nat) -> seq<Request>)
      ensures Valid() && !configured && accepted == [] && done == []
    {
      this.events, this.nested := events, nested;
      configured, inUse, doneCb, failed := false, false, None, false;
      tx, rx := Channel(false, false, false, None), Channel(false, false, false, None);
      instant, callbacks, accepted, done := 0, 0, [], [];
      txBegun, txEnded, rxBegun, rxEnded := [], 0, [], 0;
    }

    /** jd_spi_init, as far as the pins decide: refused during a transfer or without a pin. */
    method Init(pins: seq<Option<nat>>) returns (result: int)
      requires Valid() && |pins| == 3
      modifies this`configured
      ensures Valid()
      ensures result == if inUse then -100 else if forall k :: 0 <= k < 3 ==> pins[k].None? then -1 else 0
      ensures configured <==> old(configured) || result == 0
    {
      if inUse { return -100; }
      var pin := None;
      for i := 0 to 3
        invariant pin == None && forall k :: 0 <= k < i ==> pins[k].None?
      {
        if pins[i].Some? {
          pin := pins[i];
          break;
        }
      }
      if pin.None? { return -1; }
      configured := true;
      return 0;
    }

    /** spi_dma_cb, in the interrupt. */
    method SpiDmaCb(cb: nat)
      modifies this`doneCb, this`failed
      ensures doneCb == Some(cb) && (failed <==> old(failed) || old(doneCb).Some?)
    {
      if doneCb.Some? { failed := true; }
      doneCb := Some(cb);
    }

    /**
      What interrupts keep while the main loop is at some statement: nothing happens to idle
      channels or to a registration not started; a transfer in flight stays so or is completed,
      with its own callback left for the main loop.
    */
    twostate predicate Undisturbed()
      reads this
    {
      && (old(Still()) ==> Still() && doneCb == old(doneCb) && failed == old(failed))
      && (forall f: nat, b :: old(Armed(f, b)) ==> Armed(f, b) && doneCb == old(doneCb) && failed == old(failed))
      && (forall f: nat :: old(Flying(f)) && old(doneCb).None? ==>
            failed == old(failed) && ((Flying(f) && doneCb.None?) || (Still() && doneCb == Some(f))))
    }

    /** Pending completions are served: with a transfer in flight, its callback is left. */
    twostate predicate Served()
      reads this
    {
      && !Asserted(tx) && !Asserted(rx)
      && (forall f: nat :: old(Flying(f)) && old(doneCb).None? && old(Asserted(tx) || Asserted(rx)) ==>
            Still() && doneCb == Some(f))
    }

    /** The DMA interrupt, as far as these two channels go; tx has the lower number. */
    method DmaInterrupt()
      modifies this`tx, this`rx, this`doneCb, this`failed
      ensures Undisturbed() && Served() && tx.busy == old(tx.busy) && rx.busy == old(rx.busy)
    {
      var doTx, doRx := Asserted(tx), Asserted(rx);
      if doTx { tx := Acknowledge(tx); }
      if doRx { rx := Acknowledge(rx); }
      if doTx && tx.slot.Some? {
        var cb := tx.slot.value;
        tx := Take(tx);
        SpiDmaCb(cb);
      }
      if doRx && rx.slot.Some? {
        var cb := rx.slot.value;
        rx := Take(rx);
        SpiDmaCb(cb);
      }
    }

    /** One event; the receive side of a transfer ends after its transmit side. */
    method Occur(e: Event)
      modifies this`tx, this`rx, this`doneCb, this`failed, this`txEnded, this`rxEnded
      ensures Undisturbed() && (old(Books()) ==> Books())
      ensures e.Interrupt? ==> Served()
      ensures e.TxFinishes? && old(tx.busy) ==> tx == Finish(old(tx)) && txEnded == old(txEnded) + 1
      ensures e.RxFinishes? && old(rx.busy && !tx.busy) ==> rx == Finish(old(rx)) && rxEnded == old(rxEnded) + 1
    {
      match e
      case TxFinishes => if tx.busy { tx, txEnded := Finish(tx), txEnded + 1; }
      case RxFinishes => if rx.busy && !tx.busy { rx, rxEnded := Finish(rx), rxEnded + 1; }
      case Interrupt => DmaInterrupt();
    }

    /** A point between two statements of the main loop. */
    method Preempt()
      modifies this`tx, this`rx, this`doneCb, this`failed, this`instant, this`txEnded, this`rxEnded
      ensures Undisturbed() && (old(Books()) ==> Books())
    {
      var es := events(instant);
      instant := instant + 1;
      for k := 0 to |es|
        invariant Undisturbed() && (old(Books()) ==> Books())
      {
        Occur(es[k]);
      }
    }

    /** jd_spi_is_ready: every accepted transfer has had its callback. */
    method IsReady() returns (ready: bool)
      ensures ready <==> configured && !inUse
      ensures Valid() ==> (ready <==> configured && done == accepted)
    {
      ready := configured && !inUse;
    }

    /** dma_set_ch_cb on the channel that completes the transfer. */
    method SetCallback(onRx: bool, cb: nat)
      requires Still()
      modifies this`tx, this`rx
      ensures Armed(cb, onRx) && (old(Books()) ==> Books())
    {
      if onRx {
        rx := Register(rx, cb);
      } else {
        tx := Register(tx, cb);
      }
    }

    /** dma_start_channel_mask, for the channels whose address and length were set. */
    method StartMask(r: Request)
      requires Armed(r.done, r.rx) && (r.tx || r.rx)
      modifies this`tx, this`rx, this`txBegun, this`rxBegun
      ensures Flying(r.done) && (old(Books()) ==> Books())
      ensures tx == (if r.tx then Begin(old(tx)) else old(tx))
      ensures rx == (if r.rx then Begin(old(rx)) else old(rx))
      ensures txBegun == old(txBegun) + if r.tx then [r.numbytes] else []
      ensures rxBegun == old(rxBegun) + if r.rx then [r.numbytes] else []
    {
      if r.tx { tx, txBegun := Begin(tx), txBegun + [r.numbytes]; }
      if r.rx { rx, rxBegun := Begin(rx), rxBegun + [r.numbytes]; }
    }

    /** jd_spi_xfer. */
    method Xfer(r: Request) returns (result: int)
      requires Valid() && Proper(r)
      modifies this`tx, this`rx, this`doneCb, this`failed, this`instant, this`inUse, this`accepted
      modifies this`txBegun, this`rxBegun, this`txEnded, this`rxEnded
      ensures Valid()
      ensures result == if !configured || old(inUse) then -1 else if r.numbytes > BLOCK_SIZE then -2
                        else if r.numbytes == 0 then -3 else 0
      ensures accepted == old(accepted) + if result == 0 then [r.done] else []
      ensures txBegun == old(txBegun) + if result == 0 && r.tx then [r.numbytes] else []
      ensures rxBegun == old(rxBegun) + if result == 0 && r.rx then [r.numbytes] else []
      ensures inUse <==> old(inUse) || result == 0
    {
      hide Books;
      var ready := IsReady();
      Preempt();
      if !ready { return -1; }
      if r.numbytes > BLOCK_SIZE { return -2; }
      if r.numbytes == 0 { return -3; }
      Launch(r);
      result := 0;
    }

    /** Its end: the request is accepted and its channels are started. */
    method Launch(r: Request)
      requires Valid() && !inUse && (r.tx || r.rx)
      modifies this`tx, this`rx, this`doneCb, this`failed, this`instant, this`inUse, this`accepted
      modifies this`txBegun, this`rxBegun, this`txEnded, this`rxEnded
      ensures Valid() && inUse && accepted == old(accepted) + [r.done]
      ensures txBegun == old(txBegun) + if r.tx then [r.numbytes] else []
      ensures rxBegun == old(rxBegun) + if r.rx then [r.numbytes] else []
    {
      hide Books, Still, Flying, Armed;
      Preempt();
      inUse := true;
      accepted := accepted + [r.done];
      Preempt();
      SetCallback(r.rx, r.done);
      Preempt();
      StartMask(r);
      Preempt();
    }

    /**
      A callback is left for the main loop only when every transfer begun on either channel, so
      each of its own, has ended and nothing is pending.
    */
    lemma LeftWhenEnded()
      requires Valid()
      ensures !inUse || doneCb.Some? <==>
              |txBegun| == txEnded && |rxBegun| == rxEnded && !Asserted(tx) && !Asserted(rx)
    {
    }

    /** The first request that fits is accepted, the others are not. */
    twostate predicate AcceptsFirst(requests: seq<Request>)
      reads this
    {
      var k := FirstFitting(requests);
      if configured && k < |requests|
      then inUse && accepted == old(accepted) + [requests[k].done]
      else !inUse && accepted == old(accepted)
    }

    /** The callback runs: the only place where it is logged. */
    method RunCallback(cb: nat)
      requires !inUse && Still() && doneCb.None? && !failed && Books() && accepted == done + [cb]
      requires forall n, f, k :: 0 <= k < |nested(n, f)| ==> Proper(nested(n, f)[k])
      modifies this
      ensures Valid() && configured == old(configured)
      ensures done == old(done) + [cb] && AcceptsFirst(nested(old(callbacks), cb))
    {
      hide Books, Still, Flying, Armed;
      done := done + [cb];
      var requests := nested(callbacks, cb);
      callbacks := callbacks + 1;
      assert requests[..|requests|] == requests;
      for k := 0 to |requests|
        invariant Valid() && configured == old(configured)
        invariant done == old(done) + [cb] && AcceptsFirst(requests[..k])
      {
        OneMoreRequest(requests, k);
        var r := Xfer(requests[k]);
      }
    }

    /** jd_spi_process: run the callback that is waiting, which may ask for further transfers. */
    method Process() returns (ran: Option<nat>)
      requires Valid()
      requires forall n, f, k :: 0 <= k < |nested(n, f)| ==> Proper(nested(n, f)[k])
      modifies this
      ensures Valid() && configured == old(configured)
      ensures done == old(done) + if ran.Some? then [ran.value] else []
      ensures ran.Some? ==> |old(accepted)| == |old(done)| + 1 && ran.value == old(accepted)[|old(done)|]
      ensures ran.Some? ==> AcceptsFirst(nested(old(callbacks), ran.value))
      ensures ran.None? ==> accepted == old(accepted) && inUse == old(inUse)
      ensures old(doneCb).Some? ==> ran == old(doneCb)
    {
      hide Books, Still, Flying, Armed;
      Preempt();
      ran := doneCb;
      if ran.Some? {
        Preempt();
        doneCb := None;
        Preempt();
        inUse := false;
        Preempt();
        RunCallback(ran.value);
      }
    }
  }
}
