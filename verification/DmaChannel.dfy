/**
  One DMA channel as the driver sees it: the transfer, the two interrupt bits and the
  one-shot handler slot.  The dispatcher table and all clients share these operations.
*/
module DmaChannel {
  import opened Common

  /** `raised` is the channel's bit in INTR, `enabled` its bit in INTE0. */
  datatype Channel<+H> = Channel(busy: bool, raised: bool, enabled: bool, slot: Option<H>)

  /** The channel's bit in INTS0: it asks for the interrupt. */
  predicate Asserted<H>(c: Channel<H>) {
    c.raised && c.enabled
  }

  /** dma_set_ch_cb, past its assertion: fill the slot, drop a stale completion, enable. */
  function Register<H>(c: Channel<H>, h: H): Channel<H> {
    c.(slot := Some(h), raised := false, enabled := true)
  }

  function Begin<H>(c: Channel<H>): Channel<H> {
    c.(busy := true)
  }

  /** The transfer completes. */
  function Finish<H>(c: Channel<H>): Channel<H> {
    c.(busy := false, raised := true)
  }

  /** Aborting an active channel ends the transfer; `raises` tells whether it also completes. */
  function Abort<H>(c: Channel<H>, raises: bool): Channel<H> {
    if c.busy then c.(busy := false, raised := c.raised || raises) else c
  }

  /** The interrupt routine acknowledges the completions it saw. */
  function Acknowledge<H>(c: Channel<H>): Channel<H> {
    c.(raised := false)
  }

  /** It empties the slot before it calls the handler found there. */
  function Take<H>(c: Channel<H>): Channel<H> {
    c.(enabled := false, slot := None)
  }
}
