/**
  The log stream: the main loop fills one static buffer from the message ring, and the DMA
  reads the same buffer byte by byte while the main loop goes on.

  `Preempt` marks the points between statements of the main loop; an oracle decides how many
  bytes the DMA moves there and whether its interrupt is served.
*/
module LogStream {
  import opened Common
  import opened DmaChannel

  const BUF_SIZE: nat := 128

  datatype Event = MoveByte | Interrupt

  class Log {
    const buf: array<byte>
    const dmachTx: int         // set by uart_log_init at start-up: -2 without a pin, else the channel
    var inTx: bool
    var chan: Channel<()>
    var failed: bool
    // the DMA engine
    var pos: nat
    var len: nat
    // surroundings: what the message ring yields, what happens when
    const ring: nat -> seq<byte>
    const events: nat -> seq<Event>
    var chunks: nat
    var instant: nat
    // history: bytes read from the ring, bytes put on the wire
    ghost var produced: seq<byte>
    ghost var sent: seq<byte>

    ghost predicate Still()
      reads this
    {
      !inTx && chan.slot.None? && !chan.enabled && !chan.busy
    }

    /** The DMA still owns bytes pos..len of the buffer, or its completion is pending. */
    ghost predicate Flying()
      reads this, buf
    {
      && inTx && chan.slot.Some? && chan.enabled && (chan.busy <==> !chan.raised)
      && pos <= len <= buf.Length && (chan.busy <==> pos < len)
      && sent + buf[pos..len] == produced
    }

    ghost predicate Valid()
      reads this, buf
    {
      && !failed && buf.Length == BUF_SIZE && len <= BUF_SIZE
      && ((Still() && (dmachTx != -2 ==> sent == produced)) || (dmachTx != -2 && Flying()))
    }

    constructor (hasPin: bool, ring: nat -> seq<byte>, events: nat -> seq<Event>)
      ensures Valid() && fresh(buf) && produced == [] && sent == [] && (dmachTx != -2 <==> hasPin)
    {
      buf := new byte[BUF_SIZE](_ => 0);
      this.ring, this.events := ring, events;
      dmachTx := if hasPin then 0 else -2;
      inTx, failed, pos, len := false, false, 0, 0;
      chan := Channel(false, false, false, None);
      chunks, instant, produced, sent := 0, 0, [], [];
    }

    /** What may happen while the main loop is at a statement: an idle channel stays idle. */
    twostate predicate Undisturbed()
      reads this, buf
    {
      && failed == old(failed) && old(sent) <= sent
      && (old(Flying()) ==> Flying() || (Still() && sent == produced))
      && (old(!chan.busy && !Asserted(chan)) ==> inTx == old(inTx) && chan == old(chan) && sent == old(sent))
    }

    method Occur(e: Event)
      modifies this`chan, this`inTx, this`pos, this`sent
      requires buf.Length == BUF_SIZE && len <= BUF_SIZE
      ensures Undisturbed()
      ensures e.MoveByte? && old(chan.busy && pos < len) ==>
        sent == old(sent) + [buf[old(pos)]] && pos == old(pos) + 1 && (chan.busy <==> pos < len)
      ensures e.Interrupt? && old(Flying()) ==> if old(pos) < len then Flying() else Still() && sent == produced
    {
      match e
      case MoveByte =>
        if chan.busy && pos < len {
          sent := sent + [buf[pos]];
          assert buf[pos..len] == [buf[pos]] + buf[pos + 1..len];
          pos := pos + 1;
          if pos == len { chan := Finish(chan); }
        }
      case Interrupt =>
        if Asserted(chan) {
          chan := Acknowledge(chan);
          if chan.slot.Some? {
            chan := Take(chan);
            inTx := false;  // tx_handler
            assert pos == len ==> buf[pos..len] == [];
          }
        }
    }

    method Preempt()
      requires buf.Length == BUF_SIZE && len <= BUF_SIZE
      modifies this`chan, this`inTx, this`pos, this`sent, this`instant
      ensures Undisturbed()
    {
      var es := events(instant);
      instant := instant + 1;
      for k := 0 to |es|
        invariant Undisturbed()
      {
        Occur(es[k]);
      }
    }

    /** jd_dmesg_read: copy the next chunk of messages into the buffer, byte by byte. */
    method DmesgRead() returns (n: nat)
      requires Valid() && Still()
      modifies this`chan, this`inTx, this`pos, this`sent, this`instant, this`chunks, this`produced, buf
      ensures !failed && Still() && sent == old(sent) && n <= BUF_SIZE
      ensures produced == old(produced) + buf[..n]
      ensures chunks == old(chunks) + 1
      ensures n == (if |ring(old(chunks))| > BUF_SIZE then BUF_SIZE else |ring(old(chunks))|)
      ensures buf[..n] == ring(old(chunks))[..n]
    {
      var chunk := ring(chunks);
      n := if |chunk| > BUF_SIZE then BUF_SIZE else |chunk|;
      for i := 0 to n
        invariant Still() && !failed && sent == old(sent) && len == old(len)
        invariant chunks == old(chunks) && produced == old(produced)
        invariant buf[..i] == chunk[..i]
      {
        Preempt();
        buf[i] := chunk[i];
      }
      chunks := chunks + 1;
      produced := produced + buf[..n];
    }

    /** uart_log_write of the first `size` bytes of the buffer. */
    method UartLogWrite(size: nat)
      requires 0 < size <= BUF_SIZE && buf.Length == BUF_SIZE && len <= BUF_SIZE
      requires !failed && (Still() || Flying())
      modifies this`inTx, this`failed, this`chan, this`pos, this`len, this`sent, this`instant
      ensures failed <==> old(inTx) && dmachTx != -2
      ensures old(inTx) || dmachTx == -2 ==>
        inTx == old(inTx) && chan == old(chan) && pos == old(pos) && len == old(len) && sent == old(sent)
      ensures old(Still() && (dmachTx != -2 ==> sent + buf[..size] == produced)) ==> Valid()
      ensures old(sent) <= sent
    {
      if dmachTx == -2 { return; }
      if inTx {
        failed := true;
        return;
      }
      Preempt();
      inTx := true;
      Preempt();
      chan := Register(chan, ());
      Preempt();
      pos, len := 0, size;
      chan := Begin(chan);
      assert buf[0..size] == buf[..size];
      Preempt();
    }

    /** The chunk, cut to the size of the buffer, has been read; there is something to wait for iff it is not empty. */
    twostate predicate Reads(chunk: seq<byte>, wait: bool)
      reads this
    {
      var n := if |chunk| < 128 then |chunk| else 128;
      produced == old(produced) + chunk[..n] && (wait <==> n > 0)
    }

    /** dmesg_to_stdout: false when there is nothing to wait for. */
    method DmesgToStdout() returns (wait: bool)
      requires Valid()
      modifies this, buf
      ensures Valid() && old(produced) <= produced && old(sent) <= sent
      ensures !wait ==> Still() && produced == old(produced)
      ensures !wait && dmachTx != -2 ==> sent == produced
      ensures if chunks == old(chunks) then old(inTx) && wait && produced == old(produced)
              else chunks == old(chunks) + 1 && Reads(ring(old(chunks)), wait)
    {
      Preempt();
      if inTx { return true; }
      var n := DmesgRead();
      if n > 0 {
        UartLogWrite(n);
        return true;
      }
      assert produced == old(produced) + [];
      return false;
    }

    /**
      Nothing is lost, repeated or overwritten in flight: what is on the wire is a prefix of
      what was read from the ring, and the rest is in the part of the buffer the DMA still owns.
    */
    lemma SentIsPrefix()
      requires Valid() && dmachTx != -2
      ensures sent <= produced
      ensures !inTx ==> sent == produced
      ensures inTx ==> pos <= len <= buf.Length && produced[|sent|..] == buf[pos..len]
    {
    }
  }
}
