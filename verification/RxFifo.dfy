/**
  The receive FIFO across receptions.  The receiver pushes words, the DMA stores them in a buffer
  of given length until it is full or aborted, and nothing ever clears the FIFO.
*/
module RxFifo {
  import opened Common
  import opened Pio
  import opened Sws
  import opened Wave
  import opened Reception
  import opened Tolerance
  import opened Enabling
  import opened Packet

  /** The machine, and how many of the words it has ever pushed were read from the FIFO. */
  datatype Receiver = Receiver(sm: Sm, read: nat)

  /** One reception: the DMA ends after `e` cycles at the latest, the machine is stopped after `n`. */
  datatype Taking = Taking(line: Line, len: nat, e: nat, n: nat)

  /** The words in the FIFO are those pushed and not read. */
  predicate Consistent(r: Receiver) {
    r.read <= |r.sm.rx|
  }

  predicate Drained(r: Receiver) {
    r.read == |r.sm.rx|
  }

  function Min(a: nat, b: nat): (m: nat)
    ensures m == a || m == b
    ensures m <= a && m <= b
  {
    if a < b then a else b
  }

  lemma {:induction false} RunGrows(sm: Sm, line: Line, e: nat, n: nat)
    requires e <= n
    ensures |RxRun(sm, line, e).rx| <= |RxRun(sm, line, n).rx|
    ensures RxRun(sm, line, n).rx[..|RxRun(sm, line, e).rx|] == RxRun(sm, line, e).rx
    decreases n
  {
    hide Step;
    if e < n {
      RunGrows(sm, line, e, n - 1);
      var a, b := RxRun(sm, line, e).rx, RxRun(sm, line, n - 1);
      if b.pc < |RX_PROGRAM.code| { StepPushes(b, line(n - 1)); }
      assert RxRun(sm, line, n).rx[..|b.rx|] == b.rx;
      assert RxRun(sm, line, n).rx[..|b.rx|][..|a|] == RxRun(sm, line, n).rx[..|a|];
    } else {
      assert RxRun(sm, line, n).rx[..|RxRun(sm, line, n).rx|] == RxRun(sm, line, n).rx;
    }
  }

  lemma StepPushes(sm: Sm, level: bool)
    requires sm.pc < |RX_PROGRAM.code|
    ensures |sm.rx| <= |Step(RX_PROGRAM, sm, level).rx| && Step(RX_PROGRAM, sm, level).rx[..|sm.rx|] == sm.rx
  {
  }

  /** Words read by the end of the reception's DMA. */
  function ReadBy(r: Receiver, t: Taking): nat {
    Min(|RxRun(r.sm, t.line, t.e).rx|, r.read + t.len)
  }

  /** What is in the buffer. */
  function Stored(r: Receiver, t: Taking): seq<byte>
    requires Consistent(r) && t.e <= t.n
  {
    RunGrows(r.sm, t.line, 0, t.e);
    Bytes(RxRun(r.sm, t.line, t.e).rx[r.read..ReadBy(r, t)])
  }

  /** The buffer takes what is in the FIFO, oldest first, until it is full: no more and no less. */
  lemma StoresAvailable(r: Receiver, t: Taking)
    requires Consistent(r) && t.e <= t.n
    ensures var there := Bytes(RxRun(r.sm, t.line, t.e).rx);
            && |there| >= r.read && Stored(r, t) <= there[r.read..]
            && |Stored(r, t)| <= t.len && (|Stored(r, t)| < t.len ==> Stored(r, t) == there[r.read..])
    ensures Take(r, t).read == r.read + |Stored(r, t)|
  {
    RunGrows(r.sm, t.line, 0, t.e);
    var rx, k := RxRun(r.sm, t.line, t.e).rx, ReadBy(r, t);
    forall i: nat | i < k - r.read ensures Bytes(rx)[r.read..][i] == Stored(r, t)[i] {
      assert rx[r.read..k][i] == rx[r.read + i];
    }
  }

  /** What was received on this line. */
  function Own(r: Receiver, t: Taking): seq<byte>
    requires t.e <= t.n
  {
    RunGrows(r.sm, t.line, 0, t.n);
    Bytes(RxRun(r.sm, t.line, t.n).rx[|r.sm.rx|..])
  }

  function Take(r: Receiver, t: Taking): Receiver {
    Receiver(RxRun(r.sm, t.line, t.n), ReadBy(r, t))
  }

  lemma TakeConsistent(r: Receiver, t: Taking)
    requires Consistent(r) && t.e <= t.n
    ensures Consistent(Take(r, t))
  {
    RunGrows(r.sm, t.line, t.e, t.n);
  }

  /** From an empty FIFO: the buffer holds exactly what was received iff nothing is left in the FIFO. */
  lemma OwnIffDrained(r: Receiver, t: Taking)
    requires Drained(r) && t.e <= t.n
    ensures Stored(r, t) == Own(r, t) <==> Drained(Take(r, t))
  {
    var all, done := RxRun(r.sm, t.line, t.n).rx, RxRun(r.sm, t.line, t.e).rx;
    RunGrows(r.sm, t.line, 0, t.e);
    RunGrows(r.sm, t.line, t.e, t.n);
    var k := ReadBy(r, t);
    assert |Stored(r, t)| == k - r.read && |Own(r, t)| == |all| - r.read;
    if Drained(Take(r, t)) {
      assert done[r.read..k] == all[r.read..];
    }
  }

  // ---------- reception after reception ----------

  function TakeAll(r: Receiver, ts: seq<Taking>): Receiver {
    if ts == [] then r else Take(TakeAll(r, ts[..|ts| - 1]), ts[|ts| - 1])
  }

  ghost predicate Proper(ts: seq<Taking>) {
    forall i :: 0 <= i < |ts| ==> ts[i].e <= ts[i].n
  }

  lemma {:induction false} AllConsistent(r: Receiver, ts: seq<Taking>)
    requires Consistent(r) && Proper(ts)
    ensures Consistent(TakeAll(r, ts))
    decreases |ts|
  {
    if ts != [] {
      AllConsistent(r, ts[..|ts| - 1]);
      TakeConsistent(TakeAll(r, ts[..|ts| - 1]), ts[|ts| - 1]);
    }
  }

  /** Reception `i` stores exactly what was received on its line. */
  ghost predicate StoresOwn(r: Receiver, ts: seq<Taking>, i: nat)
    requires i < |ts| && ts[i].e <= ts[i].n && Consistent(TakeAll(r, ts[..i]))
  {
    Stored(TakeAll(r, ts[..i]), ts[i]) == Own(TakeAll(r, ts[..i]), ts[i])
  }

  /** No word is pushed after the last one that the DMA of reception `i` reads. */
  ghost predicate NothingLate(r: Receiver, ts: seq<Taking>, i: nat)
    requires i < |ts|
  {
    var before := TakeAll(r, ts[..i]);
    |RxRun(before.sm, ts[i].line, ts[i].n).rx| == ReadBy(before, ts[i])
  }

  ghost predicate AllOwn(r: Receiver, ts: seq<Taking>)
    requires Consistent(r) && Proper(ts)
  {
    forall i :: 0 <= i < |ts| ==> (PrefixConsistent(r, ts, i); StoresOwn(r, ts, i))
  }

  ghost predicate NoneLate(r: Receiver, ts: seq<Taking>) {
    forall i :: 0 <= i < |ts| ==> NothingLate(r, ts, i)
  }

  lemma PrefixConsistent(r: Receiver, ts: seq<Taking>, i: nat)
    requires Consistent(r) && Proper(ts) && i <= |ts|
    ensures Consistent(TakeAll(r, ts[..i]))
  {
    AllConsistent(r, ts[..i]);
  }

  lemma TakeNext(r: Receiver, ts: seq<Taking>, i: nat)
    requires i < |ts|
    ensures TakeAll(r, ts[..i + 1]) == Take(TakeAll(r, ts[..i]), ts[i])
  {
    assert ts[..i + 1][..i] == ts[..i];
  }

  /** As long as nothing is late the FIFO is empty between receptions. */
  lemma {:induction false} DrainedBetween(r: Receiver, ts: seq<Taking>, i: nat)
    requires Drained(r) && i <= |ts| && forall k :: 0 <= k < i ==> NothingLate(r, ts, k)
    ensures Drained(TakeAll(r, ts[..i]))
    decreases i
  {
    if i > 0 {
      DrainedBetween(r, ts, i - 1);
      TakeNext(r, ts, i - 1);
      assert NothingLate(r, ts, i - 1);
    }
  }

  lemma OwnUpTo(r: Receiver, ts: seq<Taking>, i: nat)
    requires Drained(r) && Proper(ts) && i < |ts| && forall k :: 0 <= k < i ==> NothingLate(r, ts, k)
    ensures Consistent(TakeAll(r, ts[..i])) && (StoresOwn(r, ts, i) <==> NothingLate(r, ts, i))
  {
    DrainedBetween(r, ts, i);
    OwnIffDrained(TakeAll(r, ts[..i]), ts[i]);
  }

  lemma {:induction false} OwnMeansNoneLate(r: Receiver, ts: seq<Taking>, i: nat)
    requires Drained(r) && Proper(ts) && AllOwn(r, ts) && i <= |ts|
    ensures forall k :: 0 <= k < i ==> NothingLate(r, ts, k)
    decreases i
  {
    if i > 0 {
      OwnMeansNoneLate(r, ts, i - 1);
      OwnUpTo(r, ts, i - 1);
    }
  }

  /**
    Over any receptions, with any buffers and any moments at which the DMA ends and the machine
    is stopped: every buffer holds exactly the bytes received on its own line if and only if no
    word is ever pushed after the last one that was read.
  */
  lemma OwnBytesIffNoneLate(r: Receiver, ts: seq<Taking>)
    requires Drained(r) && Proper(ts)
    ensures AllOwn(r, ts) <==> NoneLate(r, ts)
  {
    if AllOwn(r, ts) {
      OwnMeansNoneLate(r, ts, |ts|);
    }
    if NoneLate(r, ts) {
      forall i | 0 <= i < |ts| ensures Consistent(TakeAll(r, ts[..i])) && StoresOwn(r, ts, i) {
        OwnUpTo(r, ts, i);
      }
    }
  }

  /** A reception ended by its break leaves nothing, if the buffer is long enough. */
  lemma BreakLeavesNothing(fs: seq<Frame>, b: real, w: real, c: nat, r: Receiver, t: Taking)
    requires Drained(r) && t.e <= t.n
    requires PacketState(fs, b, w, c, r.sm, RxRun(r.sm, t.line, t.e), t.e)
    requires PacketState(fs, b, w, c, r.sm, RxRun(r.sm, t.line, t.n), t.n)
    requires RxRun(r.sm, t.line, t.e).irqs > r.sm.irqs && |PacketBytes(fs, b, c)| <= t.len
    ensures Drained(Take(r, t)) && Stored(r, t) == Own(r, t) == PacketBytes(fs, b, c)
  {
    var early, late := RxRun(r.sm, t.line, t.e), RxRun(r.sm, t.line, t.n);
    RunGrows(r.sm, t.line, t.e, t.n);
    FlagStays(r.sm, t.line, t.e, t.n);
    assert |early.rx[|r.sm.rx|..]| == |Bytes(early.rx[|r.sm.rx|..])| == |PacketBytes(fs, b, c)|;
    assert |late.rx[|r.sm.rx|..]| == |Bytes(late.rx[|r.sm.rx|..])| == |PacketBytes(fs, b, c)|;
    OwnIffDrained(r, t);
  }

  lemma {:induction false} FlagStays(sm: Sm, line: Line, e: nat, n: nat)
    requires e <= n
    ensures RxRun(sm, line, e).irqs <= RxRun(sm, line, n).irqs
    decreases n
  {
    if e < n { FlagStays(sm, line, e, n - 1); }
  }

  // ---------- a late byte ----------

  /** Two bytes at 8 cycles a symbol, and a receiver with room for one that is stopped after the second. */
  const TWO: seq<Frame> := [Frame(9.0, 1), Frame(89.0, 2)]

  function TwoBytes(): Taking {
    Taking(n => Level(TWO, 8.0, n as real), 1, 180, 180)
  }

  /** The second byte becomes the first one that the next reception stores, whatever is on its line. */
  lemma LateByteComesFirst(next: Taking)
    requires next.e <= next.n && next.len > 0
    ensures var r := Receiver(FRESH, 0);
            var r' := Take(r, TwoBytes());
            && Stored(r, TwoBytes()) == [1] && Own(r, TwoBytes()) == [1, 2]
            && Consistent(r') && Stored(r', next) != [] && Stored(r', next)[0] == 2
  {
    hide RxRun, Level;
    var r, t := Receiver(FRESH, 0), TwoBytes();
    TwoArrive();
    var sm := RxRun(FRESH, t.line, 180);
    var r' := Take(r, t);
    RunGrows(r'.sm, next.line, 0, next.e);
    ZeroCycles(r'.sm, next.line);
    ZeroCycles(FRESH, t.line);
    assert Bytes(sm.rx)[0] == 1 && Bytes(sm.rx)[1] == 2;
    var later := RxRun(r'.sm, next.line, next.e).rx;
    assert later[..2] == sm.rx;
    assert later[1] == sm.rx[1];
  }

  lemma ZeroCycles(sm: Sm, line: Line)
    ensures RxRun(sm, line, 0) == sm
  {
  }

  lemma TwoArrive()
    ensures Bytes(RxRun(FRESH, TwoBytes().line, 180).rx) == [1, 2]
  {
    hide RxRun, Level;
    NewIsStopped(TWO);
    assert Shows(TwoBytes().line, TWO, 8.0, 180);
    StreamReceived(TWO, 8.0, 1.0, TwoBytes().line, FRESH, Seek, 180);
    var sm := RxRun(FRESH, TwoBytes().line, 180);
    assert sm.rx[|FRESH.rx|..] == sm.rx;
    assert Payload(TWO) == [1, 2];
    assert |sm.rx| == |Bytes(sm.rx)|;
    assert TWO[1].start + 80.0 <= 180.0;
  }

  lemma NewIsStopped(fs: seq<Frame>)
    requires fs != [] && fs[0].start == 9.0
    ensures Stopped(FRESH, Seek) && InTime(Seek, fs, 1.0)
  {
  }
}
