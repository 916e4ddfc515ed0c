/**
  The line as a function of time, and what the receiver makes of it.

  Time is measured in receiver cycles: receiver cycle `n` samples the line at time `n`.  A
  frame is a byte sent from time `start` on: one low symbol, eight data symbols, one high
  symbol, each lasting `p` cycles.  Between frames the line is high.
*/
module Wave {
  import opened Common
  import opened Sws

  datatype Frame = Frame(start: real, data: byte)

  /** Level of symbol `k` of a frame. */
  predicate Symbol(b: byte, k: int) {
    if k == 0 then false else if 1 <= k <= 8 then Bit(b, k - 1) else true
  }

  function SymbolIndex(u: real, p: real): int
    requires p > 0.0
  {
    (u / p).Floor
  }

  /** Level of the line at time `t`: decided by the last frame that has started. */
  predicate Level(fs: seq<Frame>, p: real, t: real)
    requires p > 0.0
  {
    if fs == [] then true
    else
      var f := fs[|fs| - 1];
      if t < f.start then Level(fs[..|fs| - 1], p, t)
      else Symbol(f.data, SymbolIndex(t - f.start, p))
  }

  /** Frames do not overlap; any gap between them is allowed. */
  ghost predicate Spaced(fs: seq<Frame>, p: real) {
    forall i :: 0 <= i < |fs| - 1 ==> fs[i].start + 10.0 * p <= fs[i + 1].start
  }

  function Payload(fs: seq<Frame>): seq<byte> {
    seq(|fs|, i requires 0 <= i < |fs| => fs[i].data)
  }

  lemma NegativeTimes(x: real, p: real)
    requires p > 0.0 && x < 0.0
    ensures x * p < 0.0
  {
  }

  lemma QuotientAtLeast(u: real, p: real, a: real)
    requires p > 0.0
    ensures a * p <= u <==> a <= u / p
  {
    var q := u / p;
    assert (q - a) * p == u - a * p;
    if q < a { NegativeTimes(q - a, p); }
    if a < q { NegativeTimes(a - q, p); assert (a - q) * p == a * p - u; }
  }

  lemma SymbolAt(u: real, p: real, k: int)
    requires p > 0.0
    ensures SymbolIndex(u, p) == k <==> k as real * p <= u < (k + 1) as real * p
  {
    QuotientAtLeast(u, p, k as real);
    QuotientAtLeast(u, p, (k + 1) as real);
  }

  lemma {:induction false} SpacedFrom(fs: seq<Frame>, p: real, i: nat, j: nat)
    requires p > 0.0 && Spaced(fs, p) && i < j < |fs|
    ensures fs[i].start + 10.0 * p <= fs[j].start
    decreases j
  {
    assert fs[j - 1].start + 10.0 * p <= fs[j - 1 + 1].start;
    if i < j - 1 { SpacedFrom(fs, p, i, j - 1); }
  }

  /** From the start of frame `i` to the start of the next one, frame `i` decides. */
  lemma {:induction false} LevelInFrame(fs: seq<Frame>, p: real, t: real, i: nat)
    requires p > 0.0 && Spaced(fs, p) && i < |fs|
    requires fs[i].start <= t && (i + 1 < |fs| ==> t < fs[i + 1].start)
    ensures Level(fs, p, t) == Symbol(fs[i].data, SymbolIndex(t - fs[i].start, p))
    decreases |fs|
  {
    var n := |fs| - 1;
    if i < n {
      if i + 1 < n { SpacedFrom(fs, p, i + 1, n); }
      SpacedPrefix(fs, p, n);
      LevelInFrame(fs[..n], p, t, i);
    }
  }

  lemma SpacedPrefix(fs: seq<Frame>, p: real, n: nat)
    requires Spaced(fs, p) && n <= |fs|
    ensures Spaced(fs[..n], p)
  {
    forall i | 0 <= i < n - 1 ensures fs[..n][i].start + 10.0 * p <= fs[..n][i + 1].start {
      assert fs[i].start + 10.0 * p <= fs[i + 1].start;
    }
  }

  lemma {:induction false} LevelBefore(fs: seq<Frame>, p: real, t: real)
    requires p > 0.0 && Spaced(fs, p) && (fs != [] ==> t < fs[0].start)
    ensures Level(fs, p, t)
    decreases |fs|
  {
    if fs != [] {
      var n := |fs| - 1;
      if 0 < n { SpacedFrom(fs, p, 0, n); }
      SpacedPrefix(fs, p, n);
      LevelBefore(fs[..n], p, t);
    }
  }

  /** After the last data symbol of frame `i` the line stays high until the next start. */
  lemma LevelAfter(fs: seq<Frame>, p: real, t: real, i: nat)
    requires p > 0.0 && Spaced(fs, p) && i < |fs|
    requires fs[i].start + 9.0 * p <= t && (i + 1 < |fs| ==> t < fs[i + 1].start)
    ensures Level(fs, p, t)
  {
    LevelInFrame(fs, p, t, i);
    QuotientAtLeast(t - fs[i].start, p, 9.0);
  }

  /** Symbol `k` of frame `i` is what the line shows during the `k`-th symbol time. */
  lemma LevelOfSymbol(fs: seq<Frame>, p: real, t: real, i: nat, k: nat)
    requires p > 0.0 && Spaced(fs, p) && i < |fs| && k <= 9
    requires k as real * p <= t - fs[i].start < (k + 1) as real * p
    ensures Level(fs, p, t) == Symbol(fs[i].data, k)
  {
    if i + 1 < |fs| {
      assert fs[i].start + 10.0 * p <= fs[i + 1].start;
      assert (k + 1) as real * p <= 10.0 * p;
    }
    LevelInFrame(fs, p, t, i);
    SymbolAt(t - fs[i].start, p, k);
  }
}
