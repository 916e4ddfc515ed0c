/**
  The loops that set pins and pin directions through `set` instructions forced into a state
  machine.  A machine can set at most five consecutive pins at a time, as its pin control
  register says; pin numbers wrap at 32.
*/
module Pins {
  /** Pin numbers wrap around like 5-bit words. */
  type Pin = bv5

  datatype Dest = ToPins | ToDirs

  /** The fields of the pin control register used here; `others` stands for the remaining ones. */
  datatype Pinctrl = Pinctrl(setCount: nat, setBase: Pin, others: nat)

  function One(j: Pin): bv32 {
    1 << j
  }

  predicate Bit(w: bv32, j: Pin) {
    (w >> j) & 1 == 1
  }

  function SetBit(w: bv32, j: Pin, v: bool): bv32 {
    if v then w | One(j) else w & !One(j)
  }

  /** Effect of `set` with `value` on `n` pins from `base` on. */
  function SetPins(w: bv32, base: Pin, n: nat, value: bv5): bv32
    decreases n
  {
    if n == 0 then w
    else SetPins(SetBit(w, base, value & 1 == 1), base + 1, n - 1, value >> 1)
  }

  // ---------- bits ----------

  lemma BitCleared(m: bv32, c: Pin, j: Pin)
    ensures Bit(m & !One(c), j) <==> Bit(m, j) && j != c
  {
  }

  lemma BitAdded(m: bv32, c: Pin, j: Pin)
    ensures Bit(m | One(c), j) <==> Bit(m, j) || j == c
  {
  }

  lemma BitOfSetBit(w: bv32, j: Pin, v: bool, k: Pin)
    ensures Bit(SetBit(w, j, v), k) <==> if k == j then v else Bit(w, k)
  {
    BitCleared(w, j, k);
    BitAdded(w, j, k);
    hide Bit, One;
  }

  /** No bit below `c` is set. */
  predicate BelowClear(m: bv32, c: Pin) {
    m & (One(c) - 1) == 0
  }

  lemma NextBit(m: bv32, j: Pin)
    requires m != 0 && BelowClear(m, j) && !Bit(m, j)
    ensures j < 31 && BelowClear(m, j + 1)
  {
  }

  /** __builtin_ctz: the lowest set bit. */
  method Ctz(m: bv32) returns (c: Pin)
    requires m != 0
    ensures Bit(m, c) && BelowClear(m, c)
  {
    c := 0;
    assert BelowClear(m, 0);
    while !Bit(m, c)
      invariant BelowClear(m, c)
      decreases 31 - c
    {
      hide *;
      NextBit(m, c);
      c := c + 1;
    }
  }

  /** m & (m - 1) clears exactly the lowest set bit. */
  lemma ClearsLowest(m: bv32, c: Pin)
    requires Bit(m, c) && BelowClear(m, c)
    ensures m & (m - 1) == m & !One(c)
  {
  }

  // ---------- masks ----------

  /** `w` with the pins in `mask` taken from `values`. */
  function Masked(w: bv32, values: bv32, mask: bv32): bv32 {
    (w & !mask) | (values & mask)
  }

  lemma MixedBit(w: bv32, values: bv32, mask: bv32, j: Pin)
    ensures Bit((w & !mask) | (values & mask), j) <==> if Bit(mask, j) then Bit(values, j) else Bit(w, j)
  {
  }

  /** What masking means pin by pin. */
  lemma MaskedBit(w: bv32, values: bv32, mask: bv32, j: Pin)
    ensures Bit(Masked(w, values, mask), j) <==> if Bit(mask, j) then Bit(values, j) else Bit(w, j)
  {
    hide Bit;
    MixedBit(w, values, mask, j);
  }

  lemma XorBit(a: bv32, b: bv32, j: Pin)
    ensures Bit(a ^ b, j) <==> Bit(a, j) != Bit(b, j)
  {
  }

  lemma BitInside(m: bv32, mask: bv32, j: Pin)
    requires m & !mask == 0 && Bit(m, j)
    ensures Bit(mask, j)
  {
  }

  lemma SomeBit(m: bv32) returns (c: Pin)
    requires m != 0
    ensures Bit(m, c)
  {
    c := 0;
    assert BelowClear(m, 0);
    while !Bit(m, c)
      invariant BelowClear(m, c)
      decreases 31 - c
    {
      hide *;
      NextBit(m, c);
      c := c + 1;
    }
  }

  lemma NotEqual(a: bv32, b: bv32)
    requires a != b
    ensures a ^ b != 0
  {
  }

  /** Words with the same bits are the same. */
  lemma SameBits(a: bv32, b: bv32)
    requires forall j: Pin :: Bit(a, j) <==> Bit(b, j)
    ensures a == b
  {
    hide Bit;
    if a != b {
      NotEqual(a, b);
      var c := SomeBit(a ^ b);
      XorBit(a, b, c);
    }
  }

  /** The pins set once `m` are still to be set. */
  function Partly(w: bv32, values: bv32, mask: bv32, m: bv32): bv32 {
    Masked(w, values, mask ^ m)
  }

  lemma PartlyBit(w: bv32, values: bv32, mask: bv32, m: bv32, j: Pin)
    requires m & !mask == 0
    ensures Bit(Partly(w, values, mask, m), j) <==> if Bit(mask, j) && !Bit(m, j) then Bit(values, j) else Bit(w, j)
  {
    hide Bit, Masked;
    MaskedBit(w, values, mask ^ m, j);
    XorBit(mask, m, j);
    if Bit(m, j) { BitInside(m, mask, j); }
  }

  /** One pin more. */
  lemma MaskStep(w: bv32, values: bv32, mask: bv32, m: bv32, c: Pin)
    requires m & !mask == 0 && Bit(m, c)
    ensures SetBit(Partly(w, values, mask, m), c, Bit(values, c)) == Partly(w, values, mask, m & !One(c))
  {
    hide Bit, SetBit, Partly, One;
    Fewer(mask, m, c);
    BitInside(m, mask, c);
    var a, b := SetBit(Partly(w, values, mask, m), c, Bit(values, c)), Partly(w, values, mask, m & !One(c));
    forall j: Pin ensures Bit(a, j) <==> Bit(b, j) {
      BitOfSetBit(Partly(w, values, mask, m), c, Bit(values, c), j);
      PartlyBit(w, values, mask, m, j);
      PartlyBit(w, values, mask, m & !One(c), j);
      BitCleared(m, c, j);
    }
    SameBits(a, b);
  }

  lemma Fewer(mask: bv32, m: bv32, c: Pin)
    requires m & !mask == 0 && Bit(m, c)
    ensures (m & !One(c)) & !mask == 0 && m & !One(c) < m
  {
  }

  /** Number of set bits at `j` and above. */
  function OnesFrom(m: bv32, j: Pin): nat
    decreases 31 - j
  {
    (if Bit(m, j) then 1 else 0) + if j < 31 then OnesFrom(m, j + 1) else 0
  }

  function Ones(m: bv32): nat {
    OnesFrom(m, 0)
  }

  lemma {:induction false} OneLess(m: bv32, c: Pin, j: Pin)
    requires Bit(m, c)
    ensures OnesFrom(m, j) == OnesFrom(m & !One(c), j) + if j <= c then 1 else 0
    decreases 31 - j
  {
    BitCleared(m, c, j);
    if j < 31 { OneLess(m, c, j + 1); }
  }

  lemma {:induction false} NoOnes(j: Pin)
    ensures OnesFrom(0, j) == 0
    decreases 31 - j
  {
    if j < 31 { NoOnes(j + 1); }
  }

  /** The pins in `m` are still to be set, those in `mask` and not in `m` have been. */
  ghost predicate Pending(was: bv32, values: bv32, mask: bv32, m: bv32, now: bv32) {
    m & !mask == 0 && now == Partly(was, values, mask, m)
  }

  lemma PendingAll(was: bv32, values: bv32, mask: bv32)
    ensures Pending(was, values, mask, mask, was)
  {
  }

  lemma PendingNone(was: bv32, values: bv32, mask: bv32, now: bv32)
    requires Pending(was, values, mask, 0, now)
    ensures now == Masked(was, values, mask) && Ones(0) == 0
  {
    NoOnes(0);
  }

  lemma PendingStep(was: bv32, values: bv32, mask: bv32, m: bv32, now: bv32, c: Pin)
    requires Pending(was, values, mask, m, now) && Bit(m, c) && BelowClear(m, c)
    ensures Pending(was, values, mask, m & (m - 1), SetBit(now, c, Bit(values, c)))
    ensures m & (m - 1) < m && Ones(m) == Ones(m & (m - 1)) + 1
  {
    hide Bit, SetBit, One, BelowClear, Partly;
    ClearsLowest(m, c);
    Fewer(mask, m, c);
    MaskStep(was, values, mask, m, c);
    OneLess(m, c, 0);
  }

  // ---------- consecutive pins ----------

  /** `count` pins from `pin` on set to `v`. */
  function FillRange(w: bv32, pin: Pin, count: nat, v: bool): bv32
    decreases count
  {
    if count == 0 then w else FillRange(SetBit(w, pin, v), pin + 1, count - 1, v)
  }

  /** The pins are (pin + i) mod 32 for i < count. */
  lemma {:induction false} FillRangeBit(w: bv32, pin: Pin, count: nat, v: bool, j: Pin)
    ensures Bit(FillRange(w, pin, count, v), j) <==> if (j - pin) as nat < count then v else Bit(w, j)
    decreases count
  {
    hide Bit, SetBit;
    if count > 0 {
      FillRangeBit(SetBit(w, pin, v), pin + 1, count - 1, v, j);
      BitOfSetBit(w, pin, v, j);
      Distance(j, pin);
    }
  }

  lemma Distance(j: Pin, pin: Pin)
    ensures (j - pin) as nat == if j == pin then 0 else (j - (pin + 1)) as nat + 1
  {
    if j != pin {
      var d := j - pin;
      assert d >= 1 && j - (pin + 1) == d - 1;
      assert (d - 1) as nat == d as nat - 1;
    }
  }

  /** Five pins at a time. */
  lemma FillFive(w: bv32, pin: Pin, count: nat, v: bool)
    requires count >= 5
    ensures FillRange(w, pin, count, v) == FillRange(FillRange(w, pin, 5, v), pin + 5, count - 5, v)
  {
    FillSplit(w, pin, count, v, 5, pin + 5);
  }

  lemma {:induction false} FillSplit(w: bv32, pin: Pin, count: nat, v: bool, n: nat, after: Pin)
    requires n <= count && n <= 5
    requires after == pin + if n == 0 then 0 else if n == 1 then 1 else if n == 2 then 2 else if n == 3 then 3
                            else if n == 4 then 4 else 5
    ensures FillRange(w, pin, count, v) == FillRange(FillRange(w, pin, n, v), after, count - n, v)
    decreases n
  {
    if n > 0 {
      FillSplit(SetBit(w, pin, v), pin + 1, count - 1, v, n - 1, after);
    }
  }

  /** A value of ones, or of zeroes, for as many pins as it has bits. */
  predicate Uniform(value: bv5, n: nat, v: bool) {
    if !v then value == 0
    else n <= (if value == 0x1f then 5 else if value == 0xf then 4 else if value == 7 then 3
               else if value == 3 then 2 else if value == 1 then 1 else 0)
  }

  lemma {:induction false} UniformFills(w: bv32, pin: Pin, n: nat, value: bv5, v: bool)
    requires Uniform(value, n, v)
    ensures SetPins(w, pin, n, value) == FillRange(w, pin, n, v)
    decreases n
  {
    if n > 0 {
      UniformFills(SetBit(w, pin, v), pin + 1, n - 1, value >> 1, v);
    }
  }

  class Machine {
    var pins: bv32     // output latch of the pins
    var dirs: bv32     // output enables
    var pinctrl: Pinctrl
    ghost var executed: nat

    constructor (pins: bv32, dirs: bv32, pinctrl: Pinctrl)
      ensures this.pins == pins && this.dirs == dirs && this.pinctrl == pinctrl && executed == 0
    {
      this.pins, this.dirs, this.pinctrl, executed := pins, dirs, pinctrl, 0;
    }

    ghost function Target(dest: Dest): bv32
      reads this
    {
      if dest.ToPins? then pins else dirs
    }

    /** Only the given target may differ. */
    twostate predicate Only(dest: Dest)
      reads this
    {
      if dest.ToPins? then dirs == old(dirs) else pins == old(pins)
    }

    /** pio_sm_exec of a `set` instruction. */
    method Exec(dest: Dest, value: bv5)
      modifies this`pins, this`dirs, this`executed
      ensures Target(dest) == SetPins(old(Target(dest)), pinctrl.setBase, pinctrl.setCount, value)
      ensures Only(dest) && executed == old(executed) + 1
    {
      var w, pin, rest := if dest.ToPins? then pins else dirs, pinctrl.setBase, value;
      for i := 0 to pinctrl.setCount
        invariant SetPins(w, pin, pinctrl.setCount - i, rest)
               == SetPins(old(Target(dest)), pinctrl.setBase, pinctrl.setCount, value)
      {
        w, pin, rest := SetBit(w, pin, rest & 1 == 1), pin + 1, rest >> 1;
      }
      if dest.ToPins? { pins := w; } else { dirs := w; }
      executed := executed + 1;
    }

    /** One pin takes its value, by a `set` that is told to set this pin only. */
    method SetPin(dest: Dest, base: Pin, values: bv32)
      modifies this
      ensures Target(dest) == SetBit(old(Target(dest)), base, Bit(values, base))
      ensures Only(dest) && executed == old(executed) + 1
    {
      hide SetBit;
      pinctrl := Pinctrl(1, base, 0);
      var v: bv5 := if (values >> base) & 1 == 1 then 1 else 0;
      SetOne(Target(dest), base, values, v);
      Exec(dest, v);
    }

    /** The loop over the pins of the mask, lowest first. */
    method SetEach(dest: Dest, values: bv32, mask: bv32)
      modifies this
      ensures Pending(old(Target(dest)), values, mask, 0, Target(dest))
      ensures Only(dest) && executed == old(executed) + Ones(mask) - Ones(0)
    {
      hide Pending, SetBit, Bit, One, BelowClear, Ones;
      var m := mask;
      ghost var was := Target(dest);
      PendingAll(was, values, mask);
      while m != 0
        invariant Pending(was, values, mask, m, Target(dest))
        invariant Only(dest) && executed + Ones(m) == old(executed) + Ones(mask)
        decreases m
      {
        var base := Ctz(m);
        PendingStep(was, values, mask, m, Target(dest), base);
        SetPin(dest, base, values);
        m := m & (m - 1);
      }
    }

    /**
      pio_sm_set_pins_with_mask_ and pio_sm_set_pindirs_with_mask_: the pins of the mask take the
      given values, one instruction each; the pin control register is restored.
    */
    method SetWithMask(dest: Dest, values: bv32, mask: bv32)
      modifies this
      ensures Target(dest) == Masked(old(Target(dest)), values, mask)
      ensures Only(dest) && pinctrl == old(pinctrl) && executed == old(executed) + Ones(mask)
    {
      hide Pending, Ones, Masked;
      var saved := pinctrl;
      SetEach(dest, values, mask);
      PendingNone(old(Target(dest)), values, mask, Target(dest));
      pinctrl := saved;
    }

    /** pio_sm_set_consecutive_pindirs_. */
    method SetConsecutivePindirs(pin: Pin, count: nat, isOut: bool)
      modifies this
      ensures dirs == FillRange(old(dirs), pin, count, isOut)
      ensures pins == old(pins) && pinctrl == old(pinctrl)
    {
      hide SetBit;
      var saved := pinctrl;
      var value: bv5 := if isOut then 0x1f else 0;
      var n, p := count, pin;
      while n > 5
        invariant FillRange(dirs, p, n, isOut) == FillRange(old(dirs), pin, count, isOut)
        invariant pins == old(pins)
      {
        pinctrl := Pinctrl(5, p, 0);
        UniformFills(dirs, p, 5, value, isOut);
        FillFive(dirs, p, n, isOut);
        Exec(ToDirs, value);
        n := n - 5;
        p := p + 5;
      }
      pinctrl := Pinctrl(n, p, 0);
      UniformFills(dirs, p, n, value, isOut);
      Exec(ToDirs, value);
      pinctrl := saved;
    }
  }

  /** `set` on a single pin. */
  lemma SetOne(w: bv32, base: Pin, values: bv32, v: bv5)
    requires v == if (values >> base) & 1 == 1 then 1 else 0
    ensures SetPins(w, base, 1, v) == SetBit(w, base, Bit(values, base))
  {
  }
}
