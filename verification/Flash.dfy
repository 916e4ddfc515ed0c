/**
  The one-page write-back cache over NOR flash.

  Programming NOR can only clear bits: it leaves the bitwise AND of old and new contents;
  erasing a sector sets all its bits.  Addresses are offsets from the start of flash.  The
  functions give the effect of each operation as a value, `None` where an assertion of the
  driver fails; the class `Cache` does the same in place and is proved to agree.
*/
module Flash {
  import opened Common

  const PAGE: nat := 256
  const SECTOR: nat := 4096
  const STORAGE_SIZE: nat := 128 * 1024
  const STORAGE_OFFSET: nat := 1024 * 1024 - STORAGE_SIZE
  const SIZE: nat := STORAGE_OFFSET + STORAGE_SIZE

  /** `last` is the address of the buffered page, 0 when there is none. */
  datatype State = State(nor: seq<bv8>, last: nat, buf: seq<bv8>)

  function And(a: seq<bv8>, b: seq<bv8>): (r: seq<bv8>)
    requires |a| == |b|
  {
    seq(|a|, i requires 0 <= i < |a| => a[i] & b[i])
  }

  function Blank(n: nat): (s: seq<bv8>)
    ensures |s| == n
  {
    seq(n, _ => 0xff)
  }

  /** Replace the bytes from `off` on. */
  function Overlay(v: seq<bv8>, off: nat, src: seq<bv8>): (r: seq<bv8>)
    requires off + |src| <= |v|
    ensures |r| == |v|
  {
    v[..off] + src + v[off + |src|..]
  }

  /** A buffered byte differs from flash only where flash is still erased. */
  ghost predicate Valid(f: State) {
    && |f.nor| == SIZE && |f.buf| == PAGE
    && f.last % PAGE == 0 && f.last + PAGE <= SIZE
    && (f.last != 0 ==> forall i :: 0 <= i < PAGE ==> f.buf[i] == f.nor[f.last + i] || f.nor[f.last + i] == 0xff)
  }

  /** What the flash holds as far as the writer is concerned. */
  function View(f: State): (v: seq<bv8>)
    requires Valid(f)
    ensures |v| == SIZE
  {
    if f.last == 0 then f.nor else Overlay(f.nor, f.last, f.buf)
  }

  // ---------- operations ----------

  /** flash_range_program. */
  function NorProgram(nor: seq<bv8>, addr: nat, data: seq<bv8>): seq<bv8>
    requires addr + |data| <= |nor|
  {
    Overlay(nor, addr, And(nor[addr..addr + |data|], data))
  }

  /** flash_range_erase. */
  function NorErase(nor: seq<bv8>, addr: nat, count: nat): seq<bv8>
    requires addr + count <= |nor|
  {
    Overlay(nor, addr, Blank(count))
  }

  /** flash_sync. */
  function Sync(f: State): State
    requires Valid(f)
  {
    if f.last == 0 then f else f.(nor := NorProgram(f.nor, f.last, f.buf), last := 0)
  }

  /** The page becomes the buffered one. */
  function Fetch(f: State, page: nat): State
    requires Valid(f) && page + PAGE <= SIZE
  {
    if f.last == page then f
    else
      var s := Sync(f);
      assert |s.nor| == SIZE;
      s.(last := page, buf := s.nor[page..page + PAGE])
  }

  predicate AllErased(nor: seq<bv8>, addr: nat, n: nat)
    requires addr + n <= |nor|
  {
    forall a :: addr <= a < addr + n ==> nor[a] == 0xff
  }

  /** flash_program_page, for a non-empty chunk inside the storage area. */
  function ProgramPage(f: State, addr: nat, src: seq<bv8>): Option<State>
    requires Valid(f) && src != [] && STORAGE_OFFSET <= addr && addr + |src| <= SIZE
  {
    if |src| >= PAGE || addr / PAGE != (addr + |src| - 1) / PAGE then None
    else
      var page := addr / PAGE * PAGE;
      FetchValid(f, page);
      var g := Fetch(f, page);
      if AllErased(g.nor, addr, |src|) then Some(g.(buf := Overlay(g.buf, addr % PAGE, src))) else None
  }

  /** Bytes of the first chunk of a range. */
  function ChunkSize(off: nat, len: nat): (n: nat)
    requires len > 0
    ensures 0 < n <= len
  {
    var room := PAGE - off % PAGE;
    if room > len then len else room
  }

  /** The loop of flash_program. */
  function ProgramChunks(f: State, off: nat, src: seq<bv8>): Option<State>
    requires Valid(f) && STORAGE_OFFSET <= off && off + |src| <= SIZE
    decreases |src|
  {
    if src == [] then Some(f)
    else
      var n := ChunkSize(off, |src|);
      match ProgramPage(f, off, src[..n])
      case None => None
      case Some(g) => PageProgrammed(f, off, src[..n]); ProgramChunks(g, off + n, src[n..])
  }

  predicate InStorage(diff: int, len: nat) {
    0 <= diff && diff + len <= STORAGE_SIZE
  }

  /** flash_program at `diff` from the start of the storage area. */
  function Program(f: State, diff: int, src: seq<bv8>): Option<State>
    requires Valid(f)
  {
    if InStorage(diff, |src|) && diff % 8 == 0 then ProgramChunks(f, diff + STORAGE_OFFSET, src) else None
  }

  /** flash_erase of a sector. */
  function Erase(f: State, diff: int): Option<State>
    requires Valid(f)
  {
    if InStorage(diff, SECTOR) && diff % SECTOR == 0
    then Some(f.(nor := NorErase(f.nor, diff + STORAGE_OFFSET, SECTOR)))
    else None
  }

  // ---------- the invariant ----------

  /** Programming the buffered page gives exactly the buffer: no bit has to be set. */
  lemma SyncWritesBuffer(f: State)
    requires Valid(f)
    ensures Sync(f).nor == View(f) && Sync(f).last == 0 && Valid(Sync(f)) && View(Sync(f)) == View(f)
  {
    if f.last != 0 {
      var page := f.nor[f.last..f.last + PAGE];
      forall i | 0 <= i < PAGE ensures And(page, f.buf)[i] == f.buf[i] {
        AndSubset(page[i], f.buf[i]);
      }
      assert And(page, f.buf) == f.buf;
    }
  }

  lemma AndSubset(a: bv8, b: bv8)
    requires b == a || a == 0xff
    ensures a & b == b
  {
  }

  lemma FetchValid(f: State, page: nat)
    requires Valid(f) && page % PAGE == 0 && page + PAGE <= SIZE
    ensures Valid(Fetch(f, page)) && View(Fetch(f, page)) == View(f)
  {
    SyncWritesBuffer(f);
    var g := Fetch(f, page);
    if f.last != page && page != 0 {
      assert Overlay(g.nor, page, g.nor[page..page + PAGE]) == g.nor;
    }
  }

  /** The erased test looks at flash, not at the buffer, for the page that is buffered. */
  predicate Erased(f: State, addr: nat, n: nat)
    requires Valid(f) && addr + n <= SIZE
  {
    AllErased(if f.last == addr / PAGE * PAGE then f.nor else View(f), addr, n)
  }

  /** A chunk inside one page: when it is accepted, and what it does to the view. */
  lemma PageProgrammed(f: State, addr: nat, src: seq<bv8>)
    requires Valid(f) && src != [] && STORAGE_OFFSET <= addr && addr + |src| <= SIZE
    ensures ProgramPage(f, addr, src).Some? <==>
            |src| < PAGE && addr / PAGE == (addr + |src| - 1) / PAGE && Erased(f, addr, |src|)
    ensures ProgramPage(f, addr, src).Some? ==>
            var g := ProgramPage(f, addr, src).value;
            && Valid(g) && g.last == addr / PAGE * PAGE
            && View(g) == Overlay(View(f), addr, src)
            && g.nor == (if f.last == addr / PAGE * PAGE then f.nor else View(f))
  {
    var page := addr / PAGE * PAGE;
    assert page % PAGE == 0 && page + PAGE <= SIZE && page > 0;
    FetchValid(f, page);
    SyncWritesBuffer(f);
    var g := Fetch(f, page);
    if |src| < PAGE && addr / PAGE == (addr + |src| - 1) / PAGE && AllErased(g.nor, addr, |src|) {
      Buffered(g, addr, src);
    }
  }

  /** Writing into the buffer over erased flash. */
  lemma Buffered(g: State, addr: nat, src: seq<bv8>)
    requires Valid(g) && g.last != 0 && g.last == addr / PAGE * PAGE
    requires addr % PAGE + |src| <= PAGE && addr + |src| <= SIZE
    requires AllErased(g.nor, addr, |src|)
    ensures var h := g.(buf := Overlay(g.buf, addr % PAGE, src)); Valid(h) && View(h) == Overlay(View(g), addr, src)
  {
    var dp := addr % PAGE;
    assert addr == g.last + dp;
    var h := g.(buf := Overlay(g.buf, dp, src));
    forall i | 0 <= i < PAGE ensures h.buf[i] == h.nor[h.last + i] || h.nor[h.last + i] == 0xff {
      if dp <= i < dp + |src| {
        assert g.nor[g.last + i] == 0xff;
      } else {
        assert h.buf[i] == g.buf[i];
      }
    }
    OverlayTwice(g.nor, g.last, g.buf, dp, src);
  }

  lemma OverlayTwice(v: seq<bv8>, page: nat, buf: seq<bv8>, dp: nat, src: seq<bv8>)
    requires page + |buf| <= |v| && dp + |src| <= |buf|
    ensures Overlay(v, page, Overlay(buf, dp, src)) == Overlay(Overlay(v, page, buf), page + dp, src)
  {
  }

  // ---------- flash_program ----------

  /** The range covers a whole aligned page. */
  ghost predicate CoversPage(off: nat, len: nat) {
    exists p: nat :: p % PAGE == 0 && off <= p && p + PAGE <= off + len
  }

  /** Every byte of the range is erased, in flash for the buffered page if the range begins there. */
  ghost predicate RangeErased(f: State, off: nat, len: nat)
    requires Valid(f) && off + len <= SIZE
  {
    forall a :: off <= a < off + len ==>
      (if a / PAGE == off / PAGE && f.last == a / PAGE * PAGE then f.nor[a] else View(f)[a]) == 0xff
  }

  lemma CoverAfterChunk(off: nat, len: nat)
    requires len > 0
    ensures var n := ChunkSize(off, len);
            && n <= PAGE && off / PAGE == (off + n - 1) / PAGE
            && (n < len ==> (off + n) % PAGE == 0)
            && (CoversPage(off, len) <==> n == PAGE || CoversPage(off + n, len - n))
  {
    var n := ChunkSize(off, len);
    if n == PAGE { assert off % PAGE == 0 && off + PAGE <= off + len; }
    if CoversPage(off, len) && n < PAGE {
      var p: nat :| p % PAGE == 0 && off <= p && p + PAGE <= off + len;
      assert off / PAGE * PAGE < off <= p;
      assert n == PAGE - off % PAGE;
      assert off + n <= p;
    }
    if CoversPage(off + n, len - n) {
      var p: nat :| p % PAGE == 0 && off + n <= p && p + PAGE <= off + n + (len - n);
      assert off <= p && p + PAGE <= off + len;
    }
  }

  lemma ErasedSplit(f: State, off: nat, len: nat)
    requires Valid(f) && len > 0 && off + len <= SIZE
    ensures var n := ChunkSize(off, len);
            RangeErased(f, off, len) <==> Erased(f, off, n) && AllErased(View(f), off + n, len - n)
  {
    var n := ChunkSize(off, len);
    CoverAfterChunk(off, len);
    forall a | off <= a < off + len ensures a / PAGE == off / PAGE <==> a < off + n {
      if n < len && a >= off + n { assert (off + n) / PAGE > off / PAGE; }
    }
    var v := if f.last == off / PAGE * PAGE then f.nor else View(f);
    if RangeErased(f, off, len) {
      forall a | off <= a < off + n ensures v[a] == 0xff {
        assert a / PAGE == off / PAGE;
      }
      forall a | off + n <= a < off + n + (len - n) ensures View(f)[a] == 0xff {
        assert a / PAGE != off / PAGE;
      }
    }
  }

  /** After the first chunk the rest of the range begins a page that is not buffered. */
  lemma RestErased(f: State, g: State, off: nat, src: seq<bv8>)
    requires Valid(f) && Valid(g) && src != [] && off + |src| <= SIZE
    requires g.last == off / PAGE * PAGE
    requires View(g) == Overlay(View(f), off, src[..ChunkSize(off, |src|)])
    ensures var n := ChunkSize(off, |src|);
            RangeErased(g, off + n, |src| - n) <==> AllErased(View(f), off + n, |src| - n)
  {
    var n := ChunkSize(off, |src|);
    CoverAfterChunk(off, |src|);
    forall a | off + n <= a < off + |src|
      ensures View(g)[a] == View(f)[a] && g.last != a / PAGE * PAGE
    {
      assert a / PAGE != off / PAGE;
    }
  }

  lemma OverlaySplit(v: seq<bv8>, off: nat, src: seq<bv8>, n: nat)
    requires off + |src| <= |v| && n <= |src|
    ensures Overlay(Overlay(v, off, src[..n]), off + n, src[n..]) == Overlay(v, off, src)
  {
  }

  /** One turn of the loop of flash_program. */
  lemma OneChunk(f: State, off: nat, src: seq<bv8>, n: nat)
    requires Valid(f) && STORAGE_OFFSET <= off && off + |src| <= SIZE
    requires src != [] && n == ChunkSize(off, |src|)
    ensures var g := ProgramPage(f, off, src[..n]);
            && (g.None? ==> ProgramChunks(f, off, src) == None)
            && (g.Some? ==> Valid(g.value) && ProgramChunks(f, off, src) == ProgramChunks(g.value, off + n, src[n..]))
  {
    hide Valid, View, ProgramPage, Overlay, Erased;
    PageProgrammed(f, off, src[..n]);
  }

  lemma NoChunk(f: State, off: nat)
    requires Valid(f) && STORAGE_OFFSET <= off <= SIZE
    ensures ProgramChunks(f, off, []) == Some(f) && View(f) == Overlay(View(f), off, [])
  {
  }

  /** When a range can be programmed: it covers no whole page and is erased. */
  ghost predicate Accepts(f: State, off: nat, len: nat) {
    && Valid(f) && STORAGE_OFFSET <= off && off + len <= SIZE
    && !CoversPage(off, len) && RangeErased(f, off, len)
  }

  /** That condition, carried over one turn of the loop. */
  lemma ChunkStep(f: State, off: nat, src: seq<bv8>, n: nat)
    requires Valid(f) && STORAGE_OFFSET <= off && off + |src| <= SIZE
    requires src != [] && n == ChunkSize(off, |src|)
    ensures var p := ProgramPage(f, off, src[..n]);
            Accepts(f, off, |src|) <==> p.Some? && Accepts(p.value, off + n, |src| - n)
  {
    hide Valid, CoversPage, RangeErased, AllErased, Erased, View, Overlay, ProgramPage, Blank, And, ChunkSize;
    CoverAfterChunk(off, |src|);
    ErasedSplit(f, off, |src|);
    PageProgrammed(f, off, src[..n]);
    if ProgramPage(f, off, src[..n]).Some? {
      RestErased(f, ProgramPage(f, off, src[..n]).value, off, src);
    }
  }

  /**
    flash_program is accepted exactly when the range covers no whole page (a whole page trips
    the length assertion of the page routine) and is erased; then the view is the old one with
    the range replaced.
  */
  lemma ChunksProgrammed(f: State, off: nat, src: seq<bv8>)
    requires Valid(f) && STORAGE_OFFSET <= off && off + |src| <= SIZE
    ensures ProgramChunks(f, off, src).Some? <==> Accepts(f, off, |src|)
    ensures ProgramChunks(f, off, src).Some? ==>
            var g := ProgramChunks(f, off, src).value; Valid(g) && View(g) == Overlay(View(f), off, src)
  {
    ChunksAccepted(f, off, src);
    if ProgramChunks(f, off, src).Some? {
      ChunksOverlay(f, off, src);
    }
  }

  lemma NothingAccepted(f: State, off: nat)
    requires Valid(f) && STORAGE_OFFSET <= off <= SIZE
    ensures ProgramChunks(f, off, []).Some? && Accepts(f, off, 0)
  {
    hide View;
  }

  lemma {:induction false} ChunksAccepted(f: State, off: nat, src: seq<bv8>)
    requires Valid(f) && STORAGE_OFFSET <= off && off + |src| <= SIZE
    ensures ProgramChunks(f, off, src).Some? <==> Accepts(f, off, |src|)
    decreases |src|
  {
    hide *;
    if src == [] {
      NothingAccepted(f, off);
    } else {
      var n := ChunkSize(off, |src|);
      OneChunk(f, off, src, n);
      ChunkStep(f, off, src, n);
      if ProgramPage(f, off, src[..n]).Some? {
        ChunksAccepted(ProgramPage(f, off, src[..n]).value, off + n, src[n..]);
      }
    }
  }

  lemma {:induction false} ChunksOverlay(f: State, off: nat, src: seq<bv8>)
    requires Valid(f) && STORAGE_OFFSET <= off && off + |src| <= SIZE
    requires ProgramChunks(f, off, src).Some?
    ensures var g := ProgramChunks(f, off, src).value; Valid(g) && View(g) == Overlay(View(f), off, src)
    decreases |src|
  {
    hide *;
    if src == [] {
      NoChunk(f, off);
    } else {
      var n := ChunkSize(off, |src|);
      OneChunk(f, off, src, n);
      PageProgrammed(f, off, src[..n]);
      ChunksOverlay(ProgramPage(f, off, src[..n]).value, off + n, src[n..]);
      OverlaySplit(View(f), off, src, n);
    }
  }

  /** flash_program, with its assertions on the range. */
  lemma ProgramExact(f: State, diff: int, src: seq<bv8>)
    requires Valid(f)
    ensures Program(f, diff, src).Some? <==>
            && 0 <= diff && diff + |src| <= STORAGE_SIZE && diff % 8 == 0
            && !CoversPage(diff + STORAGE_OFFSET, |src|) && RangeErased(f, diff + STORAGE_OFFSET, |src|)
    ensures Program(f, diff, src).Some? ==>
            var g := Program(f, diff, src).value;
            Valid(g) && View(g) == Overlay(View(f), diff + STORAGE_OFFSET, src)
  {
    if InStorage(diff, |src|) && diff % 8 == 0 {
      ChunksProgrammed(f, diff + STORAGE_OFFSET, src);
    }
  }

  // ---------- flash_erase ----------

  /** The sector does not hold the unsynced page. */
  predicate Clear(f: State, sector: nat) {
    f.last == 0 || f.last < sector || sector + SECTOR <= f.last
  }

  /** Erasing behind the cache keeps the invariant: it only blanks flash. */
  lemma EraseKeepsValid(f: State, diff: int)
    requires Valid(f) && Erase(f, diff).Some?
    ensures Valid(Erase(f, diff).value)
  {
    var g := Erase(f, diff).value;
    forall i | f.last != 0 && 0 <= i < PAGE ensures g.buf[i] == g.nor[g.last + i] || g.nor[g.last + i] == 0xff {
      assert f.buf[i] == f.nor[f.last + i] || f.nor[f.last + i] == 0xff;
    }
  }

  lemma OverlaysCommute(v: seq<bv8>, a: nat, x: seq<bv8>, b: nat, y: seq<bv8>)
    requires a + |x| <= |v| && b + |y| <= |v|
    requires a + |x| <= b || b + |y| <= a
    ensures Overlay(Overlay(v, a, x), b, y) == Overlay(Overlay(v, b, y), a, x)
  {
  }

  /** One range inside the other: the order matters unless they hold the same bytes. */
  lemma OverlaysNested(v: seq<bv8>, a: nat, x: seq<bv8>, b: nat, y: seq<bv8>)
    requires a <= b && b + |y| <= a + |x| <= |v|
    ensures Overlay(Overlay(v, a, x), b, y) == Overlay(Overlay(v, b, y), a, x) <==> x[b - a..b - a + |y|] == y
  {
    var l, r := Overlay(Overlay(v, a, x), b, y), Overlay(Overlay(v, b, y), a, x);
    assert l[b..b + |y|] == y;
    assert r == Overlay(v, a, x);
    assert r[b..b + |y|] == x[b - a..b - a + |y|];
    if x[b - a..b - a + |y|] == y {
      forall i | 0 <= i < |v| ensures l[i] == r[i] {
        if b <= i < b + |y| { assert y[i - b] == x[b - a..b - a + |y|][i - b]; }
      }
    }
  }

  /**
    Erasing behind the cache, accepted for every sector of the storage area.  It erases the view
    exactly when the sector does not hold the unsynced page, or when that page is blank anyway;
    otherwise the buffered bytes survive the erase and the next sync brings them back.
  */
  lemma EraseIsExact(f: State, diff: int)
    requires Valid(f)
    ensures Erase(f, diff).Some? <==> 0 <= diff <= STORAGE_SIZE - SECTOR && diff % SECTOR == 0
    ensures Erase(f, diff).Some? ==>
            var sector, g := diff + STORAGE_OFFSET, Erase(f, diff).value;
            && Valid(g) && g.buf == f.buf && g.last == f.last && g.nor == NorErase(f.nor, sector, SECTOR)
            && (View(g) == NorErase(View(f), sector, SECTOR) <==> Clear(f, sector) || f.buf == Blank(PAGE))
  {
    hide Overlay, Blank;
    if Erase(f, diff).Some? {
      EraseKeepsValid(f, diff);
      var sector := diff + STORAGE_OFFSET;
      if f.last == 0 {
      } else if Clear(f, sector) {
        OverlaysCommute(f.nor, sector, Blank(SECTOR), f.last, f.buf);
      } else {
        SectorHolds(f.last, sector);
        OverlaysNested(f.nor, sector, Blank(SECTOR), f.last, f.buf);
        BlankSlice(SECTOR, f.last - sector, PAGE);
      }
    }
  }

  /** Pages do not straddle sectors. */
  lemma SectorHolds(page: nat, sector: nat)
    requires page % PAGE == 0 && sector % PAGE == 0 && sector <= page < sector + SECTOR
    ensures page + PAGE <= sector + SECTOR
  {
    assert sector + SECTOR - page > 0;
  }

  lemma BlankSlice(n: nat, a: nat, m: nat)
    requires a + m <= n
    ensures Blank(n)[a..a + m] == Blank(m)
  {
  }

  // ---------- runs ----------

  datatype Op = DoProgram(diff: int, src: seq<bv8>) | DoSync | DoErase(diff: int)

  function Apply(f: State, op: Op): Option<State>
    requires Valid(f)
  {
    match op
    case DoProgram(diff, src) => Program(f, diff, src)
    case DoSync => Some(Sync(f))
    case DoErase(diff) => Erase(f, diff)
  }

  /** The same operation on a plain array of bytes. */
  function ApplyPlain(v: seq<bv8>, op: Op): seq<bv8>
    requires |v| == SIZE
  {
    match op
    case DoProgram(diff, src) =>
      if 0 <= diff && diff + |src| <= STORAGE_SIZE then Overlay(v, diff + STORAGE_OFFSET, src) else v
    case DoSync => v
    case DoErase(diff) => if 0 <= diff <= STORAGE_SIZE - SECTOR then NorErase(v, diff + STORAGE_OFFSET, SECTOR) else v
  }

  /** No erase of the unsynced page, unless it is blank. */
  predicate Gentle(f: State, op: Op) {
    op.DoErase? && 0 <= op.diff <= STORAGE_SIZE - SECTOR ==> Clear(f, op.diff + STORAGE_OFFSET) || f.buf == Blank(PAGE)
  }

  /** An accepted operation does to the view what it does to an array exactly if it is gentle. */
  lemma ApplyRefines(f: State, op: Op)
    requires Valid(f) && Apply(f, op).Some?
    ensures var g := Apply(f, op).value; Valid(g) && (View(g) == ApplyPlain(View(f), op) <==> Gentle(f, op))
  {
    hide View, Overlay, NorErase, Blank, Valid, CoversPage, RangeErased;
    match op
    case DoProgram(diff, src) => ProgramExact(f, diff, src);
    case DoSync => SyncWritesBuffer(f);
    case DoErase(diff) => EraseIsExact(f, diff);
  }

  /** A run of operations, as long as no assertion fails and no erase hits the unsynced page. */
  ghost function Execute(f: State, ops: seq<Op>): Option<State>
    ensures Execute(f, ops).Some? ==> Valid(Execute(f, ops).value)
    decreases |ops|
  {
    if !Valid(f) then None
    else if ops == [] then Some(f)
    else
      var g := Apply(f, ops[0]);
      if g.None? || !Gentle(f, ops[0]) then None else Execute(g.value, ops[1..])
  }

  ghost function ExecutePlain(v: seq<bv8>, ops: seq<Op>): (r: seq<bv8>)
    requires |v| == SIZE
    ensures |r| == SIZE
    decreases |ops|
  {
    if ops == [] then v else ExecutePlain(ApplyPlain(v, ops[0]), ops[1..])
  }

  /**
    Refinement.  Over every such run the view evolves as a plain array of bytes, and a sync at
    the end leaves exactly that array in the physical flash.
  */
  lemma {:induction false} CacheRefinesArray(f: State, ops: seq<Op>)
    requires Valid(f) && Execute(f, ops).Some?
    ensures var g := Execute(f, ops).value;
            View(g) == ExecutePlain(View(f), ops) && Sync(g).nor == ExecutePlain(View(f), ops)
    decreases |ops|
  {
    if ops == [] {
      SyncWritesBuffer(f);
    } else {
      ApplyRefines(f, ops[0]);
      CacheRefinesArray(Apply(f, ops[0]).value, ops[1..]);
    }
  }

  // ---------- what the driver does not do ----------

  /** Erased flash, nothing buffered. */
  const NEW := State(Blank(SIZE), 0, Blank(PAGE))

  lemma NewIsValid()
    ensures Valid(NEW) && View(NEW) == NEW.nor == Blank(SIZE)
  {
  }

  /** A whole page of erased flash cannot be programmed at once, one byte less can. */
  lemma WholePageRefused()
    ensures Valid(NEW)
    ensures Program(NEW, 0, Blank(PAGE)) == None && Program(NEW, 0, Blank(PAGE - 1)).Some?
  {
    NewIsValid();
    hide Program, ProgramChunks, ProgramPage, View, Overlay, And;
    ProgramExact(NEW, 0, Blank(PAGE));
    ProgramExact(NEW, 0, Blank(PAGE - 1));
    assert STORAGE_OFFSET % PAGE == 0;
    assert CoversPage(STORAGE_OFFSET, PAGE);
    ShortRange();
  }

  lemma ShortRange()
    ensures !CoversPage(STORAGE_OFFSET, PAGE - 1)
  {
  }

  /** Programming one byte at the start of the storage area of new flash. */
  lemma OneByte() returns (f: State)
    ensures Valid(NEW) && Program(NEW, 0, [0]) == Some(f)
    ensures Valid(f) && f.last == STORAGE_OFFSET && f.buf[0] == 0
  {
    NewIsValid();
    hide View, Overlay, ProgramPage, And, Blank, Erased, ProgramChunks, Valid;
    NewIsErased();
    var src: seq<bv8> := [0];
    assert src[..1] == src && src[1..] == [];
    assert ChunkSize(STORAGE_OFFSET, 1) == 1 && STORAGE_OFFSET % PAGE == 0;
    PageProgrammed(NEW, STORAGE_OFFSET, src);
    OneChunk(NEW, STORAGE_OFFSET, src, 1);
    f := ProgramPage(NEW, STORAGE_OFFSET, src).value;
    NoChunk(f, STORAGE_OFFSET + 1);
    assert NEW.nor == Blank(SIZE);
    FirstByte(f);
  }

  lemma NewIsErased()
    ensures Valid(NEW) && Erased(NEW, STORAGE_OFFSET, 1)
  {
    NewIsValid();
  }

  lemma FirstByte(f: State)
    requires Valid(f) && f.last == STORAGE_OFFSET && View(f) == Overlay(Blank(SIZE), STORAGE_OFFSET, [0])
    ensures f.buf[0] == 0
  {
    assert View(f)[STORAGE_OFFSET] == f.buf[0];
  }

  /** A byte programmed, its sector erased, the cache synced: the byte is still there. */
  lemma ErasedByteReturns() returns (f: State, g: State)
    ensures Valid(NEW) && Program(NEW, 0, [0]) == Some(f) && Valid(f) && Erase(f, 0) == Some(g) && Valid(g)
    ensures Sync(g).nor[STORAGE_OFFSET] == 0
  {
    f := OneByte();
    g := Erase(f, 0).value;
    EraseKeepsValid(f, 0);
    SyncWritesBuffer(g);
    assert View(g)[STORAGE_OFFSET] == g.buf[0];
  }
}
