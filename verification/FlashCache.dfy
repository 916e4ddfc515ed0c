/** The flash driver as code: the page buffer and the flash are changed in place. */
module FlashCache {
  import opened Common
  import opened Flash

  lemma Programmed(before: seq<bv8>, addr: nat, data: seq<bv8>, now: seq<bv8>)
    requires addr + |data| <= |before| == |now|
    requires forall a :: addr <= a < addr + |data| ==> now[a] == before[a] & data[a - addr]
    requires forall a :: 0 <= a < addr || addr + |data| <= a < |before| ==> now[a] == before[a]
    ensures now == NorProgram(before, addr, data)
  {
    var r := NorProgram(before, addr, data);
    forall a | 0 <= a < |before| ensures now[a] == r[a] {
      if addr <= a < addr + |data| {
        assert r[a] == And(before[addr..addr + |data|], data)[a - addr];
      }
    }
  }

  lemma OverlayNothing(v: seq<bv8>, off: nat)
    requires off <= |v|
    ensures Overlay(v, off, []) == v
  {
  }

  /** Taking one byte more of the source. */
  lemma OverlayStep(v: seq<bv8>, off: nat, src: seq<bv8>, i: nat)
    requires i < |src| && off + |src| <= |v|
    ensures Overlay(v, off, src[..i + 1]) == Overlay(v, off, src[..i])[off + i := src[i]]
  {
  }

  class Cache {
    const nor: array<bv8>
    const buf: array<bv8>
    var last: nat

    ghost predicate Shape()
      reads this
    {
      nor.Length == SIZE && buf.Length == PAGE && nor != buf
    }

    ghost function Contents(): State
      reads this, nor, buf
    {
      State(nor[..], last, buf[..])
    }

    ghost predicate Good()
      reads this, nor, buf
    {
      Shape() && Valid(Contents())
    }

    constructor ()
      ensures Good() && fresh(nor) && fresh(buf) && View(Contents()) == Blank(SIZE)
    {
      nor := new bv8[SIZE](_ => 0xff);
      buf := new bv8[PAGE](_ => 0);
      last := 0;
      new;
      assert nor[..] == Blank(SIZE);
    }

    /** flash_range_program of the buffer: bits can only be cleared. */
    method RangeProgram(addr: nat)
      requires Shape() && addr + PAGE <= SIZE
      modifies nor
      ensures nor[..] == NorProgram(old(nor[..]), addr, buf[..])
      ensures var was := old(nor[..]);
              forall a :: 0 <= a < SIZE ==> nor[a] == if 0 <= a - addr < PAGE then was[a] & buf[a - addr] else was[a]
    {
      hide NorProgram;
      ghost var was := nor[..];
      for i := 0 to PAGE
        invariant forall a :: 0 <= a < SIZE ==> nor[a] == if 0 <= a - addr < i then was[a] & buf[a - addr] else was[a]
      {
        nor[addr + i] := nor[addr + i] & buf[i];
      }
      Programmed(was, addr, buf[..], nor[..]);
    }

    /** flash_range_erase. */
    method RangeErase(addr: nat, count: nat)
      requires Shape() && addr + count <= SIZE
      modifies nor
      ensures nor[..] == NorErase(old(nor[..]), addr, count)
      ensures forall a :: 0 <= a < SIZE ==> nor[a] == if 0 <= a - addr < count then 0xff else old(nor[a])
    {
      for i := 0 to count
        invariant forall a :: addr <= a < addr + i ==> nor[a] == 0xff
        invariant forall a :: 0 <= a < SIZE && !(addr <= a < addr + i) ==> nor[a] == old(nor[a])
      {
        nor[addr + i] := 0xff;
      }
    }

    method FlashSync()
      requires Good()
      modifies this, nor
      ensures Good() && Contents() == Sync(old(Contents()))
      ensures nor[..] == View(old(Contents())) && last == 0
    {
      SyncWritesBuffer(Contents());
      if last != 0 {
        RangeProgram(last);
        last := 0;
      }
    }

    /** The assertions of the source make the result false. */
    method FlashProgramPage(addr: nat, src: seq<bv8>) returns (ok: bool)
      requires Good() && src != [] && STORAGE_OFFSET <= addr && addr + |src| <= SIZE
      modifies this, nor, buf
      ensures ok <==> ProgramPage(old(Contents()), addr, src).Some?
      ensures ok ==> Contents() == ProgramPage(old(Contents()), addr, src).value
    {
      hide View, Overlay, Sync, Valid;
      if |src| >= PAGE || addr / PAGE != (addr + |src| - 1) / PAGE { return false; }
      var page := addr - addr % PAGE;
      assert page == addr / PAGE * PAGE;
      FetchPage(page);
      ok := FillBuffer(addr, src);
    }

    /** The loop of flash_program_page, over the page now buffered. */
    method FillBuffer(addr: nat, src: seq<bv8>) returns (ok: bool)
      requires Shape() && addr + |src| <= SIZE && addr % PAGE + |src| <= PAGE
      modifies buf
      ensures ok <==> AllErased(nor[..], addr, |src|)
      ensures ok ==> buf[..] == Overlay(old(buf[..]), addr % PAGE, src)
    {
      hide Overlay;
      var page, dp := addr - addr % PAGE, addr % PAGE;
      ghost var was := buf[..];
      assert src[..0] == [] && src[..|src|] == src;
      OverlayNothing(was, dp);
      for i := 0 to |src|
        invariant forall a :: addr <= a < addr + i ==> nor[a] == 0xff
        invariant buf[..] == Overlay(was, dp, src[..i])
      {
        if nor[page + dp + i] != 0xff {
          assert nor[..][addr + i] != 0xff;
          return false;
        }
        OverlayStep(was, dp, src, i);
        buf[dp + i] := src[i];
      }
      ok := true;
    }

    /** Make `page` the buffered one, writing back the one before it. */
    method FetchPage(page: nat)
      requires Good() && page % PAGE == 0 && page + PAGE <= SIZE
      modifies this, nor, buf
      ensures Good() && Contents() == Fetch(old(Contents()), page)
    {
      FetchValid(Contents(), page);
      if last != page {
        FlashSync();
        last := page;
        CopyPage(page);
      }
    }

    /** memcpy of a page of flash into the buffer. */
    method CopyPage(page: nat)
      requires Shape() && page + PAGE <= SIZE
      modifies buf
      ensures buf[..] == nor[page..page + PAGE]
    {
      for i := 0 to PAGE
        invariant buf[..i] == nor[page..page + i]
      {
        buf[i] := nor[page + i];
      }
      assert buf[..] == buf[..PAGE];
    }

    method FlashProgram(diff: int, src: seq<bv8>) returns (ok: bool)
      requires Good()
      modifies this, nor, buf
      ensures ok <==>
        && 0 <= diff && diff + |src| <= STORAGE_SIZE && diff % 8 == 0 && !CoversPage(diff + STORAGE_OFFSET, |src|)
        && RangeErased(old(Contents()), diff + STORAGE_OFFSET, |src|)
      ensures ok ==> Program(old(Contents()), diff, src) == Some(Contents())
      ensures ok ==> Good() && View(Contents()) == Overlay(View(old(Contents())), diff + STORAGE_OFFSET, src)
    {
      hide Valid, View, ProgramPage, ProgramChunks, Overlay, CoversPage, RangeErased;
      ghost var f := Contents();
      ProgramExact(f, diff, src);
      if !(0 <= diff && diff + |src| <= STORAGE_SIZE) { return false; }
      if diff % 8 != 0 { return false; }
      var off, rest := diff + STORAGE_OFFSET, src;
      while |rest| > 0
        invariant Good() && STORAGE_OFFSET <= off && off + |rest| <= SIZE
        invariant ProgramChunks(f, diff + STORAGE_OFFSET, src) == ProgramChunks(Contents(), off, rest)
        decreases |rest|
      {
        var n := PAGE - off % PAGE;
        if n > |rest| { n := |rest|; }
        assert n == ChunkSize(off, |rest|);
        OneChunk(Contents(), off, rest, n);
        var fine := FlashProgramPage(off, rest[..n]);
        if !fine { return false; }
        off, rest := off + n, rest[n..];
      }
      NoChunk(Contents(), off);
      assert rest == [];
      ok := true;
    }

    method FlashErase(diff: int) returns (ok: bool)
      requires Good()
      modifies nor
      ensures ok <==> 0 <= diff <= STORAGE_SIZE - SECTOR && diff % SECTOR == 0
      ensures ok ==> Good() && Erase(old(Contents()), diff) == Some(Contents())
      ensures ok ==> forall a :: 0 <= a < SIZE ==>
        nor[a] == if 0 <= a - diff - STORAGE_OFFSET < SECTOR then 0xff else old(nor[a])
    {
      if !(0 <= diff && diff <= STORAGE_SIZE - SECTOR) { return false; }
      if diff % SECTOR != 0 { return false; }
      hide Overlay, NorErase, View, Valid;
      EraseIsExact(Contents(), diff);
      RangeErase(diff + STORAGE_OFFSET, SECTOR);
      ok := true;
    }
  }
}
