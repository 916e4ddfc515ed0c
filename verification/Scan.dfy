/**
  The table of scan results: a growing array with one entry for each access point, and the
  link status reported to the upper layer.
*/
module Scan {
  import opened Common

  /** What the radio reports, and the entry made of it. */
  datatype Result = Result(ssid: seq<byte>, bssid: seq<byte>, rssi: int, channel: nat, authMode: nat)

  datatype Entry = Entry(bssid: seq<byte>, ssid: seq<byte>, rssi: int, channel: nat, hasPassword: bool)

  /** Hidden networks are skipped. */
  predicate Named(r: Result) {
    r.ssid != [] && r.ssid[0] != 0
  }

  function EntryOf(r: Result): Entry {
    Entry(r.bssid, r.ssid, r.rssi, r.channel, r.authMode % 8 != 0)
  }

  // ---------- what the table should hold ----------

  /** The access points heard, in the order in which they were first heard. */
  function Order(heard: seq<Entry>): seq<seq<byte>> {
    if heard == [] then []
    else
      var n := |heard| - 1;
      var before := Order(heard[..n]);
      if heard[n].bssid in before then before else before + [heard[n].bssid]
  }

  /** The latest entry of each access point. */
  function Latest(heard: seq<Entry>): (m: map<seq<byte>, Entry>)
    ensures forall b :: b in m <==> b in Order(heard)
  {
    if heard == [] then map[]
    else
      var n := |heard| - 1;
      Latest(heard[..n])[heard[n].bssid := heard[n]]
  }

  function Summary(heard: seq<Entry>): (es: seq<Entry>)
    ensures |es| == |Order(heard)|
  {
    var order, latest := Order(heard), Latest(heard);
    seq(|order|, i requires 0 <= i < |order| => latest[order[i]])
  }

  /** Access point `order[i]` was first heard at `k`. */
  ghost predicate FirstHeard(heard: seq<Entry>, b: seq<byte>, k: nat) {
    k < |heard| && heard[k].bssid == b && forall j :: 0 <= j < k ==> heard[j].bssid != b
  }

  lemma {:induction false} OrderHolds(heard: seq<Entry>, b: seq<byte>)
    ensures b in Order(heard) <==> exists k :: 0 <= k < |heard| && heard[k].bssid == b
    decreases |heard|
  {
    if heard != [] {
      var n := |heard| - 1;
      OrderHolds(heard[..n], b);
      if b in Order(heard[..n]) {
        var k :| 0 <= k < n && heard[..n][k].bssid == b;
        assert heard[k].bssid == b;
      } else {
        assert forall k :: 0 <= k < n ==> heard[k].bssid == heard[..n][k].bssid;
      }
    }
  }

  /** Each access point is listed once, in the order in which they were first heard. */
  lemma {:induction false} OrderIsFirstHeard(heard: seq<Entry>, i: nat, j: nat)
    requires i < j < |Order(heard)|
    ensures Order(heard)[i] != Order(heard)[j]
    ensures exists k: nat, l: nat ::
              k < l && FirstHeard(heard, Order(heard)[i], k) && FirstHeard(heard, Order(heard)[j], l)
    decreases |heard|
  {
    var n := |heard| - 1;
    var before := Order(heard[..n]);
    if j < |before| {
      OrderIsFirstHeard(heard[..n], i, j);
      var k: nat, l: nat :| k < l && FirstHeard(heard[..n], before[i], k) && FirstHeard(heard[..n], before[j], l);
      Longer(heard, before[i], k);
      Longer(heard, before[j], l);
    } else {
      var k := FirstOf(heard[..n], before[i]);
      Longer(heard, before[i], k);
      OrderHolds(heard[..n], heard[n].bssid);
      assert FirstHeard(heard, heard[n].bssid, n) by {
        forall m | 0 <= m < n ensures heard[m].bssid != heard[n].bssid {
          assert heard[..n][m] == heard[m];
        }
      }
    }
  }

  lemma Longer(heard: seq<Entry>, b: seq<byte>, k: nat)
    requires heard != [] && FirstHeard(heard[..|heard| - 1], b, k)
    ensures FirstHeard(heard, b, k)
  {
    forall j | 0 <= j < k ensures heard[j].bssid != b { assert heard[..|heard| - 1][j] == heard[j]; }
  }

  lemma {:induction false} FirstOf(heard: seq<Entry>, b: seq<byte>) returns (k: nat)
    requires b in Order(heard)
    ensures FirstHeard(heard, b, k)
    decreases |heard|
  {
    var n := |heard| - 1;
    OrderHolds(heard[..n], b);
    if b in Order(heard[..n]) {
      k := FirstOf(heard[..n], b);
      Longer(heard, b, k);
    } else {
      k := n;
      forall j | 0 <= j < n ensures heard[j].bssid != b { assert heard[..n][j] == heard[j]; }
    }
  }

  /** The entry kept is the last one heard. */
  lemma {:induction false} LatestIsLast(heard: seq<Entry>, b: seq<byte>) returns (k: nat)
    requires b in Latest(heard)
    ensures k < |heard| && heard[k].bssid == b && Latest(heard)[b] == heard[k]
    ensures forall j :: k < j < |heard| ==> heard[j].bssid != b
    decreases |heard|
  {
    var n := |heard| - 1;
    if heard[n].bssid == b {
      k := n;
    } else {
      k := LatestIsLast(heard[..n], b);
      assert forall j :: 0 <= j < n ==> heard[..n][j] == heard[j];
    }
  }

  /** Hearing an access point again replaces its entry, hearing a new one appends. */
  lemma Heard(heard: seq<Entry>, e: Entry, i: nat)
    requires i <= |Order(heard)|
    requires forall j :: 0 <= j < i ==> Order(heard)[j] != e.bssid
    requires i < |Order(heard)| ==> Order(heard)[i] == e.bssid
    ensures Summary(heard + [e]) == if i < |Order(heard)| then Summary(heard)[i := e] else Summary(heard) + [e]
  {
    var h := heard + [e];
    assert h[..|h| - 1] == heard;
    var order := Order(heard);
    if i < |order| {
      forall j | i < j < |order| ensures order[j] != e.bssid { OrderIsFirstHeard(heard, i, j); }
    }
  }

  // ---------- growth ----------

  /** Capacity after `k` growths. */
  function Capacity(k: nat): nat {
    if k == 0 then 0 else 2 * Capacity(k - 1) + 5
  }

  lemma {:induction false} CapacityIs(k: nat)
    ensures Capacity(k) == 5 * (Pow2(k) - 1)
  {
    if k > 0 { CapacityIs(k - 1); }
  }

  /** Thirteen growths fit 16 bits, the fourteenth does not. */
  const LIMIT: nat := 40955

  lemma {:induction false} CapacityGrows(j: nat, k: nat)
    requires j <= k
    ensures Capacity(j) <= Capacity(k)
    decreases k
  {
    if j < k { CapacityGrows(j, k - 1); }
  }

  /** The next size, in 16 bits. */
  function NextSize(size: nat): nat {
    (size * 2 + 5) % 0x1_0000
  }

  lemma SizeFits(k: nat)
    requires k <= 13
    ensures Capacity(k) <= LIMIT && (Capacity(k) == LIMIT <==> k == 13)
    ensures NextSize(Capacity(k)) == if k == 13 then 16379 else Capacity(k + 1)
  {
    assert Capacity(4) == 75;
    assert Capacity(8) == 1275;
    assert Capacity(12) == 20475;
    assert Capacity(13) == LIMIT;
    if k < 13 {
      CapacityGrows(k, 12);
      CapacityGrows(k + 1, 13);
    }
  }

  lemma CapacityStep(k: nat)
    ensures Capacity(k + 1) == 2 * Capacity(k) + 5
  {
  }

  class Table {
    var scanRes: array<Entry>  // of length 0 for the null pointer
    var scanPtr: nat
    var scanSize: nat
    var inScan: bool
    // history: entries heard since the last hand-over, growths, entries copied by them
    ghost var heard: seq<Entry>
    ghost var growths: nat
    ghost var copied: nat

    /** The capacity is that of the growths; they have copied fewer than their sizes. */
    ghost predicate Sized()
      reads this
    {
      && scanRes.Length == scanSize && scanPtr <= scanSize
      && growths <= 13 && scanSize == Capacity(growths)
      && copied + 5 * growths == scanSize
    }

    /** The last growth was needed. */
    ghost predicate Needed()
      reads this
    {
      growths > 0 ==> Capacity(growths - 1) < scanPtr
    }

    /** The array holds the summary of what was heard. */
    ghost predicate Valid()
      reads this, scanRes
    {
      Sized() && Needed() && scanRes[..scanPtr] == Summary(heard)
    }

    constructor ()
      ensures Valid() && fresh(scanRes) && heard == [] && !inScan
    {
      scanRes := new Entry[0];
      scanPtr, scanSize, inScan := 0, 0, false;
      heard, growths, copied := [], 0, 0;
    }

    /** Where the entry of an access point is; the number of entries if there is none. */
    method Find(bssid: seq<byte>) returns (i: nat)
      requires scanPtr <= scanRes.Length
      ensures i <= scanPtr && (i < scanPtr ==> scanRes[i].bssid == bssid)
      ensures forall j :: 0 <= j < i ==> scanRes[j].bssid != bssid
    {
      i := 0;
      while i < scanPtr && scanRes[i].bssid != bssid
        invariant i <= scanPtr && forall j :: 0 <= j < i ==> scanRes[j].bssid != bssid
      {
        i := i + 1;
      }
    }

    /** memcpy of the entries held. */
    method CopyTo(tmp: array<Entry>)
      requires scanPtr <= scanRes.Length && scanPtr <= tmp.Length && tmp != scanRes
      modifies tmp
      ensures tmp[..scanPtr] == scanRes[..scanPtr]
    {
      for i := 0 to scanPtr
        invariant tmp[..i] == scanRes[..i]
      {
        tmp[i] := scanRes[i];
      }
    }

    /** More room; the result is false when the new size, cut to 16 bits, is too small. */
    method Grow(e: Entry) returns (ok: bool)
      requires Sized() && scanPtr == scanSize
      modifies this`scanRes, this`scanSize, this`growths, this`copied
      ensures ok <==> scanPtr != LIMIT
      ensures ok ==> fresh(scanRes) && Sized() && scanPtr < scanSize && growths > 0 && Capacity(growths - 1) == scanPtr
      ensures ok ==> scanRes[..scanPtr] == old(scanRes[..scanPtr])
    {
      SizeFits(growths);
      hide Capacity;
      var size := NextSize(scanSize);
      if size <= scanPtr { return false; }
      assert size == 2 * Capacity(growths) + 5 by { CapacityStep(growths); }
      var tmp := new Entry[size](_ => e);
      CopyTo(tmp);
      scanRes, scanSize := tmp, size;
      growths, copied := growths + 1, copied + scanPtr;
      ok := true;
    }

    method Append(e: Entry)
      requires Sized() && scanPtr < scanSize && (growths > 0 ==> Capacity(growths - 1) <= scanPtr)
      modifies this`scanPtr, scanRes
      ensures Sized() && Needed() && scanRes[..scanPtr] == old(scanRes[..scanPtr]) + [e]
    {
      scanRes[scanPtr] := e;
      scanPtr := scanPtr + 1;
    }

    /** A result with a name is heard as reported; any of the low three bits of the mode means a password. */
    twostate predicate Hears(result: Option<Result>)
      reads this`heard
    {
      if result.None? || result.value.ssid == [] || result.value.ssid[0] == 0 then heard == old(heard)
      else
        && |heard| == |old(heard)| + 1 && old(heard) <= heard
        && var r, e := result.value, heard[|old(heard)|];
           e.bssid == r.bssid && e.ssid == r.ssid && e.rssi == r.rssi && e.channel == r.channel
           && (e.hasPassword <==> r.authMode % 8 > 0)
    }

    /** jd_wifi_start_scan; `started` is what the radio answers.  What has been found so far stays. */
    method StartScan(scanActive: bool, started: int) returns (result: int)
      requires Valid()
      modifies this`inScan
      ensures Valid() && result == (if scanActive then -10 else started)
      ensures inScan <==> old(inScan) || !scanActive
    {
      if scanActive { return -10; }
      inScan := true;
      result := started;
    }

    /**
      scan_result.  The result is false where the source would write past its array: exactly when
      it holds 40955 access points and hears a new one.
    */
    method ScanResult(result: Option<Result>) returns (ok: bool)
      requires Valid()
      modifies this, scanRes
      ensures ok ==> Valid() && (scanRes == old(scanRes) || fresh(scanRes))
      ensures ok ==> heard == old(heard) + if result.Some? && Named(result.value) then [EntryOf(result.value)] else []
      ensures !ok <==> result.Some? && Named(result.value) && |Order(old(heard))| == LIMIT
                       && result.value.bssid !in Order(old(heard))
      ensures ok ==> Hears(result)
      ensures inScan == old(inScan)
    {
      hide Valid, Order;
      ok := true;
      if result.Some? && Named(result.value) {
        ok := Keep(EntryOf(result.value));
      }
    }

    /** Replace the entry of this access point, or append it. */
    method Keep(ent: Entry) returns (ok: bool)
      requires Valid()
      modifies this`scanRes, this`scanPtr, this`scanSize, this`heard, this`growths, this`copied, scanRes
      ensures ok ==> Valid() && (scanRes == old(scanRes) || fresh(scanRes)) && heard == old(heard) + [ent]
      ensures !ok <==> |Order(old(heard))| == LIMIT && ent.bssid !in Order(old(heard))
    {
      hide Capacity, Summary, Order, Latest;
      SummaryIds(heard);
      var i := Find(ent.bssid);
      Heard(heard, ent, i);
      ok := true;
      if i < scanPtr {
        scanRes[i] := ent;
      } else {
        SizeFits(growths);
        if scanPtr >= scanSize {
          ok := Grow(ent);
          if !ok { return; }
        }
        Append(ent);
      }
      heard := heard + [ent];
    }

    /** The hand-over in jd_wifi_process: what was found goes to the upper layer, once. */
    method HandOver(scanActive: bool) returns (found: Option<array<Entry>>, count: nat)
      requires Valid()
      modifies this
      ensures Valid()
      ensures found.Some? <==> old(inScan) && !scanActive
      ensures found.None? ==> unchanged(this)
      ensures found.Some? ==> found.value == old(scanRes) && fresh(scanRes) && !inScan && heard == []
      ensures found.Some? ==> count <= found.value.Length && found.value[..count] == Summary(old(heard))
    {
      found, count := None, 0;
      if inScan && !scanActive {
        inScan := false;
        found, count := Some(scanRes), scanPtr;
        scanRes := new Entry[0];
        scanPtr, scanSize := 0, 0;
        heard, growths, copied := [], 0, 0;
      }
    }
  }

  /** Entries carry the access point they are listed for. */
  lemma SummaryIds(heard: seq<Entry>)
    ensures forall i :: 0 <= i < |Order(heard)| ==> Summary(heard)[i].bssid == Order(heard)[i]
  {
    forall i | 0 <= i < |Order(heard)| ensures Summary(heard)[i].bssid == Order(heard)[i] {
      var k := LatestIsLast(heard, Order(heard)[i]);
    }
  }

  /** Growth is paid for: fewer than two copies for each entry held. */
  lemma CopiesAreLinear(t: Table)
    requires t.Valid()
    ensures t.copied <= 2 * t.scanPtr
  {
  }

  // ---------- link status ----------

  const LINK_UP: int := 3

  class Station {
    var prevStatus: int
    /** Calls of the upper layer: true for an address obtained, false for one lost. */
    ghost var reports: seq<bool>
    ghost var disconnects: nat

    /**
      Reports alternate, beginning with an address obtained; the last one tells whether the link
      is up; with each address lost goes a disconnect.
    */
    ghost predicate Valid()
      reads this
    {
      && (forall i :: 0 <= i < |reports| ==> (reports[i] <==> i % 2 == 0))
      && (prevStatus == LINK_UP <==> |reports| % 2 == 1)
      && disconnects == |reports| / 2
    }

    constructor ()
      ensures Valid() && reports == []
    {
      prevStatus, reports, disconnects := -1000, [], 0;
    }

    /** The status part of jd_wifi_process. */
    method Poll(newStatus: int)
      requires Valid()
      modifies this
      ensures Valid() && prevStatus == newStatus
      ensures var up, wasUp := newStatus == LINK_UP, old(prevStatus) == LINK_UP;
              reports == old(reports) + if up == wasUp then [] else [up]
    {
      if prevStatus != newStatus {
        var wasUp := prevStatus == LINK_UP;
        prevStatus := newStatus;
        if newStatus == LINK_UP {
          reports := reports + [true];
        } else if wasUp {
          disconnects := disconnects + 1;
          reports := reports + [false];
        }
      }
    }
  }

  // ---------- too many access points ----------

  /** A different access point for each number. */
  function Numbered(i: nat): Result
    requires i < 0x1_0000
  {
    Result([1], [i % 0x100, i / 0x100, 0, 0, 0, 0], -50, 1, 0)
  }

  function FirstEntries(n: nat): (es: seq<Entry>)
    requires n <= 0x1_0000
    ensures |es| == n
  {
    seq(n, i requires 0 <= i < n => EntryOf(Numbered(i)))
  }

  lemma NumberedApart(i: nat, j: nat)
    requires i < j < 0x1_0000
    ensures Numbered(i).bssid != Numbered(j).bssid
  {
    assert Numbered(i).bssid[0] == i % 0x100 && Numbered(i).bssid[1] == i / 0x100;
    assert Numbered(j).bssid[0] == j % 0x100 && Numbered(j).bssid[1] == j / 0x100;
  }

  lemma OneMoreEntry(n: nat)
    requires n < 0x1_0000
    ensures FirstEntries(n + 1) == FirstEntries(n) + [EntryOf(Numbered(n))] && Named(Numbered(n))
    ensures FirstEntries(n + 1)[..n] == FirstEntries(n)
  {
  }

  lemma {:induction false} AllListed(n: nat)
    requires n < 0x1_0000
    ensures |Order(FirstEntries(n))| == n && EntryOf(Numbered(n)).bssid !in Order(FirstEntries(n))
    decreases n
  {
    if n > 0 {
      AllListed(n - 1);
      OneMoreEntry(n - 1);
    }
    OrderHolds(FirstEntries(n), Numbered(n).bssid);
    forall k | 0 <= k < n ensures FirstEntries(n)[k].bssid != Numbered(n).bssid { NumberedApart(k, n); }
  }

  /** A scan that finds 40955 access points goes well; the next one is written past the array. */
  method OneTooMany() returns (ok: bool)
    ensures !ok
  {
    var t := new Table();
    assert FirstEntries(0) == [];
    ok := true;
    hide Order, Named, FirstEntries, Numbered, EntryOf;
    for i := 0 to LIMIT
      invariant ok && t.Valid() && fresh(t) && fresh(t.scanRes) && t.heard == FirstEntries(i)
    {
      AllListed(i);
      OneMoreEntry(i);
      ok := t.ScanResult(Some(Numbered(i)));
    }
    AllListed(LIMIT);
    OneMoreEntry(LIMIT);
    SameId(LIMIT);
    ok := t.ScanResult(Some(Numbered(LIMIT)));
  }

  lemma SameId(i: nat)
    requires i < 0x1_0000
    ensures EntryOf(Numbered(i)).bssid == Numbered(i).bssid
  {
  }
}
