/** The page cache's tables of data pointers, one pair per cache slot, and the pages a
    controller walks through them. */
module PrpTables {
  import opened Arith
  import opened Wrappers

  /** The bus address of byte o of a buffer mapped in pages of size mps. */
  function Bus(ioaddrs: seq<nat>, mps: nat, o: nat): nat
    requires mps > 0 && o / mps < |ioaddrs|
  {
    ioaddrs[o / mps] + o % mps
  }

  ghost predicate Aligned(ioaddrs: seq<nat>, mps: nat)
    requires mps > 0
  {
    forall i | 0 <= i < |ioaddrs| :: ioaddrs[i] % mps == 0
  }

  // ---------------------------------------------------------------- mapping a buffer

  lemma DivideBack(a: nat, b: nat, m: nat)
    requires m > 0 && a < b * m
    ensures a / m < b
  {
    DivMod(a, m);
    MulLe(b, a / m, m);
  }

  /** a is the bus address of controller page k of the buffer. */
  ghost predicate IsPiece(pages: seq<nat>, pageSize: nat, mps: nat, k: nat, a: nat) {
    pageSize > 0 && k * mps / pageSize < |pages| && a == Bus(pages, pageSize, k * mps)
  }

  lemma PieceInBounds(i: nat, mps: nat, pageSize: nat, nPages: nat)
    requires mps > 0 && pageSize > 0 && i < pageSize * nPages / mps
    ensures i * mps / pageSize < nPages
  {
    DivMod(pageSize * nPages, mps);
    MulMono(i, pageSize * nPages / mps, mps);
    assert pageSize * nPages == nPages * pageSize;
    DivideBack(i * mps, nPages, pageSize);
  }

  /** `populate_handle`: the buffer's own pages cut into controller pages. */
  method PopulateHandle(mps: nat, pageSize: nat, nPages: nat, pages: seq<nat>) returns (ioaddrs: seq<nat>)
    requires mps > 0 && pageSize > 0 && |pages| == nPages
    ensures |ioaddrs| == pageSize * nPages / mps
    ensures forall i | 0 <= i < |ioaddrs| :: IsPiece(pages, pageSize, mps, i, ioaddrs[i])
  {
    var n := pageSize * nPages / mps;
    ioaddrs := [];
    var i := 0;
    while i < n
      invariant 0 <= i <= n && |ioaddrs| == i
      invariant forall k | 0 <= k < i :: IsPiece(pages, pageSize, mps, k, ioaddrs[k])
    {
      PieceInBounds(i, mps, pageSize, nPages);
      var currentPage := i * mps / pageSize;
      var offset := i * mps % pageSize;
      ioaddrs := ioaddrs + [pages[currentPage] + offset];
      i := i + 1;
    }
  }

  /** The controller pages show the same bytes as the buffer's own pages, whenever the former
      divide the latter. */
  lemma SameImage(mps: nat, ratio: nat, pages: seq<nat>, ioaddrs: seq<nat>, o: nat)
    requires mps > 0 && ratio > 0 && o < ratio * mps * |pages| && o / mps < |ioaddrs|
    requires IsPiece(pages, ratio * mps, mps, o / mps, ioaddrs[o / mps])
    ensures ratio * mps > 0 && o / (ratio * mps) < |pages| && Bus(ioaddrs, mps, o) == Bus(pages, ratio * mps, o)
  {
    var i, r := o / mps, o % mps;
    DivMod(o, mps);
    var q, s := i / ratio, i % ratio;
    DivMod(i, ratio);
    var base := ratio * mps;
    MulMono(s, ratio, mps);
    assert i * mps == q * base + s * mps by { MulDistributes(q * ratio, s, mps); MulAssoc(q, ratio, mps); }
    ModUnique(i * mps, q, base, s * mps);
    ModUnique(o, q, base, s * mps + r);
  }

  // ---------------------------------------------------------------- what the controller walks

  /** The bus address of byte k of a transfer of len bytes (section 4.3 of NVM Express 1.3):
      PRP1 may point into a page; PRP2 is the next page if that is enough, else the address
      of a list in mem. */
  function Walked(mps: nat, prp1: nat, prp2: nat, mem: map<nat, seq<nat>>, len: nat, k: nat): Option<nat>
    requires mps > 0
  {
    var first := mps - prp1 % mps;
    if k >= len then None
    else if k < first then Some(prp1 + k)
    else if len - first <= mps then Some(prp2 + (k - first))
    else if prp2 in mem && (k - first) / mps < |mem[prp2]| then Some(mem[prp2][(k - first) / mps] + (k - first) % mps)
    else None
  }

  /** The controller finds byte k of slot i at that byte's bus address. */
  ghost predicate ByteIsImage(mps: nat, ps: nat, ioaddrs: seq<nat>, i: nat, prp1: nat, prp2: nat,
          mem: map<nat, seq<nat>>, k: nat) {
    && mps > 0 && (i * ps + k) / mps < |ioaddrs|
    && Walked(mps, prp1, prp2, mem, ps, k) == Some(Bus(ioaddrs, mps, i * ps + k))
  }

  ghost predicate SlotIsImage(mps: nat, ps: nat, ioaddrs: seq<nat>, i: nat, prp1: nat, prp2: nat,
          mem: map<nat, seq<nat>>) {
    forall k: nat | k < ps :: ByteIsImage(mps, ps, ioaddrs, i, prp1, prp2, mem, k)
  }

  // ---------------------------------------------------------------- the three shapes of table

  /** A cache slot is a part of a controller page, two of them, or more. */
  ghost predicate Fits(np: nat, ps: nat, mps: nat, n: nat) {
    && ps > 0 && mps >= 8
    && (ps % mps == 0 || mps % ps == 0)
    && np * ps <= n * mps
  }

  /** a is the address of slot x when hm slots of ps bytes share a controller page. */
  ghost predicate IsPart(ioaddrs: seq<nat>, hm: nat, ps: nat, x: nat, a: nat) {
    hm > 0 && x / hm < |ioaddrs| && a == ioaddrs[x / hm] + x % hm * ps
  }

  lemma PartWritten(ioaddrs: seq<nat>, hm: nat, ps: nat, i: nat, j: nat)
    requires j < hm && i < |ioaddrs|
    ensures IsPart(ioaddrs, hm, ps, i * hm + j, ioaddrs[i] + j * ps)
  {
    ModUnique(i * hm + j, i, hm, j);
  }

  /** The tables that the constructor of `page_cache_t` fills; `list` is the memory of the
      PRP lists, one controller page for each slot. */
  class Tables {
    const prps: bool
    const prp1: array<nat>
    const prp2: array<nat>
    const list: array<nat>

    /** Slots no larger than a controller page. */
    constructor Small(np: nat, ps: nat, mps: nat, ioaddrs: seq<nat>)
      requires Fits(np, ps, mps, |ioaddrs|) && ps <= mps
      ensures fresh(prp1) && !prps && prp1.Length == np
      ensures mps / ps > 0 && forall i | 0 <= i < np :: IsPart(ioaddrs, mps / ps, ps, i, prp1[i])
    {
      var hm := mps / ps;
      SmallFactor(ps, mps);
      SmallCovers(np, ps, hm, |ioaddrs|);
      var temp := FillSmall(hm, ps, ioaddrs);
      var p1 := new nat[np];
      forall x | 0 <= x < np { p1[x] := temp[x]; }
      this.prps := false;
      prp1 := p1;
      prp2 := new nat[0];
      list := new nat[0];
    }

    /** Slots of two controller pages. */
    constructor Double(np: nat, ps: nat, mps: nat, ioaddrs: seq<nat>)
      requires Fits(np, ps, mps, |ioaddrs|) && mps < ps <= 2 * mps
      ensures fresh(prp1) && fresh(prp2) && prps && prp1.Length == prp2.Length == np
      ensures 2 * np <= |ioaddrs| && forall i | 0 <= i < np :: prp1[i] == ioaddrs[2 * i] && prp2[i] == ioaddrs[2 * i + 1]
    {
      DoubleCovers(np, ps, mps, |ioaddrs|);
      var t1, t2 := new nat[np], new nat[np];
      var i := 0;
      while i < np
        invariant 0 <= i <= np
        invariant forall x | 0 <= x < i :: t1[x] == ioaddrs[2 * x] && t2[x] == ioaddrs[2 * x + 1]
      {
        t1[i] := ioaddrs[i * 2];
        t2[i] := ioaddrs[i * 2 + 1];
        i := i + 1;
      }
      this.prps := true;
      prp1 := t1;
      prp2 := t2;
      list := new nat[0];
    }

    /** Larger slots: a PRP list of their own, one controller page each. */
    constructor Large(np: nat, ps: nat, mps: nat, ioaddrs: seq<nat>, listAddrs: seq<nat>)
      requires Fits(np, ps, mps, |ioaddrs|) && 2 * mps < ps <= mps * (mps / 8) && np <= |listAddrs|
      ensures fresh(prp1) && fresh(prp2) && fresh(list) && prps
      ensures prp1.Length == prp2.Length == np && list.Length == mps / 8 * np
      ensures forall i | 0 <= i < np :: SlotListed(ioaddrs, listAddrs, ps / mps, mps / 8, prp1[..], prp2[..], list[..], i)
    {
      hide SlotListed, ListHas;
      LargeCovers(np, ps, mps, |ioaddrs|);
      var t1, t2, t3 := FillLarge(np, ps / mps, mps / 8, ioaddrs, listAddrs);
      this.prps := true;
      prp1 := t1;
      prp2 := t2;
      list := t3;
    }
  }

  /** The loops of the first shape, for hm slots of ps bytes in each controller page. */
  method FillSmall(hm: nat, ps: nat, ioaddrs: seq<nat>) returns (temp: array<nat>)
    requires hm > 0
    ensures fresh(temp) && temp.Length == hm * |ioaddrs|
    ensures forall x | 0 <= x < temp.Length :: IsPart(ioaddrs, hm, ps, x, temp[x])
  {
    hide IsPart;
    var n := |ioaddrs|;
    temp := new nat[hm * n];
    var i := 0;
    while i < n
      invariant 0 <= i <= n && temp.Length == hm * n && fresh(temp)
      invariant i * hm <= hm * n
      invariant forall x | 0 <= x < i * hm :: IsPart(ioaddrs, hm, ps, x, temp[x])
    {
      MulMono(i, n, hm);
      var j := 0;
      while j < hm
        invariant 0 <= j <= hm && i * hm + hm <= hm * n
        invariant forall x | 0 <= x < i * hm + j :: IsPart(ioaddrs, hm, ps, x, temp[x])
      {
        PartWritten(ioaddrs, hm, ps, i, j);
        temp[i * hm + j] := ioaddrs[i] + j * ps;
        j := j + 1;
      }
      MulDistributes(i, 1, hm);
      i := i + 1;
    }
  }

  /** The loops of the third shape, for slots of hm controller pages and lists of uints
      entries. */
  method FillLarge(np: nat, hm: nat, uints: nat, ioaddrs: seq<nat>, listAddrs: seq<nat>)
    returns (t1: array<nat>, t2: array<nat>, t3: array<nat>)
    requires 0 < hm <= uints && np * hm <= |ioaddrs| && np <= |listAddrs|
    ensures fresh(t1) && fresh(t2) && fresh(t3) && t1.Length == t2.Length == np && t3.Length == uints * np
    ensures forall i | 0 <= i < np :: SlotListed(ioaddrs, listAddrs, hm, uints, t1[..], t2[..], t3[..], i)
  {
    hide SlotListed, ListHas;
    t1, t2, t3 := new nat[np], new nat[np], new nat[uints * np];
    var i := 0;
    while i < np
      invariant 0 <= i <= np && t3.Length == uints * np
      invariant fresh(t1) && fresh(t2) && fresh(t3)
      invariant forall x | 0 <= x < i :: SlotListed(ioaddrs, listAddrs, hm, uints, t1[..], t2[..], t3[..], x)
    {
      SlotBounds(i, np, hm, uints, |ioaddrs|);
      ghost var was1, was2, was3 := t1[..], t2[..], t3[..];
      t1[i] := ioaddrs[i * hm];
      t2[i] := listAddrs[i];
      FillList(t3, ioaddrs, i * uints, i * hm, hm - 1);
      NewSlot(ioaddrs, listAddrs, hm, uints, t1[..], t2[..], t3[..], i);
      forall x | 0 <= x < i ensures SlotListed(ioaddrs, listAddrs, hm, uints, t1[..], t2[..], t3[..], x) {
        KeepsEarlierLists(ioaddrs, listAddrs, hm, uints, was1, was2, was3, t1[..], t2[..], t3[..], i, x);
      }
      i := i + 1;
    }
  }

  /** The n entries from base on are the pages after the first one. */
  ghost predicate ListHas(list: seq<nat>, ioaddrs: seq<nat>, base: nat, first: nat, n: nat) {
    && base + n <= |list| && first + n < |ioaddrs|
    && forall x | base <= x < base + n :: list[x] == ioaddrs[x - base + first + 1]
  }

  /** Slot i's first page, its list's address, and its other pages in the list. */
  ghost predicate SlotListed(ioaddrs: seq<nat>, listAddrs: seq<nat>, hm: nat, uints: nat, prp1: seq<nat>,
          prp2: seq<nat>, list: seq<nat>, i: nat) {
    && i < |prp1| && i < |prp2| && i < |listAddrs| && 0 < hm <= uints && i * hm < |ioaddrs|
    && prp1[i] == ioaddrs[i * hm] && prp2[i] == listAddrs[i]
    && ListHas(list, ioaddrs, i * uints, i * hm, hm - 1)
  }

  /** The entries of one slot's list. */
  method FillList(list: array<nat>, ioaddrs: seq<nat>, base: nat, first: nat, n: nat)
    requires base + n <= list.Length && first + n < |ioaddrs|
    modifies list
    ensures ListHas(list[..], ioaddrs, base, first, n)
    ensures forall x | 0 <= x < list.Length && !(base <= x < base + n) :: list[x] == old(list[x])
  {
    var j := 0;
    while j < n
      invariant 0 <= j <= n
      invariant ListHas(list[..], ioaddrs, base, first, j)
      invariant forall x | 0 <= x < list.Length && !(base <= x < base + n) :: list[x] == old(list[x])
    {
      list[base + j] := ioaddrs[first + j + 1];
      j := j + 1;
    }
  }

  /** Writing slot i's entries leaves those of earlier slots. */
  lemma KeepsEarlierLists(ioaddrs: seq<nat>, listAddrs: seq<nat>, hm: nat, uints: nat, was1: seq<nat>,
          was2: seq<nat>, was3: seq<nat>, t1: seq<nat>, t2: seq<nat>, t3: seq<nat>, i: nat, x: nat)
    requires x < i && SlotListed(ioaddrs, listAddrs, hm, uints, was1, was2, was3, x)
    requires |t1| == |was1| && |t2| == |was2| && |t3| == |was3| && t1[x] == was1[x] && t2[x] == was2[x]
    requires forall k | 0 <= k < |was3| && !(i * uints <= k < i * uints + (hm - 1)) :: t3[k] == was3[k]
    ensures SlotListed(ioaddrs, listAddrs, hm, uints, t1, t2, t3, x)
  {
    MulMono(x, i, uints);
  }

  lemma NewSlot(ioaddrs: seq<nat>, listAddrs: seq<nat>, hm: nat, uints: nat, prp1: seq<nat>, prp2: seq<nat>,
          list: seq<nat>, i: nat)
    requires i < |prp1| && i < |prp2| && i < |listAddrs| && 0 < hm <= uints && i * hm < |ioaddrs|
    requires prp1[i] == ioaddrs[i * hm] && prp2[i] == listAddrs[i] && ListHas(list, ioaddrs, i * uints, i * hm, hm - 1)
    ensures SlotListed(ioaddrs, listAddrs, hm, uints, prp1, prp2, list, i)
  {}

  lemma SlotBounds(i: nat, np: nat, hm: nat, uints: nat, n: nat)
    requires i < np && hm > 0 && uints > 0 && np * hm <= n
    ensures i * hm + hm <= n && i * uints + uints <= uints * np
  {
    MulMono(i, np, hm);
    MulMono(i, np, uints);
  }

  lemma LargeCovers(np: nat, ps: nat, mps: nat, n: nat)
    requires Fits(np, ps, mps, n) && mps < ps <= mps * (mps / 8)
    ensures np * (ps / mps) <= n && 2 <= ps / mps <= mps / 8
  {
    LargeFactor(ps, mps);
    var hm := ps / mps;
    SmallCovers2(np, hm, mps, n);
    MulLt(mps / 8, hm, mps);
  }

  lemma NotSmaller(a: nat, b: nat)
    requires b > 0
    ensures a / b == 0 ==> a < b
  {
    DivMod(a, b);
  }

  lemma SmallFactor(ps: nat, mps: nat)
    requires 0 < ps <= mps && (mps % ps == 0 || ps % mps == 0)
    ensures mps / ps > 0 && mps / ps * ps == mps
  {
    DivMod(mps, ps);
    DivMod(ps, mps);
    MulLe(2, ps / mps, mps);
    NotSmaller(mps, ps);
  }

  lemma SmallCovers(np: nat, ps: nat, hm: nat, n: nat)
    requires ps > 0 && np * ps <= n * (hm * ps)
    ensures np <= hm * n
  {
    MulAssoc(n, hm, ps);
    assert n * hm == hm * n;
    MulLt(hm * n, np, ps);
  }

  lemma DoubleCovers(np: nat, ps: nat, mps: nat, n: nat)
    requires Fits(np, ps, mps, n) && mps < ps <= 2 * mps
    ensures ps == 2 * mps && 2 * np <= n
  {
    LargeFactor(ps, mps);
    var hm := ps / mps;
    MulLe(3, hm, mps);
    SmallCovers2(np, 2, mps, n);
  }

  lemma LargeFactor(ps: nat, mps: nat)
    requires 0 < mps < ps && (mps % ps == 0 || ps % mps == 0)
    ensures ps / mps >= 2 && ps / mps * mps == ps
  {
    DivMod(ps, mps);
    DivMod(mps, ps);
    MulLe(1, mps / ps, ps);
    MulLe(ps / mps, 1, mps);
  }

  lemma SmallCovers2(np: nat, hm: nat, mps: nat, n: nat)
    requires mps > 0 && np * (hm * mps) <= n * mps
    ensures np * hm <= n
  {
    MulAssoc(np, hm, mps);
    MulLt(n, np * hm, mps);
  }

  // ---------------------------------------------------------------- the walk meets the slot's bytes

  lemma SmallByte(ps: nat, mps: nat, hm: nat, a: nat, b: nat, k: nat, page: nat)
    requires mps > 0 && hm * ps == mps && b < hm && k < ps && page % mps == 0
    ensures ((a * hm + b) * ps + k) / mps == a && ((a * hm + b) * ps + k) % mps == b * ps + k
    ensures (page + b * ps) % mps == b * ps && b * ps + ps <= mps
  {
    MulMono(b, hm, ps);
    MulDistributes(a * hm, b, ps);
    MulAssoc(a, hm, ps);
    ModUnique((a * hm + b) * ps + k, a, mps, b * ps + k);
    DivMod(page, mps);
    ModUnique(page + b * ps, page / mps, mps, b * ps);
  }

  lemma SmallSlot(np: nat, ps: nat, mps: nat, ioaddrs: seq<nat>, i: nat, prp1: nat, mem: map<nat, seq<nat>>)
    requires Fits(np, ps, mps, |ioaddrs|) && ps <= mps && Aligned(ioaddrs, mps) && i < np
    requires mps / ps > 0 && IsPart(ioaddrs, mps / ps, ps, i, prp1)
    ensures SlotIsImage(mps, ps, ioaddrs, i, prp1, 0, mem)
  {
    SmallFactor(ps, mps);
    var hm := mps / ps;
    var a, b := i / hm, i % hm;
    DivMod(i, hm);
    hide ByteIsImage;
    forall k: nat | k < ps ensures ByteIsImage(mps, ps, ioaddrs, i, prp1, 0, mem, k) {
      SmallByteWalked(ps, mps, hm, a, b, k, ioaddrs, prp1, mem);
    }
  }

  lemma SmallByteWalked(ps: nat, mps: nat, hm: nat, a: nat, b: nat, k: nat, ioaddrs: seq<nat>, prp1: nat,
          mem: map<nat, seq<nat>>)
    requires mps > 0 && hm * ps == mps && b < hm && k < ps && a < |ioaddrs| && ioaddrs[a] % mps == 0 && prp1 == ioaddrs[a] + b * ps
    ensures ByteIsImage(mps, ps, ioaddrs, a * hm + b, prp1, 0, mem, k)
  {
    SmallByte(ps, mps, hm, a, b, k, ioaddrs[a]);
  }

  /** Byte k of a slot of hm controller pages lies k / mps pages into it. */
  lemma ByteOfSlot(i: nat, hm: nat, mps: nat, k: nat)
    requires mps > 0 && k < hm * mps
    ensures (i * (hm * mps) + k) / mps == i * hm + k / mps && (i * (hm * mps) + k) % mps == k % mps && k / mps < hm
  {
    DivMod(k, mps);
    MulAssoc(i, hm, mps);
    MulDistributes(i * hm, k / mps, mps);
    ModUnique(i * (hm * mps) + k, i * hm + k / mps, mps, k % mps);
    DivideBack(k, hm, mps);
  }

  lemma AfterFirst(mps: nat, k: nat)
    requires mps > 0 && k >= mps
    ensures k / mps >= 1 && (k - mps) / mps == k / mps - 1 && (k - mps) % mps == k % mps
  {
    DivMod(k, mps);
    NotSmaller(k, mps);
    MulDistributes(k / mps - 1, 1, mps);
    ModUnique(k - mps, k / mps - 1, mps, k % mps);
  }

  lemma InFirst(mps: nat, k: nat)
    requires k < mps
    ensures k / mps == 0 && k % mps == k
  {
    ModUnique(k, 0, mps, k);
  }

  lemma SecondPage(mps: nat, k: nat)
    requires mps > 0 && mps <= k < 2 * mps
    ensures k / mps == 1 && k % mps == k - mps
  {
    ModUnique(k, 1, mps, k - mps);
  }

  lemma DoubleByteWalked(mps: nat, ioaddrs: seq<nat>, i: nat, prp1: nat, prp2: nat, mem: map<nat, seq<nat>>, k: nat)
    requires mps > 0 && 2 * i + 1 < |ioaddrs| && Aligned(ioaddrs, mps) && k < 2 * mps
    requires prp1 == ioaddrs[2 * i] && prp2 == ioaddrs[2 * i + 1]
    ensures ByteIsImage(mps, 2 * mps, ioaddrs, i, prp1, prp2, mem, k)
  {
    ByteOfSlot(i, 2, mps, k);
    var o := i * (2 * mps) + k;
    if k < mps { InFirst(mps, k); } else { SecondPage(mps, k); }
    assert o / mps == i * 2 + k / mps;
  }

  lemma DoubleSlot(np: nat, mps: nat, ioaddrs: seq<nat>, i: nat, prp1: nat, prp2: nat, mem: map<nat, seq<nat>>)
    requires mps > 0 && i < np && 2 * np <= |ioaddrs| && Aligned(ioaddrs, mps)
    requires prp1 == ioaddrs[2 * i] && prp2 == ioaddrs[2 * i + 1]
    ensures SlotIsImage(mps, 2 * mps, ioaddrs, i, prp1, prp2, mem)
  {
    hide ByteIsImage;
    forall k: nat | k < 2 * mps ensures ByteIsImage(mps, 2 * mps, ioaddrs, i, prp1, prp2, mem, k) {
      DoubleByteWalked(mps, ioaddrs, i, prp1, prp2, mem, k);
    }
  }

  lemma LargeByteWalked(mps: nat, hm: nat, ioaddrs: seq<nat>, i: nat, prp1: nat, prp2: nat,
          mem: map<nat, seq<nat>>, k: nat)
    requires mps > 0 && hm > 2 && k < hm * mps && i * hm + hm <= |ioaddrs| && Aligned(ioaddrs, mps)
    requires prp1 == ioaddrs[i * hm] && prp2 in mem && hm - 1 <= |mem[prp2]|
    requires forall j: nat | j < hm - 1 :: mem[prp2][j] == ioaddrs[i * hm + j + 1]
    ensures ByteIsImage(mps, hm * mps, ioaddrs, i, prp1, prp2, mem, k)
  {
    MulLe(3, hm, mps);
    ByteOfSlot(i, hm, mps, k);
    if k < mps { InFirst(mps, k); } else { AfterFirst(mps, k); }
  }

  lemma LargeSlot(np: nat, hm: nat, mps: nat, ioaddrs: seq<nat>, listAddrs: seq<nat>, prp1: seq<nat>,
          prp2: seq<nat>, list: seq<nat>, i: nat, mem: map<nat, seq<nat>>)
    requires mps >= 8 && i < np && hm > 2 && Aligned(ioaddrs, mps)
    requires SlotListed(ioaddrs, listAddrs, hm, mps / 8, prp1, prp2, list, i)
    requires i * (mps / 8) + mps / 8 <= |list|
    requires prp2[i] in mem && mem[prp2[i]] == list[i * (mps / 8)..i * (mps / 8) + mps / 8]
    ensures SlotIsImage(mps, hm * mps, ioaddrs, i, prp1[i], prp2[i], mem)
  {
    hide ByteIsImage, Aligned;
    var base := i * (mps / 8);
    var page := mem[prp2[i]];
    forall j: nat | j < hm - 1 ensures page[j] == ioaddrs[i * hm + j + 1] { assert page[j] == list[base + j]; }
    forall k: nat | k < hm * mps ensures ByteIsImage(mps, hm * mps, ioaddrs, i, prp1[i], prp2[i], mem, k) {
      LargeByteWalked(mps, hm, ioaddrs, i, prp1[i], prp2[i], mem, k);
    }
  }

  lemma MoreThanTwo(ps: nat, mps: nat)
    requires mps > 0 && ps > 2 * mps
    ensures ps / mps >= 2 && (ps / mps * mps == ps ==> ps / mps > 2)
  {
    DivMod(ps, mps);
    MulLe(ps / mps, 1, mps);
  }

  /** The memory behind the lists' addresses. */
  ghost predicate ListPages(mem: map<nat, seq<nat>>, listAddrs: seq<nat>, uints: nat, list: seq<nat>, i: nat) {
    i < |listAddrs| && listAddrs[i] in mem && i * uints + uints <= |list| && mem[listAddrs[i]] == list[i * uints..i * uints + uints]
  }

  /** For every slot of the tables, the controller walks the slot's own bytes. */
  ghost predicate TablesOk(t: Tables, np: nat, ps: nat, mps: nat, ioaddrs: seq<nat>, listAddrs: seq<nat>)
    reads t.prp1, t.prp2, t.list
  {
    && t.prp1.Length == np && (t.prps ==> t.prp2.Length == np)
    && forall i, mem: map<nat, seq<nat>> | 0 <= i < np && (ps > 2 * mps ==> ListPages(mem, listAddrs, mps / 8, t.list[..], i)) ::
         SlotIsImage(mps, ps, ioaddrs, i, t.prp1[i], if t.prps then t.prp2[i] else 0, mem)
  }

  /** The constructor of `page_cache_t`, from the page and buffer sizes and the bus addresses
      of the cache's pages and of its lists. */
  method Build(np: nat, ps: nat, mps: nat, lba: nat, ioaddrs: seq<nat>, listAddrs: seq<nat>) returns (r: Option<Tables>)
    requires Fits(np, ps, mps, |ioaddrs|) && Aligned(ioaddrs, mps) && (ps > 2 * mps ==> np <= |listAddrs| && mps * np < 0x1_0000_0000)
    ensures r.None? <==> ps > mps * (mps / 8) || np == 0 || ps < lba
    ensures r.Some? ==> TablesOk(r.value, np, ps, mps, ioaddrs, listAddrs)
  {
    var uints := mps / 8;
    if ps > mps * uints || np == 0 || ps < lba { return None; }
    if ps <= mps {
      var t := new Tables.Small(np, ps, mps, ioaddrs);
      forall i, mem: map<nat, seq<nat>> | 0 <= i < np ensures SlotIsImage(mps, ps, ioaddrs, i, t.prp1[i], 0, mem) {
        SmallSlot(np, ps, mps, ioaddrs, i, t.prp1[i], mem);
      }
      r := Some(t);
    } else if ps > mps && ps <= mps * 2 {
      var t := new Tables.Double(np, ps, mps, ioaddrs);
      DoubleCovers(np, ps, mps, |ioaddrs|);
      forall i, mem: map<nat, seq<nat>> | 0 <= i < np ensures SlotIsImage(mps, ps, ioaddrs, i, t.prp1[i], t.prp2[i], mem) {
        DoubleSlot(np, mps, ioaddrs, i, t.prp1[i], t.prp2[i], mem);
      }
      r := Some(t);
    } else {
      var t := new Tables.Large(np, ps, mps, ioaddrs, listAddrs);
      LargeFactor(ps, mps);
      forall i, mem: map<nat, seq<nat>> | 0 <= i < np && ListPages(mem, listAddrs, uints, t.list[..], i)
        ensures SlotIsImage(mps, ps, ioaddrs, i, t.prp1[i], t.prp2[i], mem)
      {
        MoreThanTwo(ps, mps);
        LargeSlot(np, ps / mps, mps, ioaddrs, listAddrs, t.prp1[..], t.prp2[..], t.list[..], i, mem);
      }
      r := Some(t);
    }
  }

  /** Over distinct pages no bus address belongs to two bytes of the buffer. */
  lemma BusInjective(ioaddrs: seq<nat>, mps: nat, o1: nat, o2: nat)
    requires mps > 0 && Aligned(ioaddrs, mps) && o1 / mps < |ioaddrs| && o2 / mps < |ioaddrs|
    requires forall i, j | 0 <= i < j < |ioaddrs| :: ioaddrs[i] != ioaddrs[j]
    ensures Bus(ioaddrs, mps, o1) == Bus(ioaddrs, mps, o2) <==> o1 == o2
  {
    DivMod(o1, mps);
    DivMod(o2, mps);
    SamePage(ioaddrs[o1 / mps], ioaddrs[o2 / mps], mps, o1 % mps, o2 % mps);
  }

  lemma SamePage(x: nat, y: nat, mps: nat, r: nat, s: nat)
    requires mps > 0 && x % mps == 0 && y % mps == 0 && r < mps && s < mps
    ensures x + r == y + s <==> x == y && r == s
  {
    DivMod(x, mps);
    DivMod(y, mps);
    ModUnique(x + r, x / mps, mps, r);
    ModUnique(y + s, y / mps, mps, s);
  }

  lemma OtherSlotOtherByte(i: nat, i': nat, ps: nat, k: nat, k': nat)
    requires i != i' && k < ps && k' < ps
    ensures i * ps + k != i' * ps + k'
  {
    ModUnique(i * ps + k, i, ps, k);
    ModUnique(i' * ps + k', i', ps, k');
  }

  /** Transfers for different slots never touch the same byte. */
  lemma SlotsNeverOverlap(mps: nat, ps: nat, ioaddrs: seq<nat>, i: nat, p1: nat, p2: nat, mem: map<nat, seq<nat>>,
          k: nat, i': nat, p1': nat, p2': nat, mem': map<nat, seq<nat>>, k': nat)
    requires SlotIsImage(mps, ps, ioaddrs, i, p1, p2, mem) && SlotIsImage(mps, ps, ioaddrs, i', p1', p2', mem')
    requires mps > 0 && Aligned(ioaddrs, mps) && i != i' && k < ps && k' < ps
    requires forall i, j | 0 <= i < j < |ioaddrs| :: ioaddrs[i] != ioaddrs[j]
    ensures Walked(mps, p1, p2, mem, ps, k) != Walked(mps, p1', p2', mem', ps, k')
  {
    assert ByteIsImage(mps, ps, ioaddrs, i, p1, p2, mem, k) && ByteIsImage(mps, ps, ioaddrs, i', p1', p2', mem', k');
    hide Walked, Bus, SlotIsImage, Aligned;
    OtherSlotOtherByte(i, i', ps, k, k');
    BusInjective(ioaddrs, mps, i * ps + k, i' * ps + k');
  }
}
