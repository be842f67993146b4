/** Where array elements live: on which page of which range, at which place of the page,
    and on which controller's blocks. */
module AddressMap {
  import opened Arith
  import opened PageCache

  // ---------------------------------------------------------------- global addresses

  /** `n_ranges_bits` for a `max_range` of two to the b. */
  function RangeBits(b: nat): nat { if b == 0 then 1 else b }

  /** `(page << n_ranges_bits) | range_id` in 64 bits; the shift leaves zeros below the
      range, so the bitwise or is an addition. */
  function GlobalAddress(b: nat, p: PageId): nat {
    p.page * Pow2(RangeBits(b)) % Pow2(64) + p.range
  }

  /** The packing inverts exactly when the page number fits above the range bits. */
  lemma GlobalAddressInverts(b: nat, p: PageId)
    requires RangeBits(b) <= 64 && p.range < Pow2(b)
    ensures var g := GlobalAddress(b, p);
            (g % Pow2(b) == p.range && g / Pow2(RangeBits(b)) == p.page) <==> p.page < Pow2(64 - RangeBits(b))
  {
    hide Pow2;
    var s, m := Pow2(RangeBits(b)), Pow2(64 - RangeBits(b));
    Pow2Splits(RangeBits(b), 64 - RangeBits(b));
    assert s * m == Pow2(64);
    var a := p.page % m;
    Truncated(p.page, s, m);
    assert GlobalAddress(b, p) == a * s + p.range;
    StrideIsMultiple(b);
    ModUnique(a * s + p.range, a, s, p.range);
    LowBits(a, b, p.range);
    if p.page < m { ModUnique(p.page, 0, m, p.page); } else { DivMod(p.page, m); }
  }

  /** A page number that fits is packed above all range ids: the address counts the pages of
      all `max_range` ranges in turn, or every second number if there is one range only. */
  lemma PackedAddress(b: nat, p: PageId)
    requires RangeBits(b) <= 64 && p.range < Pow2(b) && p.page < Pow2(64 - RangeBits(b))
    ensures GlobalAddress(b, p) == (if b == 0 then 2 * p.page else p.page * Pow2(b)) + p.range < Pow2(64)
  {
    hide Pow2;
    var s, m := Pow2(RangeBits(b)), Pow2(64 - RangeBits(b));
    Pow2Splits(RangeBits(b), 64 - RangeBits(b));
    assert s * m == Pow2(64);
    StrideIsMultiple(b);
    ModUnique(p.page, 0, m, p.page);
    Truncated(p.page, s, m);
    OnePow2();
    MulMono(p.page, m, s);
  }

  lemma OnePow2()
    ensures Pow2(0) == 1
  {
  }

  /** Shifting by s and truncating to s * m keeps the low part of the page number. */
  lemma Truncated(page: nat, s: nat, m: nat)
    requires s > 0 && m > 0 && s * m > 0
    ensures page * s % (s * m) == page % m * s
  {
    var q, a := page / m, page % m;
    DivMod(page, m);
    MulDistributes(q * m, a, s);
    MulAssoc(q, m, s);
    assert m * s == s * m;
    MulMono(a, m, s);
    ModUnique(page * s, q, s * m, a * s);
  }

  lemma StrideIsMultiple(b: nat)
    ensures Pow2(RangeBits(b)) == (if b == 0 then 2 else 1) * Pow2(b) && Pow2(b) <= Pow2(RangeBits(b))
  {
  }

  lemma LowBits(a: nat, b: nat, r: nat)
    requires r < Pow2(b)
    ensures (a * Pow2(RangeBits(b)) + r) % Pow2(b) == r
  {
    hide Pow2;
    StrideIsMultiple(b);
    var f := if b == 0 then 2 else 1;
    MulAssoc(a, f, Pow2(b));
    ModUnique(a * Pow2(RangeBits(b)) + r, a * f, Pow2(b), r);
  }

  // ---------------------------------------------------------------- backing blocks

  datatype Dist = Replicate | Stripe

  datatype Range = Range(pageStart: nat, pageCount: nat, dist: Dist)

  /** `get_backing_page_`. */
  function BackingPage(r: Range, page: nat, ctrls: nat): nat
    requires ctrls > 0
  {
    r.pageStart + if r.dist.Stripe? then page / ctrls else page
  }

  /** The controllers that hold the page: one when striped, all when replicated. */
  function BackingLocs(r: Range, page: nat, ctrls: nat): (l: seq<Loc>)
    requires ctrls > 0
    ensures |l| > 0
  {
    if r.dist.Stripe? then [Loc(page % ctrls, BackingPage(r, page, ctrls))]
    else seq(ctrls, (k: nat) => Loc(k, BackingPage(r, page, ctrls)))
  }

  /** How many page-sized runs of blocks a range takes up on a controller. */
  function Extent(r: Range, ctrls: nat): nat
    requires ctrls > 0
  {
    if r.dist.Stripe? then (r.pageCount + ctrls - 1) / ctrls else r.pageCount
  }

  lemma BackingPageInExtent(r: Range, page: nat, ctrls: nat)
    requires ctrls > 0 && page < r.pageCount
    ensures r.pageStart <= BackingPage(r, page, ctrls) < r.pageStart + Extent(r, ctrls)
  {
    if r.dist.Stripe? {
      var q := (r.pageCount + ctrls - 1) / ctrls;
      DivMod(page, ctrls);
      DivMod(r.pageCount + ctrls - 1, ctrls);
      MulLt(q, page / ctrls, ctrls);
    }
  }

  /** The extent is no larger than needed: the range's last page is in its last block. */
  lemma ExtentIsTight(r: Range, ctrls: nat)
    requires ctrls > 0 && r.pageCount > 0
    ensures BackingPage(r, r.pageCount - 1, ctrls) == r.pageStart + Extent(r, ctrls) - 1
  {
    if r.dist.Stripe? {
      var q := (r.pageCount - 1) / ctrls;
      DivMod(r.pageCount - 1, ctrls);
      MulDistributes(q, 1, ctrls);
      ModUnique(r.pageCount + ctrls - 1, q + 1, ctrls, (r.pageCount - 1) % ctrls);
    }
  }

  /** Where a page is: replicated, on every controller at its own place from the range's start;
      striped, the controllers take turns, so that counting through them block by block gives
      the page number. */
  lemma BackingIsLinear(r: Range, page: nat, ctrls: nat)
    requires ctrls > 0
    ensures var locs := BackingLocs(r, page, ctrls);
      match r.dist
      case Replicate => |locs| == ctrls && forall k | 0 <= k < ctrls :: locs[k].ctrl == k && locs[k].block == r.pageStart + page
      case Stripe =>
        && |locs| == 1 && locs[0].ctrl < ctrls && r.pageStart <= locs[0].block
        && (locs[0].block - r.pageStart) * ctrls + locs[0].ctrl == page
  {
    DivMod(page, ctrls);
  }

  /** Within a range, a controller and a block belong to one page only. */
  lemma BackingInjective(r: Range, ctrls: nat, p: nat, k: nat, q: nat, l: nat)
    requires ctrls > 0 && k < |BackingLocs(r, p, ctrls)| && l < |BackingLocs(r, q, ctrls)|
    requires BackingLocs(r, p, ctrls)[k] == BackingLocs(r, q, ctrls)[l]
    ensures p == q && k == l
  {
    DivMod(p, ctrls);
    DivMod(q, ctrls);
  }

  // ---------------------------------------------------------------- from geometry to configuration

  datatype Geometry = Geometry(ranges: seq<Range>, ctrls: nat, rangeBits: nat, slots: nat, elems: nat)

  /** What the source takes for granted: `max_range` is two to the rangeBits, every range id
      is below it, page numbers fit, ranges do not overlap on disk. */
  ghost predicate WellFormed(g: Geometry) {
    && g.ctrls > 0 && g.slots > 0 && RangeBits(g.rangeBits) <= 64 && |g.ranges| <= Pow2(g.rangeBits)
    && (forall r | 0 <= r < |g.ranges| :: g.ranges[r].pageCount <= Pow2(64 - RangeBits(g.rangeBits)))
    && (forall q, r | 0 <= q < |g.ranges| && 0 <= r < |g.ranges| && q != r :: Separate(g.ranges[q], g.ranges[r], g.ctrls))
  }

  predicate Separate(q: Range, r: Range, ctrls: nat)
    requires ctrls > 0
  {
    q.pageStart + Extent(q, ctrls) <= r.pageStart || r.pageStart + Extent(r, ctrls) <= q.pageStart
  }

  ghost function Pages(g: Geometry): set<PageId> {
    set r, a | 0 <= r < |g.ranges| && 0 <= a < g.ranges[r].pageCount :: PageId(r, a)
  }

  ghost function MakeConfig(g: Geometry): Config
    requires g.ctrls > 0
  {
    Config(
      g.slots,
      g.elems,
      Pow2(RangeBits(g.rangeBits)),
      Pow2(g.rangeBits),
      map p | p in Pages(g) :: GlobalAddress(g.rangeBits, p),
      map p | p in Pages(g) :: BackingLocs(g.ranges[p.range], p.page, g.ctrls))
  }

  lemma RangesApart(g: Geometry, p: PageId, q: PageId)
    requires WellFormed(g) && p in Pages(g) && q in Pages(g) && p.range != q.range
    ensures BackingPage(g.ranges[p.range], p.page, g.ctrls) != BackingPage(g.ranges[q.range], q.page, g.ctrls)
  {
    BackingPageInExtent(g.ranges[p.range], p.page, g.ctrls);
    BackingPageInExtent(g.ranges[q.range], q.page, g.ctrls);
    assert Separate(g.ranges[p.range], g.ranges[q.range], g.ctrls);
  }

  /** The address arithmetic of the source meets all that the protocol relies on: a write-back
      goes to the blocks that a later miss reads, and to no others. */
  lemma GeometryIsValid(g: Geometry)
    requires WellFormed(g)
    ensures MakeConfig(g).Valid()
  {
    var c := MakeConfig(g);
    forall p | p in c.gaddr ensures c.Unpack(c.gaddr[p]) == p {
      GlobalAddressInverts(g.rangeBits, p);
    }
    forall p, k, q, l | p in c.locs && q in c.locs && 0 <= k < |c.locs[p]| && 0 <= l < |c.locs[q]| && c.locs[p][k] == c.locs[q][l]
      ensures p == q && k == l
    {
      assert c.locs[p][k].block == BackingPage(g.ranges[p.range], p.page, g.ctrls);
      assert c.locs[q][l].block == BackingPage(g.ranges[q.range], q.page, g.ctrls);
      if p.range != q.range { RangesApart(g, p, q); }
      BackingInjective(g.ranges[p.range], g.ctrls, p.page, k, q.page, l);
    }
  }

  // ---------------------------------------------------------------- finding the range of an index

  /** `index_start` and `count` of a range. */
  datatype Span = Span(indexStart: nat, count: nat)

  predicate Covers(s: Span, i: nat) { s.indexStart <= i && s.count > i }

  /** The first range that covers index i, or -1. */
  function RangeOf(spans: seq<Span>, i: nat): int {
    if spans == [] then -1
    else if Covers(spans[0], i) then 0
    else var r := RangeOf(spans[1..], i); if r == -1 then -1 else r + 1
  }

  lemma {:induction false} RangeOfIsFirst(spans: seq<Span>, i: nat)
    ensures -1 <= RangeOf(spans, i) < |spans|
    ensures RangeOf(spans, i) >= 0 ==> Covers(spans[RangeOf(spans, i)], i)
    ensures forall k | 0 <= k < |spans| && Covers(spans[k], i) :: 0 <= RangeOf(spans, i) <= k
  {
    if spans != [] && !Covers(spans[0], i) {
      RangeOfIsFirst(spans[1..], i);
      forall k | 0 <= k < |spans| && Covers(spans[k], i) ensures 0 <= RangeOf(spans, i) <= k {
        assert spans[1..][k - 1] == spans[k];
      }
    }
  }

  /** `find_range`. */
  method FindRange(spans: seq<Span>, i: nat) returns (range: int)
    ensures range == RangeOf(spans, i)
    ensures range == -1 <==> forall k | 0 <= k < |spans| :: !Covers(spans[k], i)
  {
    RangeOfIsFirst(spans, i);
    range := -1;
    var k := 0;
    while k < |spans|
      invariant 0 <= k <= |spans|
      invariant range == -1 && forall j | 0 <= j < k :: !Covers(spans[j], i)
    {
      if Covers(spans[k], i) {
        range := k;
        break;
      }
      k := k + 1;
    }
  }

  /** The test compares the count with the index, not with the distance from the range's
      start, so a range is found for just its own indices only when it starts at 0. */
  lemma CoversItsIndicesIffStartsAtZero(s: Span)
    ensures (forall i: nat :: Covers(s, i) <==> s.indexStart <= i < s.indexStart + s.count) <==> s.indexStart == 0 || s.count == 0
  {
    if s.indexStart > 0 && s.count > 0 {
      var i := s.indexStart + s.count - 1;
      assert !Covers(s, i);
    }
  }

  // ---------------------------------------------------------------- array indices

  /** How a range's elements lie in its pages: index of the first element, element size,
      page size, byte offset of the first element. */
  datatype Layout = Layout(span: Span, size: nat, pageSize: nat, offset: nat)

  predicate Aligned(y: Layout) {
    y.size > 0 && y.pageSize > 0 && y.offset % y.size == 0 && y.pageSize % y.size == 0
  }

  function ByteOf(y: Layout, i: nat): nat
    requires y.span.indexStart <= i
  {
    (i - y.span.indexStart) * y.size + y.offset
  }

  /** `get_page`. */
  function PageOf(y: Layout, i: nat): nat
    requires y.pageSize > 0 && y.span.indexStart <= i
  {
    ByteOf(y, i) / y.pageSize
  }

  /** `get_subindex`. */
  function SubIndex(y: Layout, i: nat): nat
    requires y.pageSize > 0 && y.span.indexStart <= i
  {
    ByteOf(y, i) % y.pageSize
  }

  /** The place of element i on its page, counted in elements. */
  function ElemOf(y: Layout, i: nat): nat
    requires Aligned(y) && y.span.indexStart <= i
  {
    SubIndex(y, i) / y.size
  }

  /** An element never straddles two pages and starts on an element boundary. */
  lemma ElementFits(y: Layout, i: nat)
    requires Aligned(y) && y.span.indexStart <= i
    ensures SubIndex(y, i) == ElemOf(y, i) * y.size && ElemOf(y, i) < y.pageSize / y.size
    ensures SubIndex(y, i) + y.size <= y.pageSize
  {
    var z, n, d := y.size, y.pageSize / y.size, i - y.span.indexStart;
    var b := d + y.offset / z;
    DivMod(y.pageSize, z);
    DivMod(y.offset, z);
    MulDistributes(d, y.offset / z, z);
    var q, e := b / n, b % n;
    DivMod(b, n);
    MulDistributes(q * n, e, z);
    MulAssoc(q, n, z);
    MulMono(e, n, z);
    ModUnique(b * z, q, n * z, e * z);
    ModUnique(e * z, e, z, 0);
  }

  /** Different indices of a range lie at different places. */
  lemma PlacesDiffer(y: Layout, i: nat, j: nat)
    requires Aligned(y) && y.span.indexStart <= i && y.span.indexStart <= j
    requires PageOf(y, i) == PageOf(y, j) && ElemOf(y, i) == ElemOf(y, j)
    ensures i == j
  {
    ElementFits(y, i);
    ElementFits(y, j);
    DivMod(ByteOf(y, i), y.pageSize);
    DivMod(ByteOf(y, j), y.pageSize);
    var d, e := i - y.span.indexStart, j - y.span.indexStart;
    MulDistributes(d, 0 - e, y.size);
    assert (d - e) * y.size == 0;
    SmallProduct(d - e, y.size);
  }
}
