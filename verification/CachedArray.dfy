/** The array that a kernel sees: `seq_read` and `seq_write` on element indices, through
    `find_range`, the page arithmetic and the page cache. */
module CachedArray {
  import opened Arith
  import opened Wrappers

  import opened AddressMap
  import opened PageCache
  import opened PageCacheInvariant
  import opened PageCacheRefinement
  import opened PageCacheRequests

  /** One range of an array: its id in the cache and its layout. */
  datatype Part = Part(id: nat, layout: Layout)

  datatype Place = Place(p: PageId, i: nat)

  ghost predicate WellLaid(parts: seq<Part>) {
    && (forall k | 0 <= k < |parts| :: Aligned(parts[k].layout))
    && (forall j, k | 0 <= j < k < |parts| :: parts[j].id != parts[k].id)
  }

  function Spans(parts: seq<Part>): seq<Span> {
    seq(|parts|, k requires 0 <= k < |parts| => parts[k].layout.span)
  }

  predicate InArray(parts: seq<Part>, i: nat) { RangeOf(Spans(parts), i) >= 0 }

  ghost predicate IsFirst(parts: seq<Part>, m: nat, i: nat) {
    && m < |parts| && Covers(parts[m].layout.span, i)
    && forall k | 0 <= k < m :: !Covers(parts[k].layout.span, i)
  }

  /** The first range that covers index i. */
  function PartAt(parts: seq<Part>, i: nat): (part: Part)
    requires InArray(parts, i)
    ensures exists m: nat :: IsFirst(parts, m, i) && part == parts[m]
  {
    RangeOfIsFirst(Spans(parts), i);
    var m := RangeOf(Spans(parts), i);
    assert forall k | 0 <= k < m :: parts[k].layout.span == Spans(parts)[k];
    assert IsFirst(parts, m, i);
    parts[m]
  }

  /** Where `seq_read(i)` and `seq_write(i, v)` go. */
  function PlaceOf(parts: seq<Part>, i: nat): Place
    requires WellLaid(parts) && InArray(parts, i)
  {
    var part := PartAt(parts, i);
    Place(PageId(part.id, PageOf(part.layout, i)), ElemOf(part.layout, i))
  }

  lemma PlaceOfInjective(parts: seq<Part>, i: nat, j: nat)
    requires WellLaid(parts) && InArray(parts, i) && InArray(parts, j) && PlaceOf(parts, i) == PlaceOf(parts, j)
    ensures i == j
  {
    RangeOfIsFirst(Spans(parts), i);
    RangeOfIsFirst(Spans(parts), j);
    var k, l := RangeOf(Spans(parts), i), RangeOf(Spans(parts), j);
    assert parts[k].id == parts[l].id;
    assert k == l;
    PlacesDiffer(parts[k].layout, i, j);
  }

  // ---------------------------------------------------------------- the array on disk

  /** The array's ranges are ranges of the cache, and their pages hold all their elements. */
  ghost predicate LaidIn(g: Geometry, parts: seq<Part>) {
    && WellFormed(g) && WellLaid(parts)
    && forall k | 0 <= k < |parts| :: parts[k].id < |g.ranges| && Holds(g.ranges[parts[k].id], parts[k].layout, g.elems)
  }

  predicate Holds(r: Range, y: Layout, elems: nat)
    requires Aligned(y)
  {
    y.pageSize / y.size == elems && y.offset + y.span.count * y.size <= r.pageCount * y.pageSize
  }

  /** Every element of the array lies on a page that the cache serves, inside the page. */
  lemma PlaceIsCached(g: Geometry, parts: seq<Part>, i: nat)
    requires LaidIn(g, parts) && InArray(parts, i)
    ensures var x := PlaceOf(parts, i); x.p in MakeConfig(g).gaddr && x.p.range < |g.ranges| && x.i < g.elems
  {
    var part := PartAt(parts, i);
    var (y, r) := (part.layout, g.ranges[part.id]);
    ElementFits(y, i);
    MulLt(i - y.span.indexStart, y.span.count, y.size);
    DivMod(ByteOf(y, i), y.pageSize);
    MulLe(r.pageCount, PageOf(y, i), y.pageSize);
    assert PageId(part.id, PageOf(y, i)) in Pages(g);
  }

  /** A byte of a page-sized run of blocks. */
  datatype DiskByte = DiskByte(loc: Loc, byte: nat)

  /** Where replica k of byte b of element i is on disk. */
  function StoredAt(g: Geometry, parts: seq<Part>, i: nat, k: nat, b: nat): DiskByte
    requires g.ctrls > 0 && WellLaid(parts) && InArray(parts, i)
    requires var p := PlaceOf(parts, i).p; p.range < |g.ranges| && k < |BackingLocs(g.ranges[p.range], p.page, g.ctrls)|
  {
    var p := PlaceOf(parts, i).p;
    DiskByte(BackingLocs(g.ranges[p.range], p.page, g.ctrls)[k], SubIndex(PartAt(parts, i).layout, i) + b)
  }

  /** The array on disk is linear.  Replicated, every controller has the elements one after the
      other from the range's first page on.  Striped, so has the sequence of pages that takes
      one page from each controller in turn. */
  lemma DiskIsLinear(g: Geometry, parts: seq<Part>, i: nat, k: nat, b: nat)
    requires LaidIn(g, parts) && InArray(parts, i)
    requires var p := PlaceOf(parts, i).p; p.range < |g.ranges| && k < |BackingLocs(g.ranges[p.range], p.page, g.ctrls)|
    ensures var y, r, d := PartAt(parts, i).layout, g.ranges[PartAt(parts, i).id], StoredAt(g, parts, i, k, b);
      var linear := y.offset + (i - y.span.indexStart) * y.size + b;
      match r.dist
      case Replicate => d.loc.ctrl == k < g.ctrls && d.loc.block * y.pageSize + d.byte == r.pageStart * y.pageSize + linear
      case Stripe =>
        && d.loc.ctrl < g.ctrls && r.pageStart <= d.loc.block
        && ((d.loc.block - r.pageStart) * g.ctrls + d.loc.ctrl) * y.pageSize + d.byte == linear
  {
    var part := PartAt(parts, i);
    var y, r := part.layout, g.ranges[part.id];
    BackingIsLinear(r, PageOf(y, i), g.ctrls);
    DivMod(ByteOf(y, i), y.pageSize);
    MulDistributes(r.pageStart, PageOf(y, i), y.pageSize);
  }

  lemma SameLocSamePage(g: Geometry, p: PageId, k: nat, q: PageId, l: nat)
    requires WellFormed(g) && p in Pages(g) && q in Pages(g)
    requires k < |BackingLocs(g.ranges[p.range], p.page, g.ctrls)| && l < |BackingLocs(g.ranges[q.range], q.page, g.ctrls)|
    requires BackingLocs(g.ranges[p.range], p.page, g.ctrls)[k] == BackingLocs(g.ranges[q.range], q.page, g.ctrls)[l]
    ensures p == q && k == l
  {
    GeometryIsValid(g);
    var c := MakeConfig(g);
    assert c.locs[p][k] == c.locs[q][l];
  }

  /** From array index to controller, block and byte: no two elements and no two replicas of
      an element share a byte. */
  lemma StoredInjective(g: Geometry, parts: seq<Part>, i: nat, k: nat, b: nat, j: nat, l: nat, d: nat)
    requires LaidIn(g, parts) && InArray(parts, i) && InArray(parts, j)
    requires b < PartAt(parts, i).layout.size && d < PartAt(parts, j).layout.size
    requires var p := PlaceOf(parts, i).p; p.range < |g.ranges| && k < |BackingLocs(g.ranges[p.range], p.page, g.ctrls)|
    requires var q := PlaceOf(parts, j).p; q.range < |g.ranges| && l < |BackingLocs(g.ranges[q.range], q.page, g.ctrls)|
    requires StoredAt(g, parts, i, k, b) == StoredAt(g, parts, j, l, d)
    ensures i == j && k == l && b == d
  {
    hide WellFormed, Config.Valid, Config.Invertible;
    PlaceIsCached(g, parts, i);
    PlaceIsCached(g, parts, j);
    var (p, q) := (PlaceOf(parts, i).p, PlaceOf(parts, j).p);
    SameLocSamePage(g, p, k, q, l);
    RangeOfIsFirst(Spans(parts), i);
    RangeOfIsFirst(Spans(parts), j);
    var (m, n) := (RangeOf(Spans(parts), i), RangeOf(Spans(parts), j));
    assert parts[m].id == parts[n].id;
    assert m == n;
    var y := parts[m].layout;
    ElementFits(y, i);
    ElementFits(y, j);
    ModUnique(SubIndex(y, i) + b, ElemOf(y, i), y.size, b);
    ModUnique(SubIndex(y, j) + d, ElemOf(y, j), y.size, d);
    PlaceOfInjective(parts, i, j);
  }

  // ---------------------------------------------------------------- reads and writes over a run

  /** The k-th move, if it is a load or a store, is that of a `seq_read` or `seq_write` of
      element i if at[k] is Some(i): its thread asked for the element's page and accesses the
      element's place there.  If at[k] is None, it accesses no element of this array: other
      arrays and raw accesses share the cache. */
  ghost predicate Calls(parts: seq<Part>, ms: seq<Move>, at: seq<Option<nat>>)
    requires WellLaid(parts)
  {
    && |at| == |ms|
    && forall k | 0 <= k < |ms| && (ms[k].act.Load? || ms[k].act.Store?) ::
         var r := OpenRequest(ms, k, ms[k].t);
         match at[k]
         case Some(i) => InArray(parts, i) && r.Some? && PlaceOf(parts, i) == Place(r.value.page, ms[k].act.i)
         case None => forall i: nat | InArray(parts, i) && r.Some? :: PlaceOf(parts, i) != Place(r.value.page, ms[k].act.i)
  }

  /** The value that the last `seq_write` to index i among the first k moves stored, or the
      value on disk at the start. */
  function LastStore(ms: seq<Move>, at: seq<Option<nat>>, k: nat, i: nat, start: Elem): Elem
    requires |at| == |ms| && k <= |ms|
  {
    if k == 0 then start
    else if ms[k - 1].act.Store? && at[k - 1] == Some(i) then ms[k - 1].act.v
    else LastStore(ms, at, k - 1, i, start)
  }

  lemma {:induction false} LastStoreIsLastStored(parts: seq<Part>, ms: seq<Move>, at: seq<Option<nat>>, k: nat, i: nat,
          start: Elem)
    requires WellLaid(parts) && Calls(parts, ms, at) && k <= |ms| && InArray(parts, i)
    ensures var x := PlaceOf(parts, i); LastStore(ms, at, k, i, start) == LastStored(ms, k, x.p, x.i, start)
  {
    hide OpenRequest, WellLaid;
    if k > 0 {
      LastStoreIsLastStored(parts, ms, at, k - 1, i, start);
      var x := PlaceOf(parts, i);
      if StoresAt(ms, k - 1, x.p, x.i) && at[k - 1].Some? { PlaceOfInjective(parts, at[k - 1].value, i); }
    }
  }

  /** `seq_read(i)` returns the last value that `seq_write` stored at i, or before the first
      one the value that every replica of the element's page had on disk at the start: in every
      run, whatever else goes through the cache. */
  lemma SeqReadReturnsLastSeqWrite(c: Config, parts: seq<Part>, ss: seq<State>, ms: seq<Move>, at: seq<Option<nat>>,
          k: nat)
    requires c.Valid() && IsRun(c, ss, ms) && WellLaid(parts) && Calls(parts, ms, at)
    requires k < |ms| && ms[k].act.Load? && at[k].Some?
    ensures EventAt(c, ss, ms, k).DidRead? && Shape(c, ss[0])
    ensures var x := PlaceOf(parts, at[k].value); x.p in c.locs && x.i < c.elems
    ensures var x := PlaceOf(parts, at[k].value);
      forall l | 0 <= l < |c.locs[x.p]| ::
        EventAt(c, ss, ms, k).v == LastStore(ms, at, k, at[k].value, ss[0].disk[c.locs[x.p][l]][x.i])
  {
    hide Config.Valid, Init, Step, OpenRequest, LastStore, LastStored;
    var i := at[k].value;
    var x := PlaceOf(parts, i);
    LoadReturnsLastStored(c, ss, ms, k);
    StartsFromDisk(c, ss, ms, x.p);
    LastStoreIsLastStored(parts, ms, at, k, i, Flat(c, ss[0])[x.p][x.i]);
  }

  /** A cold cache stands for what is on disk, on each replica. */
  lemma StartsFromDisk(c: Config, ss: seq<State>, ms: seq<Move>, p: PageId)
    requires c.Valid() && IsRun(c, ss, ms) && p in c.gaddr
    ensures Shape(c, ss[0]) && p in c.locs && p in Flat(c, ss[0]) && |Flat(c, ss[0])[p]| == c.elems
    ensures forall l | 0 <= l < |c.locs[p]| :: c.locs[p][l] in ss[0].disk && Flat(c, ss[0])[p] == ss[0].disk[c.locs[p][l]]
  {
    hide Config.Invertible, Config.Disjoint, Step;
  }
}
