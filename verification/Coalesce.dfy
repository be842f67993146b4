/** Warp coalescing: `coalesce_page` takes one pin count for all lanes of a warp that want the
    same page.  Lane masks are sets of lanes. */
module Coalesce {
  const LANES: nat := 32

  /** What each active lane asks for: the page's global address, the array, and whether it
      writes. */
  datatype Request = Request(gaddr: nat, array_: nat, write: bool)

  type Warp = map<nat, Request>

  predicate IsWarp(w: Warp) { forall l | l in w :: l < LANES }

  /** `__match_any_sync` on the address and on the array. */
  function EqMask(w: Warp, lane: nat): (m: set<nat>)
    requires lane in w
    ensures lane in m && m <= w.Keys
  {
    set l | l in w && w[l].gaddr == w[lane].gaddr && w[l].array_ == w[lane].array_
  }

  /** `__ffs(eq_mask) - 1`: the lowest lane of the mask. */
  function Lowest(m: set<nat>, from: nat): (l: nat)
    requires exists x :: x in m && x >= from
    requires forall x | x in m :: x < LANES
    ensures l in m && l >= from && forall x | x in m && x >= from :: l <= x
    decreases LANES - from
  {
    if from in m then from else Lowest(m, from + 1)
  }

  function Master(w: Warp, lane: nat): (l: nat)
    requires IsWarp(w) && lane in w
    ensures l in EqMask(w, lane) && forall x | x in EqMask(w, lane) :: l <= x
  {
    assert lane in EqMask(w, lane) && lane >= 0;
    Lowest(EqMask(w, lane), 0)
  }

  /** A call of `acquire_page` for a group of lanes. */
  datatype Acquire = Acquire(gaddr: nat, array_: nat, count: nat, dirty: bool)

  function Call(w: Warp, lane: nat): Acquire
    requires lane in w
  {
    Acquire(w[lane].gaddr, w[lane].array_, |EqMask(w, lane)|, exists l :: l in EqMask(w, lane) && w[l].write)
  }

  /** The calls made by the lanes below n, in lane order: each group's master makes one. */
  function Calls(w: Warp, n: nat): seq<Acquire>
    requires IsWarp(w)
  {
    if n == 0 then []
    else Calls(w, n - 1) + if n - 1 in w && Master(w, n - 1) == n - 1 then [Call(w, n - 1)] else []
  }

  function Total(cs: seq<Acquire>): nat {
    if cs == [] then 0 else Total(cs[..|cs| - 1]) + cs[|cs| - 1].count
  }

  lemma SameGroup(w: Warp, a: nat, b: nat)
    requires IsWarp(w) && a in w && b in EqMask(w, a)
    ensures EqMask(w, b) == EqMask(w, a) && Master(w, b) == Master(w, a)
  {}

  /** The lanes whose master is below n. */
  function Below(w: Warp, n: nat): set<nat>
    requires IsWarp(w)
  {
    set l | l in w && Master(w, l) < n
  }

  /** The lanes whose master is lane n: its group if it is a master, else none. */
  lemma LanesOfMaster(w: Warp, n: nat)
    requires IsWarp(w)
    ensures var group := if n in w && Master(w, n) == n then EqMask(w, n) else {};
      Below(w, n + 1) == Below(w, n) + group && Below(w, n) !! group
  {
    forall l | l in w && Master(w, l) == n ensures n in w && Master(w, n) == n && l in EqMask(w, n) { SameGroup(w, l, n); }
    if n in w {
      forall l | l in EqMask(w, n) ensures l in w && Master(w, l) == Master(w, n) { SameGroup(w, n, l); }
    }
  }

  lemma TotalOneMore(cs: seq<Acquire>, c: Acquire)
    ensures Total(cs + [c]) == Total(cs) + c.count && Total(cs + []) == Total(cs)
  {
    assert (cs + [c])[..|cs|] == cs && cs + [] == cs;
  }

  lemma OneMoreCall(w: Warp, n: nat)
    requires IsWarp(w)
    ensures Total(Calls(w, n + 1)) == Total(Calls(w, n)) + if n in w && Master(w, n) == n then |EqMask(w, n)| else 0
  {
    if n in w && Master(w, n) == n { TotalOneMore(Calls(w, n), Call(w, n)); }
    else { TotalOneMore(Calls(w, n), Acquire(0, 0, 0, false)); }
  }

  lemma NoCalls(w: Warp)
    requires IsWarp(w)
    ensures Total(Calls(w, 0)) == |Below(w, 0)| == 0
  {
    assert Below(w, 0) == {};
  }

  lemma {:induction false} CallsCover(w: Warp, n: nat)
    requires IsWarp(w)
    ensures Total(Calls(w, n)) == |Below(w, n)|
  {
    hide *;
    if n == 0 { NoCalls(w); }
    else {
      CallsCover(w, n - 1);
      OneMoreCall(w, n - 1);
      LanesOfMaster(w, n - 1);
      assert |Below(w, n)| == |Below(w, n - 1)| + if n - 1 in w && Master(w, n - 1) == n - 1 then |EqMask(w, n - 1)| else 0;
    }
  }

  /** The counts of a warp's calls add up to its active lanes: each lane gets one pin. */
  lemma CountsSumToActiveLanes(w: Warp)
    requires IsWarp(w)
    ensures Total(Calls(w, LANES)) == |w.Keys|
  {
    CallsCover(w, LANES);
    assert Below(w, LANES) == w.Keys;
  }

  /** Every lane is served by exactly one call: its master's, for its page, with one pin for
      each lane of its group, marked dirty if and only if one of them writes. */
  lemma EachLaneIsServedOnce(w: Warp, lane: nat)
    requires IsWarp(w) && lane in w
    ensures var m := Master(w, lane);
      && m in w && Master(w, m) == m && Call(w, m).gaddr == w[lane].gaddr && Call(w, m).array_ == w[lane].array_
      && lane in EqMask(w, m) && (w[lane].write ==> Call(w, m).dirty)
      && (Call(w, m).dirty ==> exists l :: l in EqMask(w, lane) && w[l].write)
    ensures forall k | k in w && Master(w, k) == k && lane in EqMask(w, k) :: k == Master(w, lane)
  {
    SameGroup(w, lane, Master(w, lane));
    forall k | k in w && Master(w, k) == k && lane in EqMask(w, k) ensures k == Master(w, lane) { SameGroup(w, k, lane); }
  }

  // ---------------------------------------------------------------- one call for each page

  /** The lanes that want a page of an array. */
  function Wanting(w: Warp, gaddr: nat, array_: nat): set<nat> {
    set l | l in w && w[l].gaddr == gaddr && w[l].array_ == array_
  }

  /** Lanes that want the same page have one master, the lowest of them. */
  lemma SameWishSameMaster(w: Warp, a: nat, b: nat)
    requires IsWarp(w) && a in w && b in w && w[a].gaddr == w[b].gaddr && w[a].array_ == w[b].array_
    ensures Master(w, a) == Master(w, b) <= a
    ensures Master(w, a) in Wanting(w, w[a].gaddr, w[a].array_)
  {
    SameGroup(w, a, b);
  }

  /** The masters below lane n, in order. */
  function Masters(w: Warp, n: nat): seq<nat>
    requires IsWarp(w)
  {
    if n == 0 then [] else Masters(w, n - 1) + if IsMaster(w, n - 1) then [n - 1] else []
  }

  predicate IsMaster(w: Warp, lane: nat)
    requires IsWarp(w)
  {
    lane in w && Master(w, lane) == lane
  }

  lemma {:induction false} MastersAre(w: Warp, n: nat)
    requires IsWarp(w)
    ensures forall k | 0 <= k < |Masters(w, n)| :: Masters(w, n)[k] < n && IsMaster(w, Masters(w, n)[k])
    ensures forall j, k | 0 <= j < k < |Masters(w, n)| :: Masters(w, n)[j] < Masters(w, n)[k]
    ensures forall m: nat | m < n && IsMaster(w, m) :: m in Masters(w, n)
  {
    hide IsMaster, IsWarp;
    if n > 0 {
      MastersAre(w, n - 1);
      var was, ms := Masters(w, n - 1), Masters(w, n);
      forall m: nat | m < n && IsMaster(w, m) ensures m in ms {
        if m < n - 1 { assert m in was; } else { assert ms[|was|] == m; }
      }
    }
  }

  lemma {:induction false} CallsOfMasters(w: Warp, n: nat)
    requires IsWarp(w)
    ensures |Calls(w, n)| == |Masters(w, n)|
    ensures forall k | 0 <= k < |Calls(w, n)| :: Masters(w, n)[k] in w && Calls(w, n)[k] == Call(w, Masters(w, n)[k])
  {
    hide Call, Master;
    if n > 0 { CallsOfMasters(w, n - 1); }
  }

  /** What a call must be: it is for a page that some lane wants, takes one pin for each lane
      that wants it, and marks the page dirty if and only if one of them writes. */
  ghost predicate Suits(w: Warp, c: Acquire) {
    var lanes := Wanting(w, c.gaddr, c.array_);
    lanes != {} && c.count == |lanes| && (c.dirty <==> exists l :: l in lanes && w[l].write)
  }

  lemma CallSuits(w: Warp, m: nat)
    requires m in w
    ensures Suits(w, Call(w, m)) && Call(w, m).gaddr == w[m].gaddr && Call(w, m).array_ == w[m].array_
  {
    assert Wanting(w, w[m].gaddr, w[m].array_) == EqMask(w, m);
  }

  predicate SamePage(c: Acquire, d: Acquire) { c.gaddr == d.gaddr && c.array_ == d.array_ }

  predicate Serves(w: Warp, c: Acquire, lane: nat)
    requires lane in w
  {
    c.gaddr == w[lane].gaddr && c.array_ == w[lane].array_
  }

  lemma MasterIsMaster(w: Warp, l: nat)
    requires IsWarp(w) && l in w
    ensures var m := Master(w, l); m in w && m < LANES && IsMaster(w, m) && Serves(w, Call(w, m), l)
  {
    SameGroup(w, l, Master(w, l));
  }

  lemma CallsDiffer(w: Warp, a: nat, b: nat)
    requires IsWarp(w) && a != b && IsMaster(w, a) && IsMaster(w, b)
    ensures !SamePage(Call(w, a), Call(w, b))
  {
    if SamePage(Call(w, a), Call(w, b)) { SameWishSameMaster(w, a, b); }
  }

  /** Coalescing: a warp makes exactly one call for each page of each array that its lanes
      want, and that call serves all of them. */
  lemma OneCallPerPage(w: Warp)
    requires IsWarp(w)
    ensures var cs := Calls(w, LANES);
      && (forall k | 0 <= k < |cs| :: Suits(w, cs[k]))
      && (forall j, k | 0 <= j < k < |cs| :: !SamePage(cs[j], cs[k]))
      && (forall l | l in w :: exists k :: 0 <= k < |cs| && Serves(w, cs[k], l))
  {
    hide Calls, Call, Master, EqMask, Suits, Serves, SamePage, LANES;
    var cs, ms := Calls(w, LANES), Masters(w, LANES);
    CallsOfMasters(w, LANES);
    MastersAre(w, LANES);
    hide Masters;
    forall k | 0 <= k < |cs| ensures Suits(w, cs[k]) { CallSuits(w, ms[k]); }
    forall j, k | 0 <= j < k < |cs| ensures !SamePage(cs[j], cs[k]) { CallsDiffer(w, ms[j], ms[k]); }
    forall l | l in w ensures exists k :: 0 <= k < |cs| && Serves(w, cs[k], l) {
      MasterIsMaster(w, l);
      var k :| 0 <= k < |ms| && ms[k] == Master(w, l);
      assert Serves(w, cs[k], l);
    }
  }
}
