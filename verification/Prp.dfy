/** Scatter lists for the controller: `nvm_prp_list`, `nvm_prp_list_chain` and
    `nvm_cmd_data`, read back as section 4.3 of NVM Express 1.3 tells a controller to. */
module Prp {
  import opened Arith
  import opened Wrappers

  const HALF: nat := 0x1_0000_0000

  /** A PRP list page: its entries, and the address at which the controller sees it. */
  datatype PrpList = PrpList(entries: array<nat>, ioaddr: nat)

  ghost function Arrays(lists: seq<PrpList>): set<array<nat>> {
    set l | l in lists :: l.entries
  }

  ghost function Contents(lists: seq<PrpList>): (r: seq<seq<nat>>)
    reads Arrays(lists)
    ensures |r| == |lists|
  {
    seq(|lists|, i requires 0 <= i < |lists| reads Arrays(lists) => lists[i].entries[..])
  }

  function Addresses(lists: seq<PrpList>): (r: seq<nat>)
    ensures |r| == |lists| && forall i | 0 <= i < |r| :: r[i] == lists[i].ioaddr
  {
    seq(|lists|, i requires 0 <= i < |lists| => lists[i].ioaddr)
  }

  /** Lists are separate pages of at least two entries. */
  ghost predicate Separate(lists: seq<PrpList>) {
    && (forall i | 0 <= i < |lists| :: lists[i].entries.Length >= 2)
    && (forall i, j | 0 <= i < j < |lists| :: lists[i].entries != lists[j].entries && lists[i].ioaddr != lists[j].ioaddr)
  }

  // ---------------------------------------------------------------- what is written

  /** How many entries go into a list with room for cap when n are left. */
  function Used(cap: nat, n: nat): nat
    requires cap >= 1 || n == 0
  {
    if n > cap then cap - 1 else n
  }

  function Put(old_: seq<nat>, pages: seq<nat>): seq<nat>
    requires |pages| <= |old_|
  {
    pages + old_[|pages|..]
  }

  predicate Roomy(lists: seq<seq<nat>>) {
    forall i | 0 <= i < |lists| :: |lists[i]| >= 2
  }

  /** The lists from i on after the chain has been written into them. */
  function Filled(lists: seq<seq<nat>>, addrs: seq<nat>, i: nat, pages: seq<nat>): (r: seq<seq<nat>>)
    requires |addrs| == |lists| && Roomy(lists)
    ensures |r| == |lists| && forall k | 0 <= k < |lists| :: |r[k]| == |lists[k]|
    ensures forall k | 0 <= k < i && k < |lists| :: r[k] == lists[k]
    decreases |lists| - i
  {
    if i >= |lists| then lists
    else
      var cap := |lists[i]|;
      var u := Used(cap, |pages|);
      var l := lists[i := Put(lists[i], pages[..u])];
      if u == |pages| || i + 1 == |lists| then l
      else Filled(l[i := l[i][cap - 1 := addrs[i + 1]]], addrs, i + 1, pages[u..])
  }

  /** The number of page entries written from list i on. */
  function Count(lists: seq<seq<nat>>, i: nat, n: nat): (r: nat)
    requires Roomy(lists) && i < |lists|
    ensures r <= n && (n >= 1 ==> r >= 1)
    decreases |lists| - i
  {
    var u := Used(|lists[i]|, n);
    if u == n || i + 1 == |lists| then u else u + Count(lists, i + 1, n - u)
  }

  // ---------------------------------------------------------------- what the controller reads

  /** The walk of the list at address a for n pages: a full list ends in the address of the
      next one. */
  function Walk(mem: map<nat, seq<nat>>, a: nat, n: nat): Option<seq<nat>>
    decreases n
  {
    if a !in mem || |mem[a]| < 2 then None
    else
      var page := mem[a];
      if n <= |page| then Some(page[..n])
      else
        match Walk(mem, page[|page| - 1], n - (|page| - 1))
        case None => None
        case Some(rest) => Some(page[..|page| - 1] + rest)
  }

  function Pointer(cmd: seq<nat>, k: nat): nat
    requires k + 1 < |cmd|
  {
    cmd[k] + cmd[k + 1] * HALF
  }

  /** The data pages of a command that transfers n pages. */
  function Transfer(mem: map<nat, seq<nat>>, cmd: seq<nat>, n: nat): Option<seq<nat>>
    requires |cmd| == 16
  {
    var prp1, prp2 := Pointer(cmd, 6), Pointer(cmd, 8);
    if n == 0 then Some([])
    else if n == 1 then Some([prp1])
    else if n == 2 then Some([prp1, prp2])
    else
      match Walk(mem, prp2, n - 1)
      case None => None
      case Some(rest) => Some([prp1] + rest)
  }

  /** The pages at the lists' addresses. */
  ghost predicate Holds(mem: map<nat, seq<nat>>, lists: seq<seq<nat>>, addrs: seq<nat>, i: nat)
    requires |addrs| == |lists|
  {
    forall k | i <= k < |lists| :: addrs[k] in mem && mem[addrs[k]] == lists[k]
  }

  // ---------------------------------------------------------------- the round trip

  /** The last list leaves room for the controller to tell a pointer from a page. */
  predicate Tellable(lists: seq<seq<nat>>, i: nat) {
    i + 1 >= |lists| || |lists[|lists| - 1]| >= 3
  }

  /** The chain from list i on, once list i is written. */
  function Linked(lists: seq<seq<nat>>, addrs: seq<nat>, i: nat, pages: seq<nat>): (r: seq<seq<nat>>)
    requires |addrs| == |lists| && Roomy(lists) && i + 1 < |lists| && |pages| > |lists[i]|
    ensures |r| == |lists| && forall k | 0 <= k < |lists| :: |r[k]| == |lists[k]|
    ensures r[i] == pages[..|lists[i]| - 1] + [addrs[i + 1]]
  {
    var cap := |lists[i]|;
    lists[i := pages[..cap - 1] + [addrs[i + 1]]]
  }

  lemma PutHead(was: seq<nat>, pages: seq<nat>)
    requires |pages| <= |was|
    ensures |Put(was, pages)| == |was| && Put(was, pages)[..|pages|] == pages
  {}

  /** The last list that is used holds its pages first. */
  lemma {:induction false} FilledLast(lists: seq<seq<nat>>, addrs: seq<nat>, i: nat, pages: seq<nat>)
    requires |addrs| == |lists| && Roomy(lists) && i < |lists|
    requires var u := Used(|lists[i]|, |pages|); u == |pages| || i + 1 == |lists|
    ensures var u := Used(|lists[i]|, |pages|); Filled(lists, addrs, i, pages)[i][..u] == pages[..u]
  {
    hide Put;
    PutHead(lists[i], pages[..Used(|lists[i]|, |pages|)]);
  }

  lemma PutThenPoint(was: seq<nat>, pages: seq<nat>, next: nat)
    requires |pages| + 1 == |was|
    ensures var page := Put(was, pages); |page| == |was| && page[|pages| := next] == pages + [next]
  {}

  /** A full list holds its pages and the address of the next one. */
  lemma {:induction false} FilledOn(lists: seq<seq<nat>>, addrs: seq<nat>, i: nat, pages: seq<nat>)
    requires |addrs| == |lists| && Roomy(lists) && i + 1 < |lists| && |pages| > |lists[i]|
    ensures var l := Linked(lists, addrs, i, pages);
      Filled(lists, addrs, i, pages) == Filled(l, addrs, i + 1, pages[|lists[i]| - 1..])
  {
    hide Put;
    var u := |lists[i]| - 1;
    PutThenPoint(lists[i], pages[..u], addrs[i + 1]);
    var page := Put(lists[i], pages[..u]);
    var l := lists[i := page];
    assert l[i := pages[..u] + [addrs[i + 1]]] == Linked(lists, addrs, i, pages);
  }

  /** A walk that ends in the list at a. */
  lemma {:induction false} WalkEnds(mem: map<nat, seq<nat>>, a: nat, n: nat)
    requires a in mem && |mem[a]| >= 2 && n <= |mem[a]|
    ensures Walk(mem, a, n) == Some(mem[a][..n])
  {}

  /** A walk that follows a full list's pointer. */
  lemma {:induction false} WalkOn(mem: map<nat, seq<nat>>, a: nat, n: nat, u: nat, pages: seq<nat>, next: nat)
    requires 1 <= u && u + 2 <= n <= |pages|
    requires a in mem && mem[a] == pages[..u] + [next]
    ensures Walk(mem, a, n) == Some(pages[..n]) <==> Walk(mem, next, n - u) == Some(pages[u..][..n - u])
  {
    assert mem[a][..|mem[a]| - 1] == pages[..u];
    assert pages[..n] == pages[..u] + pages[u..][..n - u];
    var w := Walk(mem, next, n - u);
    if w.Some? { assert (pages[..u] + w.value)[u..] == w.value; }
    assert (pages[..u] + pages[u..][..n - u])[u..] == pages[u..][..n - u];
  }

  /** The count depends on the lists' sizes only. */
  lemma {:induction false} CountFrame(a: seq<seq<nat>>, b: seq<seq<nat>>, i: nat, n: nat)
    requires Roomy(a) && Roomy(b) && |a| == |b| && i < |a| && forall k | 0 <= k < |a| :: |a[k]| == |b[k]|
    ensures Count(a, i, n) == Count(b, i, n)
    decreases |a| - i
  {
    var u := Used(|a[i]|, n);
    if u != n && i + 1 < |a| { CountFrame(a, b, i + 1, n - u); }
  }

  /** A chain that goes on in the next list. */
  predicate GoesOn(lists: seq<seq<nat>>, i: nat, n: nat) {
    i + 1 < |lists| && n > |lists[i]|
  }

  lemma {:induction false} StepDown(lists: seq<seq<nat>>, addrs: seq<nat>, i: nat, pages: seq<nat>)
    requires |addrs| == |lists| && Roomy(lists) && GoesOn(lists, i, |pages|)
    ensures var l := Linked(lists, addrs, i, pages); var u := |lists[i]| - 1;
      && Roomy(l) && l[|l| - 1] == lists[|l| - 1] && |pages[u..]| >= 2 && u >= 1
      && Filled(lists, addrs, i, pages) == Filled(l, addrs, i + 1, pages[u..])
      && Filled(lists, addrs, i, pages)[i] == pages[..u] + [addrs[i + 1]]
      && Count(lists, i, |pages|) == u + Count(l, i + 1, |pages[u..]|)
  {
    var l := Linked(lists, addrs, i, pages);
    FilledOn(lists, addrs, i, pages);
    CountFrame(lists, l, i + 1, |pages| - |lists[i]| + 1);
  }

  lemma {:induction false} HoldsLess(mem: map<nat, seq<nat>>, lists: seq<seq<nat>>, addrs: seq<nat>, i: nat)
    requires |addrs| == |lists| && i < |lists| && Holds(mem, lists, addrs, i)
    ensures Holds(mem, lists, addrs, i + 1) && addrs[i] in mem && mem[addrs[i]] == lists[i]
  {}

  lemma {:induction false} CountAtLeastTwo(lists: seq<seq<nat>>, i: nat, n: nat)
    requires Roomy(lists) && i < |lists| && n >= 2
    requires Count(lists, i, n) == n || |lists[|lists| - 1]| >= 3
    ensures Count(lists, i, n) >= 2
    decreases |lists| - i
  {
    var u := Used(|lists[i]|, n);
    if u != n && i + 1 < |lists| && n - u >= 2 { CountAtLeastTwo(lists, i + 1, n - u); }
  }

  lemma {:induction false} WalkLast(mem: map<nat, seq<nat>>, lists: seq<seq<nat>>, addrs: seq<nat>, i: nat,
          pages: seq<nat>)
    requires |addrs| == |lists| && Roomy(lists) && i < |lists| && !GoesOn(lists, i, |pages|)
    requires Holds(mem, Filled(lists, addrs, i, pages), addrs, i)
    ensures var n := Count(lists, i, |pages|); Walk(mem, addrs[i], n) == Some(pages[..n])
  {
    HoldsLess(mem, Filled(lists, addrs, i, pages), addrs, i);
    FilledLast(lists, addrs, i, pages);
    WalkEnds(mem, addrs[i], Count(lists, i, |pages|));
  }

  /** With room for all pages the walk reads them all back; otherwise, if the last list is
      tellable, it reads back those that were written. */
  lemma {:induction false} WalkReadsBack(mem: map<nat, seq<nat>>, lists: seq<seq<nat>>, addrs: seq<nat>, i: nat,
          pages: seq<nat>)
    requires |addrs| == |lists| && Roomy(lists) && i < |lists|
    requires Holds(mem, Filled(lists, addrs, i, pages), addrs, i)
    requires Count(lists, i, |pages|) == |pages| || Tellable(lists, i)
    ensures var n := Count(lists, i, |pages|); Walk(mem, addrs[i], n) == Some(pages[..n])
    decreases |lists| - i
  {
    hide Filled, Walk, Linked, Count, Holds, Roomy;
    if GoesOn(lists, i, |pages|) {
      var u := |lists[i]| - 1;
      var l := Linked(lists, addrs, i, pages);
      StepDown(lists, addrs, i, pages);
      HoldsLess(mem, Filled(lists, addrs, i, pages), addrs, i);
      CountAtLeastTwo(l, i + 1, |pages[u..]|);
      WalkReadsBack(mem, l, addrs, i + 1, pages[u..]);
      WalkOn(mem, addrs[i], Count(lists, i, |pages|), u, pages, addrs[i + 1]);
    } else { WalkLast(mem, lists, addrs, i, pages); }
  }

  /** With too few lists and room for two entries in the last, the walk goes wrong: the
      controller takes the pointer to the last list for a page. */
  lemma {:induction false} WalkTakesPointerForPage(mem: map<nat, seq<nat>>, lists: seq<seq<nat>>, addrs: seq<nat>,
          i: nat, pages: seq<nat>)
    requires |addrs| == |lists| && Roomy(lists) && i + 1 < |lists| && |lists[|lists| - 1]| == 2
    requires Holds(mem, Filled(lists, addrs, i, pages), addrs, i)
    requires Count(lists, i, |pages|) < |pages| && addrs[|lists| - 1] !in pages
    ensures var n := Count(lists, i, |pages|); n >= 2 && Walk(mem, addrs[i], n) != Some(pages[..n])
    decreases |lists| - i
  {
    var u := |lists[i]| - 1;
    var n := Count(lists, i, |pages|);
    var l := Linked(lists, addrs, i, pages);
    HoldsLess(mem, Filled(lists, addrs, i, pages), addrs, i);
    StepDown(lists, addrs, i, pages);
    if i + 2 == |lists| {
      hide Filled, Walk;
      WalkEnds(mem, addrs[i], n);
      assert mem[addrs[i]][..n][u] == addrs[i + 1];
      assert pages[..n][u] in pages;
    } else {
      hide Filled, Walk, Linked, Count, Holds;
      WalkTakesPointerForPage(mem, l, addrs, i + 1, pages[u..]);
      WalkOn(mem, addrs[i], n, u, pages, addrs[i + 1]);
    }
  }

  // ---------------------------------------------------------------- the code that writes

  /** `nvm_prp_list`: one list.  The last entry is left free when the pages do not fit. */
  method NvmPrpList(list: PrpList, pages: seq<nat>) returns (n: nat)
    requires list.entries.Length >= 1 || pages == []
    modifies list.entries
    ensures n == Used(list.entries.Length, |pages|)
    ensures list.entries[..] == Put(old(list.entries[..]), pages[..n])
  {
    var nPages := |pages|;
    var nPrps := list.entries.Length;
    if nPages == 0 { return 0; }
    if nPages > nPrps { nPrps := nPrps - 1; } else { nPrps := nPages; }
    var i := 0;
    while i < nPrps
      invariant 0 <= i <= nPrps
      invariant forall k | 0 <= k < i :: list.entries[k] == pages[k]
      invariant forall k | i <= k < list.entries.Length :: list.entries[k] == old(list.entries[k])
    {
      list.entries[i] := pages[i];
      i := i + 1;
    }
    assert list.entries[..] == Put(old(list.entries[..]), pages[..i]);
    return i;
  }

  /** Writing one page changes one of the contents. */
  lemma ContentsAt(lists: seq<PrpList>, was: seq<seq<nat>>, i: nat, page: seq<nat>)
    requires Separate(lists) && i < |lists| && |was| == |lists| && lists[i].entries[..] == page
    requires forall k | 0 <= k < |lists| && k != i :: lists[k].entries[..] == was[k]
    ensures Contents(lists) == was[i := page]
  {}

  /** The lists once the one before i points to list i. */
  function Pointed(lists: seq<seq<nat>>, addrs: seq<nat>, i: nat): (r: seq<seq<nat>>)
    requires |addrs| == |lists| && Roomy(lists) && 1 <= i < |lists|
    ensures |r| == |lists| && Roomy(r) && forall k | 0 <= k < |r| :: |r[k]| == |lists[k]|
  {
    var page: seq<nat> := lists[i - 1];
    lists[i - 1 := page[|page| - 1 := addrs[i]]]
  }

  lemma PointedIs(lists: seq<PrpList>, was: seq<seq<nat>>, addrs: seq<nat>, i: nat)
    requires Separate(lists) && 1 <= i < |lists| && |was| == |addrs| == |lists| && Roomy(was)
    requires lists[i - 1].entries.Length == |was[i - 1]| && lists[i - 1].entries[..] == (var page: seq<nat> := was[i - 1]; page[|page| - 1 := addrs[i]])
    requires forall k | 0 <= k < |lists| && k != i - 1 :: lists[k].entries[..] == was[k]
    ensures Contents(lists) == Pointed(was, addrs, i)
  {}

  lemma EmptyChain(lists: seq<seq<nat>>, addrs: seq<nat>, pages: seq<nat>)
    requires lists == [] && addrs == []
    ensures Filled(lists, addrs, 0, pages) == lists
  {}

  /** The loop of the chain after i lists and n pages: what is still to come makes the whole. */
  ghost predicate SoFar(was: seq<seq<nat>>, addrs: seq<nat>, cur: seq<seq<nat>>, i: nat, n: nat, pages: seq<nat>) {
    && |addrs| == |was| == |cur| && Roomy(was) && Roomy(cur) && 1 <= i <= |was| && n <= |pages|
    && (forall k | 0 <= k < |was| :: |cur[k]| == |was[k]|)
    && if n < |pages| && i < |was| then
         && Count(was, 0, |pages|) == n + Count(was, i, |pages| - n)
         && Filled(was, addrs, 0, pages) == Filled(Pointed(cur, addrs, i), addrs, i, pages[n..])
       else
         && Count(was, 0, |pages|) == n
         && Filled(was, addrs, 0, pages) == cur
  }

  lemma {:induction false} ChainStarts(was: seq<seq<nat>>, addrs: seq<nat>, pages: seq<nat>)
    requires |addrs| == |was| > 0 && Roomy(was)
    ensures var u := Used(|was[0]|, |pages|); SoFar(was, addrs, was[0 := Put(was[0], pages[..u])], 1, u, pages)
  {}

  lemma {:induction false} ChainGoesOn(was: seq<seq<nat>>, addrs: seq<nat>, cur: seq<seq<nat>>, i: nat, n: nat,
          pages: seq<nat>)
    requires SoFar(was, addrs, cur, i, n, pages) && i < |was| && n < |pages|
    ensures var l := Pointed(cur, addrs, i); var rest := pages[n..]; var u := Used(|was[i]|, |rest|);
      SoFar(was, addrs, l[i := Put(l[i], rest[..u])], i + 1, n + u, pages)
  {
    var l := Pointed(cur, addrs, i);
    var rest := pages[n..];
    var u := Used(|was[i]|, |rest|);
    assert rest[u..] == pages[n + u..];
  }

  lemma {:induction false} SoFarShape(was: seq<seq<nat>>, addrs: seq<nat>, cur: seq<seq<nat>>, i: nat, n: nat,
          pages: seq<nat>)
    requires SoFar(was, addrs, cur, i, n, pages)
    ensures |addrs| == |was| == |cur| && Roomy(was) && Roomy(cur) && 1 <= i <= |was| && n <= |pages|
    ensures forall k | 0 <= k < |was| :: |cur[k]| == |was[k]|
    ensures n == |pages| || i == |was| ==> Count(was, 0, |pages|) == n && Filled(was, addrs, 0, pages) == cur
  {}

  lemma ContentsAre(lists: seq<PrpList>)
    ensures |Contents(lists)| == |lists| && forall k | 0 <= k < |lists| :: Contents(lists)[k] == lists[k].entries[..]
  {}

  /** One turn of the loop of `nvm_prp_list_chain`. */
  method NextList(lists: seq<PrpList>, i: nat, listPrps: nat, rest: seq<nat>) returns (n: nat)
    requires Separate(lists) && Roomy(Contents(lists)) && 1 <= i < |lists| && listPrps == lists[i - 1].entries.Length - 1
    modifies Arrays(lists)
    ensures n == Used(lists[i].entries.Length, |rest|)
    ensures var l := Pointed(old(Contents(lists)), Addresses(lists), i); Contents(lists) == l[i := Put(l[i], rest[..n])]
  {
    hide Put, Pointed, Contents;
    ContentsAre(lists);
    ghost var cur, addrs := Contents(lists), Addresses(lists);
    lists[i - 1].entries[listPrps] := lists[i].ioaddr;
    assert lists[i - 1].entries[..] == (var page: seq<nat> := cur[i - 1]; page[listPrps := addrs[i]]);
    PointedIs(lists, cur, addrs, i);
    ContentsAre(lists);
    n := NvmPrpList(lists[i], rest);
    ContentsAt(lists, Pointed(cur, addrs, i), i, lists[i].entries[..]);
  }

  /** `nvm_prp_list_chain`: fills the lists one after the other; a full one ends in the
      address of the next. */
  method NvmPrpListChain(lists: seq<PrpList>, pages: seq<nat>) returns (n: nat)
    requires Separate(lists)
    modifies Arrays(lists)
    ensures lists == [] ==> n == 0
    ensures lists != [] ==> n == Count(old(Contents(lists)), 0, |pages|)
    ensures Contents(lists) == Filled(old(Contents(lists)), Addresses(lists), 0, pages)
  {
    hide Filled, Count, Put, Pointed, SoFar, Contents;
    ContentsAre(lists);
    if |lists| == 0 { EmptyChain(Contents(lists), Addresses(lists), pages); return 0; }
    ghost var was := Contents(lists);
    ghost var addrs := Addresses(lists);
    var listPrps := NvmPrpList(lists[0], pages);
    ContentsAt(lists, was, 0, lists[0].entries[..]);
    ChainStarts(was, addrs, pages);
    n := listPrps;
    var i := 1;
    while i < |lists| && n < |pages|
      invariant 1 <= i <= |lists| && n <= |pages|
      invariant SoFar(was, addrs, Contents(lists), i, n, pages)
      invariant n < |pages| ==> listPrps == lists[i - 1].entries.Length - 1
    {
      ghost var cur := Contents(lists);
      SoFarShape(was, addrs, cur, i, n, pages);
      listPrps := NextList(lists, i, listPrps, pages[n..]);
      ChainGoesOn(was, addrs, cur, i, n, pages);
      n := n + listPrps;
      i := i + 1;
    }
    SoFarShape(was, addrs, Contents(lists), i, n, pages);
  }

  // ---------------------------------------------------------------- how much fits

  /** The entries that the lists from i on have room for. */
  function Room(lists: seq<seq<nat>>, i: nat): nat
    requires Roomy(lists) && i < |lists|
    decreases |lists| - i
  {
    if i + 1 == |lists| then |lists[i]| else |lists[i]| - 1 + Room(lists, i + 1)
  }

  /** All pages are written if they fit, and otherwise one fewer than would. */
  lemma {:induction false} CountIsWhatFits(lists: seq<seq<nat>>, i: nat, n: nat)
    requires Roomy(lists) && i < |lists|
    ensures Count(lists, i, n) == if n <= Room(lists, i) then n else Room(lists, i) - 1
    ensures Room(lists, i) >= 2 && (if i + 1 < |lists| then Room(lists, i) > |lists[i]| else Room(lists, i) == |lists[i]|)
    decreases |lists| - i
  {
    if i + 1 < |lists| {
      CountIsWhatFits(lists, i + 1, if n > |lists[i]| then n - (|lists[i]| - 1) else 0);
    }
  }

  // ---------------------------------------------------------------- the command

  const WORD64: nat := 0x1_0000_0000_0000_0000

  /** Clears the fields at bits 8-9 and 14-15 of the command's first word. */
  function ClearSelectors(d: nat): nat {
    d - d / 0x100 % 4 * 0x100 - d / 0x4000 % 4 * 0x4000
  }

  /** A command's first word: opcode, fused-operation field, reserved bits, data pointer
      selector, identifier. */
  function FirstWord(opcode: nat, fuse: nat, reserved: nat, psdt: nat, cid: nat): nat
    requires opcode < 0x100 && fuse < 4 && reserved < 0x10 && psdt < 4
  {
    opcode + fuse * 0x100 + reserved * 0x400 + psdt * 0x4000 + cid * 0x10000
  }

  lemma ClearSelectorsClearsTwoFields(opcode: nat, fuse: nat, reserved: nat, psdt: nat, cid: nat)
    requires opcode < 0x100 && fuse < 4 && reserved < 0x10 && psdt < 4
    ensures ClearSelectors(FirstWord(opcode, fuse, reserved, psdt, cid)) == FirstWord(opcode, 0, reserved, 0, cid)
  {
    var d := FirstWord(opcode, fuse, reserved, psdt, cid);
    var high := fuse + reserved * 4 + psdt * 0x40 + cid * 0x100;
    ModUnique(d, high, 0x100, opcode);
    ModUnique(high, reserved + psdt * 0x10 + cid * 0x40, 4, fuse);
    ModUnique(d, psdt + cid * 4, 0x4000, opcode + fuse * 0x100 + reserved * 0x400);
    ModUnique(psdt + cid * 4, cid, 4, psdt);
  }

  function WithPointers(cmd: seq<nat>, prp1: nat, prp2: nat): (r: seq<nat>)
    requires |cmd| == 16
    ensures |r| == 16
    ensures prp1 < WORD64 && prp2 < WORD64 ==> Pointer(r, 6) == prp1 && Pointer(r, 8) == prp2
  {
    cmd[0 := ClearSelectors(cmd[0])][6 := prp1 % HALF][7 := prp1 / HALF % HALF][8 := prp2 % HALF][9 := prp2 / HALF % HALF]
  }

  /** `nvm_cmd_data_ptr`. */
  method NvmCmdDataPtr(cmd: array<nat>, prp1: nat, prp2: nat)
    requires cmd.Length == 16
    modifies cmd
    ensures cmd[..] == WithPointers(old(cmd[..]), prp1, prp2)
    ensures prp1 < WORD64 && prp2 < WORD64 ==> Pointer(cmd[..], 6) == prp1 && Pointer(cmd[..], 8) == prp2
  {
    cmd[0] := ClearSelectors(cmd[0]);
    cmd[6] := prp1 % HALF;
    cmd[7] := prp1 / HALF % HALF;
    cmd[8] := prp2 % HALF;
    cmd[9] := prp2 / HALF % HALF;
  }

  /** The memory that the controller sees. */
  ghost function Memory(lists: seq<PrpList>): (mem: map<nat, seq<nat>>)
    requires Separate(lists)
    reads Arrays(lists)
    ensures Holds(mem, Contents(lists), Addresses(lists), 0)
  {
    map i | 0 <= i < |lists| :: lists[i].ioaddr := lists[i].entries[..]
  }

  ghost predicate Addressable(lists: seq<PrpList>, pages: seq<nat>) {
    && (forall i | 0 <= i < |lists| :: lists[i].ioaddr < WORD64 && lists[i].ioaddr !in pages)
    && (forall k | 0 <= k < |pages| :: pages[k] < WORD64)
  }

  /** The pages a command covers: all of them if they fit. */
  ghost function Covered(lists: seq<seq<nat>>, n: nat): nat
    requires Roomy(lists)
  {
    if n <= 2 then n
    else if lists == [] then 2
    else if n - 1 <= Room(lists, 0) then n
    else Room(lists, 0)
  }

  /** The last list can hold at least three entries, or is not cut short. */
  ghost predicate Readable(lists: seq<seq<nat>>, n: nat)
    requires Roomy(lists)
  {
    n <= 2 || lists == [] || n - 1 <= Room(lists, 0) || |lists[|lists| - 1]| >= 3
  }

  /** The controller reads the first n pages, in order. */
  predicate Yields(r: Option<seq<nat>>, pages: seq<nat>, n: nat) {
    n <= |pages| && r == Some(pages[..n])
  }

  lemma {:induction false} LongTransfer(mem: map<nat, seq<nat>>, cmd: seq<nat>, pages: seq<nat>, n: nat)
    requires |cmd| == 16 && 3 <= n <= |pages| && Pointer(cmd, 6) == pages[0]
    ensures Yields(Transfer(mem, cmd, n), pages, n) <==> Yields(Walk(mem, Pointer(cmd, 8), n - 1), pages[1..], n - 1)
  {
    var rest := pages[1..][..n - 1];
    assert pages[..n] == [pages[0]] + rest;
    var w := Walk(mem, Pointer(cmd, 8), n - 1);
    if w.Some? { assert ([pages[0]] + w.value)[1..] == w.value; }
    assert pages[..n][1..] == rest;
  }

  lemma {:induction false} ShortTransfer(mem: map<nat, seq<nat>>, cmd: seq<nat>, pages: seq<nat>, n: nat)
    requires |cmd| == 16 && 1 <= n <= 2 && n <= |pages| && Pointer(cmd, 6) == pages[0]
    ensures Yields(Transfer(mem, cmd, n), pages, n) <==> n == 1 || Pointer(cmd, 8) == pages[1]
  {
    if n == 2 { assert pages[..2] == [pages[0], pages[1]]; } else { assert pages[..1] == [pages[0]]; }
  }

  lemma ShortCovered(lists: seq<seq<nat>>, n: nat)
    requires Roomy(lists) && (n <= 2 || lists == [])
    ensures Covered(lists, n) == (if n <= 2 then n else 2) && Readable(lists, n)
  {}

  lemma NotInTail(x: nat, pages: seq<nat>)
    requires x !in pages && |pages| > 0
    ensures x !in pages[1..]
  {}

  /** The walk of a chain reads back what was written exactly when nothing is left over, or
      there is one list, or the last list can hold three entries. */
  lemma {:induction false} ChainReadBackExactly(mem: map<nat, seq<nat>>, lists: seq<seq<nat>>, addrs: seq<nat>,
          pages: seq<nat>)
    requires |addrs| == |lists| > 0 && Roomy(lists)
    requires Holds(mem, Filled(lists, addrs, 0, pages), addrs, 0)
    requires addrs[|lists| - 1] !in pages
    ensures var n := Count(lists, 0, |pages|);
      Yields(Walk(mem, addrs[0], n), pages, n) <==> n == |pages| || Tellable(lists, 0)
  {
    hide Filled, Walk, Holds, Count;
    if Count(lists, 0, |pages|) == |pages| || Tellable(lists, 0) { WalkReadsBack(mem, lists, addrs, 0, pages); }
    else { WalkTakesPointerForPage(mem, lists, addrs, 0, pages); }
  }

  lemma {:induction false} ReadableCounts(lists: seq<seq<nat>>, n: nat)
    requires Roomy(lists) && |lists| > 0 && n > 2
    ensures Covered(lists, n) == 1 + Count(lists, 0, n - 1) >= 2
    ensures Readable(lists, n) <==> Count(lists, 0, n - 1) >= 2 && (Count(lists, 0, n - 1) == n - 1 || Tellable(lists, 0))
  {
    hide Count, Room;
    CountIsWhatFits(lists, 0, n - 1);
  }

  /** A command whose pages go through a chain of which n entries are used. */
  lemma {:induction false} ChainTransfer(mem: map<nat, seq<nat>>, cmd: seq<nat>, lists: seq<seq<nat>>,
          addrs: seq<nat>, pages: seq<nat>, n: nat)
    requires |cmd| == 16 && |addrs| == |lists| > 0 && Roomy(lists) && 1 <= n < |pages|
    requires Pointer(cmd, 6) == pages[0] && Pointer(cmd, 8) == addrs[0] != pages[1]
    requires Yields(Walk(mem, addrs[0], n), pages[1..], n) <==> n == |pages| - 1 || Tellable(lists, 0)
    ensures Yields(Transfer(mem, cmd, 1 + n), pages, 1 + n) <==> n >= 2 && (n == |pages| - 1 || Tellable(lists, 0))
  {
    hide *;
    if n == 1 { ShortTransfer(mem, cmd, pages, 2); } else { LongTransfer(mem, cmd, pages, 1 + n); }
  }

  lemma {:induction false} ChainIsTransferred(mem: map<nat, seq<nat>>, cmd: seq<nat>, lists: seq<seq<nat>>,
          addrs: seq<nat>, pages: seq<nat>, rest: seq<nat>, prp: nat)
    requires |cmd| == 16 && |addrs| == |lists| > 0 && Roomy(lists) && |pages| > 2 && rest == pages[1..]
    requires Holds(mem, Filled(lists, addrs, 0, rest), addrs, 0)
    requires Pointer(cmd, 6) == pages[0] && Pointer(cmd, 8) == addrs[0]
    requires prp == 1 + Count(lists, 0, |rest|)
    requires addrs[0] != pages[1] && addrs[|lists| - 1] !in rest
    ensures prp == Covered(lists, |pages|)
    ensures Yields(Transfer(mem, cmd, prp), pages, prp) <==> Readable(lists, |pages|)
  {
    hide Filled, Walk, Roomy, Transfer, Pointer, Count, Holds, Room, Yields, Tellable;
    assert |rest| == |pages| - 1;
    ReadableCounts(lists, |pages|);
    ChainReadBackExactly(mem, lists, addrs, rest);
    ChainTransfer(mem, cmd, lists, addrs, pages, prp - 1);
  }

  /** `nvm_cmd_data`: the command then transfers the pages it says it does, in order, exactly
      when it is not cut short at a last list of two entries. */
  method NvmCmdData(cmd: array<nat>, lists: seq<PrpList>, pages: seq<nat>) returns (prp: nat)
    requires cmd.Length == 16 && Separate(lists) && cmd !in Arrays(lists) && Addressable(lists, pages)
    modifies cmd, Arrays(lists)
    ensures prp == Covered(old(Contents(lists)), |pages|)
    ensures Yields(Transfer(Memory(lists), cmd[..], prp), pages, prp) <==> Readable(old(Contents(lists)), |pages|)
    ensures |pages| <= 2 ==> Contents(lists) == old(Contents(lists))
    ensures |pages| == 0 ==> cmd[..] == old(cmd[..])
    ensures |pages| > 0 ==> cmd[0] == ClearSelectors(old(cmd[0]))
    ensures forall k | 1 <= k < 16 && k !in {6, 7, 8, 9} :: cmd[k] == old(cmd[k])
  {
    hide Filled, Count, Transfer, Walk, Memory, Contents, Pointer, Room, Yields, ClearSelectors, Put, Covered, Readable;
    ContentsAre(lists);
    ghost var was := Contents(lists);
    if |pages| == 0 {
      ShortCovered(was, 0);
      NoTransfer(Memory(lists), cmd[..]);
      return 0;
    }
    var dptr0, dptr1 := pages[0], 0;
    prp := 1;
    if |pages| > 2 && |lists| != 0 {
      var n := NvmPrpListChain(lists, pages[1..]);
      prp := prp + n;
      dptr1 := lists[0].ioaddr;
    } else if |pages| >= 2 {
      dptr1 := pages[1];
      prp := 2;
    }
    ghost var filled := Contents(lists);
    ContentsAre(lists);
    NvmCmdDataPtr(cmd, dptr0, dptr1);
    ContentsAre(lists);
    assert Contents(lists) == filled;
    if |pages| > 2 && |lists| != 0 {
      NotInTail(lists[|lists| - 1].ioaddr, pages);
      ChainIsTransferred(Memory(lists), cmd[..], was, Addresses(lists), pages, pages[1..], prp);
    }
    else {
      ShortCovered(was, |pages|);
      ShortTransfer(Memory(lists), cmd[..], pages, prp);
    }
  }

  lemma NoTransfer(mem: map<nat, seq<nat>>, cmd: seq<nat>)
    requires |cmd| == 16
    ensures Yields(Transfer(mem, cmd, 0), [], 0)
  {}

  /** Four pages and one list of two entries: the command claims two pages, and the
      controller takes the list itself for the second. */
  lemma CutShortListIsTakenForAPage(a: nat, b: nat, c: nat, d: nat, list: nat)
    requires a < WORD64 && list < WORD64 && list != b
    ensures var lists := [[0, 0]]; var pages := [a, b, c, d];
      && Covered(lists, 4) == 2 && !Readable(lists, 4)
      && var mem := map[list := Filled(lists, [list], 0, pages[1..])[0]];
         Transfer(mem, WithPointers(seq(16, i => 0), a, list), 2) == Some([a, list]) != Some(pages[..2])
  {
    assert [a, b, c, d][..2] == [a, b];
    assert [a, list][1] != [a, b][1];
  }
}
