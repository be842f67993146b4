/** What the page cache promises its users: it behaves like a flat array. */
module PageCacheRefinement {
  import opened StateWord
  import opened PageCache
  import opened PageCacheInvariant

  type FlatArray = map<PageId, Data>

  /** The flat array that a state of the cache stands for. */
  ghost function Flat(c: Config, s: State): FlatArray
    requires c.Valid() && Shape(c, s)
  {
    map p | p in s.word :: Content(c, s, p)
  }

  /** A read returns what the array holds; a write is to a place of the array. */
  ghost predicate Allowed(m: FlatArray, e: Event) {
    match e
    case Silent => true
    case DidRead(p, i, v) => p in m && i < |m[p]| && m[p][i] == v
    case DidWrite(p, i, v) => p in m && i < |m[p]|
  }

  ghost function After(m: FlatArray, e: Event): FlatArray {
    if e.DidWrite? && e.p in m && e.i < |m[e.p]| then m[e.p := m[e.p][e.i := e.v]] else m
  }

  // ---------------------------------------------------------------- refinement of one step

  lemma SameContentSameFlat(c: Config, s: State, s': State)
    requires c.Valid() && Shape(c, s) && Shape(c, s')
    requires forall p | p in s.word :: Content(c, s', p) == Content(c, s, p)
    ensures Flat(c, s') == Flat(c, s)
  {
  }

  lemma FindContent(c: Config, s: State, t: nat, a: Acq, f: Finder)
    requires Inv(c, s) && t < |s.threads| && s.threads[t] == Find(a, f) && Shape(c, FindNext(c, s, t, a, f))
    ensures forall p | p in s.word :: Content(c, FindNext(c, s, t, a, f), p) == Content(c, s, p)
  {
    hide Inv, Config.Valid, CountInv, BusyInv, LockInv, SlotInv, ThreadsInv, DataInv, ThreadInv, ThreadDataInv;
    Open(c, s, t);
    match f
    case WriteBack(slot, victim, k) => WriteBackData(c, s, t, a, slot, victim, k, FindNext(c, s, t, a, f));
    case Clear(slot, victim) => ClearData(c, s, t, a, slot, victim, FindNext(c, s, t, a, f));
    case _ =>
  }

  lemma AdvanceContent(c: Config, s: State, t: nat, choice: nat)
    requires Inv(c, s) && Enabled(c, s, t, Advance(choice)) && Shape(c, Next(c, s, t, Advance(choice)))
    ensures forall p | p in s.word :: Content(c, Next(c, s, t, Advance(choice)), p) == Content(c, s, p)
  {
    hide Inv, Config.Valid, CountInv, BusyInv, LockInv, SlotInv, ThreadsInv, DataInv, ThreadInv, ThreadDataInv, FindNext;
    Open(c, s, t);
    var s' := Next(c, s, t, Advance(choice));
    match s.threads[t]
    case Find(a, f) => FindContent(c, s, t, a, f);
    case Fill(a, slot) => FillData(c, s, t, a, slot, choice, s');
    case SetOffset(a, slot) => SetOffsetData(c, s, t, a, slot, s');
    case Publish(a, slot) => PublishData(c, s, t, a, slot, s');
    case _ =>
  }

  lemma StoreRefines(c: Config, s: State, t: nat, i: nat, v: Elem, s': State)
    requires Inv(c, s) && Enabled(c, s, t, Store(i, v)) && s' == Next(c, s, t, Store(i, v)) && Inv(c, s')
    ensures Shape(c, s) && Shape(c, s') && Allowed(Flat(c, s), EventOf(c, s, t, Store(i, v)))
    ensures Flat(c, s') == After(Flat(c, s), EventOf(c, s, t, Store(i, v)))
  {
    hide Inv, Config.Invertible, Config.Disjoint, CountInv, BusyInv, LockInv, SlotInv, ThreadsInv, DataInv;
    Open(c, s, t);
    Open(c, s', t);
    StoreData(c, s, t, s.threads[t].a, s.threads[t].slot, i, v, s');
  }

  lemma SameThreadsFind(c: Config, s: State, t: nat, a: Acq, f: Finder)
    requires c.Valid() && Shape(c, s) && t < |s.threads| && s.threads[t] == Find(a, f)
    ensures var s' := FindNext(c, s, t, a, f); |s'.threads| == |s.threads| && s'.threads == s.threads[t := s'.threads[t]]
  {
    hide Config.Invertible, Config.Disjoint;
  }

  /** A step moves its own thread only. */
  lemma SameThreads(c: Config, s: State, t: nat, act: Action)
    requires c.Valid() && Shape(c, s) && Enabled(c, s, t, act)
    ensures var s' := Next(c, s, t, act); t < |s'.threads| == |s.threads| && s'.threads == s.threads[t := s'.threads[t]]
  {
    if act.Advance? && s.threads[t].Find? { SameThreadsFind(c, s, t, s.threads[t].a, s.threads[t].f); }
    hide Config.Valid, FindNext, Shape;
  }

  /** Every step of every thread is a read of the flat array, a write to it, or leaves it
      as it is: misses, evictions, write-backs and races are invisible. */
  lemma StepRefinesFlatArray(c: Config, s: State, t: nat, act: Action)
    requires Inv(c, s) && Enabled(c, s, t, act)
    ensures var s' := Next(c, s, t, act);
            Inv(c, s') && Allowed(Flat(c, s), EventOf(c, s, t, act)) && Flat(c, s') == After(Flat(c, s), EventOf(c, s, t, act))
  {
    hide Inv, Shape, Config.Valid, CountInv, BusyInv, LockInv, SlotInv, ThreadsInv, DataInv, Next, Flat, ThreadInv, ThreadDataInv;
    Open(c, s, t);
    StepKeepsInv(c, s, t, act);
    var s' := Next(c, s, t, act);
    SameThreads(c, s, t, act);
    assert Shape(c, s') by { Open(c, s', t); }
    match act
    case Load(i) => LoadRefines(c, s, t, i);
    case Store(i, v) => StoreRefines(c, s, t, i, v, s');
    case Advance(choice) =>
      AdvanceContent(c, s, t, choice);
      SameContentSameFlat(c, s, s');
    case _ =>
      BorderContent(c, s, t, act);
      SameContentSameFlat(c, s, s');
  }

  lemma LoadRefines(c: Config, s: State, t: nat, i: nat)
    requires Inv(c, s) && Enabled(c, s, t, Load(i))
    ensures Shape(c, s) && Next(c, s, t, Load(i)) == s && Allowed(Flat(c, s), EventOf(c, s, t, Load(i)))
  {
    hide Inv, Config.Invertible, Config.Disjoint, CountInv, BusyInv, LockInv, SlotInv, ThreadsInv, DataInv;
    Open(c, s, t);
  }

  /** Pinning and unpinning change no content. */
  lemma BorderContent(c: Config, s: State, t: nat, act: Action)
    requires Inv(c, s) && Enabled(c, s, t, act) && (act.Acquire? || act.Release?) && Shape(c, Next(c, s, t, act))
    ensures forall p | p in s.word :: Content(c, Next(c, s, t, act), p) == Content(c, s, p)
  {
    hide Inv, Config.Invertible, Config.Disjoint, CountInv, BusyInv, LockInv, SlotInv, ThreadsInv, DataInv;
    Open(c, s, t);
    if act.Release? { ReleaseKeeps(c, s, t, s.threads[t].a, s.threads[t].slot); }
  }

  // ---------------------------------------------------------------- whole runs

  datatype Move = Move(t: nat, act: Action)

  ghost predicate Step(c: Config, s: State, m: Move, s': State)
    requires c.Valid()
  {
    Shape(c, s) && Enabled(c, s, m.t, m.act) && s' == Next(c, s, m.t, m.act)
  }

  /** Any interleaving of the threads' steps, from a cold cache. */
  ghost predicate IsRun(c: Config, ss: seq<State>, ms: seq<Move>)
    requires c.Valid()
  {
    && |ss| == |ms| + 1
    && Init(c, ss[0])
    && (forall k | 0 <= k < |ms| :: Step(c, ss[k], ms[k], ss[k + 1]))
  }

  lemma {:induction false} RunInv(c: Config, ss: seq<State>, ms: seq<Move>, k: nat)
    requires c.Valid() && IsRun(c, ss, ms) && k < |ss|
    ensures Inv(c, ss[k])
  {
    hide Inv, Init, Config.Valid, Shape, Enabled, Next;
    if k == 0 { InitInv(c, ss[0]); }
    else {
      RunInv(c, ss, ms, k - 1);
      assert Step(c, ss[k - 1], ms[k - 1], ss[k]);
      StepKeepsInv(c, ss[k - 1], ms[k - 1].t, ms[k - 1].act);
    }
  }

  ghost function EventAt(c: Config, ss: seq<State>, ms: seq<Move>, k: nat): Event
    requires c.Valid() && IsRun(c, ss, ms) && k < |ms|
  {
    assert Step(c, ss[k], ms[k], ss[k + 1]);
    EventOf(c, ss[k], ms[k].t, ms[k].act)
  }

  ghost function History(c: Config, ss: seq<State>, ms: seq<Move>, k: nat): (h: seq<Event>)
    requires c.Valid() && IsRun(c, ss, ms) && k <= |ms|
    ensures |h| == k
  {
    if k == 0 then [] else History(c, ss, ms, k - 1) + [EventAt(c, ss, ms, k - 1)]
  }

  /** The value that the last write in h gave to element i of page p, or the value the
      disk held at the start. */
  ghost function LastWrite(m: FlatArray, h: seq<Event>, p: PageId, i: nat): Elem
    requires p in m && i < |m[p]|
  {
    if h == [] then m[p][i]
    else if h[|h| - 1].DidWrite? && h[|h| - 1].p == p && h[|h| - 1].i == i then h[|h| - 1].v
    else LastWrite(m, h[..|h| - 1], p, i)
  }

  lemma LastWriteStep(m0: FlatArray, h: seq<Event>, e: Event, m: FlatArray, p: PageId, i: nat)
    requires p in m0 && i < |m0[p]| && p in m && i < |m[p]| && Allowed(m, e)
    requires m[p][i] == LastWrite(m0, h, p, i)
    ensures p in After(m, e) && i < |After(m, e)[p]| && After(m, e)[p][i] == LastWrite(m0, h + [e], p, i)
  {
    assert (h + [e])[..|h|] == h;
  }

  /** What the array holds after k steps is what the last write put there. */
  lemma {:induction false} FlatIsLastWrite(c: Config, ss: seq<State>, ms: seq<Move>, k: nat, p: PageId, i: nat)
    requires c.Valid() && IsRun(c, ss, ms) && k < |ss| && p in c.gaddr && i < c.elems
    ensures Shape(c, ss[k]) && Shape(c, ss[0]) && p in Flat(c, ss[k]) && i < |Flat(c, ss[k])[p]| && i < |Flat(c, ss[0])[p]|
    ensures Flat(c, ss[k])[p][i] == LastWrite(Flat(c, ss[0]), History(c, ss, ms, k), p, i)
  {
    hide Inv, Config.Valid, Init;
    RunInv(c, ss, ms, 0);
    RunInv(c, ss, ms, k);
    ContentSize(c, ss[0], p);
    ContentSize(c, ss[k], p);
    if k > 0 {
      FlatIsLastWrite(c, ss, ms, k - 1, p, i);
      RunInv(c, ss, ms, k - 1);
      assert Step(c, ss[k - 1], ms[k - 1], ss[k]);
      StepRefinesFlatArray(c, ss[k - 1], ms[k - 1].t, ms[k - 1].act);
      LastWriteStep(Flat(c, ss[0]), History(c, ss, ms, k - 1), EventAt(c, ss, ms, k - 1), Flat(c, ss[k - 1]), p, i);
    }
  }

  lemma ContentSize(c: Config, s: State, p: PageId)
    requires Inv(c, s) && p in c.gaddr
    ensures Shape(c, s) && p in s.word && |Content(c, s, p)| == c.elems
  {
    hide Config.Invertible, Config.Disjoint, CountInv, BusyInv, LockInv, ThreadsInv, DataInv;
    if s.word[p].valid { assert Names(c, s, s.offset[p], p); }
    assert c.locs[p][0] in s.disk;
  }

  /** In every run, under every interleaving of hits, misses, evictions and write-backs, a
      read returns the last value written to its place. */
  lemma ReadsReturnLastWrite(c: Config, ss: seq<State>, ms: seq<Move>, k: nat)
    requires c.Valid() && IsRun(c, ss, ms) && k < |ms| && EventAt(c, ss, ms, k).DidRead?
    ensures var e := EventAt(c, ss, ms, k);
            Shape(c, ss[0]) && e.p in c.gaddr && e.i < c.elems
            && e.p in Flat(c, ss[0]) && e.i < |Flat(c, ss[0])[e.p]|
            && e.v == LastWrite(Flat(c, ss[0]), History(c, ss, ms, k), e.p, e.i)
  {
    hide Inv, Config.Valid, Init;
    var e := EventAt(c, ss, ms, k);
    RunInv(c, ss, ms, k);
    assert Step(c, ss[k], ms[k], ss[k + 1]);
    Open(c, ss[k], ms[k].t);
    FlatIsLastWrite(c, ss, ms, k, e.p, e.i);
    StepRefinesFlatArray(c, ss[k], ms[k].t, ms[k].act);
  }

  // ---------------------------------------------------------------- pins

  /** The page is VALID in slot i, and the slot's translation names it. */
  ghost predicate Resides(c: Config, s: State, p: PageId, i: nat) {
    && p in c.gaddr && p in s.word && s.word[p].valid && p in s.offset && s.offset[p] == i
    && i < |s.trans| && s.trans[i] == c.gaddr[p]
  }

  lemma ValidResides(c: Config, s: State, p: PageId)
    requires Inv(c, s) && p in s.word && s.word[p].valid
    ensures p in s.offset && Resides(c, s, p, s.offset[p])
  {
    hide Config.Valid, CountInv, BusyInv, LockInv, ThreadsInv, DataInv;
    ValidIsNamed(c, s, p);
  }

  lemma FindKeepsValid(c: Config, s: State, t: nat, a: Acq, f: Finder, p: PageId)
    requires Inv(c, s) && t < |s.threads| && s.threads[t] == Find(a, f) && p in s.word && s.word[p].valid
    requires !(f.Clear? && f.victim == p)
    ensures var s' := FindNext(c, s, t, a, f); p in s'.word && s'.word[p].valid && s'.offset == s.offset
  {
    hide Inv, Config.Valid, CountInv, BusyInv, LockInv, SlotInv, ThreadsInv, DataInv, ThreadInv, ThreadDataInv;
    Open(c, s, t);
  }

  lemma AdvanceKeepsValid(c: Config, s: State, t: nat, choice: nat, p: PageId)
    requires Inv(c, s) && Enabled(c, s, t, Advance(choice)) && p in s.word && s.word[p].valid
    requires !(s.threads[t].Find? && s.threads[t].f.Clear? && s.threads[t].f.victim == p)
    ensures var s' := Next(c, s, t, Advance(choice)); p in s'.word && s'.word[p].valid && p in s'.offset && s'.offset[p] == s.offset[p]
  {
    hide Inv, Shape, Config.Valid, CountInv, BusyInv, LockInv, SlotInv, ThreadsInv, DataInv, FindNext;
    Open(c, s, t);
    if s.threads[t].Find? { FindKeepsValid(c, s, t, s.threads[t].a, s.threads[t].f, p); }
  }

  /** Only the evictor's fetch_and takes a VALID page out of its slot, or gives the slot to
      another. */
  lemma OnlyClearEvicts(c: Config, s: State, t: nat, act: Action, p: PageId)
    requires Inv(c, s) && Enabled(c, s, t, act) && p in s.word && s.word[p].valid
    requires !(act.Advance? && s.threads[t].Find? && s.threads[t].f.Clear? && s.threads[t].f.victim == p)
    ensures p in s.offset && Resides(c, s, p, s.offset[p]) && Resides(c, Next(c, s, t, act), p, s.offset[p])
  {
    hide Inv, Shape, Config.Valid, CountInv, BusyInv, LockInv, SlotInv, ThreadsInv, DataInv, ThreadInv, ThreadDataInv, Resides;
    Open(c, s, t);
    if act.Release? { ReleaseKeeps(c, s, t, s.threads[t].a, s.threads[t].slot); }
    else if act.Advance? { AdvanceKeepsValid(c, s, t, act.choice, p); }
    StepKeepsInv(c, s, t, act);
    ValidResides(c, s, p);
    ValidResides(c, Next(c, s, t, act), p);
  }

  lemma OnlyClaimStartsFind(c: Config, s: State, t: nat, a: Acq, f: Finder, u: nat, p: PageId)
    requires c.Valid() && Shape(c, s) && t < |s.threads| && s.threads[t] == Find(a, f)
    requires u < |s.threads| && !Evicting(s.threads[u], p)
    requires var s' := FindNext(c, s, t, a, f); u < |s'.threads| && Evicting(s'.threads[u], p)
    ensures u == t && f.Claim? && f.victim == p && p in s.word && s.word[p].cnt == 0 && !s.word[p].busy
  {
    hide Config.Invertible, Config.Disjoint;
  }

  lemma OnlyClaimStarts(c: Config, s: State, t: nat, act: Action, u: nat, p: PageId)
    requires c.Valid() && Shape(c, s) && Enabled(c, s, t, act) && u < |s.threads| && !Evicting(s.threads[u], p)
    requires var s' := Next(c, s, t, act); u < |s'.threads| && Evicting(s'.threads[u], p)
    ensures u == t && s.threads[u].Find? && s.threads[u].f.Claim? && s.threads[u].f.victim == p
    ensures p in s.word && s.word[p].cnt == 0 && !s.word[p].busy
  {
    hide Config.Valid, FindNext, Shape;
    if act.Advance? && s.threads[t].Find? { OnlyClaimStartsFind(c, s, t, s.threads[t].a, s.threads[t].f, u, p); }
  }

  /** A thread starts to evict a page only by a claim that finds it VALID in the slot,
      without pins and with BUSY clear. */
  lemma EvictionStartsUnpinned(c: Config, s: State, t: nat, act: Action, u: nat, p: PageId)
    requires Inv(c, s) && Enabled(c, s, t, act) && u < |s.threads| && !Evicting(s.threads[u], p)
    requires var s' := Next(c, s, t, act); u < |s'.threads| && Evicting(s'.threads[u], p)
    ensures u == t && s.threads[u].Find? && s.threads[u].f.Claim? && s.threads[u].f.victim == p
    ensures Resides(c, s, p, s.threads[u].f.slot) && s.word[p].cnt == 0 && !s.word[p].busy
  {
    hide Inv, Shape, Config.Valid, CountInv, BusyInv, LockInv, SlotInv, ThreadsInv, DataInv, Resides, ThreadInv, ThreadDataInv,
      Next, Evicting;
    Open(c, s, t);
    OnlyClaimStarts(c, s, t, act, u, p);
    SlotsAreUsed(c, s);
    ClaimedIsValid(c, s, t, s.threads[t].a, s.threads[t].f.slot, p);
    ValidResides(c, s, p);
  }

  lemma OnlyProbeClaims(c: Config, s: State, t: nat, a: Acq, f: Finder)
    requires c.Valid() && Shape(c, s) && t < |s.threads| && s.threads[t] == Find(a, f)
    requires var th' := FindNext(c, s, t, a, f).threads[t]; th'.Find? && th'.f.Claim?
    ensures var th' := FindNext(c, s, t, a, f).threads[t];
      && f == Probe(th'.f.slot, th'.f.victim) && th'.f.victim in s.word
      && s.word[th'.f.victim].cnt == 0 && !s.word[th'.f.victim].busy
  {
    hide Config.Invertible, Config.Disjoint;
  }

  /** A search touches the state word of the page in its slot only after a look at it that found
      no pins and BUSY clear. */
  lemma ClaimFollowsProbe(c: Config, s: State, t: nat, act: Action, u: nat)
    requires c.Valid() && Shape(c, s) && Enabled(c, s, t, act) && u < |Next(c, s, t, act).threads|
    requires var th' := Next(c, s, t, act).threads[u]; th'.Find? && th'.f.Claim?
    ensures var th' := Next(c, s, t, act).threads[u];
      && u < |s.threads|
      && (s.threads[u] == th'
          || (&& u == t && s.threads[u] == Find(th'.a, Probe(th'.f.slot, th'.f.victim)) && th'.f.victim in s.word
              && s.word[th'.f.victim].cnt == 0 && !s.word[th'.f.victim].busy))
  {
    SameThreads(c, s, t, act);
    if u == t {
      if act.Advance? && s.threads[t].Find? {
        OnlyProbeClaims(c, s, t, s.threads[t].a, s.threads[t].f);
        FindKeepsRequest(c, s, t, s.threads[t].a, s.threads[t].f);
      } else { OnlyFindersClaim(c, s, t, act); }
    }
    hide Config.Valid, FindNext, Shape;
  }

  lemma FindKeepsRequest(c: Config, s: State, t: nat, a: Acq, f: Finder)
    requires c.Valid() && Shape(c, s) && t < |s.threads| && s.threads[t] == Find(a, f)
    ensures var th' := FindNext(c, s, t, a, f).threads[t]; !th'.Idle? && th'.a == a
  {
    hide Config.Invertible, Config.Disjoint;
  }

  lemma OnlyFindersClaim(c: Config, s: State, t: nat, act: Action)
    requires c.Valid() && Shape(c, s) && Enabled(c, s, t, act) && !(act.Advance? && s.threads[t].Find?)
    ensures var s' := Next(c, s, t, act);
      t < |s'.threads| && (s'.threads[t].Find? && s'.threads[t].f.Claim? ==> s'.threads[t] == s.threads[t])
  {
    hide Config.Valid, FindNext, Shape;
  }

  lemma SlotsAreUsed(c: Config, s: State)
    requires Shape(c, s) && SlotInv(c, s)
    ensures UsedBacked(c, s)
  {
  }

  lemma StartsIdle(c: Config, ss: seq<State>, ms: seq<Move>)
    requires c.Valid() && IsRun(c, ss, ms)
    ensures forall t | 0 <= t < |ss[0].threads| :: ss[0].threads[t].Idle?
  {
    hide Config.Valid, Step;
  }

  /** So in every run, whoever is about to take a page out of its slot has found it without
      pins and not BUSY, and has been its only evictor since. */
  lemma {:induction false} EvictorFoundNoPins(c: Config, ss: seq<State>, ms: seq<Move>, k: nat, u: nat, p: PageId) returns (j: nat)
    requires c.Valid() && IsRun(c, ss, ms) && k < |ss| && u < |ss[k].threads| && Evicting(ss[k].threads[u], p)
    ensures j < k && ms[j].t == u < |ss[j].threads|
    ensures ss[j].threads[u].Find? && ss[j].threads[u].f.Claim? && ss[j].threads[u].f.victim == p
    ensures Resides(c, ss[j], p, ss[j].threads[u].f.slot)
    ensures ss[j].word[p].cnt == 0 && !ss[j].word[p].busy
    ensures forall n | j < n <= k :: u < |ss[n].threads| && Evicting(ss[n].threads[u], p)
  {
    hide Inv, Config.Valid, Resides, Enabled, Next, Shape, Init;
    StartsIdle(c, ss, ms);
    assert k > 0;
    RunInv(c, ss, ms, k - 1);
    assert Step(c, ss[k - 1], ms[k - 1], ss[k]);
    SameThreads(c, ss[k - 1], ms[k - 1].t, ms[k - 1].act);
    if Evicting(ss[k - 1].threads[u], p) { j := EvictorFoundNoPins(c, ss, ms, k - 1, u, p); }
    else {
      EvictionStartsUnpinned(c, ss[k - 1], ms[k - 1].t, ms[k - 1].act, u, p);
      j := k - 1;
    }
  }

  /** While a thread stays settled on a page, no step of any thread evicts or moves it. */
  lemma SettledPageStays(c: Config, s: State, m: Move, t: nat, p: PageId)
    requires Inv(c, s) && Enabled(c, s, m.t, m.act) && t < |s.threads| && Settled(s.threads[t], p)
    ensures var s' := Next(c, s, m.t, m.act);
            p in s.word && s.word[p].valid && p in s'.word && s'.word[p].valid && p in s'.offset && s'.offset[p] == s.offset[p]
  {
    hide Inv, Config.Invertible, Config.Disjoint, CountInv, BusyInv, LockInv, SlotInv, DataInv;
    Open(c, s, t);
    assert !Evicting(s.threads[m.t], p);
    OnlyClearEvicts(c, s, m.t, m.act, p);
  }

  lemma SettledIsNamed(c: Config, s: State, t: nat, p: PageId)
    requires Inv(c, s) && t < |s.threads| && Settled(s.threads[t], p)
    ensures Shape(c, s) && p in c.gaddr && s.word[p].valid && Names(c, s, s.offset[p], p)
    ensures s.word.Keys == s.offset.Keys == c.gaddr.Keys
  {
    hide Inv, Config.Valid, CountInv, BusyInv, LockInv, SlotInv, ThreadsInv, DataInv, Names;
    Open(c, s, t);
    ValidIsNamed(c, s, p);
  }

  /** A pinned page is never evicted: from the moment a thread has its pin in and has seen
      the page VALID and not BUSY until it releases the pin, the page stays VALID in the
      same slot and the slot stays the page's. */
  lemma {:induction false} PinnedPageIsNeverEvicted(c: Config, ss: seq<State>, ms: seq<Move>, t: nat, p: PageId,
          j: nat, k: nat)
    requires c.Valid() && IsRun(c, ss, ms) && j <= k < |ss|
    requires forall n | j <= n <= k :: t < |ss[n].threads| && Settled(ss[n].threads[t], p)
    ensures Shape(c, ss[j]) && Shape(c, ss[k]) && p in c.gaddr
    ensures ss[k].word[p].valid && ss[k].offset[p] == ss[j].offset[p] && Names(c, ss[k], ss[j].offset[p], p)
    decreases k - j
  {
    hide Inv, Config.Valid, Init, Shape, Enabled, Next, Settled, Names;
    RunInv(c, ss, ms, k);
    SettledIsNamed(c, ss[k], t, p);
    if j < k {
      PinnedPageIsNeverEvicted(c, ss, ms, t, p, j, k - 1);
      RunInv(c, ss, ms, k - 1);
      assert Step(c, ss[k - 1], ms[k - 1], ss[k]);
      SettledPageStays(c, ss[k - 1], ms[k - 1], t, p);
    }
  }

  /** Every VALID page is named by the translation of its slot, and no two share a slot. */
  lemma SlotsAreInjective(c: Config, s: State, p: PageId, q: PageId)
    requires Inv(c, s) && p in s.word && q in s.word && s.word[p].valid && s.word[q].valid
    ensures p in s.offset && Resides(c, s, p, s.offset[p]) && q in s.offset && Resides(c, s, q, s.offset[q])
    ensures s.offset[p] == s.offset[q] ==> p == q
  {
    hide CountInv, BusyInv, LockInv, SlotInv, ThreadsInv, DataInv, Config.Disjoint;
    ValidResides(c, s, p);
    ValidResides(c, s, q);
    assert c.Unpack(c.gaddr[p]) == p && c.Unpack(c.gaddr[q]) == q;
  }

  /** A slot that is neither FREE nor locked names a page that is VALID in it, or that the
      owner of the page's BUSY bit is loading into it. */
  lemma UnlockedSlotIsBacked(c: Config, s: State, i: nat) returns (p: PageId)
    requires Inv(c, s) && i < |s.lock| && s.lock[i].Unlocked?
    ensures p in s.word && s.trans[i] == c.gaddr[p] && Backs(s, i, p)
    ensures !(s.word[p].valid && s.offset[p] == i) ==>
              exists t :: 0 <= t < |s.threads| && Loading(s.threads[t], p, i) && OwnsBusy(s.threads[t], p) && s.word[p].busy
  {
    hide Config.Invertible, Config.Disjoint, CountInv, ThreadsInv, DataInv;
    assert forall t | 0 <= t < |s.threads| :: !HoldsLock(s.threads[t], i);
    assert InUse(s, i);
    p :| p in s.word && Names(c, s, i, p) && Backs(s, i, p);
    if !(s.word[p].valid && s.offset[p] == i) {
      var t :| 0 <= t < |s.threads| && Loading(s.threads[t], p, i);
      assert OwnsBusy(s.threads[t], p);
    }
  }

  /** In every reachable state the low 29 bits of a page's 32-bit word are the sum of the
      pins that threads hold on it, and one such thread's pins never exceed them. */
  lemma CountIsSumOfPins(c: Config, ss: seq<State>, ms: seq<Move>, k: nat, p: PageId, t: nat)
    requires c.Valid() && IsRun(c, ss, ms) && k < |ss| && p in c.gaddr && t < |ss[k].threads|
    ensures p in ss[k].word && Encode(ss[k].word[p]) % COUNT_LIMIT == SumPins(ss[k].threads, |ss[k].threads|, p)
    ensures Pins(ss[k].threads[t], p) <= Encode(ss[k].word[p]) % COUNT_LIMIT
  {
    RunInv(c, ss, ms, k);
    EncodeBits(ss[k].word[p]);
    SumAtLeast(ss[k].threads, |ss[k].threads|, t, p);
  }

  /** The exclusive-or that publishes a page always finds BUSY set and VALID clear, so on the
      32-bit word it turns exactly these two bits round. */
  lemma PublishFindsBusyNotValid(c: Config, s: State, t: nat)
    requires Inv(c, s) && t < |s.threads| && s.threads[t].Publish?
    ensures var p := s.threads[t].a.page;
            var w := s.word[p];
            !w.valid && w.busy
            && FetchXorBusyValid(w) == w.(valid := true, busy := false)
            && Encode(FetchXorBusyValid(w)) == Encode(w) + VALID - BUSY
  {
    Open(c, s, t);
  }
}
