/** The invariant of the page cache protocol, and the proof that every step keeps it. */
module PageCacheInvariant {
  import opened StateWord
  import opened PageCache
  import opened Wrappers

  // ---------------------------------------------------------------- roles of a thread

  /** The pins a thread has on page p. */
  function Pins(th: Thread, p: PageId): nat {
    if th.Idle? || th.a.page != p then 0 else th.a.count
  }

  /** The pins of the first n threads on page p. */
  function SumPins(ts: seq<Thread>, n: nat, p: PageId): nat
    requires n <= |ts|
  {
    if n == 0 then 0 else SumPins(ts, n - 1, p) + Pins(ts[n - 1], p)
  }

  /** The thread is the one that set the BUSY bit of p and has not cleared it yet. */
  predicate OwnsBusy(th: Thread, p: PageId) {
    || ((th.Restore? || th.Find? || th.Fill? || th.SetOffset? || th.DirtyNew? || th.Publish?) && th.a.page == p)
    || (th.Find? && (th.f.Undo? || th.f.WriteBack? || th.f.Clear?) && th.f.victim == p)
  }

  predicate HoldsLock(th: Thread, slot: nat) {
    th.Find? && !th.f.Ticket? && !th.f.LoadLock? && !th.f.Cas? && th.f.slot == slot
  }

  /** The thread holds the lock of a slot that no page occupies any more. */
  predicate Vacating(th: Thread, slot: nat) {
    th.Find? && th.f.Assign? && th.f.slot == slot
  }

  /** The thread has taken the slot for its page p and is filling it. */
  predicate Loading(th: Thread, p: PageId, slot: nat) {
    || (th.Find? && th.f == Unlock(slot, true) && th.a.page == p)
    || ((th.Fill? || th.SetOffset? || th.DirtyNew? || th.Publish?) && th.a.page == p && th.slot == slot)
  }

  /** The thread has pinned p and has then seen it VALID and not BUSY. */
  predicate Settled(th: Thread, p: PageId) {
    (th.MarkDirty? || th.ReadOffset? || th.Hold?) && th.a.page == p
  }

  /** The thread has decided to evict p from the slot. */
  predicate Evicting(th: Thread, p: PageId) {
    th.Find? && (th.f.WriteBack? || th.f.Clear?) && th.f.victim == p
  }

  /** The data that the flat array has for page p. */
  function Content(c: Config, s: State, p: PageId): Data
    requires p in s.word && p in s.offset && p in c.locs && |c.locs[p]| > 0
  {
    if s.word[p].valid && s.offset[p] < |s.data| then s.data[s.offset[p]]
    else if c.locs[p][0] in s.disk then s.disk[c.locs[p][0]]
    else []
  }

  // ---------------------------------------------------------------- the invariant

  /** The 29-bit count of a page is the sum of the outstanding pins. */
  ghost predicate CountInv(s: State) {
    forall p | p in s.word :: s.word[p].cnt == SumPins(s.threads, |s.threads|, p) && Fits(s.word[p])
  }

  /** BUSY is set exactly while some thread owns it, and one thread at most does. */
  ghost predicate BusyInv(s: State) {
    && (forall t, p {:trigger OwnsBusy(s.threads[t], p)} | 0 <= t < |s.threads| && p in s.word && OwnsBusy(s.threads[t], p) ::
          s.word[p].busy)
    && (forall p {:trigger HasOwner(s, p)} | p in s.word && s.word[p].busy :: HasOwner(s, p))
    && (forall t, u, p {:trigger OwnsBusy(s.threads[t], p), OwnsBusy(s.threads[u], p)} |
          0 <= t < |s.threads| && 0 <= u < |s.threads| && OwnsBusy(s.threads[t], p) && OwnsBusy(s.threads[u], p) :: t == u)
  }

  ghost predicate HasOwner(s: State, p: PageId) {
    exists t :: 0 <= t < |s.threads| && OwnsBusy(s.threads[t], p)
  }

  /** A slot lock is held by one thread at most. */
  ghost predicate LockInv(s: State) {
    && (forall t, i: nat {:trigger HoldsLock(s.threads[t], i)} | 0 <= t < |s.threads| && i < |s.lock| && HoldsLock(s.threads[t], i) ::
          s.lock[i] == Locked)
    && (forall t, u, i: nat {:trigger HoldsLock(s.threads[t], i), HoldsLock(s.threads[u], i)} |
          0 <= t < |s.threads| && 0 <= u < |s.threads| && HoldsLock(s.threads[t], i) && HoldsLock(s.threads[u], i) :: t == u)
  }

  ghost predicate Vacant(s: State, i: nat) {
    exists t :: 0 <= t < |s.threads| && Vacating(s.threads[t], i)
  }

  ghost predicate InUse(s: State, i: nat) {
    i < |s.lock| && s.lock[i] != Free && !Vacant(s, i)
  }

  /** The slot is p's: its translation names p and no thread is about to change that. */
  ghost predicate Names(c: Config, s: State, i: nat, p: PageId)
    requires p in c.gaddr
  {
    && i < |s.lock| == |s.trans|
    && s.lock[i] != Free
    && s.trans[i] == c.gaddr[p]
    && !Vacant(s, i)
  }

  /** The page is in the slot, or the owner of its BUSY bit is loading it there. */
  ghost predicate Backs(s: State, i: nat, p: PageId)
    requires p in s.word && p in s.offset
  {
    || (s.word[p].valid && s.offset[p] == i)
    || (exists t :: 0 <= t < |s.threads| && Loading(s.threads[t], p, i))
  }

  /** A VALID page's slot names it. */
  ghost predicate ValidNamed(c: Config, s: State)
    requires Shape(c, s)
  {
    forall p | p in s.word && s.word[p].valid :: Names(c, s, s.offset[p], p)
  }

  /** So does the slot that a page is being loaded into. */
  ghost predicate LoadingNamed(c: Config, s: State)
    requires Shape(c, s)
  {
    forall t, p, i: nat {:trigger Loading(s.threads[t], p, i)} | 0 <= t < |s.threads| && Loading(s.threads[t], p, i) && p in s.word ::
      !s.word[p].valid && Names(c, s, i, p)
  }

  /** A slot in use names a page that it backs. */
  ghost predicate UsedBacked(c: Config, s: State)
    requires Shape(c, s)
  {
    forall i: nat {:trigger InUse(s, i)} | InUse(s, i) :: exists p :: p in s.word && Names(c, s, i, p) && Backs(s, i, p)
  }

  ghost predicate SlotInv(c: Config, s: State)
    requires Shape(c, s)
  {
    ValidNamed(c, s) && LoadingNamed(c, s) && UsedBacked(c, s)
  }

  /** What a thread may rely on at each point of its program. */
  ghost predicate ThreadInv(c: Config, s: State, th: Thread)
    requires Shape(c, s) && ThreadShape(c, th)
  {
    match th
    case Idle => true
    case TryBusy(a) => true
    case Reload(a) => true
    case Restore(a) => s.word[a.page].valid
    case MarkDirty(a) => s.word[a.page].valid
    case ReadOffset(a) => s.word[a.page].valid && (a.write ==> s.word[a.page].dirty)
    case Hold(a, slot) => s.word[a.page].valid && s.offset[a.page] == slot && (a.write ==> s.word[a.page].dirty)
    case Fill(a, slot) => !s.word[a.page].valid
    case SetOffset(a, slot) => !s.word[a.page].valid
    case DirtyNew(a, slot) => !s.word[a.page].valid && s.offset[a.page] == slot
    case Publish(a, slot) => !s.word[a.page].valid && s.offset[a.page] == slot && (a.write ==> s.word[a.page].dirty)
    case Find(a, f) =>
      && !s.word[a.page].valid
      && (f.Probe? || f.Claim? ==> s.trans[f.slot] == c.gaddr[f.victim])
      && (f.Undo? || f.WriteBack? || f.Clear? ==> s.word[f.victim].valid && s.offset[f.victim] == f.slot)
  }

  /** No thread evicts a page on which a thread has settled. */
  ghost predicate Apart(s: State) {
    forall t, u, p {:trigger Settled(s.threads[t], p), Evicting(s.threads[u], p)} |
      0 <= t < |s.threads| && 0 <= u < |s.threads| && Settled(s.threads[t], p) :: !Evicting(s.threads[u], p)
  }

  ghost predicate ThreadsInv(c: Config, s: State)
    requires Shape(c, s)
  {
    && (forall t {:trigger ThreadInv(c, s, s.threads[t])} | 0 <= t < |s.threads| :: ThreadInv(c, s, s.threads[t]))
    && Apart(s)
  }

  /** Page p is on disk, on every replica. */
  ghost predicate OnDisk(c: Config, s: State, p: PageId)
    requires Shape(c, s) && p in c.locs && p in c.gaddr && |c.locs[p]| > 0
  {
    forall k | 0 <= k < |c.locs[p]| :: s.disk[c.locs[p][k]] == Content(c, s, p)
  }

  ghost predicate ThreadDataInv(c: Config, s: State, th: Thread)
    requires Shape(c, s) && c.Valid() && ThreadShape(c, th)
  {
    && (th.SetOffset? || th.DirtyNew? || th.Publish? ==> s.data[th.slot] == Content(c, s, th.a.page))
    && (th.Find? && th.f.WriteBack? ==> forall k | 0 <= k < th.f.k :: s.disk[c.locs[th.f.victim][k]] == Content(c, s, th.f.victim))
    && (th.Find? && th.f.Clear? ==> OnDisk(c, s, th.f.victim))
  }

  /** A page that is clean or not VALID is on disk; a page being loaded is in its slot. */
  ghost predicate DataInv(c: Config, s: State)
    requires Shape(c, s) && c.Valid()
  {
    && (forall p {:trigger OnDisk(c, s, p)} | p in s.word && !(s.word[p].valid && s.word[p].dirty) :: OnDisk(c, s, p))
    && (forall t {:trigger ThreadDataInv(c, s, s.threads[t])} | 0 <= t < |s.threads| :: ThreadDataInv(c, s, s.threads[t]))
  }

  ghost predicate Inv(c: Config, s: State) {
    && c.Valid()
    && Shape(c, s)
    && CountInv(s)
    && BusyInv(s)
    && LockInv(s)
    && SlotInv(c, s)
    && ThreadsInv(c, s)
    && DataInv(c, s)
  }

  // ---------------------------------------------------------------- pins

  lemma {:induction false} SumUpdate(ts: seq<Thread>, n: nat, t: nat, th: Thread, p: PageId)
    requires t < |ts| && n <= |ts|
    ensures SumPins(ts[t := th], n, p) == SumPins(ts, n, p) + if t < n then Pins(th, p) - Pins(ts[t], p) else 0
  {
    if n > 0 { SumUpdate(ts, n - 1, t, th, p); }
  }

  /** One thread's pins are part of the sum. */
  lemma {:induction false} SumAtLeast(ts: seq<Thread>, n: nat, t: nat, p: PageId)
    requires t < n <= |ts|
    ensures Pins(ts[t], p) <= SumPins(ts, n, p)
  {
    if t < n - 1 { SumAtLeast(ts, n - 1, t, p); }
  }

  lemma {:induction false} SumIdle(ts: seq<Thread>, n: nat, p: PageId)
    requires n <= |ts| && forall t | 0 <= t < |ts| :: ts[t].Idle?
    ensures SumPins(ts, n, p) == 0
  {
    if n > 0 { SumIdle(ts, n - 1, p); }
  }

  lemma InitInv(c: Config, s: State)
    requires c.Valid() && Init(c, s)
    ensures Inv(c, s)
  {
    hide Config.Invertible, Config.Disjoint;
    forall p | p in s.word ensures s.word[p].cnt == SumPins(s.threads, |s.threads|, p) { SumIdle(s.threads, |s.threads|, p); }
  }

  // ---------------------------------------------------------------- frames

  /** Thread t moves to th; no other thread moves. */
  predicate Moves(s: State, s': State, t: nat, th: Thread) {
    t < |s.threads| && s'.threads == s.threads[t := th]
  }

  /** No state word but q's changes; no lock but slot i's. */
  predicate WordAt(s: State, s': State, q: PageId) {
    q in s.word && q in s'.word && s'.word == s.word[q := s'.word[q]]
  }

  predicate LockAt(s: State, s': State, i: nat) {
    i < |s.lock| && i < |s'.lock| && s'.lock == s.lock[i := s'.lock[i]]
  }

  /** What the thread has in hand: the BUSY bits of its own page and of a victim, a slot
      lock, a slot it has vacated, a slot it is loading its page into. */
  datatype Grip = Grip(own: Option<PageId>, victim: Option<PageId>, lock: Option<nat>, vacating: Option<nat>, loading: Option<(PageId, nat)>)

  function GripOf(th: Thread): Grip {
    match th
    case Restore(a) => Grip(Some(a.page), None, None, None, None)
    case Fill(a, slot) => Grip(Some(a.page), None, None, None, Some((a.page, slot)))
    case SetOffset(a, slot) => Grip(Some(a.page), None, None, None, Some((a.page, slot)))
    case DirtyNew(a, slot) => Grip(Some(a.page), None, None, None, Some((a.page, slot)))
    case Publish(a, slot) => Grip(Some(a.page), None, None, None, Some((a.page, slot)))
    case Find(a, f) =>
      Grip(Some(a.page),
           if f.Undo? || f.WriteBack? || f.Clear? then Some(f.victim) else None,
           if f.Ticket? || f.LoadLock? || f.Cas? then None else Some(f.slot),
           if f.Assign? then Some(f.slot) else None,
           if f.Unlock? && f.won then Some((a.page, f.slot)) else None)
    case _ => Grip(None, None, None, None, None)
  }

  lemma GripSays(th: Thread)
    ensures forall p :: OwnsBusy(th, p) <==> GripOf(th).own == Some(p) || GripOf(th).victim == Some(p)
    ensures forall i: nat :: HoldsLock(th, i) <==> GripOf(th).lock == Some(i)
    ensures forall i: nat :: Vacating(th, i) <==> GripOf(th).vacating == Some(i)
    ensures forall p, i: nat :: Loading(th, p, i) <==> GripOf(th).loading == Some((p, i))
  {
  }

  /** The step changes the pins of one page by what it adds to or takes from its count. */
  ghost predicate CountMove(s: State, s': State, t: nat, th: Thread, q: PageId) {
    && Moves(s, s', t, th) && WordAt(s, s', q)
    && (forall p | p != q :: Pins(th, p) == Pins(s.threads[t], p))
    && s'.word[q].cnt == s.word[q].cnt - Pins(s.threads[t], q) + Pins(th, q)
    && Fits(s'.word[q])
  }

  /** A step leaves the BUSY bits alone, sets a clear one and owns it, or clears one that
      it owns. */
  predicate BusyMove(s: State, s': State, t: nat, th: Thread, q: PageId) {
    && Moves(s, s', t, th) && WordAt(s, s', q)
    && var (old_, new_) := (GripOf(s.threads[t]), GripOf(th));
    || (new_.own == old_.own && new_.victim == old_.victim && s'.word[q].busy == s.word[q].busy)
    || (!s.word[q].busy && s'.word[q].busy
        && ((new_.own == old_.own && old_.victim.None? && new_.victim == Some(q))
            || (new_.victim == old_.victim && old_.own.None? && new_.own == Some(q))))
    || (!s'.word[q].busy
        && ((new_.own == old_.own && old_.own != Some(q) && old_.victim == Some(q) && new_.victim.None?)
            || (new_.victim == old_.victim && old_.victim != Some(q) && old_.own == Some(q) && new_.own.None?)))
  }

  /** Likewise for a slot lock. */
  predicate LockMove(s: State, s': State, t: nat, th: Thread, i: nat) {
    && Moves(s, s', t, th) && LockAt(s, s', i)
    && var (old_, new_) := (GripOf(s.threads[t]).lock, GripOf(th).lock);
    || (new_ == old_ && s'.lock[i] == s.lock[i])
    || (old_.None? && new_ == Some(i) && s.lock[i] != Locked && s'.lock[i] == Locked)
    || (old_ == Some(i) && new_.None?)
  }

  lemma CountFrame(s: State, s': State, t: nat, th: Thread, q: PageId)
    requires CountInv(s) && CountMove(s, s', t, th, q)
    ensures CountInv(s')
  {
    forall p | p in s'.word ensures s'.word[p].cnt == SumPins(s'.threads, |s'.threads|, p) && Fits(s'.word[p]) {
      SumUpdate(s.threads, |s.threads|, t, th, p);
    }
  }

  lemma BusyFrame(s: State, s': State, t: nat, th: Thread, q: PageId)
    requires BusyInv(s) && BusyMove(s, s', t, th, q)
    ensures BusyInv(s')
  {
    var ts, us := s.threads, s'.threads;
    GripSays(th);
    GripSays(ts[t]);
    forall u, p | 0 <= u < |us| && p in s'.word && OwnsBusy(us[u], p) ensures s'.word[p].busy {
      assert u != t ==> OwnsBusy(ts[u], p);
    }
    forall p | p in s'.word && s'.word[p].busy ensures HasOwner(s', p) {
      if OwnsBusy(th, p) {
        assert us[t] == th;
      } else {
        assert HasOwner(s, p);
        var u :| 0 <= u < |ts| && OwnsBusy(ts[u], p);
        assert us[u] == ts[u];
      }
    }
    forall u, v, p | 0 <= u < |us| && 0 <= v < |us| && OwnsBusy(us[u], p) && OwnsBusy(us[v], p) ensures u == v {
      assert u != t ==> OwnsBusy(ts[u], p);
      assert v != t ==> OwnsBusy(ts[v], p);
    }
  }

  lemma LockFrame(s: State, s': State, t: nat, th: Thread, i: nat)
    requires LockInv(s) && LockMove(s, s', t, th, i)
    ensures LockInv(s')
  {
    var ts, us := s.threads, s'.threads;
    GripSays(th);
    GripSays(ts[t]);
    forall u, j | 0 <= u < |us| && 0 <= j < |s'.lock| && HoldsLock(us[u], j) ensures s'.lock[j] == Locked {
      assert u != t ==> HoldsLock(ts[u], j);
    }
    forall u, v, j | 0 <= u < |us| && 0 <= v < |us| && HoldsLock(us[u], j) && HoldsLock(us[v], j) ensures u == v {
      assert u != t ==> HoldsLock(ts[u], j);
      assert v != t ==> HoldsLock(ts[v], j);
    }
  }

  lemma SameVacant(s: State, s': State, t: nat, th: Thread)
    requires Moves(s, s', t, th) && GripOf(th).vacating == GripOf(s.threads[t]).vacating
    ensures forall i: nat :: Vacant(s', i) == Vacant(s, i)
  {
    var ts, us := s.threads, s'.threads;
    GripSays(th);
    GripSays(ts[t]);
    forall i: nat ensures Vacant(s', i) == Vacant(s, i) {
      if Vacant(s, i) { var u :| 0 <= u < |ts| && Vacating(ts[u], i); assert Vacating(us[u], i); }
      if Vacant(s', i) { var u :| 0 <= u < |us| && Vacating(us[u], i); assert Vacating(ts[u], i); }
    }
  }

  /** Neither a VALID bit, an offset or a translation changes, nor which locks are FREE. */
  ghost predicate SlotsKept(s: State, s': State, q: PageId)
  {
    && WordAt(s, s', q) && s'.word[q].valid == s.word[q].valid
    && s'.offset == s.offset && s'.trans == s.trans
    && |s'.lock| == |s.lock| && forall i | 0 <= i < |s.lock| :: s'.lock[i].Free? == s.lock[i].Free?
  }

  predicate GripKept(s: State, t: nat, th: Thread)
    requires t < |s.threads|
  {
    && GripOf(th).vacating == GripOf(s.threads[t]).vacating
    && GripOf(th).loading == GripOf(s.threads[t]).loading
  }

  lemma SameNames(c: Config, s: State, s': State, t: nat, th: Thread, q: PageId, i: nat, p: PageId)
    requires Moves(s, s', t, th) && SlotsKept(s, s', q) && GripKept(s, t, th)
    requires p in c.gaddr
    ensures Names(c, s, i, p) == Names(c, s', i, p)
  {
    SameVacant(s, s', t, th);
  }

  lemma SameLoading(s: State, s': State, t: nat, th: Thread, u: nat, i: nat, p: PageId)
    requires Moves(s, s', t, th) && GripKept(s, t, th) && u < |s.threads|
    ensures Loading(s.threads[u], p, i) == Loading(s'.threads[u], p, i)
  {
    GripSays(th);
    GripSays(s.threads[t]);
  }

  lemma SameBacks(s: State, s': State, t: nat, th: Thread, q: PageId, i: nat, p: PageId)
    requires Moves(s, s', t, th) && SlotsKept(s, s', q) && GripKept(s, t, th)
    requires p in s.word && p in s.offset && Backs(s, i, p)
    ensures Backs(s', i, p)
  {
    if !(s.word[p].valid && s.offset[p] == i) {
      var u :| 0 <= u < |s.threads| && Loading(s.threads[u], p, i);
      SameLoading(s, s', t, th, u, i, p);
    }
  }

  lemma ValidNamedFrame(c: Config, s: State, s': State, t: nat, th: Thread, q: PageId)
    requires Shape(c, s) && Shape(c, s') && ValidNamed(c, s)
    requires Moves(s, s', t, th) && SlotsKept(s, s', q) && GripKept(s, t, th)
    ensures ValidNamed(c, s')
  {
    forall p | p in s'.word && s'.word[p].valid ensures Names(c, s', s'.offset[p], p) {
      SameNames(c, s, s', t, th, q, s.offset[p], p);
    }
  }

  lemma LoadingNamedFrame(c: Config, s: State, s': State, t: nat, th: Thread, q: PageId)
    requires Shape(c, s) && Shape(c, s') && LoadingNamed(c, s)
    requires Moves(s, s', t, th) && SlotsKept(s, s', q) && GripKept(s, t, th)
    ensures LoadingNamed(c, s')
  {
    forall u, p, i: nat {:trigger Loading(s'.threads[u], p, i)} | 0 <= u < |s'.threads| && Loading(s'.threads[u], p, i) && p in s'.word
      ensures !s'.word[p].valid && Names(c, s', i, p)
    {
      SameLoading(s, s', t, th, u, i, p);
      SameNames(c, s, s', t, th, q, i, p);
    }
  }

  lemma UsedBackedFrame(c: Config, s: State, s': State, t: nat, th: Thread, q: PageId)
    requires Shape(c, s) && Shape(c, s') && UsedBacked(c, s)
    requires Moves(s, s', t, th) && SlotsKept(s, s', q) && GripKept(s, t, th)
    ensures UsedBacked(c, s')
  {
    SameVacant(s, s', t, th);
    forall i: nat | InUse(s', i) ensures exists p :: p in s'.word && Names(c, s', i, p) && Backs(s', i, p) {
      assert InUse(s, i);
      var p :| p in s.word && Names(c, s, i, p) && Backs(s, i, p);
      SameNames(c, s, s', t, th, q, i, p);
      SameBacks(s, s', t, th, q, i, p);
    }
  }

  /** The page the thread has settled on, and the page it is evicting. */
  function SettledOn(th: Thread): Option<PageId> {
    if th.MarkDirty? || th.ReadOffset? || th.Hold? then Some(th.a.page) else None
  }

  function EvictingOf(th: Thread): Option<PageId> {
    if th.Find? && (th.f.WriteBack? || th.f.Clear?) then Some(th.f.victim) else None
  }

  /** The other threads' facts survive a step that changes no VALID bit, clears no DIRTY
      bit and moves no page. */
  lemma ThreadsFrame(c: Config, s: State, s': State, t: nat, th: Thread, q: PageId)
    requires Shape(c, s) && Shape(c, s') && ThreadsInv(c, s) && Moves(s, s', t, th)
    requires WordAt(s, s', q) && s'.word[q].valid == s.word[q].valid
    requires s.word[q].dirty ==> s'.word[q].dirty
    requires s'.offset == s.offset && s'.trans == s.trans
    requires ThreadShape(c, th) && ThreadInv(c, s', th)
    requires NoNewClash(s, t, th)
    ensures ThreadsInv(c, s')
  {
    var ts, us := s.threads, s'.threads;
    forall u | 0 <= u < |us| ensures ThreadInv(c, s', us[u]) {
      if u != t { assert us[u] == ts[u]; assert ThreadInv(c, s, ts[u]); }
    }
    SettledFrame(s, s', t, th);
  }

  lemma SettledFrame(s: State, s': State, t: nat, th: Thread)
    requires Moves(s, s', t, th) && NoNewClash(s, t, th)
    requires Apart(s)
    ensures Apart(s')
  {
    var ts, us := s.threads, s'.threads;
    forall v, u, p | 0 <= v < |us| && 0 <= u < |us| && Settled(us[v], p) ensures !Evicting(us[u], p) {
      assert v != t ==> Settled(ts[v], p);
      assert v == t ==> SettledOn(th) == Some(p);
      assert v == t && SettledOn(ts[t]) == Some(p) ==> Settled(ts[t], p);
      assert u != t ==> Evicting(us[u], p) == Evicting(ts[u], p);
      assert u == t && Evicting(us[u], p) ==> EvictingOf(th) == Some(p);
      assert EvictingOf(ts[t]) == Some(p) ==> Evicting(ts[t], p);
    }
  }

  /** A thread that settles on a page, or starts to evict one, meets no thread that does
      the opposite. */
  ghost predicate NoNewClash(s: State, t: nat, th: Thread)
    requires t < |s.threads|
  {
    && (SettledOn(th) == SettledOn(s.threads[t]) || SettledOn(th).None? ||
        forall u | 0 <= u < |s.threads| :: !Evicting(s.threads[u], SettledOn(th).value))
    && (EvictingOf(th) == EvictingOf(s.threads[t]) || EvictingOf(th).None? ||
        forall u | 0 <= u < |s.threads| :: !Settled(s.threads[u], EvictingOf(th).value))
  }

  /** The data invariant survives a step that writes no data and changes no content. */
  lemma DataFrame(c: Config, s: State, s': State, t: nat, th: Thread)
    requires c.Valid() && Shape(c, s) && Shape(c, s') && DataInv(c, s) && Moves(s, s', t, th)
    requires s'.data == s.data && s'.disk == s.disk
    requires forall p | p in s.word :: Content(c, s', p) == Content(c, s, p)
    requires forall p | p in s.word && !(s'.word[p].valid && s'.word[p].dirty) :: OnDisk(c, s, p)
    requires ThreadShape(c, th) && ThreadDataInv(c, s', th)
    ensures DataInv(c, s')
  {
    hide Config.Invertible, Config.Disjoint;
    forall p | p in s'.word && !(s'.word[p].valid && s'.word[p].dirty) ensures OnDisk(c, s', p) {
      assert OnDisk(c, s, p);
    }
    forall u | 0 <= u < |s'.threads| ensures ThreadDataInv(c, s', s'.threads[u]) {
      if u != t { ThreadDataFrame(c, s, s', s.threads[u]); }
    }
  }

  lemma ThreadDataFrame(c: Config, s: State, s': State, th: Thread)
    requires c.Valid() && Shape(c, s) && Shape(c, s') && ThreadShape(c, th) && ThreadDataInv(c, s, th)
    requires s'.data == s.data && s'.disk == s.disk
    requires forall p | p in s.word :: Content(c, s', p) == Content(c, s, p)
    ensures ThreadDataInv(c, s', th)
  {
    hide Config.Invertible, Config.Disjoint;
  }

  lemma ShapeFrame(c: Config, s: State, s': State, t: nat, th: Thread)
    requires Shape(c, s) && Moves(s, s', t, th) && ThreadShape(c, th)
    requires s'.word.Keys == s.word.Keys && s'.offset.Keys == s.offset.Keys
    requires |s'.lock| == |s.lock| && |s'.trans| == |s.trans| && s'.data == s.data && s'.disk == s.disk
    ensures Shape(c, s')
  {
  }

  /** A slot or a disk block gets the size of data it had. */
  lemma DataShape(c: Config, s: State, s': State, t: nat, th: Thread, slot: nat, l: Loc)
    requires Shape(c, s) && Moves(s, s', t, th) && ThreadShape(c, th) && slot < c.slots
    requires s' == s.(data := s'.data, disk := s'.disk, threads := s'.threads)
    requires |s'.data| == |s.data| && s'.data == s.data[slot := s'.data[slot]] && |s'.data[slot]| == c.elems
    requires s'.disk == s.disk || (l in s'.disk && s'.disk == s.disk[l := s'.disk[l]] && |s'.disk[l]| == c.elems)
    ensures Shape(c, s')
  {
  }

  lemma DataSizes(c: Config, s: State, slot: nat, p: PageId, k: nat)
    requires Shape(c, s) && slot < c.slots && p in c.locs && k < |c.locs[p]|
    ensures slot < |s.data| && |s.data[slot]| == c.elems
    ensures c.locs[p][k] in s.disk && |s.disk[c.locs[p][k]]| == c.elems
  {
  }

  // ---------------------------------------------------------------- steps

  /** A step that touches one state word's flags or count, one slot lock and the ticket,
      and that neither loads nor vacates a slot. */
  ghost predicate Quiet(s: State, s': State, t: nat, th: Thread, q: PageId, i: nat) {
    && s' == s.(word := s'.word, lock := s'.lock, ticket := s'.ticket, threads := s'.threads)
    && CountMove(s, s', t, th, q) && BusyMove(s, s', t, th, q) && LockMove(s, s', t, th, i)
    && s'.word[q].valid == s.word[q].valid
    && (s.word[q].dirty ==> s'.word[q].dirty)
    && s'.lock[i].Free? == s.lock[i].Free?
    && GripKept(s, t, th)
    && NoNewClash(s, t, th)
  }

  lemma QuietSlots(c: Config, s: State, s': State, t: nat, th: Thread, q: PageId, i: nat)
    requires Shape(c, s) && Shape(c, s') && SlotInv(c, s) && Quiet(s, s', t, th, q, i)
    ensures SlotInv(c, s')
  {
    hide Config.Invertible, Config.Disjoint;
    assert SlotsKept(s, s', q);
    ValidNamedFrame(c, s, s', t, th, q);
    LoadingNamedFrame(c, s, s', t, th, q);
    UsedBackedFrame(c, s, s', t, th, q);
  }

  lemma QuietData(c: Config, s: State, s': State, t: nat, th: Thread, q: PageId)
    requires c.Valid() && Shape(c, s) && Shape(c, s') && DataInv(c, s) && Moves(s, s', t, th)
    requires WordAt(s, s', q) && s'.word[q].valid == s.word[q].valid && (s.word[q].dirty ==> s'.word[q].dirty)
    requires s'.offset == s.offset && s'.data == s.data && s'.disk == s.disk
    requires ThreadShape(c, th) && ThreadDataInv(c, s', th)
    ensures DataInv(c, s')
  {
    hide Config.Invertible, Config.Disjoint;
    DataFrame(c, s, s', t, th);
  }

  lemma QuietStep(c: Config, s: State, s': State, t: nat, th: Thread, q: PageId, i: nat)
    requires Inv(c, s) && Shape(c, s') && ThreadShape(c, th) && Quiet(s, s', t, th, q, i)
    requires ThreadInv(c, s', th) && ThreadDataInv(c, s', th)
    ensures Inv(c, s')
  {
    hide Config.Invertible, Config.Disjoint;
    CountFrame(s, s', t, th, q);
    BusyFrame(s, s', t, th, q);
    LockFrame(s, s', t, th, i);
    QuietSlots(c, s, s', t, th, q, i);
    ThreadsFrame(c, s, s', t, th, q);
    QuietData(c, s, s', t, th, q);
  }

  lemma LocalIsQuiet(s: State, s': State, t: nat, th: Thread)
    requires t < |s.threads| && s' == s.(ticket := s'.ticket, threads := s.threads[t := th]) && |s.lock| > 0
    requires !th.Idle? && !s.threads[t].Idle? && th.a == s.threads[t].a && GripOf(th) == GripOf(s.threads[t])
    requires th.a.page in s.word && Fits(s.word[th.a.page]) && NoNewClash(s, t, th)
    ensures Quiet(s, s', t, th, th.a.page, 0)
  {
    hide NoNewClash, GripOf;
    assert s.word == s.word[th.a.page := s.word[th.a.page]];
  }

  lemma SameThreadInv(c: Config, s: State, s': State, th: Thread)
    requires Shape(c, s) && Shape(c, s') && ThreadShape(c, th) && ThreadInv(c, s, th)
    requires s'.word == s.word && s'.offset == s.offset && s'.trans == s.trans
    ensures ThreadInv(c, s', th)
  {
  }

  /** A step that only moves the thread (and the ticket). */
  lemma LocalStep(c: Config, s: State, s': State, t: nat, th: Thread)
    requires Inv(c, s) && t < |s.threads| && s' == s.(ticket := s'.ticket, threads := s.threads[t := th])
    requires !th.Idle? && !s.threads[t].Idle? && th.a == s.threads[t].a && GripOf(th) == GripOf(s.threads[t])
    requires ThreadShape(c, th) && ThreadInv(c, s, th) && ThreadDataInv(c, s, th) && NoNewClash(s, t, th)
    ensures Inv(c, s')
  {
    hide Inv, Shape, Config.Valid, CountInv, BusyInv, LockInv, SlotInv, ThreadsInv, DataInv, NoNewClash;
    Open(c, s, t);
    LocalIsQuiet(s, s', t, th);
    hide Quiet, GripOf;
    ShapeFrame(c, s, s', t, th);
    SameThreadInv(c, s, s', th);
    ThreadDataFrame(c, s, s', th);
    QuietStep(c, s, s', t, th, th.a.page, 0);
  }

  /** A step on the state word of page q that keeps its VALID bit and its DIRTY bit. */
  lemma WordStep(c: Config, s: State, s': State, t: nat, th: Thread, q: PageId, w: Word)
    requires Inv(c, s) && t < |s.threads| && q in s.word && s' == s.(word := s.word[q := w], threads := s.threads[t := th])
    requires w.valid == s.word[q].valid && (s.word[q].dirty ==> w.dirty)
    requires CountMove(s, s', t, th, q) && BusyMove(s, s', t, th, q) && NoNewClash(s, t, th)
    requires GripKept(s, t, th) && GripOf(th).lock == GripOf(s.threads[t]).lock
    requires ThreadShape(c, th) && (Shape(c, s') ==> ThreadInv(c, s', th)) && ThreadDataInv(c, s, th)
    ensures Inv(c, s')
  {
    hide Inv, Shape, Config.Valid, CountInv, BusyInv, LockInv, SlotInv, ThreadsInv, DataInv;
    Open(c, s, t);
    ShapeFrame(c, s, s', t, th);
    ThreadDataFrame(c, s, s', th);
    QuietStep(c, s, s', t, th, q, 0);
  }

  /** Nobody is evicting a page whose BUSY bit is clear. */
  lemma NotBusyNotEvicted(s: State, p: PageId)
    requires BusyInv(s) && p in s.word && !s.word[p].busy
    ensures forall u | 0 <= u < |s.threads| :: !Evicting(s.threads[u], p)
  {
    assert forall u | 0 <= u < |s.threads| :: !OwnsBusy(s.threads[u], p);
  }

  lemma DispatchFacts(s: State, t: nat, a: Acq, w: Word)
    requires BusyInv(s) && t < |s.threads| && a.page in s.word && w == s.word[a.page]
    ensures NoNewClash(s, t, Dispatch(a, w))
  {
    if !w.busy { NotBusyNotEvicted(s, a.page); }
  }

  /** What the steps of thread t start from, and all that most of them need. */
  ghost predicate Here(c: Config, s: State, t: nat, th: Thread) {
    && c.Valid() && Shape(c, s) && t < |s.threads| && s.threads[t] == th
    && ThreadInv(c, s, th) && ThreadDataInv(c, s, th)
    && (!th.Idle? ==> Fits(s.word[th.a.page]))
  }

  /** What the invariant says, and what thread t may rely on. */
  lemma Open(c: Config, s: State, t: nat)
    requires Inv(c, s) && t < |s.threads|
    ensures c.Valid() && Shape(c, s) && c.slots > 0 && ThreadShape(c, s.threads[t])
    ensures s.word.Keys == s.offset.Keys == c.gaddr.Keys == c.locs.Keys && |s.lock| == |s.trans| == |s.data| == c.slots
    ensures ThreadInv(c, s, s.threads[t]) && ThreadDataInv(c, s, s.threads[t])
    ensures !s.threads[t].Idle? ==> Fits(s.word[s.threads[t].a.page])
    ensures !s.threads[t].Idle? && OwnsBusy(s.threads[t], s.threads[t].a.page) ==> s.word[s.threads[t].a.page].busy
    ensures CountInv(s) && BusyInv(s) && LockInv(s) && SlotInv(c, s) && ThreadsInv(c, s) && DataInv(c, s)
  {
  }

  lemma CountFits(s: State, p: PageId)
    requires CountInv(s) && p in s.word
    ensures Fits(s.word[p])
  {
  }

  lemma OwnedIsBusy(s: State, t: nat, p: PageId)
    requires BusyInv(s) && t < |s.threads| && p in s.word && OwnsBusy(s.threads[t], p)
    ensures s.word[p].busy
  {
  }

  lemma ValidIsNamed(c: Config, s: State, p: PageId)
    requires Shape(c, s) && SlotInv(c, s) && p in s.word && s.word[p].valid
    ensures Names(c, s, s.offset[p], p)
  {
  }

  lemma CleanIsOnDisk(c: Config, s: State, p: PageId)
    requires c.Valid() && Shape(c, s) && DataInv(c, s) && p in s.word
    ensures !(s.word[p].valid && s.word[p].dirty) ==> OnDisk(c, s, p)
  {
  }

  /** The translation under a held lock names a page. */
  lemma LockedNames(c: Config, s: State, t: nat, a: Acq, slot: nat)
    requires Shape(c, s) && LockInv(s) && SlotInv(c, s) && c.Valid()
    requires t < |s.threads| && s.threads[t] == Find(a, ReadTrans(slot))
    ensures var p := c.Unpack(s.trans[slot]); p in c.gaddr && c.gaddr[p] == s.trans[slot]
  {
    LockedNotVacant(s, t, slot);
    assert HoldsLock(s.threads[t], slot);
    assert InUse(s, slot);
  }

  lemma AcquireKeeps(c: Config, s: State, t: nat, a: Acq)
    requires Inv(c, s) && Enabled(c, s, t, Acquire(a))
    ensures Inv(c, StepAcquire(s, t, a))
  {
    hide Inv, Shape, Config.Valid, CountInv, BusyInv, LockInv, SlotInv, ThreadsInv, DataInv;
    Open(c, s, t);
    var w := s.word[a.page];
    DispatchFacts(s, t, a, w);
    WordStep(c, s, StepAcquire(s, t, a), t, Dispatch(a, w), a.page, FetchAdd(w, a.count));
  }

  lemma ReloadKeeps(c: Config, s: State, t: nat, a: Acq)
    requires Inv(c, s) && t < |s.threads| && s.threads[t] == Reload(a)
    ensures Inv(c, StepReload(s, t, a))
  {
    hide Inv, Shape, Config.Valid, CountInv, BusyInv, LockInv, SlotInv, ThreadsInv, DataInv;
    Open(c, s, t);
    DispatchFacts(s, t, a, s.word[a.page]);
    LocalStep(c, s, StepReload(s, t, a), t, Dispatch(a, s.word[a.page]));
  }

  lemma TryBusyKeeps(c: Config, s: State, t: nat, a: Acq)
    requires Inv(c, s) && t < |s.threads| && s.threads[t] == TryBusy(a)
    ensures Inv(c, StepTryBusy(s, t, a))
  {
    hide Inv, Shape, Config.Valid, CountInv, BusyInv, LockInv, SlotInv, ThreadsInv, DataInv;
    Open(c, s, t);
    var s', w := StepTryBusy(s, t, a), s.word[a.page];
    if w.busy { WordStep(c, s, s', t, Reload(a), a.page, FetchOrBusy(w)); }
    else if w.valid { WordStep(c, s, s', t, Restore(a), a.page, FetchOrBusy(w)); }
    else { WordStep(c, s, s', t, Find(a, Ticket), a.page, FetchOrBusy(w)); }
  }

  lemma RestoreKeeps(c: Config, s: State, t: nat, a: Acq)
    requires Inv(c, s) && t < |s.threads| && s.threads[t] == Restore(a)
    ensures Inv(c, StepRestore(s, t, a))
  {
    hide Inv, Shape, Config.Valid, CountInv, BusyInv, LockInv, SlotInv, ThreadsInv, DataInv;
    Open(c, s, t);
    WordStep(c, s, StepRestore(s, t, a), t, Reload(a), a.page, FetchAndNotBusy(s.word[a.page]));
  }

  lemma MarkDirtyKeeps(c: Config, s: State, t: nat, a: Acq)
    requires Inv(c, s) && t < |s.threads| && s.threads[t] == MarkDirty(a)
    ensures Inv(c, StepMarkDirty(s, t, a))
  {
    hide Inv, Shape, Config.Valid, CountInv, BusyInv, LockInv, SlotInv, ThreadsInv, DataInv;
    Open(c, s, t);
    WordStep(c, s, StepMarkDirty(s, t, a), t, ReadOffset(a), a.page, FetchOrDirty(s.word[a.page]));
  }

  lemma ReadOffsetKeeps(c: Config, s: State, t: nat, a: Acq)
    requires Inv(c, s) && t < |s.threads| && s.threads[t] == ReadOffset(a)
    ensures Inv(c, StepReadOffset(s, t, a))
  {
    hide Inv, Shape, Config.Valid, CountInv, BusyInv, LockInv, SlotInv, ThreadsInv, DataInv;
    Open(c, s, t);
    ValidIsNamed(c, s, a.page);
    LocalStep(c, s, StepReadOffset(s, t, a), t, Hold(a, s.offset[a.page]));
  }

  lemma ReleaseKeeps(c: Config, s: State, t: nat, a: Acq, slot: nat)
    requires Inv(c, s) && t < |s.threads| && s.threads[t] == Hold(a, slot)
    ensures Inv(c, StepRelease(s, t, a)) && a.count <= s.word[a.page].cnt
  {
    hide Inv, Shape, Config.Valid, CountInv, BusyInv, LockInv, SlotInv, ThreadsInv, DataInv;
    Open(c, s, t);
    SumAtLeast(s.threads, |s.threads|, t, a.page);
    WordStep(c, s, StepRelease(s, t, a), t, Idle, a.page, FetchSub(s.word[a.page], a.count));
  }

  lemma TicketKeeps(c: Config, s: State, t: nat, a: Acq)
    requires Inv(c, s) && t < |s.threads| && s.threads[t] == Find(a, Ticket)
    ensures Inv(c, StepTicket(s, t, a))
  {
    hide Inv, Shape, Config.Valid, CountInv, BusyInv, LockInv, SlotInv, ThreadsInv, DataInv;
    Open(c, s, t);
    LocalStep(c, s, StepTicket(s, t, a), t, Find(a, LoadLock(s.ticket % |s.lock|)));
  }

  lemma LoadLockKeeps(c: Config, s: State, t: nat, a: Acq, slot: nat)
    requires Inv(c, s) && t < |s.threads| && s.threads[t] == Find(a, LoadLock(slot))
    ensures Inv(c, StepLoadLock(s, t, a, slot))
  {
    hide Inv, Shape, Config.Valid, CountInv, BusyInv, LockInv, SlotInv, ThreadsInv, DataInv;
    Open(c, s, t);
    var s' := StepLoadLock(s, t, a, slot);
    if s.lock[slot].Locked? { LocalStep(c, s, s', t, Find(a, Ticket)); }
    else { LocalStep(c, s, s', t, Find(a, Cas(slot, s.lock[slot]))); }
  }

  lemma ReadTransKeeps(c: Config, s: State, t: nat, a: Acq, slot: nat)
    requires Inv(c, s) && t < |s.threads| && s.threads[t] == Find(a, ReadTrans(slot))
    ensures Inv(c, StepReadTrans(c, s, t, a, slot))
  {
    hide Inv, Shape, Config.Valid, CountInv, BusyInv, LockInv, SlotInv, ThreadsInv, DataInv;
    Open(c, s, t);
    LockedNames(c, s, t, a, slot);
    LocalStep(c, s, StepReadTrans(c, s, t, a, slot), t, Find(a, Probe(slot, c.Unpack(s.trans[slot]))));
  }

  lemma ProbeKeeps(c: Config, s: State, t: nat, a: Acq, slot: nat, victim: PageId)
    requires Inv(c, s) && t < |s.threads| && s.threads[t] == Find(a, Probe(slot, victim))
    ensures Inv(c, StepProbe(s, t, a, slot, victim))
  {
    hide Inv, Shape, Config.Valid, CountInv, BusyInv, LockInv, SlotInv, ThreadsInv, DataInv;
    Open(c, s, t);
    var s', w := StepProbe(s, t, a, slot, victim), s.word[victim];
    if w.cnt == 0 && !w.busy { LocalStep(c, s, s', t, Find(a, Claim(slot, victim))); }
    else { LocalStep(c, s, s', t, Find(a, Unlock(slot, false))); }
  }

  lemma ClaimBusyKeeps(c: Config, s: State, t: nat, a: Acq, slot: nat, victim: PageId)
    requires Inv(c, s) && t < |s.threads| && s.threads[t] == Find(a, Claim(slot, victim))
    requires s.word[victim].busy
    ensures Inv(c, StepClaim(s, t, a, slot, victim))
  {
    hide Inv, Shape, Config.Valid, CountInv, BusyInv, LockInv, SlotInv, ThreadsInv, DataInv;
    Open(c, s, t);
    CountFits(s, victim);
    WordStep(c, s, StepClaim(s, t, a, slot, victim), t, Find(a, Unlock(slot, false)), victim, FetchOrBusy(s.word[victim]));
  }

  lemma ClaimPinnedKeeps(c: Config, s: State, t: nat, a: Acq, slot: nat, victim: PageId)
    requires Inv(c, s) && t < |s.threads| && s.threads[t] == Find(a, Claim(slot, victim))
    requires !s.word[victim].busy && s.word[victim].cnt != 0
    ensures Inv(c, StepClaim(s, t, a, slot, victim))
  {
    hide Inv, Shape, Config.Valid, CountInv, BusyInv, LockInv, SlotInv, ThreadsInv, DataInv;
    Open(c, s, t);
    CountFits(s, victim);
    ClaimedIsValid(c, s, t, a, slot, victim);
    WordStep(c, s, StepClaim(s, t, a, slot, victim), t, Find(a, Undo(slot, victim)), victim, FetchOrBusy(s.word[victim]));
  }

  /** A claimed victim is VALID in the slot; unpinned, nobody relies on its staying there. */
  lemma ClaimDirtyKeeps(c: Config, s: State, t: nat, a: Acq, slot: nat, victim: PageId)
    requires Inv(c, s) && t < |s.threads| && s.threads[t] == Find(a, Claim(slot, victim))
    requires !s.word[victim].busy && s.word[victim].cnt == 0 && s.word[victim].dirty
    ensures Inv(c, StepClaim(s, t, a, slot, victim))
  {
    hide Inv, Shape, Config.Valid, CountInv, BusyInv, LockInv, SlotInv, ThreadsInv, DataInv;
    Open(c, s, t);
    CountFits(s, victim);
    ClaimedIsValid(c, s, t, a, slot, victim);
    PinsArePositive(c, s);
    UnpinnedNotSettled(s, victim);
    WordStep(c, s, StepClaim(s, t, a, slot, victim), t, Find(a, WriteBack(slot, victim, 0)), victim, FetchOrBusy(s.word[victim]));
  }

  lemma ClaimCleanKeeps(c: Config, s: State, t: nat, a: Acq, slot: nat, victim: PageId)
    requires Inv(c, s) && t < |s.threads| && s.threads[t] == Find(a, Claim(slot, victim))
    requires !s.word[victim].busy && s.word[victim].cnt == 0 && !s.word[victim].dirty
    ensures Inv(c, StepClaim(s, t, a, slot, victim))
  {
    hide Inv, Shape, Config.Valid, CountInv, BusyInv, LockInv, SlotInv, ThreadsInv, DataInv;
    Open(c, s, t);
    CountFits(s, victim);
    ClaimedIsValid(c, s, t, a, slot, victim);
    PinsArePositive(c, s);
    UnpinnedNotSettled(s, victim);
    CleanIsOnDisk(c, s, victim);
    WordStep(c, s, StepClaim(s, t, a, slot, victim), t, Find(a, Clear(slot, victim)), victim, FetchOrBusy(s.word[victim]));
  }

  lemma ClaimKeeps(c: Config, s: State, t: nat, a: Acq, slot: nat, victim: PageId)
    requires Inv(c, s) && t < |s.threads| && s.threads[t] == Find(a, Claim(slot, victim))
    ensures Inv(c, StepClaim(s, t, a, slot, victim))
  {
    hide Inv;
    Open(c, s, t);
    if s.word[victim].busy { ClaimBusyKeeps(c, s, t, a, slot, victim); }
    else if s.word[victim].cnt != 0 { ClaimPinnedKeeps(c, s, t, a, slot, victim); }
    else if s.word[victim].dirty { ClaimDirtyKeeps(c, s, t, a, slot, victim); }
    else { ClaimCleanKeeps(c, s, t, a, slot, victim); }
  }

  lemma UndoKeeps(c: Config, s: State, t: nat, a: Acq, slot: nat, victim: PageId)
    requires Inv(c, s) && t < |s.threads| && s.threads[t] == Find(a, Undo(slot, victim))
    ensures Inv(c, StepUndo(s, t, a, slot, victim))
  {
    hide Inv, Shape, Config.Valid, CountInv, BusyInv, LockInv, SlotInv, ThreadsInv, DataInv;
    Open(c, s, t);
    CountFits(s, victim);
    WordStep(c, s, StepUndo(s, t, a, slot, victim), t, Find(a, Unlock(slot, false)), victim, FetchAndNotBusy(s.word[victim]));
  }

  lemma DirtyNewKeeps(c: Config, s: State, t: nat, a: Acq, slot: nat)
    requires Inv(c, s) && t < |s.threads| && s.threads[t] == DirtyNew(a, slot)
    ensures Inv(c, StepDirtyNew(s, t, a, slot))
  {
    hide Inv, Shape, Config.Valid, CountInv, BusyInv, LockInv, SlotInv, ThreadsInv, DataInv;
    Open(c, s, t);
    WordStep(c, s, StepDirtyNew(s, t, a, slot), t, Publish(a, slot), a.page, FetchOrDirty(s.word[a.page]));
  }

  lemma LockedNotVacant(s: State, t: nat, slot: nat)
    requires LockInv(s) && t < |s.threads| && slot < |s.lock| && HoldsLock(s.threads[t], slot) && !Vacating(s.threads[t], slot)
    ensures !Vacant(s, slot)
  {
    if Vacant(s, slot) {
      var u :| 0 <= u < |s.threads| && Vacating(s.threads[u], slot);
      assert HoldsLock(s.threads[u], slot);
    }
  }

  lemma ClaimedIsValid(c: Config, s: State, t: nat, a: Acq, slot: nat, victim: PageId)
    requires Here(c, s, t, Find(a, Claim(slot, victim))) && BusyInv(s) && LockInv(s) && UsedBacked(c, s) && !s.word[victim].busy
    ensures s.word[victim].valid && s.offset[victim] == slot
  {
    LockedNotVacant(s, t, slot);
    assert HoldsLock(s.threads[t], slot);
    assert InUse(s, slot);
    var p :| p in s.word && Names(c, s, slot, p) && Backs(s, slot, p);
    assert p == victim by { assert c.Unpack(c.gaddr[p]) == p && c.Unpack(c.gaddr[victim]) == victim; }
    assert forall u | 0 <= u < |s.threads| :: Loading(s.threads[u], p, slot) ==> OwnsBusy(s.threads[u], p);
  }

  lemma PinsArePositive(c: Config, s: State)
    requires Shape(c, s)
    ensures forall u | 0 <= u < |s.threads| :: !s.threads[u].Idle? ==> s.threads[u].a.count > 0
  {
    assert forall u | 0 <= u < |s.threads| :: ThreadShape(c, s.threads[u]);
  }

  lemma UnpinnedNotSettled(s: State, p: PageId)
    requires CountInv(s) && p in s.word && s.word[p].cnt == 0
    requires forall u | 0 <= u < |s.threads| :: !s.threads[u].Idle? ==> s.threads[u].a.count > 0
    ensures forall u | 0 <= u < |s.threads| :: !Settled(s.threads[u], p)
  {
    forall u | 0 <= u < |s.threads| ensures !Settled(s.threads[u], p) {
      SumAtLeast(s.threads, |s.threads|, u, p);
    }
  }

  /** The count, BUSY and lock invariants follow for any step, quiet or not. */
  ghost predicate Booked(s: State, s': State, t: nat, th: Thread, q: PageId, i: nat) {
    CountMove(s, s', t, th, q) && BusyMove(s, s', t, th, q) && LockMove(s, s', t, th, i)
  }

  lemma BookedKeeps(s: State, s': State, t: nat, th: Thread, q: PageId, i: nat)
    requires CountInv(s) && BusyInv(s) && LockInv(s) && Booked(s, s', t, th, q, i)
    ensures CountInv(s') && BusyInv(s') && LockInv(s')
  {
    CountFrame(s, s', t, th, q);
    BusyFrame(s, s', t, th, q);
    LockFrame(s, s', t, th, i);
  }

  lemma SlotsKeptKeeps(c: Config, s: State, s': State, t: nat, th: Thread, q: PageId)
    requires Shape(c, s) && Shape(c, s') && SlotInv(c, s) && Moves(s, s', t, th) && SlotsKept(s, s', q) && GripKept(s, t, th)
    ensures SlotInv(c, s')
  {
    hide Config.Invertible, Config.Disjoint;
    ValidNamedFrame(c, s, s', t, th, q);
    LoadingNamedFrame(c, s, s', t, th, q);
    UsedBackedFrame(c, s, s', t, th, q);
  }

  /** A step that changes hands on page q and slot x only, and x is nobody else's. */
  ghost predicate SlotMove(c: Config, s: State, s': State, t: nat, th: Thread, q: PageId, x: nat)
    requires Shape(c, s) && Shape(c, s')
  {
    && Moves(s, s', t, th)
    && (forall i | 0 <= i < |s.lock| && i != x :: s'.lock[i].Free? == s.lock[i].Free? && s'.trans[i] == s.trans[i])
    && (forall p | p in s.word && p != q :: s'.word[p].valid == s.word[p].valid && s'.offset[p] == s.offset[p])
    && (forall p | p in s.word && p != q && s.word[p].valid :: s.offset[p] != x)
    && q in s.word && (s.word[q].valid ==> s.offset[q] == x)
    && Only(GripOf(th).vacating, x) && Only(GripOf(s.threads[t]).vacating, x)
    && Only(GripOf(th).loading, (q, x)) && Only(GripOf(s.threads[t]).loading, (q, x))
    && (forall u, p, i: nat {:trigger Loading(s.threads[u], p, i)} | 0 <= u < |s.threads| && u != t && Loading(s.threads[u], p, i) :: i != x && p != q)
  }

  predicate Only<T(==)>(m: Option<T>, it: T) { m.None? || m.value == it }

  /** What such a step must establish about q and x themselves. */
  ghost predicate SlotDone(c: Config, s': State, th: Thread, q: PageId, x: nat)
    requires Shape(c, s') && q in s'.word
  {
    && (s'.word[q].valid ==> Names(c, s', s'.offset[q], q))
    && (GripOf(th).loading.Some? ==> !s'.word[q].valid && Names(c, s', x, q))
    && (InUse(s', x) ==> Names(c, s', x, q) && Backs(s', x, q))
  }

  lemma VacantExcept(s: State, s': State, t: nat, th: Thread, x: nat)
    requires Moves(s, s', t, th) && Only(GripOf(th).vacating, x) && Only(GripOf(s.threads[t]).vacating, x)
    ensures forall i: nat | i != x :: Vacant(s', i) == Vacant(s, i)
  {
    var ts, us := s.threads, s'.threads;
    GripSays(th);
    GripSays(ts[t]);
    forall i: nat | i != x ensures Vacant(s', i) == Vacant(s, i) {
      if Vacant(s, i) { var u :| 0 <= u < |ts| && Vacating(ts[u], i); assert Vacating(us[u], i); }
      if Vacant(s', i) { var u :| 0 <= u < |us| && Vacating(us[u], i); assert Vacating(ts[u], i); }
    }
  }

  lemma SlotMoveValid(c: Config, s: State, s': State, t: nat, th: Thread, q: PageId, x: nat)
    requires Shape(c, s) && Shape(c, s') && ValidNamed(c, s) && SlotMove(c, s, s', t, th, q, x) && SlotDone(c, s', th, q, x)
    ensures ValidNamed(c, s')
  {
    VacantExcept(s, s', t, th, x);
    forall p | p in s'.word && s'.word[p].valid ensures Names(c, s', s'.offset[p], p) {
      if p != q { assert Names(c, s, s.offset[p], p); }
    }
  }

  lemma SlotMoveLoading(c: Config, s: State, s': State, t: nat, th: Thread, q: PageId, x: nat)
    requires Shape(c, s) && Shape(c, s') && LoadingNamed(c, s) && SlotMove(c, s, s', t, th, q, x) && SlotDone(c, s', th, q, x)
    ensures LoadingNamed(c, s')
  {
    VacantExcept(s, s', t, th, x);
    GripSays(th);
    forall u, p, i: nat {:trigger Loading(s'.threads[u], p, i)} | 0 <= u < |s'.threads| && Loading(s'.threads[u], p, i) && p in s'.word
      ensures !s'.word[p].valid && Names(c, s', i, p)
    {
      if u != t { assert Loading(s.threads[u], p, i) && Names(c, s, i, p); }
    }
  }

  lemma SlotMoveUsed(c: Config, s: State, s': State, t: nat, th: Thread, q: PageId, x: nat)
    requires Shape(c, s) && Shape(c, s') && UsedBacked(c, s) && SlotMove(c, s, s', t, th, q, x) && SlotDone(c, s', th, q, x)
    ensures UsedBacked(c, s')
  {
    VacantExcept(s, s', t, th, x);
    GripSays(s.threads[t]);
    forall i: nat | InUse(s', i) ensures exists p :: p in s'.word && Names(c, s', i, p) && Backs(s', i, p) {
      if i != x {
        assert InUse(s, i);
        var p :| p in s.word && Names(c, s, i, p) && Backs(s, i, p);
        if !(s.word[p].valid && s.offset[p] == i) {
          var u :| 0 <= u < |s.threads| && Loading(s.threads[u], p, i);
          assert Loading(s'.threads[u], p, i);
        }
        assert Names(c, s', i, p) && Backs(s', i, p);
      }
    }
  }

  lemma SlotMoveKeeps(c: Config, s: State, s': State, t: nat, th: Thread, q: PageId, x: nat)
    requires Shape(c, s) && Shape(c, s') && SlotInv(c, s) && SlotMove(c, s, s', t, th, q, x) && SlotDone(c, s', th, q, x)
    ensures SlotInv(c, s')
  {
    SlotMoveValid(c, s, s', t, th, q, x);
    SlotMoveLoading(c, s, s', t, th, q, x);
    SlotMoveUsed(c, s, s', t, th, q, x);
  }

  lemma NamesUnique(c: Config, s: State, i: nat, p: PageId, q: PageId)
    requires c.Valid() && p in c.gaddr && q in c.gaddr && Names(c, s, i, p) && Names(c, s, i, q)
    ensures p == q
  {
    assert c.Unpack(c.gaddr[p]) == p && c.Unpack(c.gaddr[q]) == q;
  }

  lemma NotVacantAfter(s: State, s': State, t: nat, th: Thread, slot: nat)
    requires LockInv(s) && Moves(s, s', t, th) && slot < |s.lock| && HoldsLock(s.threads[t], slot) && !Vacating(th, slot)
    ensures !Vacant(s', slot)
  {
    assert forall u | 0 <= u < |s.threads| && u != t :: !HoldsLock(s.threads[u], slot);
    assert forall u | 0 <= u < |s'.threads| && u != t :: s'.threads[u] == s.threads[u];
  }

  // Taking a FREE slot.

  lemma CasFreeSlots(c: Config, s: State, t: nat, a: Acq, slot: nat, s': State)
    requires Here(c, s, t, Find(a, Cas(slot, Free))) && SlotInv(c, s) && BusyInv(s) && s.lock[slot].Free? && Shape(c, s')
    requires s' == StepCas(s, t, a, slot, Free)
    ensures SlotInv(c, s')
  {
    hide Config.Invertible, Config.Disjoint, ThreadDataInv;
    var th := s'.threads[t];
    assert Vacating(s'.threads[t], slot);
    assert OwnsBusy(s.threads[t], a.page);
    forall u, p, i: nat | 0 <= u < |s.threads| && u != t && Loading(s.threads[u], p, i) ensures i != slot && p != a.page {
      assert OwnsBusy(s.threads[u], p);
      assert Names(c, s, i, p);
    }
    SlotMoveKeeps(c, s, s', t, th, a.page, slot);
  }

  // Writing the translation of a slot the thread has vacated or taken FREE.

  lemma AssignSlots(c: Config, s: State, t: nat, a: Acq, slot: nat, s': State)
    requires Here(c, s, t, Find(a, Assign(slot))) && SlotInv(c, s) && BusyInv(s) && LockInv(s) && Shape(c, s')
    requires s' == StepAssign(c, s, t, a, slot)
    ensures SlotInv(c, s')
  {
    hide Config.Invertible, Config.Disjoint, ThreadDataInv;
    var th := s'.threads[t];
    assert Vacating(s.threads[t], slot) && HoldsLock(s.threads[t], slot);
    assert OwnsBusy(s.threads[t], a.page);
    forall u, p, i: nat | 0 <= u < |s.threads| && u != t && Loading(s.threads[u], p, i) ensures i != slot && p != a.page {
      assert OwnsBusy(s.threads[u], p);
      assert Names(c, s, i, p);
    }
    NotVacantAfter(s, s', t, th, slot);
    assert Loading(s'.threads[t], a.page, slot);
    SlotMoveKeeps(c, s, s', t, th, a.page, slot);
  }

  // Evicting the victim.

  /** A slot that a VALID page occupies is nobody else's. */
  lemma NamedOnly(c: Config, s: State, x: nat, q: PageId)
    requires c.Valid() && Shape(c, s) && SlotInv(c, s) && q in s.word && s.word[q].valid && s.offset[q] == x
    ensures forall p | p in s.word && p != q && s.word[p].valid :: s.offset[p] != x
    ensures forall u, p, i: nat {:trigger Loading(s.threads[u], p, i)} | 0 <= u < |s.threads| && p in s.word && Loading(s.threads[u], p, i) :: i != x && p != q
  {
    assert Names(c, s, x, q);
    forall p | p in s.word && p != q && s.word[p].valid ensures s.offset[p] != x {
      assert Names(c, s, s.offset[p], p);
      if s.offset[p] == x { NamesUnique(c, s, x, p, q); }
    }
    forall u, p, i: nat | 0 <= u < |s.threads| && p in s.word && Loading(s.threads[u], p, i) ensures i != x && p != q {
      if i == x { NamesUnique(c, s, x, p, q); }
    }
  }

  lemma ClearSlots(c: Config, s: State, t: nat, a: Acq, slot: nat, victim: PageId, s': State)
    requires Here(c, s, t, Find(a, Clear(slot, victim))) && SlotInv(c, s) && Shape(c, s')
    requires s' == StepClear(s, t, a, slot, victim)
    ensures SlotInv(c, s')
  {
    ClearIsSlotMove(c, s, t, a, slot, victim, s');
    ClearIsDone(c, s, t, a, slot, victim, s');
    hide Here, SlotInv, Shape, SlotMove, SlotDone;
    SlotMoveKeeps(c, s, s', t, Find(a, Assign(slot)), victim, slot);
  }

  lemma ClearIsSlotMove(c: Config, s: State, t: nat, a: Acq, slot: nat, victim: PageId, s': State)
    requires Here(c, s, t, Find(a, Clear(slot, victim))) && SlotInv(c, s) && Shape(c, s')
    requires s' == StepClear(s, t, a, slot, victim)
    ensures SlotMove(c, s, s', t, Find(a, Assign(slot)), victim, slot)
  {
    hide Config.Valid, ThreadDataInv, SlotInv;
    NamedOnly(c, s, slot, victim);
  }

  lemma ClearIsDone(c: Config, s: State, t: nat, a: Acq, slot: nat, victim: PageId, s': State)
    requires Here(c, s, t, Find(a, Clear(slot, victim))) && Shape(c, s')
    requires s' == StepClear(s, t, a, slot, victim)
    ensures SlotDone(c, s', Find(a, Assign(slot)), victim, slot)
  {
    hide Config.Invertible, Config.Disjoint, ThreadDataInv;
    assert Vacating(s'.threads[t], slot);
  }

  // Recording the slot of a page that is being loaded, and publishing the page.

  lemma LoadingIsMine(c: Config, s: State, t: nat, q: PageId, x: nat)
    requires c.Valid() && Shape(c, s) && SlotInv(c, s) && BusyInv(s) && t < |s.threads| && q in s.word && Loading(s.threads[t], q, x)
    ensures Names(c, s, x, q)
    ensures forall p | p in s.word && p != q && s.word[p].valid :: s.offset[p] != x
    ensures forall u, p, i: nat {:trigger Loading(s.threads[u], p, i)} | 0 <= u < |s.threads| && u != t && Loading(s.threads[u], p, i) :: i != x && p != q
  {
    forall p | p in s.word && p != q && s.word[p].valid ensures s.offset[p] != x {
      assert Names(c, s, s.offset[p], p);
      if s.offset[p] == x { NamesUnique(c, s, x, p, q); }
    }
    forall u, p, i: nat | 0 <= u < |s.threads| && u != t && Loading(s.threads[u], p, i) ensures i != x && p != q {
      assert OwnsBusy(s.threads[u], p) && OwnsBusy(s.threads[t], q);
      assert p in s.word && Names(c, s, i, p);
      if i == x { NamesUnique(c, s, x, p, q); }
    }
  }

  lemma SetOffsetSlots(c: Config, s: State, t: nat, a: Acq, slot: nat, s': State)
    requires Here(c, s, t, SetOffset(a, slot)) && SlotInv(c, s) && BusyInv(s) && Shape(c, s')
    requires s' == StepSetOffset(s, t, a, slot)
    ensures SlotInv(c, s')
  {
    SetOffsetIsSlotMove(c, s, t, a, slot, s');
    SetOffsetIsDone(c, s, t, a, slot, s');
    hide Here, SlotInv, Shape, SlotMove, SlotDone;
    SlotMoveKeeps(c, s, s', t, s'.threads[t], a.page, slot);
  }

  lemma SetOffsetIsSlotMove(c: Config, s: State, t: nat, a: Acq, slot: nat, s': State)
    requires Here(c, s, t, SetOffset(a, slot)) && SlotInv(c, s) && BusyInv(s) && Shape(c, s')
    requires s' == StepSetOffset(s, t, a, slot)
    ensures SlotMove(c, s, s', t, s'.threads[t], a.page, slot)
  {
    hide Config.Valid, ThreadDataInv, SlotInv, BusyInv, Names;
    LoadingIsMine(c, s, t, a.page, slot);
  }

  lemma SetOffsetIsDone(c: Config, s: State, t: nat, a: Acq, slot: nat, s': State)
    requires Here(c, s, t, SetOffset(a, slot)) && SlotInv(c, s) && BusyInv(s) && Shape(c, s')
    requires s' == StepSetOffset(s, t, a, slot)
    ensures SlotDone(c, s', s'.threads[t], a.page, slot)
  {
    hide Config.Valid, ThreadDataInv, SlotInv, BusyInv;
    LoadingIsMine(c, s, t, a.page, slot);
    SameVacant(s, s', t, s'.threads[t]);
    assert Loading(s'.threads[t], a.page, slot);
  }

  lemma PublishSlots(c: Config, s: State, t: nat, a: Acq, slot: nat, s': State)
    requires Here(c, s, t, Publish(a, slot)) && SlotInv(c, s) && BusyInv(s) && Shape(c, s')
    requires s' == StepPublish(s, t, a, slot)
    ensures SlotInv(c, s')
  {
    PublishMoves(c, s, t, a, slot, s');
    hide Here, SlotInv, Shape, SlotMove, SlotDone;
    SlotMoveKeeps(c, s, s', t, Hold(a, slot), a.page, slot);
  }

  lemma PublishMoves(c: Config, s: State, t: nat, a: Acq, slot: nat, s': State)
    requires Here(c, s, t, Publish(a, slot)) && SlotInv(c, s) && BusyInv(s) && Shape(c, s')
    requires s' == StepPublish(s, t, a, slot)
    ensures SlotMove(c, s, s', t, Hold(a, slot), a.page, slot) && SlotDone(c, s', Hold(a, slot), a.page, slot)
  {
    hide Config.Valid, ThreadDataInv, SlotInv, BusyInv;
    LoadingIsMine(c, s, t, a.page, slot);
    SameVacant(s, s', t, Hold(a, slot));
  }

  // ---------------------------------------------------------------- the other invariants, for the steps that are not quiet

  /** The thread invariant when every other thread keeps its facts. */
  lemma ThreadsMove(c: Config, s: State, s': State, t: nat, th: Thread)
    requires Shape(c, s) && Shape(c, s') && ThreadsInv(c, s) && Moves(s, s', t, th) && NoNewClash(s, t, th)
    requires ThreadShape(c, th) && ThreadInv(c, s', th)
    requires forall u | 0 <= u < |s.threads| && u != t :: ThreadInv(c, s', s.threads[u])
    ensures ThreadsInv(c, s')
  {
    SettledFrame(s, s', t, th);
  }

  lemma AssignThreads(c: Config, s: State, t: nat, a: Acq, slot: nat, s': State)
    requires Here(c, s, t, Find(a, Assign(slot))) && ThreadsInv(c, s) && LockInv(s) && Shape(c, s')
    requires s' == StepAssign(c, s, t, a, slot)
    ensures ThreadsInv(c, s')
  {
    hide Config.Invertible, Config.Disjoint, ThreadDataInv;
    assert HoldsLock(s.threads[t], slot);
    forall u | 0 <= u < |s.threads| && u != t ensures ThreadInv(c, s', s.threads[u]) {
      assert ThreadInv(c, s, s.threads[u]);
      assert !HoldsLock(s.threads[u], slot);
    }
    ThreadsMove(c, s, s', t, Find(a, Unlock(slot, true)));
  }

  lemma OtherThread(c: Config, s: State, s': State, th: Thread, q: PageId)
    requires Shape(c, s) && Shape(c, s') && ThreadShape(c, th) && ThreadInv(c, s, th)
    requires !OwnsBusy(th, q) && !Settled(th, q)
    requires WordAt(s, s', q) && s'.offset == s.offset && s'.trans == s.trans
    ensures ThreadInv(c, s', th)
  {
  }

  lemma ClearThreads(c: Config, s: State, t: nat, a: Acq, slot: nat, victim: PageId, s': State)
    requires Here(c, s, t, Find(a, Clear(slot, victim))) && ThreadsInv(c, s) && BusyInv(s) && Shape(c, s')
    requires s' == StepClear(s, t, a, slot, victim)
    ensures ThreadsInv(c, s')
  {
    hide Config.Invertible, Config.Disjoint, ThreadDataInv;
    assert OwnsBusy(s.threads[t], victim) && Evicting(s.threads[t], victim);
    forall u | 0 <= u < |s.threads| && u != t ensures ThreadInv(c, s', s.threads[u]) {
      assert !OwnsBusy(s.threads[u], victim) && !Settled(s.threads[u], victim);
      OtherThread(c, s, s', s.threads[u], victim);
    }
    ThreadsMove(c, s, s', t, Find(a, Assign(slot)));
  }

  lemma SetOffsetThreads(c: Config, s: State, t: nat, a: Acq, slot: nat, s': State)
    requires Here(c, s, t, SetOffset(a, slot)) && ThreadsInv(c, s) && BusyInv(s) && Shape(c, s')
    requires s' == StepSetOffset(s, t, a, slot)
    ensures ThreadsInv(c, s')
  {
    hide Config.Invertible, Config.Disjoint, ThreadDataInv;
    assert OwnsBusy(s.threads[t], a.page);
    forall u | 0 <= u < |s.threads| && u != t ensures ThreadInv(c, s', s.threads[u]) {
      assert ThreadInv(c, s, s.threads[u]);
      assert !OwnsBusy(s.threads[u], a.page);
    }
    ThreadsMove(c, s, s', t, s'.threads[t]);
  }

  lemma PublishThreads(c: Config, s: State, t: nat, a: Acq, slot: nat, s': State)
    requires Here(c, s, t, Publish(a, slot)) && ThreadsInv(c, s) && BusyInv(s) && Shape(c, s')
    requires s' == StepPublish(s, t, a, slot)
    ensures ThreadsInv(c, s')
  {
    hide Config.Invertible, Config.Disjoint, ThreadDataInv;
    assert OwnsBusy(s.threads[t], a.page);
    forall u | 0 <= u < |s.threads| && u != t ensures ThreadInv(c, s', s.threads[u]) {
      assert ThreadInv(c, s, s.threads[u]);
      assert !OwnsBusy(s.threads[u], a.page);
    }
    forall u | 0 <= u < |s.threads| ensures !Evicting(s.threads[u], a.page) {
      assert u != t ==> !OwnsBusy(s.threads[u], a.page);
    }
    ThreadsMove(c, s, s', t, Hold(a, slot));
  }

  lemma AssignData(c: Config, s: State, t: nat, a: Acq, slot: nat, s': State)
    requires Here(c, s, t, Find(a, Assign(slot))) && DataInv(c, s) && Shape(c, s')
    requires s' == StepAssign(c, s, t, a, slot)
    ensures DataInv(c, s')
  {
    hide Config.Invertible, Config.Disjoint;
    DataFrame(c, s, s', t, Find(a, Unlock(slot, true)));
  }

  lemma ClearData(c: Config, s: State, t: nat, a: Acq, slot: nat, victim: PageId, s': State)
    requires Here(c, s, t, Find(a, Clear(slot, victim))) && DataInv(c, s) && Shape(c, s')
    requires s' == StepClear(s, t, a, slot, victim)
    ensures DataInv(c, s') && forall p | p in s.word :: Content(c, s', p) == Content(c, s, p)
  {
    hide Config.Invertible, Config.Disjoint;
    assert OnDisk(c, s, victim);
    assert s.disk[c.locs[victim][0]] == Content(c, s, victim);
    DataFrame(c, s, s', t, Find(a, Assign(slot)));
  }

  lemma SetOffsetData(c: Config, s: State, t: nat, a: Acq, slot: nat, s': State)
    requires Here(c, s, t, SetOffset(a, slot)) && DataInv(c, s) && Shape(c, s')
    requires s' == StepSetOffset(s, t, a, slot)
    ensures DataInv(c, s') && forall p | p in s.word :: Content(c, s', p) == Content(c, s, p)
  {
    hide Config.Invertible, Config.Disjoint;
    DataFrame(c, s, s', t, s'.threads[t]);
  }

  lemma PublishData(c: Config, s: State, t: nat, a: Acq, slot: nat, s': State)
    requires Here(c, s, t, Publish(a, slot)) && DataInv(c, s) && Shape(c, s')
    requires s' == StepPublish(s, t, a, slot)
    ensures DataInv(c, s') && forall p | p in s.word :: Content(c, s', p) == Content(c, s, p)
  {
    hide Config.Invertible, Config.Disjoint;
    DataFrame(c, s, s', t, Hold(a, slot));
  }

  /** Content of a page whose slot and disk blocks a step leaves alone. */
  lemma WriteBackContent(c: Config, s: State, t: nat, a: Acq, slot: nat, victim: PageId, k: nat, s': State, p: PageId)
    requires Here(c, s, t, Find(a, WriteBack(slot, victim, k))) && Shape(c, s') && p in s.word
    requires s' == StepWriteBack(c, s, t, a, slot, victim, k)
    ensures Content(c, s', p) == Content(c, s, p)
    ensures OnDisk(c, s, p) ==> OnDisk(c, s', p)
    ensures s'.disk[c.locs[victim][k]] == Content(c, s, victim)
    ensures forall l | 0 <= l < |c.locs[p]| && (p, l) != (victim, k) :: s'.disk[c.locs[p][l]] == s.disk[c.locs[p][l]]
  {
    forall l | 0 <= l < |c.locs[p]| && (p, l) != (victim, k) ensures s'.disk[c.locs[p][l]] == s.disk[c.locs[p][l]] {
      assert c.locs[p][l] != c.locs[victim][k];
    }
  }

  lemma WriteBackThread(c: Config, s: State, t: nat, a: Acq, slot: nat, victim: PageId, k: nat, s': State, th: Thread)
    requires Here(c, s, t, Find(a, WriteBack(slot, victim, k))) && Shape(c, s') && ThreadShape(c, th) && ThreadDataInv(c, s, th)
    requires s' == StepWriteBack(c, s, t, a, slot, victim, k)
    ensures ThreadDataInv(c, s', th)
  {
    hide Config.Invertible, Config.Disjoint;
    if !th.Idle? { WriteBackContent(c, s, t, a, slot, victim, k, s', th.a.page); }
    if th.Find? && (th.f.WriteBack? || th.f.Clear?) { WriteBackContent(c, s, t, a, slot, victim, k, s', th.f.victim); }
  }

  lemma WriteBackOwn(c: Config, s: State, t: nat, a: Acq, slot: nat, victim: PageId, k: nat, s': State)
    requires Here(c, s, t, Find(a, WriteBack(slot, victim, k))) && Shape(c, s')
    requires s' == StepWriteBack(c, s, t, a, slot, victim, k)
    ensures ThreadDataInv(c, s', s'.threads[t])
  {
    hide Config.Invertible, Config.Disjoint;
    WriteBackContent(c, s, t, a, slot, victim, k, s', victim);
  }

  lemma WriteBackData(c: Config, s: State, t: nat, a: Acq, slot: nat, victim: PageId, k: nat, s': State)
    requires Here(c, s, t, Find(a, WriteBack(slot, victim, k))) && DataInv(c, s) && Shape(c, s')
    requires s' == StepWriteBack(c, s, t, a, slot, victim, k)
    ensures DataInv(c, s') && forall p | p in s.word :: Content(c, s', p) == Content(c, s, p)
  {
    hide Config.Invertible, Config.Disjoint, OnDisk;
    forall p | p in s.word
      ensures Content(c, s', p) == Content(c, s, p) && (OnDisk(c, s, p) ==> OnDisk(c, s', p))
    {
      WriteBackContent(c, s, t, a, slot, victim, k, s', p);
    }
    forall u | 0 <= u < |s'.threads| ensures ThreadDataInv(c, s', s'.threads[u]) {
      if u == t { WriteBackOwn(c, s, t, a, slot, victim, k, s'); }
      else {
        assert ThreadDataInv(c, s, s.threads[u]);
        WriteBackThread(c, s, t, a, slot, victim, k, s', s.threads[u]);
      }
    }
  }

  lemma FillData(c: Config, s: State, t: nat, a: Acq, slot: nat, k: nat, s': State)
    requires Here(c, s, t, Fill(a, slot)) && DataInv(c, s) && SlotInv(c, s) && BusyInv(s) && Shape(c, s')
    requires k < |c.locs[a.page]| && s' == StepFill(c, s, t, a, slot, k)
    ensures DataInv(c, s') && forall p | p in s.word :: Content(c, s', p) == Content(c, s, p)
  {
    hide Config.Invertible, Config.Disjoint;
    LoadingIsMine(c, s, t, a.page, slot);
    assert OnDisk(c, s, a.page);
    assert s.disk[c.locs[a.page][k]] == Content(c, s, a.page);
    forall p | p in s.word && !(s.word[p].valid && s.word[p].dirty) ensures OnDisk(c, s', p) {
      assert OnDisk(c, s, p);
    }
    forall u | 0 <= u < |s'.threads| ensures ThreadDataInv(c, s', s'.threads[u]) {
      if u != t {
        var th := s.threads[u];
        assert ThreadDataInv(c, s, th) && s'.threads[u] == th;
        if th.SetOffset? || th.DirtyNew? || th.Publish? { assert Loading(th, th.a.page, th.slot); }
        if th.Find? && th.f.Clear? { assert OnDisk(c, s, th.f.victim); }
      }
    }
  }

  lemma StoreData(c: Config, s: State, t: nat, a: Acq, slot: nat, i: nat, v: Elem, s': State)
    requires Here(c, s, t, Hold(a, slot)) && a.write && DataInv(c, s) && SlotInv(c, s) && ThreadsInv(c, s) && Shape(c, s')
    requires i < c.elems && s' == StepStore(s, t, slot, i, v)
    ensures DataInv(c, s')
    ensures forall p | p in s.word && p != a.page :: Content(c, s', p) == Content(c, s, p)
    ensures Content(c, s, a.page) == s.data[slot] && Content(c, s', a.page) == s.data[slot][i := v]
  {
    hide Config.Invertible, Config.Disjoint;
    assert Names(c, s, slot, a.page);
    forall p | p in s.word && s.word[p].valid && p != a.page ensures s.offset[p] != slot {
      assert Names(c, s, s.offset[p], p);
      if s.offset[p] == slot { NamesUnique(c, s, slot, p, a.page); }
    }
    forall p | p in s.word && !(s.word[p].valid && s.word[p].dirty) ensures OnDisk(c, s', p) {
      assert OnDisk(c, s, p);
    }
    assert Settled(s.threads[t], a.page);
    forall u | 0 <= u < |s'.threads| ensures ThreadDataInv(c, s', s'.threads[u]) {
      var th := s.threads[u];
      assert ThreadDataInv(c, s, th) && s'.threads[u] == th;
      if th.SetOffset? || th.DirtyNew? || th.Publish? {
        assert Loading(th, th.a.page, th.slot) && Names(c, s, th.slot, th.a.page);
        if th.slot == slot { NamesUnique(c, s, slot, th.a.page, a.page); }
      }
      assert !Evicting(th, a.page);
      if th.Find? && th.f.Clear? { assert OnDisk(c, s, th.f.victim); }
    }
  }

  // ---------------------------------------------------------------- every step

  lemma Close(c: Config, s: State)
    requires c.Valid() && Shape(c, s) && CountInv(s) && BusyInv(s) && LockInv(s) && SlotInv(c, s) && ThreadsInv(c, s) && DataInv(c, s)
    ensures Inv(c, s)
  {
  }

  lemma AssignKeeps(c: Config, s: State, t: nat, a: Acq, slot: nat)
    requires Inv(c, s) && t < |s.threads| && s.threads[t] == Find(a, Assign(slot))
    ensures Inv(c, StepAssign(c, s, t, a, slot))
  {
    hide Inv, Shape, Config.Valid, CountInv, BusyInv, LockInv, SlotInv, ThreadsInv, DataInv;
    Open(c, s, t);
    var s' := StepAssign(c, s, t, a, slot);
    ShapeFrame(c, s, s', t, Find(a, Unlock(slot, true)));
    BookedKeeps(s, s', t, Find(a, Unlock(slot, true)), a.page, 0);
    AssignSlots(c, s, t, a, slot, s');
    AssignThreads(c, s, t, a, slot, s');
    AssignData(c, s, t, a, slot, s');
    Close(c, s');
  }

  lemma ClearBooked(s: State, t: nat, a: Acq, slot: nat, victim: PageId, s': State)
    requires t < |s.threads| && s.threads[t] == Find(a, Clear(slot, victim)) && victim in s.word && |s.lock| > 0
    requires s.word[victim].busy && a.page != victim && Fits(s.word[victim]) && s' == StepClear(s, t, a, slot, victim)
    ensures Booked(s, s', t, Find(a, Assign(slot)), victim, 0)
  {
  }

  lemma ClearKeeps(c: Config, s: State, t: nat, a: Acq, slot: nat, victim: PageId)
    requires Inv(c, s) && t < |s.threads| && s.threads[t] == Find(a, Clear(slot, victim))
    ensures Inv(c, StepClear(s, t, a, slot, victim))
  {
    hide Inv, Shape, Config.Valid, CountInv, BusyInv, LockInv, SlotInv, ThreadsInv, DataInv, Booked;
    Open(c, s, t);
    var s' := StepClear(s, t, a, slot, victim);
    ShapeFrame(c, s, s', t, Find(a, Assign(slot)));
    assert OwnsBusy(s.threads[t], victim);
    OwnedIsBusy(s, t, victim);
    CountFits(s, victim);
    ClearBooked(s, t, a, slot, victim, s');
    BookedKeeps(s, s', t, Find(a, Assign(slot)), victim, 0);
    ClearSlots(c, s, t, a, slot, victim, s');
    ClearThreads(c, s, t, a, slot, victim, s');
    ClearData(c, s, t, a, slot, victim, s');
    Close(c, s');
  }

  lemma PublishKeeps(c: Config, s: State, t: nat, a: Acq, slot: nat)
    requires Inv(c, s) && t < |s.threads| && s.threads[t] == Publish(a, slot)
    ensures Inv(c, StepPublish(s, t, a, slot))
  {
    hide Inv, Shape, Config.Valid, CountInv, BusyInv, LockInv, SlotInv, ThreadsInv, DataInv;
    Open(c, s, t);
    var s' := StepPublish(s, t, a, slot);
    ShapeFrame(c, s, s', t, Hold(a, slot));
    BookedKeeps(s, s', t, Hold(a, slot), a.page, 0);
    PublishSlots(c, s, t, a, slot, s');
    PublishThreads(c, s, t, a, slot, s');
    PublishData(c, s, t, a, slot, s');
    Close(c, s');
  }

  lemma SetOffsetKeeps(c: Config, s: State, t: nat, a: Acq, slot: nat)
    requires Inv(c, s) && t < |s.threads| && s.threads[t] == SetOffset(a, slot)
    ensures Inv(c, StepSetOffset(s, t, a, slot))
  {
    hide Inv, Shape, Config.Valid, CountInv, BusyInv, LockInv, SlotInv, ThreadsInv, DataInv;
    Open(c, s, t);
    var s' := StepSetOffset(s, t, a, slot);
    ShapeFrame(c, s, s', t, s'.threads[t]);
    BookedKeeps(s, s', t, s'.threads[t], a.page, 0);
    SetOffsetSlots(c, s, t, a, slot, s');
    SetOffsetThreads(c, s, t, a, slot, s');
    SetOffsetData(c, s, t, a, slot, s');
    Close(c, s');
  }

  lemma UnlockKeeps(c: Config, s: State, t: nat, a: Acq, slot: nat, won: bool)
    requires Inv(c, s) && t < |s.threads| && s.threads[t] == Find(a, Unlock(slot, won))
    ensures Inv(c, StepUnlock(s, t, a, slot, won))
  {
    hide Inv, Shape, Config.Valid, CountInv, BusyInv, SlotInv, ThreadsInv, DataInv;
    Open(c, s, t);
    assert HoldsLock(s.threads[t], slot);
    var s' := StepUnlock(s, t, a, slot, won);
    if won { LockStep(c, s, s', t, Fill(a, slot), slot); } else { LockStep(c, s, s', t, Find(a, Ticket), slot); }
  }

  /** A step on a slot lock that does not take or make it FREE. */
  lemma LockStep(c: Config, s: State, s': State, t: nat, th: Thread, i: nat)
    requires Inv(c, s) && t < |s.threads| && i < |s.lock| && s' == s.(lock := s'.lock, threads := s.threads[t := th])
    requires LockMove(s, s', t, th, i) && s'.lock[i].Free? == s.lock[i].Free?
    requires !th.Idle? && !s.threads[t].Idle? && th.a == s.threads[t].a && GripKept(s, t, th)
    requires GripOf(th).own == GripOf(s.threads[t]).own && GripOf(th).victim == GripOf(s.threads[t]).victim
    requires ThreadShape(c, th) && ThreadInv(c, s, th) && ThreadDataInv(c, s, th) && NoNewClash(s, t, th)
    ensures Inv(c, s')
  {
    hide Inv, Shape, Config.Valid, CountInv, BusyInv, LockInv, SlotInv, ThreadsInv, DataInv;
    Open(c, s, t);
    ShapeFrame(c, s, s', t, th);
    assert s.word == s.word[th.a.page := s.word[th.a.page]];
    ThreadDataFrame(c, s, s', th);
    QuietStep(c, s, s', t, th, th.a.page, i);
  }

  lemma CasKeeps(c: Config, s: State, t: nat, a: Acq, slot: nat, seen: Lock)
    requires Inv(c, s) && t < |s.threads| && s.threads[t] == Find(a, Cas(slot, seen))
    ensures Inv(c, StepCas(s, t, a, slot, seen))
  {
    hide Inv, Shape, Config.Valid, CountInv, BusyInv, LockInv, SlotInv, ThreadsInv, DataInv;
    Open(c, s, t);
    var s' := StepCas(s, t, a, slot, seen);
    if s.lock[slot] != seen { LocalStep(c, s, s', t, Find(a, Ticket)); }
    else if seen.Free? { CasFreeKeeps(c, s, t, a, slot); }
    else { CasTakesKeeps(c, s, t, a, slot, seen); }
  }

  lemma CasTakesKeeps(c: Config, s: State, t: nat, a: Acq, slot: nat, seen: Lock)
    requires Inv(c, s) && t < |s.threads| && s.threads[t] == Find(a, Cas(slot, seen)) && s.lock[slot] == seen != Free
    ensures Inv(c, StepCas(s, t, a, slot, seen))
  {
    hide Inv, Shape, Config.Valid, CountInv, BusyInv, LockInv, SlotInv, ThreadsInv, DataInv;
    Open(c, s, t);
    LockStep(c, s, StepCas(s, t, a, slot, seen), t, Find(a, ReadTrans(slot)), slot);
  }

  lemma CasFreeKeeps(c: Config, s: State, t: nat, a: Acq, slot: nat)
    requires Inv(c, s) && t < |s.threads| && s.threads[t] == Find(a, Cas(slot, Free)) && s.lock[slot].Free?
    ensures Inv(c, StepCas(s, t, a, slot, Free))
  {
    hide Inv, Shape, Config.Valid, CountInv, BusyInv, LockInv, SlotInv, ThreadsInv, DataInv;
    Open(c, s, t);
    var s' := StepCas(s, t, a, slot, Free);
    assert s.word == s.word[a.page := s.word[a.page]];
    ShapeFrame(c, s, s', t, Find(a, Assign(slot)));
    BookedKeeps(s, s', t, Find(a, Assign(slot)), a.page, slot);
    CasFreeSlots(c, s, t, a, slot, s');
    ThreadsFrame(c, s, s', t, Find(a, Assign(slot)), a.page);
    QuietData(c, s, s', t, Find(a, Assign(slot)), a.page);
    Close(c, s');
  }

  /** A step that writes a slot's data or a disk block. */
  lemma DataStep(c: Config, s: State, s': State, t: nat, th: Thread)
    requires Inv(c, s) && t < |s.threads| && Shape(c, s')
    requires s' == s.(data := s'.data, disk := s'.disk, threads := s.threads[t := th])
    requires !th.Idle? && !s.threads[t].Idle? && th.a == s.threads[t].a && GripOf(th) == GripOf(s.threads[t])
    requires ThreadShape(c, th) && ThreadInv(c, s', th) && NoNewClash(s, t, th)
    requires DataInv(c, s')
    ensures Inv(c, s')
  {
    hide Config.Invertible, Config.Disjoint, DataInv;
    assert s.word == s.word[th.a.page := s.word[th.a.page]];
    BookedKeeps(s, s', t, th, th.a.page, 0);
    SlotsKeptKeeps(c, s, s', t, th, th.a.page);
    ThreadsFrame(c, s, s', t, th, th.a.page);
    Close(c, s');
  }

  lemma WriteBackKeeps(c: Config, s: State, t: nat, a: Acq, slot: nat, victim: PageId, k: nat)
    requires Inv(c, s) && t < |s.threads| && s.threads[t] == Find(a, WriteBack(slot, victim, k))
    ensures Inv(c, StepWriteBack(c, s, t, a, slot, victim, k))
  {
    hide Inv, Shape, Config.Valid, CountInv, BusyInv, LockInv, SlotInv, ThreadsInv, DataInv;
    Open(c, s, t);
    var s' := StepWriteBack(c, s, t, a, slot, victim, k);
    DataSizes(c, s, slot, victim, k);
    DataShape(c, s, s', t, s'.threads[t], slot, c.locs[victim][k]);
    WriteBackData(c, s, t, a, slot, victim, k, s');
    if k + 1 < |c.locs[victim]| { DataStep(c, s, s', t, Find(a, WriteBack(slot, victim, k + 1))); }
    else { DataStep(c, s, s', t, Find(a, Clear(slot, victim))); }
  }

  lemma FillKeeps(c: Config, s: State, t: nat, a: Acq, slot: nat, k: nat)
    requires Inv(c, s) && t < |s.threads| && s.threads[t] == Fill(a, slot) && k < |c.locs[a.page]|
    ensures Inv(c, StepFill(c, s, t, a, slot, k))
  {
    hide Inv, Shape, Config.Valid, CountInv, BusyInv, LockInv, SlotInv, ThreadsInv, DataInv;
    Open(c, s, t);
    DataSizes(c, s, slot, a.page, k);
    var s' := StepFill(c, s, t, a, slot, k);
    DataShape(c, s, s', t, SetOffset(a, slot), slot, c.locs[a.page][k]);
    FillData(c, s, t, a, slot, k, s');
    DataStep(c, s, s', t, SetOffset(a, slot));
  }

  lemma StoreKeeps(c: Config, s: State, t: nat, a: Acq, slot: nat, i: nat, v: Elem)
    requires Inv(c, s) && t < |s.threads| && s.threads[t] == Hold(a, slot) && a.write && i < c.elems
    ensures Inv(c, StepStore(s, t, slot, i, v))
  {
    hide Inv, Shape, Config.Valid, CountInv, BusyInv, LockInv, SlotInv, ThreadsInv, DataInv;
    Open(c, s, t);
    DataSizes(c, s, slot, a.page, 0);
    var s' := StepStore(s, t, slot, i, v);
    assert s.threads == s.threads[t := Hold(a, slot)];
    DataShape(c, s, s', t, Hold(a, slot), slot, c.locs[a.page][0]);
    StoreData(c, s, t, a, slot, i, v, s');
    DataStep(c, s, s', t, Hold(a, slot));
  }

  lemma FindKeeps(c: Config, s: State, t: nat, a: Acq, f: Finder)
    requires Inv(c, s) && t < |s.threads| && s.threads[t] == Find(a, f)
    ensures Inv(c, FindNext(c, s, t, a, f))
  {
    hide Inv;
    match f
    case Ticket => TicketKeeps(c, s, t, a);
    case LoadLock(slot) => LoadLockKeeps(c, s, t, a, slot);
    case Cas(slot, seen) => CasKeeps(c, s, t, a, slot, seen);
    case Assign(slot) => AssignKeeps(c, s, t, a, slot);
    case ReadTrans(slot) => ReadTransKeeps(c, s, t, a, slot);
    case Probe(slot, victim) => ProbeKeeps(c, s, t, a, slot, victim);
    case Claim(slot, victim) => ClaimKeeps(c, s, t, a, slot, victim);
    case Undo(slot, victim) => UndoKeeps(c, s, t, a, slot, victim);
    case WriteBack(slot, victim, k) => WriteBackKeeps(c, s, t, a, slot, victim, k);
    case Clear(slot, victim) => ClearKeeps(c, s, t, a, slot, victim);
    case Unlock(slot, won) => UnlockKeeps(c, s, t, a, slot, won);
  }

  /** Every step of every thread keeps the invariant. */
  lemma StepKeepsInv(c: Config, s: State, t: nat, act: Action)
    requires Inv(c, s) && Enabled(c, s, t, act)
    ensures Inv(c, Next(c, s, t, act))
  {
    hide Inv;
    Open(c, s, t);
    match act
    case Acquire(a) => AcquireKeeps(c, s, t, a);
    case Load(i) =>
    case Store(i, v) => StoreKeeps(c, s, t, s.threads[t].a, s.threads[t].slot, i, v);
    case Release => ReleaseKeeps(c, s, t, s.threads[t].a, s.threads[t].slot);
    case Advance(choice) =>
      match s.threads[t]
      case TryBusy(a) => TryBusyKeeps(c, s, t, a);
      case Reload(a) => ReloadKeeps(c, s, t, a);
      case Restore(a) => RestoreKeeps(c, s, t, a);
      case MarkDirty(a) => MarkDirtyKeeps(c, s, t, a);
      case ReadOffset(a) => ReadOffsetKeeps(c, s, t, a);
      case Find(a, f) => FindKeeps(c, s, t, a, f);
      case Fill(a, slot) => FillKeeps(c, s, t, a, slot, choice);
      case SetOffset(a, slot) => SetOffsetKeeps(c, s, t, a, slot);
      case DirtyNew(a, slot) => DirtyNewKeeps(c, s, t, a, slot);
      case Publish(a, slot) => PublishKeeps(c, s, t, a, slot);
  }
}
