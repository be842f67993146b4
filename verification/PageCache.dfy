/** The page cache protocol of BaM as a transition system.

  Threads (each standing for the master lane of one coalesced warp group) pin, load,
  evict, write back and access pages.  Every atomic read-modify-write, and every access
  to shared memory, is one step; any thread may take the next step.  `Next` gives the
  state after a step, `Inv` the invariant, and `Content` the flat array that the cache
  presents to its users.
 */
module PageCache {
  import opened StateWord

  /** A page is named by its range and by its index within the range. */
  datatype PageId = PageId(range: nat, page: nat)

  /** A page-sized run of blocks on one controller. */
  datatype Loc = Loc(ctrl: nat, block: nat)

  type Elem = int
  type Data = seq<Elem>

  /** What stays fixed during a run: the number of cache slots, the elements on a page,
      how many bits of a global address hold the range (`n_ranges_bits`, `n_ranges_mask`),
      and for each page its global address and the blocks that back it. */
  datatype Config = Config(
    slots: nat,
    elems: nat,
    rangeStride: nat,
    rangeLimit: nat,
    gaddr: map<PageId, nat>,
    locs: map<PageId, seq<Loc>>)
  {
    /** `previous_range` and `previous_address` of a translation. */
    function Unpack(g: nat): PageId
      requires rangeStride > 0 && rangeLimit > 0
    {
      PageId(g % rangeLimit, g / rangeStride)
    }

    ghost predicate Valid() {
      && slots > 0
      && rangeStride > 0 && rangeLimit > 0
      && gaddr.Keys == locs.Keys
      && (forall p | p in locs :: |locs[p]| > 0)
      && Invertible()
      && Disjoint()
    }

    /** A global address can be taken apart again. */
    ghost predicate Invertible()
      requires rangeStride > 0 && rangeLimit > 0
    {
      forall p | p in gaddr :: Unpack(gaddr[p]) == p
    }

    /** No two pages share a block, and no page has a replica twice. */
    ghost predicate Disjoint() {
      forall p, k, q, l | p in locs && q in locs && 0 <= k < |locs[p]| && 0 <= l < |locs[q]| && locs[p][k] == locs[q][l] ::
        p == q && k == l
    }
  }

  datatype Lock = Free | Unlocked | Locked

  /** The arguments of a call to `acquire_page`. */
  datatype Acq = Acq(page: PageId, count: nat, write: bool)

  /** Where a thread stands inside `find_slot`. */
  datatype Finder =
    | Ticket
    | LoadLock(slot: nat)
    | Cas(slot: nat, seen: Lock)
    | Assign(slot: nat)
    | ReadTrans(slot: nat)
    | Probe(slot: nat, victim: PageId)
    | Claim(slot: nat, victim: PageId)
    | Undo(slot: nat, victim: PageId)
    | WriteBack(slot: nat, victim: PageId, k: nat)
    | Clear(slot: nat, victim: PageId)
    | Unlock(slot: nat, won: bool)

  /** Where a thread stands inside `acquire_page`; `Hold` is the time between the return
      of `acquire_page` and the call of `release_page`. */
  datatype Thread =
    | Idle
    | TryBusy(a: Acq)
    | Reload(a: Acq)
    | Restore(a: Acq)
    | MarkDirty(a: Acq)
    | ReadOffset(a: Acq)
    | Find(a: Acq, f: Finder)
    | Fill(a: Acq, slot: nat)
    | SetOffset(a: Acq, slot: nat)
    | DirtyNew(a: Acq, slot: nat)
    | Publish(a: Acq, slot: nat)
    | Hold(a: Acq, slot: nat)

  datatype State = State(
    word: map<PageId, Word>,
    offset: map<PageId, nat>,
    lock: seq<Lock>,
    trans: seq<nat>,
    data: seq<Data>,
    disk: map<Loc, Data>,
    ticket: nat,
    threads: seq<Thread>)

  /** The choices a step leaves open: which request a thread starts, which replica a
      controller counter selects, and which elements a thread touches while it holds
      a page. */
  datatype Action =
    | Acquire(a: Acq)
    | Advance(choice: nat)
    | Load(i: nat)
    | Store(i: nat, v: Elem)
    | Release

  /** What the users of the array see of a step. */
  datatype Event =
    | Silent
    | DidRead(p: PageId, i: nat, v: Elem)
    | DidWrite(p: PageId, i: nat, v: Elem)

  // ---------------------------------------------------------------- transitions

  predicate Shape(c: Config, s: State) {
    && s.word.Keys == c.gaddr.Keys
    && s.offset.Keys == c.gaddr.Keys
    && |s.lock| == |s.trans| == |s.data| == c.slots
    && (forall p, k | p in c.locs && 0 <= k < |c.locs[p]| :: c.locs[p][k] in s.disk && |s.disk[c.locs[p][k]]| == c.elems)
    && (forall i | 0 <= i < c.slots :: |s.data[i]| == c.elems)
    && (forall t | 0 <= t < |s.threads| :: ThreadShape(c, s.threads[t]))
  }

  predicate ThreadShape(c: Config, th: Thread) {
    th.Idle? ||
    (&& th.a.page in c.gaddr && th.a.page in c.locs && th.a.count > 0
     && (th.Fill? || th.SetOffset? || th.DirtyNew? || th.Publish? || th.Hold? ==> th.slot < c.slots)
     && (th.Find? ==> FinderShape(c, th.f)))
  }

  predicate FinderShape(c: Config, f: Finder) {
    && (!f.Ticket? ==> f.slot < c.slots)
    && (f.Probe? || f.Claim? || f.Undo? || f.WriteBack? || f.Clear? ==> f.victim in c.gaddr && f.victim in c.locs)
    && (f.WriteBack? ==> f.k < |c.locs[f.victim]|)
    && (f.Cas? ==> !f.seen.Locked?)
  }

  /** The initial state: nothing cached, every lock FREE, replicas equal. */
  ghost predicate Init(c: Config, s: State) {
    && Shape(c, s)
    && (forall p | p in s.word :: s.word[p] == Word(false, false, false, 0))
    && (forall i | 0 <= i < |s.lock| :: s.lock[i] == Free)
    && (forall t | 0 <= t < |s.threads| :: s.threads[t].Idle?)
    && (forall p, k | p in c.locs && 0 <= k < |c.locs[p]| :: s.disk[c.locs[p][k]] == s.disk[c.locs[p][0]])
  }

  /** How `acquire_page` branches on a state word it has just read. */
  function Dispatch(a: Acq, w: Word): Thread {
    if !w.valid && !w.busy then TryBusy(a)
    else if w.valid && !w.busy then
      if a.write && !w.dirty then MarkDirty(a) else ReadOffset(a)
    else Reload(a)
  }

  ghost predicate Enabled(c: Config, s: State, t: nat, act: Action)
    requires Shape(c, s)
  {
    && t < |s.threads|
    && var th := s.threads[t];
    match act
    case Acquire(a) => th.Idle? && a.page in c.gaddr && a.count > 0 && s.word[a.page].cnt + a.count < COUNT_LIMIT
    case Advance(choice) => !th.Idle? && !th.Hold? && (th.Fill? ==> choice < |c.locs[th.a.page]|)
    case Load(i) => th.Hold? && i < c.elems
    case Store(i, v) => th.Hold? && i < c.elems && th.a.write
    case Release => th.Hold?
  }

  /** `state.fetch_add(count)` and the branch on the word it returned. */
  function StepAcquire(s: State, t: nat, a: Acq): State
    requires t < |s.threads| && a.page in s.word
  {
    var w := s.word[a.page];
    s.(word := s.word[a.page := FetchAdd(w, a.count)], threads := s.threads[t := Dispatch(a, w)])
  }

  /** `state.load()` at the end of the retry loop. */
  function StepReload(s: State, t: nat, a: Acq): State
    requires t < |s.threads| && a.page in s.word
  {
    s.(threads := s.threads[t := Dispatch(a, s.word[a.page])])
  }

  /** `state.fetch_or(BUSY)` on a page last seen neither valid nor busy. */
  function StepTryBusy(s: State, t: nat, a: Acq): State
    requires t < |s.threads| && a.page in s.word
  {
    var w := s.word[a.page];
    var next := if w.busy then Reload(a) else if w.valid then Restore(a) else Find(a, Ticket);
    s.(word := s.word[a.page := FetchOrBusy(w)], threads := s.threads[t := next])
  }

  /** `state.fetch_and(DISABLE_BUSY_MASK)` after losing the race to load. */
  function StepRestore(s: State, t: nat, a: Acq): State
    requires t < |s.threads| && a.page in s.word
  {
    s.(word := s.word[a.page := FetchAndNotBusy(s.word[a.page])], threads := s.threads[t := Reload(a)])
  }

  function StepMarkDirty(s: State, t: nat, a: Acq): State
    requires t < |s.threads| && a.page in s.word
  {
    s.(word := s.word[a.page := FetchOrDirty(s.word[a.page])], threads := s.threads[t := ReadOffset(a)])
  }

  function StepReadOffset(s: State, t: nat, a: Acq): State
    requires t < |s.threads| && a.page in s.offset
  {
    s.(threads := s.threads[t := Hold(a, s.offset[a.page])])
  }

  /** `page_ticket->fetch_add(1) % n_pages`, on a 32-bit ticket. */
  function StepTicket(s: State, t: nat, a: Acq): State
    requires t < |s.threads| && |s.lock| > 0
  {
    s.(ticket := (s.ticket + 1) % 0x1_0000_0000,
       threads := s.threads[t := Find(a, LoadLock(s.ticket % |s.lock|))])
  }

  function StepLoadLock(s: State, t: nat, a: Acq, slot: nat): State
    requires t < |s.threads| && slot < |s.lock|
  {
    s.(threads := s.threads[t := Find(a, if s.lock[slot].Locked? then Ticket else Cas(slot, s.lock[slot]))])
  }

  /** `compare_exchange(v, LOCKED)`, with `v` either FREE or UNLOCKED. */
  function StepCas(s: State, t: nat, a: Acq, slot: nat, seen: Lock): State
    requires t < |s.threads| && slot < |s.lock|
  {
    if s.lock[slot] != seen then s.(threads := s.threads[t := Find(a, Ticket)])
    else s.(lock := s.lock[slot := Locked],
            threads := s.threads[t := Find(a, if seen.Free? then Assign(slot) else ReadTrans(slot))])
  }

  /** `page_translation = global_address` under the slot lock. */
  function StepAssign(c: Config, s: State, t: nat, a: Acq, slot: nat): State
    requires t < |s.threads| && slot < |s.trans| && a.page in c.gaddr
  {
    s.(trans := s.trans[slot := c.gaddr[a.page]], threads := s.threads[t := Find(a, Unlock(slot, true))])
  }

  function StepReadTrans(c: Config, s: State, t: nat, a: Acq, slot: nat): State
    requires t < |s.threads| && slot < |s.trans| && c.rangeStride > 0 && c.rangeLimit > 0
  {
    s.(threads := s.threads[t := Find(a, Probe(slot, c.Unpack(s.trans[slot])))])
  }

  /** The relaxed load of the victim's state word. */
  function StepProbe(s: State, t: nat, a: Acq, slot: nat, victim: PageId): State
    requires t < |s.threads| && victim in s.word
  {
    var w := s.word[victim];
    s.(threads := s.threads[t := Find(a, if w.cnt == 0 && !w.busy then Claim(slot, victim) else Unlock(slot, false))])
  }

  /** `fetch_or(BUSY)` on the victim; only an idle, unpinned victim is evicted. */
  function StepClaim(s: State, t: nat, a: Acq, slot: nat, victim: PageId): State
    requires t < |s.threads| && victim in s.word
  {
    var w := s.word[victim];
    var next :=
      if w.busy then Unlock(slot, false)
      else if w.cnt != 0 then Undo(slot, victim)
      else if w.dirty then WriteBack(slot, victim, 0)
      else Clear(slot, victim);
    s.(word := s.word[victim := FetchOrBusy(w)], threads := s.threads[t := Find(a, next)])
  }

  function StepUndo(s: State, t: nat, a: Acq, slot: nat, victim: PageId): State
    requires t < |s.threads| && victim in s.word
  {
    s.(word := s.word[victim := FetchAndNotBusy(s.word[victim])], threads := s.threads[t := Find(a, Unlock(slot, false))])
  }

  /** One `write_data`: the slot goes to the k-th place that backs the victim. */
  function StepWriteBack(c: Config, s: State, t: nat, a: Acq, slot: nat, victim: PageId, k: nat): State
    requires t < |s.threads| && slot < |s.data| && victim in c.locs && k < |c.locs[victim]|
  {
    s.(disk := s.disk[c.locs[victim][k] := s.data[slot]],
       threads := s.threads[t := Find(a, if k + 1 < |c.locs[victim]| then WriteBack(slot, victim, k + 1) else Clear(slot, victim))])
  }

  /** `fetch_and(CNT_MASK)`: VALID, BUSY and DIRTY go, pins stay. */
  function StepClear(s: State, t: nat, a: Acq, slot: nat, victim: PageId): State
    requires t < |s.threads| && victim in s.word
  {
    s.(word := s.word[victim := FetchAndCount(s.word[victim])], threads := s.threads[t := Find(a, Assign(slot))])
  }

  function StepUnlock(s: State, t: nat, a: Acq, slot: nat, won: bool): State
    requires t < |s.threads| && slot < |s.lock|
  {
    s.(lock := s.lock[slot := Unlocked], threads := s.threads[t := if won then Fill(a, slot) else Find(a, Ticket)])
  }

  /** One completed `read_data`, from the replica the controller counter selected. */
  function StepFill(c: Config, s: State, t: nat, a: Acq, slot: nat, k: nat): State
    requires t < |s.threads| && slot < |s.data| && a.page in c.locs && k < |c.locs[a.page]|
    requires c.locs[a.page][k] in s.disk
  {
    s.(data := s.data[slot := s.disk[c.locs[a.page][k]]], threads := s.threads[t := SetOffset(a, slot)])
  }

  function StepSetOffset(s: State, t: nat, a: Acq, slot: nat): State
    requires t < |s.threads|
  {
    s.(offset := s.offset[a.page := slot], threads := s.threads[t := if a.write then DirtyNew(a, slot) else Publish(a, slot)])
  }

  function StepDirtyNew(s: State, t: nat, a: Acq, slot: nat): State
    requires t < |s.threads| && a.page in s.word
  {
    s.(word := s.word[a.page := FetchOrDirty(s.word[a.page])], threads := s.threads[t := Publish(a, slot)])
  }

  /** `fetch_xor(DISABLE_BUSY_ENABLE_VALID)`. */
  function StepPublish(s: State, t: nat, a: Acq, slot: nat): State
    requires t < |s.threads| && a.page in s.word
  {
    s.(word := s.word[a.page := FetchXorBusyValid(s.word[a.page])], threads := s.threads[t := Hold(a, slot)])
  }

  function StepStore(s: State, t: nat, slot: nat, i: nat, v: Elem): State
    requires slot < |s.data| && i < |s.data[slot]|
  {
    s.(data := s.data[slot := s.data[slot][i := v]])
  }

  function StepRelease(s: State, t: nat, a: Acq): State
    requires t < |s.threads| && a.page in s.word
  {
    s.(word := s.word[a.page := FetchSub(s.word[a.page], a.count)], threads := s.threads[t := Idle])
  }

  function FindNext(c: Config, s: State, t: nat, a: Acq, f: Finder): State
    requires Shape(c, s) && c.slots > 0 && c.rangeStride > 0 && c.rangeLimit > 0
    requires t < |s.threads| && s.threads[t] == Find(a, f)
  {
    match f
    case Ticket => StepTicket(s, t, a)
    case LoadLock(slot) => StepLoadLock(s, t, a, slot)
    case Cas(slot, seen) => StepCas(s, t, a, slot, seen)
    case Assign(slot) => StepAssign(c, s, t, a, slot)
    case ReadTrans(slot) => StepReadTrans(c, s, t, a, slot)
    case Probe(slot, victim) => StepProbe(s, t, a, slot, victim)
    case Claim(slot, victim) => StepClaim(s, t, a, slot, victim)
    case Undo(slot, victim) => StepUndo(s, t, a, slot, victim)
    case WriteBack(slot, victim, k) => StepWriteBack(c, s, t, a, slot, victim, k)
    case Clear(slot, victim) => StepClear(s, t, a, slot, victim)
    case Unlock(slot, won) => StepUnlock(s, t, a, slot, won)
  }

  /** The state after thread t takes the step `act`. */
  ghost function Next(c: Config, s: State, t: nat, act: Action): State
    requires Shape(c, s) && c.slots > 0 && c.rangeStride > 0 && c.rangeLimit > 0
    requires Enabled(c, s, t, act)
  {
    var th := s.threads[t];
    match act
    case Acquire(a) => StepAcquire(s, t, a)
    case Load(i) => s
    case Store(i, v) => StepStore(s, t, th.slot, i, v)
    case Release => StepRelease(s, t, th.a)
    case Advance(choice) =>
      match th
      case TryBusy(a) => StepTryBusy(s, t, a)
      case Reload(a) => StepReload(s, t, a)
      case Restore(a) => StepRestore(s, t, a)
      case MarkDirty(a) => StepMarkDirty(s, t, a)
      case ReadOffset(a) => StepReadOffset(s, t, a)
      case Find(a, f) => FindNext(c, s, t, a, f)
      case Fill(a, slot) => StepFill(c, s, t, a, slot, choice)
      case SetOffset(a, slot) => StepSetOffset(s, t, a, slot)
      case DirtyNew(a, slot) => StepDirtyNew(s, t, a, slot)
      case Publish(a, slot) => StepPublish(s, t, a, slot)
  }

  ghost function EventOf(c: Config, s: State, t: nat, act: Action): Event
    requires Shape(c, s) && Enabled(c, s, t, act)
  {
    match act
    case Load(i) => DidRead(s.threads[t].a.page, i, s.data[s.threads[t].slot][i])
    case Store(i, v) => DidWrite(s.threads[t].a.page, i, v)
    case _ => Silent
  }
}
