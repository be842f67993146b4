/** The page cache never gets stuck: from every reachable state it can be run, without a new
    request, until every thread has its page and has released it. */
module PageCacheProgress {
  import opened PageCache
  import opened PageCacheInvariant
  import opened PageCacheRefinement

  // ---------------------------------------------------------------- locks have holders

  ghost predicate LockHeld(ts: seq<Thread>, i: nat) { exists t :: 0 <= t < |ts| && HoldsLock(ts[t], i) }

  /** A slot lock that is taken has a holder. */
  ghost predicate LocksHeld(s: State) {
    forall i | 0 <= i < |s.lock| && s.lock[i].Locked? :: LockHeld(s.threads, i)
  }

  /** A step of a thread gives up the lock it gives up, and takes no more than one it then
      holds. */
  ghost predicate HandsOver(s: State, t: nat, s': State)
    requires t < |s.threads|
  {
    && |s'.threads| == |s.threads| && s'.threads == s.threads[t := s'.threads[t]] && |s'.lock| == |s.lock|
    && forall i | 0 <= i < |s.lock| && s'.lock[i].Locked? ::
         HoldsLock(s'.threads[t], i) || (s.lock[i].Locked? && !HoldsLock(s.threads[t], i))
  }

  lemma FindHandsOver(c: Config, s: State, t: nat, a: Acq, f: Finder)
    requires c.Valid() && Shape(c, s) && t < |s.threads| && s.threads[t] == Find(a, f)
    ensures HandsOver(s, t, FindNext(c, s, t, a, f))
  {
    hide Config.Invertible, Config.Disjoint;
  }

  lemma StepHandsOver(c: Config, s: State, t: nat, act: Action)
    requires c.Valid() && Shape(c, s) && Enabled(c, s, t, act)
    ensures HandsOver(s, t, Next(c, s, t, act))
  {
    hide Config.Valid, FindNext, Shape;
    if act.Advance? && s.threads[t].Find? { FindHandsOver(c, s, t, s.threads[t].a, s.threads[t].f); }
  }

  lemma HandOverKeeps(s: State, t: nat, s': State)
    requires LocksHeld(s) && t < |s.threads| && HandsOver(s, t, s')
    ensures LocksHeld(s')
  {
    hide HoldsLock;
    forall i | 0 <= i < |s'.lock| && s'.lock[i].Locked? ensures LockHeld(s'.threads, i) {
      if !HoldsLock(s'.threads[t], i) {
        var u :| 0 <= u < |s.threads| && HoldsLock(s.threads[u], i);
        assert s'.threads[u] == s.threads[u];
      }
    }
  }

  lemma {:induction false} RunLocksHeld(c: Config, ss: seq<State>, ms: seq<Move>, k: nat)
    requires c.Valid() && IsRun(c, ss, ms) && k < |ss|
    ensures LocksHeld(ss[k])
  {
    hide Config.Valid, Shape, Enabled, Next, LocksHeld, HandsOver;
    if k == 0 { InitLocksHeld(c, ss[0]); }
    else {
      RunLocksHeld(c, ss, ms, k - 1);
      assert Step(c, ss[k - 1], ms[k - 1], ss[k]);
      EnabledThread(c, ss[k - 1], ms[k - 1].t, ms[k - 1].act);
      StepHandsOver(c, ss[k - 1], ms[k - 1].t, ms[k - 1].act);
      HandOverKeeps(ss[k - 1], ms[k - 1].t, ss[k]);
    }
  }

  lemma InitLocksHeld(c: Config, s: State)
    requires Init(c, s)
    ensures LocksHeld(s)
  {
    hide Shape;
  }

  lemma EnabledThread(c: Config, s: State, t: nat, act: Action)
    requires Shape(c, s) && Enabled(c, s, t, act)
    ensures t < |s.threads|
  {
    hide Shape;
  }

  // ---------------------------------------------------------------- a thread on its own

  /** The thread may have to wait for others here; elsewhere its next step is never a wait. */
  predicate AtRest(th: Thread) { th.Idle? || th.TryBusy? || th.Reload? || (th.Find? && th.f.Ticket?) }

  /** What is left until the thread is idle again. */
  function Stage(th: Thread): nat {
    match th
    case Idle => 0
    case Hold(a, slot) => 1
    case ReadOffset(a) => 2
    case MarkDirty(a) => 3
    case Publish(a, slot) => 2
    case DirtyNew(a, slot) => 3
    case SetOffset(a, slot) => 4
    case Fill(a, slot) => 5
    case Find(a, f) =>
      (match f
       case Unlock(slot, won) => if won then 6 else 10
       case Assign(slot) => 7
       case Clear(slot, victim) => 8
       case WriteBack(slot, victim, k) => 9
       case _ => 10)
    case _ => 11
  }

  /** The steps until the thread is at rest, but for those of a write-back. */
  function Major(th: Thread): nat {
    match th
    case Restore(a) => 1
    case Find(a, f) =>
      (match f
       case Unlock(slot, won) => if won then 6 else 1
       case Undo(slot, victim) => 2
       case Claim(slot, victim) => 10
       case Probe(slot, victim) => 11
       case ReadTrans(slot) => 12
       case Cas(slot, seen) => 13
       case LoadLock(slot) => 14
       case _ => Stage(th))
    case _ => Stage(th)
  }

  /** The replicas still to be written. */
  function Minor(c: Config, th: Thread): int {
    if th.Find? && th.f.WriteBack? && th.f.victim in c.locs then |c.locs[th.f.victim]| - th.f.k else 0
  }

  /** What a thread does next when it alone runs: it releases its page if it has one. */
  function SoloAct(th: Thread): Action { if th.Hold? then Release else Advance(0) }

  lemma SoloEnabled(c: Config, s: State, t: nat)
    requires Inv(c, s) && t < |s.threads| && !s.threads[t].Idle?
    ensures Shape(c, s) && Enabled(c, s, t, SoloAct(s.threads[t]))
  {
    hide CountInv, BusyInv, LockInv, SlotInv, ThreadsInv, DataInv, Config.Invertible, Config.Disjoint;
  }

  /** The thread takes its next step. */
  lemma Solo(c: Config, s: State, t: nat) returns (m: Move, s': State)
    requires Inv(c, s) && LocksHeld(s) && t < |s.threads| && !s.threads[t].Idle?
    ensures c.Valid() && m == Move(t, SoloAct(s.threads[t])) && Step(c, s, m, s')
    ensures Inv(c, s') && LocksHeld(s') && |s'.threads| == |s.threads| && s'.threads == s.threads[t := s'.threads[t]]
  {
    hide Shape, Enabled, Next, CountInv, BusyInv, LockInv, SlotInv, ThreadsInv, DataInv, Config.Invertible, Config.Disjoint, LocksHeld;
    SoloEnabled(c, s, t);
    m := Move(t, SoloAct(s.threads[t]));
    s' := Next(c, s, t, m.act);
    StepKeepsInv(c, s, t, m.act);
    StepHandsOver(c, s, t, m.act);
    HandOverKeeps(s, t, s');
  }

  /** After a step the thread is at rest or nearer to it. */
  ghost predicate Nearer(c: Config, th: Thread, th': Thread) {
    && Stage(th') <= Stage(th) && 0 <= Minor(c, th')
    && (AtRest(th') || Major(th') < Major(th) || (Major(th') == Major(th) && Minor(c, th') < Minor(c, th)))
  }

  lemma StraightSearch(c: Config, s: State, t: nat, a: Acq, f: Finder)
    requires c.Valid() && Shape(c, s) && t < |s.threads| && s.threads[t] == Find(a, f)
    requires f.LoadLock? || f.Cas? || f.ReadTrans? || f.Probe? || f.Claim? || f.Undo?
    ensures Nearer(c, Find(a, f), FindNext(c, s, t, a, f).threads[t])
  {
    hide Config.Invertible, Config.Disjoint;
  }

  lemma StraightTake(c: Config, s: State, t: nat, a: Acq, f: Finder)
    requires c.Valid() && Shape(c, s) && t < |s.threads| && s.threads[t] == Find(a, f)
    requires f.WriteBack? || f.Clear? || f.Assign? || f.Unlock?
    ensures Nearer(c, Find(a, f), FindNext(c, s, t, a, f).threads[t])
  {
    hide Config.Invertible, Config.Disjoint;
  }

  /** Unless it is at rest, a thread's own step brings it nearer to rest. */
  lemma Straight(c: Config, s: State, t: nat)
    requires c.Valid() && Shape(c, s) && t < |s.threads| && !AtRest(s.threads[t]) && Enabled(c, s, t, SoloAct(s.threads[t]))
    ensures var s' := Next(c, s, t, SoloAct(s.threads[t])); t < |s'.threads| && Nearer(c, s.threads[t], s'.threads[t])
  {
    hide Config.Valid, FindNext, Shape;
    if s.threads[t].Find? {
      hide Nearer;
      var (a, f) := (s.threads[t].a, s.threads[t].f);
      FindHandsOver(c, s, t, a, f);
      if f.WriteBack? || f.Clear? || f.Assign? || f.Unlock? { StraightTake(c, s, t, a, f); } else { StraightSearch(c, s, t, a, f); }
    }
  }

  // ---------------------------------------------------------------- a thread that waits for its page

  /** The thread waits for its page, and nobody is in its way; or it is giving back a BUSY
      bit that it set on a VALID page. */
  predicate WaitsInVain(s: State, th: Thread) {
    && (th.Reload? || th.TryBusy? || th.Restore?) && th.a.page in s.word
    && if th.Restore? then s.word[th.a.page].valid else !s.word[th.a.page].busy
  }

  function WaitRank(s: State, th: Thread): nat
    requires WaitsInVain(s, th)
  {
    var valid := s.word[th.a.page].valid;
    if th.Restore? then 2 else if th.Reload? then if valid then 1 else 2 else if valid then 3 else 1
  }

  /** Such a thread finds its page, or goes to look for a slot. */
  lemma WaitStep(c: Config, s: State, t: nat)
    requires c.Valid() && Shape(c, s) && t < |s.threads| && WaitsInVain(s, s.threads[t]) && Enabled(c, s, t, Advance(0))
    ensures var s' := Next(c, s, t, Advance(0));
      && t < |s'.threads|
      && (|| Stage(s'.threads[t]) < Stage(s.threads[t])
          || (&& Stage(s'.threads[t]) == Stage(s.threads[t]) && WaitsInVain(s', s'.threads[t])
              && WaitRank(s', s'.threads[t]) < WaitRank(s, s.threads[t])))
  {
    hide Config.Valid, Shape;
  }

  // ---------------------------------------------------------------- a thread that looks for a slot

  /** The translation of slot i names a VALID page. */
  ghost predicate HoldsValid(c: Config, s: State, i: nat) {
    i < |s.trans| && exists p :: p in s.word && p in c.gaddr && s.word[p].valid && s.trans[i] == c.gaddr[p]
  }

  /** Nobody but thread t has a slot lock; every slot in use holds a VALID page; no VALID
      page is pinned or BUSY. */
  ghost predicate AllTakeable(c: Config, s: State, t: nat)
    requires t < |s.threads|
  {
    && (forall i | 0 <= i < |s.lock| && s.lock[i].Locked? :: HoldsLock(s.threads[t], i))
    && (forall i | 0 <= i < |s.lock| && !s.lock[i].Free? :: HoldsValid(c, s, i))
    && (forall p | p in s.word && s.word[p].valid :: s.word[p].cnt == 0 && !s.word[p].busy)
  }

  /** The slot that a search is at can be taken. */
  predicate Promising(s: State, f: Finder) {
    match f
    case Ticket => true
    case LoadLock(slot) => slot < |s.lock|
    case Cas(slot, seen) => slot < |s.lock| && s.lock[slot] == seen
    case ReadTrans(slot) => slot < |s.lock| && !s.lock[slot].Free?
    case Probe(slot, victim) => victim in s.word && s.word[victim].valid
    case Claim(slot, victim) => victim in s.word && s.word[victim].valid
    case _ => false
  }

  /** The thread looks for a slot where every one can be taken. */
  ghost predicate Seeks(c: Config, s: State, t: nat) {
    t < |s.threads| && s.threads[t].Find? && AllTakeable(c, s, t) && Promising(s, s.threads[t].f)
  }

  function SeekRank(f: Finder): nat {
    match f
    case Ticket => 6
    case LoadLock(slot) => 5
    case Cas(slot, seen) => 4
    case ReadTrans(slot) => 3
    case Probe(slot, victim) => 2
    case _ => 1
  }

  /** The search changes nothing of this before its claim. */
  lemma StillTakeable(c: Config, s: State, s': State, t: nat)
    requires t < |s.threads| && t < |s'.threads| && AllTakeable(c, s, t)
    requires s'.word == s.word && s'.trans == s.trans && |s'.lock| == |s.lock|
    requires forall i | 0 <= i < |s.lock| :: s'.lock[i].Free? == s.lock[i].Free?
    requires forall i | 0 <= i < |s.lock| && s'.lock[i].Locked? :: HoldsLock(s'.threads[t], i)
    ensures AllTakeable(c, s', t)
  {
    hide HoldsLock;
    forall i | 0 <= i < |s'.lock| && !s'.lock[i].Free? ensures HoldsValid(c, s', i) { assert HoldsValid(c, s, i); }
  }

  /** Before its claim, or before it takes a FREE slot, a search changes only a lock. */
  lemma SeekLooks(c: Config, s: State, t: nat, a: Acq, f: Finder)
    requires c.Valid() && Shape(c, s) && Seeks(c, s, t) && s.threads[t] == Find(a, f) && !f.Claim? && !(f.Cas? && f.seen.Free?)
    ensures AllTakeable(c, FindNext(c, s, t, a, f), t)
  {
    hide Config.Invertible, Config.Disjoint, HoldsValid;
    StillTakeable(c, s, FindNext(c, s, t, a, f), t);
  }

  /** And it comes nearer to that claim. */
  lemma SeekGoesOn(c: Config, s: State, t: nat, a: Acq, f: Finder)
    requires c.Valid() && Shape(c, s) && t < |s.threads| && s.threads[t] == Find(a, f) && Promising(s, f)
    requires !f.Claim? && !(f.Cas? && f.seen.Free?)
    requires f.LoadLock? ==> !s.lock[f.slot].Locked?
    requires f.ReadTrans? ==> c.Unpack(s.trans[f.slot]) in s.word && s.word[c.Unpack(s.trans[f.slot])].valid
    requires f.Probe? ==> s.word[f.victim].cnt == 0 && !s.word[f.victim].busy
    ensures var s' := FindNext(c, s, t, a, f);
      && t < |s'.threads| && s'.threads[t].Find? && Stage(s'.threads[t]) == Stage(Find(a, f))
      && Promising(s', s'.threads[t].f) && SeekRank(s'.threads[t].f) < SeekRank(f)
  {
    hide Config.Invertible, Config.Disjoint;
  }

  lemma SeekTakes(c: Config, s: State, t: nat, a: Acq, f: Finder)
    requires c.Valid() && Shape(c, s) && t < |s.threads| && s.threads[t] == Find(a, f) && Promising(s, f)
    requires f.Claim? || (f.Cas? && f.seen.Free?)
    requires f.Claim? ==> s.word[f.victim].cnt == 0 && !s.word[f.victim].busy
    ensures var s' := FindNext(c, s, t, a, f); t < |s'.threads| && Stage(s'.threads[t]) < Stage(Find(a, f))
  {
    hide Config.Invertible, Config.Disjoint;
  }

  lemma NamedByTrans(c: Config, s: State, t: nat, slot: nat)
    requires c.Valid() && t < |s.threads| && AllTakeable(c, s, t) && slot < |s.lock| && !s.lock[slot].Free?
    ensures slot < |s.trans| && c.Unpack(s.trans[slot]) in s.word && s.word[c.Unpack(s.trans[slot])].valid
  {
    hide Config.Disjoint, HoldsLock;
    assert HoldsValid(c, s, slot);
    var p :| p in s.word && p in c.gaddr && s.word[p].valid && s.trans[slot] == c.gaddr[p];
    assert c.Unpack(c.gaddr[p]) == p;
  }

  /** What the search will find. */
  lemma SeekFinds(c: Config, s: State, t: nat, a: Acq, f: Finder)
    requires c.Valid() && Shape(c, s) && Seeks(c, s, t) && s.threads[t] == Find(a, f)
    ensures f.LoadLock? ==> !s.lock[f.slot].Locked?
    ensures f.ReadTrans? ==> c.Unpack(s.trans[f.slot]) in s.word && s.word[c.Unpack(s.trans[f.slot])].valid
    ensures f.Probe? || f.Claim? ==> s.word[f.victim].cnt == 0 && !s.word[f.victim].busy
  {
    hide HoldsValid;
    if f.ReadTrans? { NamedByTrans(c, s, t, f.slot); }
  }

  /** Where every slot can be taken, the search takes one. */
  lemma SeekStep(c: Config, s: State, t: nat, a: Acq, f: Finder)
    requires c.Valid() && Shape(c, s) && Seeks(c, s, t) && s.threads[t] == Find(a, f)
    ensures var s' := FindNext(c, s, t, a, f);
      && t < |s'.threads|
      && (|| Stage(s'.threads[t]) < Stage(Find(a, f))
          || (&& Stage(s'.threads[t]) == Stage(Find(a, f)) && Seeks(c, s', t) && SeekRank(s'.threads[t].f) < SeekRank(f)))
  {
    hide Config.Valid, Shape, FindNext, Stage, SeekRank, AllTakeable;
    SeekFinds(c, s, t, a, f);
    if f.Claim? || (f.Cas? && f.seen.Free?) { SeekTakes(c, s, t, a, f); }
    else {
      SeekLooks(c, s, t, a, f);
      SeekGoesOn(c, s, t, a, f);
    }
  }

  // ---------------------------------------------------------------- all threads at rest

  lemma {:induction false} NoPins(ts: seq<Thread>, n: nat, p: PageId)
    requires n <= |ts| && forall t | 0 <= t < |ts| :: Pins(ts[t], p) == 0
    ensures SumPins(ts, n, p) == 0
  {
    if n > 0 { NoPins(ts, n - 1, p); }
  }

  /** Every thread is at rest, and those that wait for a page wait for a BUSY one. */
  ghost predicate AllWait(s: State) {
    forall t | 0 <= t < |s.threads| :: AtRest(s.threads[t]) && !WaitsInVain(s, s.threads[t])
  }

  lemma ShapeOf(c: Config, s: State)
    requires Inv(c, s)
    ensures c.Valid() && Shape(c, s)
  {
  }

  lemma RestingPins(c: Config, s: State, p: PageId)
    requires Inv(c, s) && AllWait(s) && p in s.word && s.word[p].valid
    ensures s.word[p].cnt == 0 && !s.word[p].busy
  {
    hide Config.Invertible, Config.Disjoint, LockInv, SlotInv, DataInv, Apart;
    assert s.word[p].busy ==> HasOwner(s, p);
    forall t | 0 <= t < |s.threads| ensures !OwnsBusy(s.threads[t], p) {
      assert ThreadInv(c, s, s.threads[t]);
    }
    forall t | 0 <= t < |s.threads| ensures Pins(s.threads[t], p) == 0 {
      assert ThreadInv(c, s, s.threads[t]);
    }
    NoPins(s.threads, |s.threads|, p);
  }

  lemma RestingSlots(c: Config, s: State, t: nat)
    requires Inv(c, s) && LocksHeld(s) && AllWait(s) && t < |s.threads|
    ensures AllTakeable(c, s, t)
  {
    hide Inv, Config.Valid;
    ShapeOf(c, s);
    assert forall i | 0 <= i < |s.lock| && s.lock[i].Locked? :: LockHeld(s.threads, i);
    forall i | 0 <= i < |s.lock| && !s.lock[i].Free? ensures HoldsValid(c, s, i) {
      if s.lock[i].Unlocked? {
        var p := UnlockedSlotIsBacked(c, s, i);
        assert forall u | 0 <= u < |s.threads| :: !Loading(s.threads[u], p, i);
      }
    }
    forall p | p in s.word && s.word[p].valid ensures s.word[p].cnt == 0 && !s.word[p].busy { RestingPins(c, s, p); }
  }

  /** If anyone waits, someone looks for a slot. */
  lemma SomeoneSeeks(c: Config, s: State, u: nat) returns (t: nat)
    requires Inv(c, s) && AllWait(s) && u < |s.threads| && !s.threads[u].Idle?
    ensures t < |s.threads| && s.threads[t].Find? && s.threads[t].f.Ticket?
  {
    hide Config.Invertible, Config.Disjoint, CountInv, LockInv, SlotInv, DataInv, ThreadsInv;
    t := u;
    var th := s.threads[u];
    if !th.Find? {
      assert ThreadShape(c, th);
      assert HasOwner(s, th.a.page);
      t :| 0 <= t < |s.threads| && OwnsBusy(s.threads[t], th.a.page);
    }
  }

  // ---------------------------------------------------------------- running to the end

  function Stages(ts: seq<Thread>, n: nat): nat
    requires n <= |ts|
  {
    if n == 0 then 0 else Stages(ts, n - 1) + Stage(ts[n - 1])
  }

  function Moving(ts: seq<Thread>, n: nat): nat
    requires n <= |ts|
  {
    if n == 0 then 0 else Moving(ts, n - 1) + if AtRest(ts[n - 1]) then 0 else 1
  }

  lemma {:induction false} SumsUpdate(ts: seq<Thread>, n: nat, t: nat, th: Thread)
    requires t < |ts| && n <= |ts|
    ensures Stages(ts[t := th], n) == Stages(ts, n) + if t < n then Stage(th) - Stage(ts[t]) else 0
    ensures Moving(ts[t := th], n) ==
      Moving(ts, n) + if t < n then (if AtRest(th) then 0 else 1) - (if AtRest(ts[t]) then 0 else 1) else 0
  {
    if n > 0 { SumsUpdate(ts, n - 1, t, th); }
  }

  /** What is left to do for all threads together. */
  function Left(s: State): nat { Stages(s.threads, |s.threads|) }

  function Movers(s: State): nat { Moving(s.threads, |s.threads|) }

  /** Nobody has a page, a pin, a BUSY bit or a slot lock. */
  ghost predicate AllIdle(s: State) {
    && (forall t | 0 <= t < |s.threads| :: s.threads[t].Idle?)
    && (forall p | p in s.word :: s.word[p].cnt == 0 && !s.word[p].busy)
    && (forall i | 0 <= i < |s.lock| :: !s.lock[i].Locked?)
  }

  lemma IdleIsClean(c: Config, s: State)
    requires Inv(c, s) && LocksHeld(s) && forall t | 0 <= t < |s.threads| :: s.threads[t].Idle?
    ensures AllIdle(s)
  {
    hide Config.Invertible, Config.Disjoint, LockInv, SlotInv, DataInv, ThreadsInv;
    forall p | p in s.word ensures s.word[p].cnt == 0 && !s.word[p].busy {
      NoPins(s.threads, |s.threads|, p);
      assert s.word[p].busy ==> HasOwner(s, p);
    }
    assert forall i | 0 <= i < |s.lock| && s.lock[i].Locked? :: LockHeld(s.threads, i);
  }

  /** Steps that request no page and store nothing. */
  ghost predicate IsClosing(c: Config, ss: seq<State>, ms: seq<Move>)
    requires c.Valid()
  {
    && |ss| == |ms| + 1
    && forall k | 0 <= k < |ms| :: (ms[k].act.Advance? || ms[k].act.Release?) && Step(c, ss[k], ms[k], ss[k + 1])
  }

  lemma Prepend(c: Config, s: State, m: Move, ss: seq<State>, ms: seq<Move>)
    requires c.Valid() && IsClosing(c, ss, ms) && Step(c, s, m, ss[0]) && (m.act.Advance? || m.act.Release?)
    ensures IsClosing(c, [s] + ss, [m] + ms) && ([s] + ss)[|ms| + 1] == ss[|ms|]
  {
    hide Step, Config.Valid;
  }

  /** Thread t goes on until it is at rest, and then the others follow. */
  lemma {:induction false} GoStraight(c: Config, s: State, t: nat) returns (ss: seq<State>, ms: seq<Move>)
    requires Inv(c, s) && LocksHeld(s) && t < |s.threads| && !AtRest(s.threads[t]) && Minor(c, s.threads[t]) >= 0
    ensures c.Valid() && IsClosing(c, ss, ms) && ss[0] == s && AllIdle(ss[|ms|])
    decreases Left(s), 1, Movers(s), 0, Major(s.threads[t]), Minor(c, s.threads[t])
  {
    hide Inv, Config.Valid, Shape, Next, Enabled, LocksHeld, Stage, Major, Minor, AllIdle, IsClosing, AtRest;
    var m, s' := SoloStraight(c, s, t);
    SumsUpdate(s.threads, |s.threads|, t, s'.threads[t]);
    if AtRest(s'.threads[t]) { ss, ms := GoIdle(c, s'); } else { ss, ms := GoStraight(c, s', t); }
    Prepend(c, s, m, ss, ms);
    ss, ms := [s] + ss, [m] + ms;
  }

  lemma SoloStraight(c: Config, s: State, t: nat) returns (m: Move, s': State)
    requires Inv(c, s) && LocksHeld(s) && t < |s.threads| && !AtRest(s.threads[t])
    ensures c.Valid() && Step(c, s, m, s') && (m.act.Advance? || m.act.Release?) && Inv(c, s') && LocksHeld(s')
    ensures |s'.threads| == |s.threads| && s'.threads == s.threads[t := s'.threads[t]]
    ensures Nearer(c, s.threads[t], s'.threads[t])
  {
    hide Inv, Config.Valid, Shape, Next, Enabled, LocksHeld, Stage, Major, Minor;
    SoloEnabled(c, s, t);
    m, s' := Solo(c, s, t);
    Straight(c, s, t);
  }

  /** Thread t, in whose way nobody is, goes on until it has its page or looks for a slot. */
  lemma {:induction false} GoWait(c: Config, s: State, t: nat) returns (ss: seq<State>, ms: seq<Move>)
    requires Inv(c, s) && LocksHeld(s) && t < |s.threads| && WaitsInVain(s, s.threads[t])
    ensures c.Valid() && IsClosing(c, ss, ms) && ss[0] == s && AllIdle(ss[|ms|])
    decreases Left(s), 0, WaitRank(s, s.threads[t])
  {
    hide Inv, Config.Valid, Shape, Next, Enabled, LocksHeld, Stage, AllIdle, IsClosing, AtRest, WaitRank;
    SoloEnabled(c, s, t);
    var m, s' := Solo(c, s, t);
    WaitStep(c, s, t);
    SumsUpdate(s.threads, |s.threads|, t, s'.threads[t]);
    if Stage(s'.threads[t]) < Stage(s.threads[t]) { ss, ms := GoIdle(c, s'); } else { ss, ms := GoWait(c, s', t); }
    Prepend(c, s, m, ss, ms);
    ss, ms := [s] + ss, [m] + ms;
  }

  /** Thread t, to which every slot is open, goes on until it has taken one. */
  lemma {:induction false} GoSeek(c: Config, s: State, t: nat) returns (ss: seq<State>, ms: seq<Move>)
    requires Inv(c, s) && LocksHeld(s) && Seeks(c, s, t)
    ensures c.Valid() && IsClosing(c, ss, ms) && ss[0] == s && AllIdle(ss[|ms|])
    decreases Left(s), 0, SeekRank(s.threads[t].f)
  {
    hide Inv, Config.Valid, Shape, FindNext, LocksHeld, Stage, AllIdle, IsClosing, AtRest, SeekRank;
    SoloEnabled(c, s, t);
    var m, s' := Solo(c, s, t);
    SeekStep(c, s, t, s.threads[t].a, s.threads[t].f);
    SumsUpdate(s.threads, |s.threads|, t, s'.threads[t]);
    if Stage(s'.threads[t]) < Stage(s.threads[t]) { ss, ms := GoIdle(c, s'); } else { ss, ms := GoSeek(c, s', t); }
    Prepend(c, s, m, ss, ms);
    ss, ms := [s] + ss, [m] + ms;
  }

  lemma {:induction false} GoIdle(c: Config, s: State) returns (ss: seq<State>, ms: seq<Move>)
    requires Inv(c, s) && LocksHeld(s)
    ensures c.Valid() && IsClosing(c, ss, ms) && ss[0] == s && AllIdle(ss[|ms|])
    decreases Left(s), 1, Movers(s), 1
  {
    hide Inv, Config.Valid, Shape, LocksHeld, AllIdle, AllTakeable, WaitsInVain;
    ShapeOf(c, s);
    if t: nat :| t < |s.threads| && !AtRest(s.threads[t]) {
      MinorNotNegative(c, s, t);
      ss, ms := GoStraight(c, s, t);
    } else if t: nat :| t < |s.threads| && WaitsInVain(s, s.threads[t]) { ss, ms := GoWait(c, s, t); }
    else if u: nat :| u < |s.threads| && !s.threads[u].Idle? {
      var t := SomeoneSeeks(c, s, u);
      RestingSlots(c, s, t);
      ss, ms := GoSeek(c, s, t);
    } else {
      IdleIsClean(c, s);
      ss, ms := [s], [];
    }
  }

  lemma MinorNotNegative(c: Config, s: State, t: nat)
    requires Shape(c, s) && t < |s.threads|
    ensures Minor(c, s.threads[t]) >= 0
  {
    assert ThreadShape(c, s.threads[t]);
  }

  /** Every run can be continued, without another request, until every thread has had its
      page and released it, and no pin, BUSY bit or slot lock is left: whatever the threads
      have pinned, and however few slots there are, no interleaving ends in a deadlock, nor
      where threads could only spin. */
  lemma EveryRunCanGoIdle(c: Config, ss: seq<State>, ms: seq<Move>) returns (more: seq<State>, ms': seq<Move>)
    requires c.Valid() && IsRun(c, ss, ms)
    ensures IsRun(c, ss + more, ms + ms') && AllIdle((ss + more)[|ms| + |ms'|])
    ensures forall k | 0 <= k < |ms'| :: ms'[k].act.Advance? || ms'[k].act.Release?
  {
    hide Inv, Config.Valid, Step, Init, AllIdle, LocksHeld;
    RunInv(c, ss, ms, |ms|);
    RunLocksHeld(c, ss, ms, |ms|);
    var path, later := GoIdle(c, ss[|ms|]);
    more, ms' := path[1..], later;
    forall k | 0 <= k < |ms + ms'| ensures Step(c, (ss + more)[k], (ms + ms')[k], (ss + more)[k + 1]) {
      if k < |ms| { assert Step(c, ss[k], ms[k], ss[k + 1]); }
      else { assert Step(c, path[k - |ms|], later[k - |ms|], path[k - |ms| + 1]); }
    }
  }
}
