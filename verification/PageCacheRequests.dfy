/** The page that a thread gets is the page it asked for: reads, writes, dirty marks and
    write-backs in terms of what the callers of the cache did. */
module PageCacheRequests {
  import opened StateWord
  import opened Wrappers

  import opened PageCache
  import opened PageCacheInvariant
  import opened PageCacheRefinement

  // ---------------------------------------------------------------- what the callers asked for

  /** The request that thread t has made and not ended when the first k moves are over. */
  function OpenRequest(ms: seq<Move>, k: nat, t: nat): Option<Acq>
    requires k <= |ms|
  {
    if k == 0 then None
    else
      var m := ms[k - 1];
      if m.t == t && m.act.Acquire? then Some(m.act.a)
      else if m.t == t && m.act.Release? then None
      else OpenRequest(ms, k - 1, t)
  }

  lemma {:induction false} OpenRequestWasMade(ms: seq<Move>, k: nat, t: nat) returns (j: nat)
    requires k <= |ms| && OpenRequest(ms, k, t).Some?
    ensures j < k && ms[j] == Move(t, Acquire(OpenRequest(ms, k, t).value))
  {
    var m := ms[k - 1];
    if m.t == t && m.act.Acquire? { j := k - 1; } else { j := OpenRequestWasMade(ms, k - 1, t); }
  }

  /** The thread works on a request, and marks a page dirty only for a write. */
  predicate WorksFor(th: Thread, r: Option<Acq>) {
    match r
    case None => th.Idle?
    case Some(a) => !th.Idle? && th.a == a && (th.MarkDirty? || th.DirtyNew? ==> a.write)
  }

  /** The request that is open after a thread's step. */
  function After(r: Option<Acq>, act: Action): Option<Acq> {
    if act.Acquire? then Some(act.a) else if act.Release? then None else r
  }

  lemma FindWorksFor(c: Config, s: State, t: nat, a: Acq, f: Finder)
    requires c.Valid() && Shape(c, s) && t < |s.threads| && s.threads[t] == Find(a, f)
    ensures var s' := FindNext(c, s, t, a, f); t < |s'.threads| && WorksFor(s'.threads[t], Some(a))
  {
    hide Config.Invertible, Config.Disjoint;
  }

  lemma StepWorksFor(c: Config, s: State, t: nat, act: Action, r: Option<Acq>)
    requires c.Valid() && Shape(c, s) && Enabled(c, s, t, act) && WorksFor(s.threads[t], r)
    ensures var s' := Next(c, s, t, act); t < |s'.threads| && WorksFor(s'.threads[t], After(r, act))
  {
    hide Config.Valid, FindNext, Shape;
    if act.Advance? && s.threads[t].Find? { FindWorksFor(c, s, t, s.threads[t].a, s.threads[t].f); }
  }

  /** In every run a thread is idle exactly if it has no open request, and otherwise it pins,
      loads or holds the page of that request, in its count and mode. */
  lemma {:induction false} ThreadWorksForItsRequest(c: Config, ss: seq<State>, ms: seq<Move>, k: nat, t: nat)
    requires c.Valid() && IsRun(c, ss, ms) && k < |ss| && t < |ss[k].threads|
    ensures WorksFor(ss[k].threads[t], OpenRequest(ms, k, t))
  {
    hide Config.Valid, Shape, Enabled, Next, Init, WorksFor;
    if k == 0 { StartsWithNone(c, ss, ms, t); }
    else {
      var s, m := ss[k - 1], ms[k - 1];
      assert Step(c, s, m, ss[k]);
      SameThreads(c, s, m.t, m.act);
      MoverExists(c, s, m.t, m.act);
      ThreadWorksForItsRequest(c, ss, ms, k - 1, t);
      ThreadWorksForItsRequest(c, ss, ms, k - 1, m.t);
      StepWorksFor(c, s, m.t, m.act, OpenRequest(ms, k - 1, m.t));
    }
  }

  lemma StartsWithNone(c: Config, ss: seq<State>, ms: seq<Move>, t: nat)
    requires c.Valid() && IsRun(c, ss, ms) && t < |ss[0].threads|
    ensures WorksFor(ss[0].threads[t], None)
  {
    hide IsRun, Init, Config.Valid;
    StartsIdle(c, ss, ms);
  }

  lemma MoverExists(c: Config, s: State, t: nat, act: Action)
    requires Shape(c, s) && Enabled(c, s, t, act)
    ensures t < |s.threads|
  {
    hide Shape;
  }

  // ---------------------------------------------------------------- reads and writes

  /** What a step is to the users, as its caller knows it. */
  ghost predicate Tells(m: Move, r: Option<Acq>, e: Event) {
    match m.act
    case Load(i) => r.Some? && e.DidRead? && e.p == r.value.page && e.i == i
    case Store(i, v) => r.Some? && r.value.write && e == DidWrite(r.value.page, i, v)
    case _ => e.Silent?
  }

  lemma EventOfRequest(c: Config, s: State, m: Move, r: Option<Acq>)
    requires c.Valid() && Shape(c, s) && Enabled(c, s, m.t, m.act) && WorksFor(s.threads[m.t], r)
    ensures Tells(m, r, EventOf(c, s, m.t, m.act))
  {
    hide Config.Valid;
  }

  /** Every load and every store is on the page that its thread asked for, and a store only
      under a request to write. */
  lemma AccessIsAsRequested(c: Config, ss: seq<State>, ms: seq<Move>, k: nat)
    requires c.Valid() && IsRun(c, ss, ms) && k < |ms|
    ensures Tells(ms[k], OpenRequest(ms, k, ms[k].t), EventAt(c, ss, ms, k))
  {
    hide Config.Valid, Shape, Enabled, Next, Init, Tells;
    assert Step(c, ss[k], ms[k], ss[k + 1]);
    MoverExists(c, ss[k], ms[k].t, ms[k].act);
    ThreadWorksForItsRequest(c, ss, ms, k, ms[k].t);
    EventOfRequest(c, ss[k], ms[k], OpenRequest(ms, k, ms[k].t));
  }

  /** The k-th move is a store to element i under a request for page p. */
  predicate StoresAt(ms: seq<Move>, k: nat, p: PageId, i: nat)
    requires k < |ms|
  {
    var r := OpenRequest(ms, k, ms[k].t);
    ms[k].act.Store? && ms[k].act.i == i && r.Some? && r.value.page == p
  }

  /** What the callers last stored in element i of page p during the first k moves. */
  function LastStored(ms: seq<Move>, k: nat, p: PageId, i: nat, start: Elem): Elem
    requires k <= |ms|
  {
    if k == 0 then start
    else if StoresAt(ms, k - 1, p, i) then ms[k - 1].act.v
    else LastStored(ms, k - 1, p, i, start)
  }

  lemma {:induction false} LastStoredIsLastWrite(c: Config, ss: seq<State>, ms: seq<Move>, k: nat, p: PageId, i: nat, m: FlatArray)
    requires c.Valid() && IsRun(c, ss, ms) && k <= |ms| && p in m && i < |m[p]|
    ensures LastStored(ms, k, p, i, m[p][i]) == LastWrite(m, History(c, ss, ms, k), p, i)
  {
    hide Config.Valid, Step, Init, OpenRequest;
    if k > 0 {
      LastStoredIsLastWrite(c, ss, ms, k - 1, p, i, m);
      AccessIsAsRequested(c, ss, ms, k - 1);
      var h := History(c, ss, ms, k);
      assert h[k - 1] == EventAt(c, ss, ms, k - 1) && h[..k - 1] == History(c, ss, ms, k - 1);
    }
  }

  /** In every run, what a caller loads from the page it asked for is what some caller last
      stored there under a request for that page, or what the disk held at the start. */
  lemma LoadReturnsLastStored(c: Config, ss: seq<State>, ms: seq<Move>, k: nat)
    requires c.Valid() && IsRun(c, ss, ms) && k < |ms| && ms[k].act.Load?
    ensures OpenRequest(ms, k, ms[k].t).Some? && EventAt(c, ss, ms, k).DidRead?
    ensures var p, i := OpenRequest(ms, k, ms[k].t).value.page, ms[k].act.i;
      && Shape(c, ss[0]) && p in c.gaddr && p in Flat(c, ss[0]) && i < |Flat(c, ss[0])[p]|
      && EventAt(c, ss, ms, k).v == LastStored(ms, k, p, i, Flat(c, ss[0])[p][i])
  {
    hide Config.Valid, Step, Init, OpenRequest, LastStored;
    AccessIsAsRequested(c, ss, ms, k);
    ReadsReturnLastWrite(c, ss, ms, k);
    var e := EventAt(c, ss, ms, k);
    LastStoredIsLastWrite(c, ss, ms, k, e.p, e.i, Flat(c, ss[0]));
  }

  // ---------------------------------------------------------------- what is dirty, and what is written back

  predicate IsDirty(s: State, p: PageId) { p in s.word && s.word[p].dirty }

  lemma FindMarksNone(c: Config, s: State, t: nat, a: Acq, f: Finder, p: PageId)
    requires c.Valid() && Shape(c, s) && t < |s.threads| && s.threads[t] == Find(a, f) && !IsDirty(s, p)
    ensures !IsDirty(FindNext(c, s, t, a, f), p)
  {
    hide Config.Invertible, Config.Disjoint;
  }

  /** DIRTY is set only by a thread that marks its own page. */
  lemma StepMarks(c: Config, s: State, t: nat, act: Action, p: PageId)
    requires Inv(c, s) && Enabled(c, s, t, act) && !IsDirty(s, p) && IsDirty(Next(c, s, t, act), p)
    ensures act.Advance? && (s.threads[t].MarkDirty? || s.threads[t].DirtyNew?) && s.threads[t].a.page == p
  {
    hide Inv, Config.Valid, CountInv, BusyInv, LockInv, SlotInv, ThreadsInv, DataInv, ThreadInv, ThreadDataInv, FindNext;
    Open(c, s, t);
    if act.Release? { ReleaseKeeps(c, s, t, s.threads[t].a, s.threads[t].slot); }
    else if act.Advance? && s.threads[t].Find? { FindMarksNone(c, s, t, s.threads[t].a, s.threads[t].f, p); }
  }

  /** In every run a page becomes dirty only under a request to write it. */
  lemma DirtyOnlyUnderWrite(c: Config, ss: seq<State>, ms: seq<Move>, k: nat, p: PageId)
    requires c.Valid() && IsRun(c, ss, ms) && k < |ms| && !IsDirty(ss[k], p) && IsDirty(ss[k + 1], p)
    ensures var r := OpenRequest(ms, k, ms[k].t); r.Some? && r.value.write && r.value.page == p
  {
    hide Inv, Config.Valid, Shape, Enabled, Next, Init, IsDirty;
    assert Step(c, ss[k], ms[k], ss[k + 1]);
    RunInv(c, ss, ms, k);
    StepMarks(c, ss[k], ms[k].t, ms[k].act, p);
    MoverExists(c, ss[k], ms[k].t, ms[k].act);
    ThreadWorksForItsRequest(c, ss, ms, k, ms[k].t);
  }

  lemma FindCleans(c: Config, s: State, t: nat, a: Acq, f: Finder, p: PageId)
    requires c.Valid() && Shape(c, s) && t < |s.threads| && s.threads[t] == Find(a, f) && !(f.Clear? && f.victim == p)
    ensures IsDirty(s, p) ==> IsDirty(FindNext(c, s, t, a, f), p)
  {
    hide Config.Invertible, Config.Disjoint;
  }

  /** DIRTY is cleared only by the page's evictor. */
  lemma StepCleans(c: Config, s: State, t: nat, act: Action, p: PageId)
    requires Inv(c, s) && Enabled(c, s, t, act) && IsDirty(s, p)
    requires !(act.Advance? && s.threads[t].Find? && s.threads[t].f.Clear? && s.threads[t].f.victim == p)
    ensures IsDirty(Next(c, s, t, act), p)
  {
    hide Inv, Config.Valid, CountInv, BusyInv, LockInv, SlotInv, ThreadsInv, DataInv, ThreadInv, ThreadDataInv, FindNext;
    Open(c, s, t);
    if act.Release? { ReleaseKeeps(c, s, t, s.threads[t].a, s.threads[t].slot); }
    else if act.Advance? && s.threads[t].Find? { FindCleans(c, s, t, s.threads[t].a, s.threads[t].f, p); }
  }

  predicate WritesBack(th: Thread, p: PageId) { th.Find? && th.f.WriteBack? && th.f.victim == p }

  lemma OnlyClaimStartsWriteBack(c: Config, s: State, t: nat, a: Acq, f: Finder, p: PageId)
    requires c.Valid() && Shape(c, s) && t < |s.threads| && s.threads[t] == Find(a, f)
    requires WritesBack(FindNext(c, s, t, a, f).threads[t], p)
    ensures WritesBack(s.threads[t], p) || (f.Claim? && IsDirty(s, p))
  {
    hide Config.Invertible, Config.Disjoint;
  }

  lemma StepWritesBack(c: Config, s: State, t: nat, act: Action, u: nat, p: PageId)
    requires c.Valid() && Shape(c, s) && Enabled(c, s, t, act)
    requires u < |Next(c, s, t, act).threads| == |s.threads| && WritesBack(Next(c, s, t, act).threads[u], p)
    ensures WritesBack(s.threads[u], p) || (u == t && act.Advance? && s.threads[t].Find? && s.threads[t].f.Claim? && IsDirty(s, p))
  {
    SameThreads(c, s, t, act);
    if u == t {
      if act.Advance? && s.threads[t].Find? { OnlyClaimStartsWriteBack(c, s, t, s.threads[t].a, s.threads[t].f, p); }
      else { NoFinderNoWriteBack(c, s, t, act, p); }
    }
    hide Config.Valid, FindNext, Shape, WritesBack, Next, Enabled;
  }

  lemma NoFinderNoWriteBack(c: Config, s: State, t: nat, act: Action, p: PageId)
    requires c.Valid() && Shape(c, s) && Enabled(c, s, t, act) && !(act.Advance? && s.threads[t].Find?)
    ensures var s' := Next(c, s, t, act); t < |s'.threads| && (WritesBack(s'.threads[t], p) ==> WritesBack(s.threads[t], p))
  {
    hide Config.Valid, FindNext, Shape;
  }

  predicate Cleans(th: Thread, p: PageId) { th.Find? && th.f.Clear? && th.f.victim == p }

  lemma OneEvictor(c: Config, s: State, u: nat, p: PageId)
    requires Inv(c, s) && u < |s.threads| && WritesBack(s.threads[u], p)
    ensures forall t | 0 <= t < |s.threads| :: !Cleans(s.threads[t], p)
  {
    hide Inv, CountInv, LockInv, SlotInv, ThreadsInv, DataInv, Config.Valid;
    Open(c, s, u);
    assert OwnsBusy(s.threads[u], p);
    assert forall t | 0 <= t < |s.threads| :: Cleans(s.threads[t], p) ==> OwnsBusy(s.threads[t], p);
  }

  /** In every run, only dirty pages are written back. */
  lemma {:induction false} WrittenBackIsDirty(c: Config, ss: seq<State>, ms: seq<Move>, k: nat, u: nat, p: PageId)
    requires c.Valid() && IsRun(c, ss, ms) && k < |ss| && u < |ss[k].threads| && WritesBack(ss[k].threads[u], p)
    ensures IsDirty(ss[k], p)
  {
    hide Inv, Config.Valid, Shape, Enabled, Next, Init, IsDirty;
    StartsIdle(c, ss, ms);
    assert k > 0;
    var s, m := ss[k - 1], ms[k - 1];
    assert Step(c, s, m, ss[k]);
    RunInv(c, ss, ms, k - 1);
    MoverExists(c, s, m.t, m.act);
    SameThreads(c, s, m.t, m.act);
    StepWritesBack(c, s, m.t, m.act, u, p);
    if WritesBack(s.threads[u], p) {
      WrittenBackIsDirty(c, ss, ms, k - 1, u, p);
      OneEvictor(c, s, u, p);
    }
    StepCleans(c, s, m.t, m.act, p);
  }

  lemma FindWritesDisk(c: Config, s: State, t: nat, a: Acq, f: Finder)
    requires c.Valid() && Shape(c, s) && t < |s.threads| && s.threads[t] == Find(a, f)
    ensures var s' := FindNext(c, s, t, a, f);
      if f.WriteBack? then f.slot < |s.data| && s'.disk == s.disk[c.locs[f.victim][f.k] := s.data[f.slot]] else s'.disk == s.disk
  {
    hide Config.Invertible, Config.Disjoint;
  }

  lemma StepWritesDisk(c: Config, s: State, t: nat, act: Action)
    requires c.Valid() && Shape(c, s) && Enabled(c, s, t, act) && Next(c, s, t, act).disk != s.disk
    ensures act.Advance? && s.threads[t].Find? && s.threads[t].f.WriteBack?
    ensures var f := s.threads[t].f;
      && f.victim in c.locs && f.k < |c.locs[f.victim]| && f.slot < |s.data|
      && Next(c, s, t, act).disk == s.disk[c.locs[f.victim][f.k] := s.data[f.slot]]
  {
    hide Config.Valid, FindNext;
    if act.Advance? && s.threads[t].Find? { FindWritesDisk(c, s, t, s.threads[t].a, s.threads[t].f); }
  }

  /** In every run a step writes to disk only the slot of a dirty page, to that page's own
      blocks. */
  lemma DiskChangesOnlyByWriteBack(c: Config, ss: seq<State>, ms: seq<Move>, k: nat) returns (p: PageId, l: nat, slot: nat)
    requires c.Valid() && IsRun(c, ss, ms) && k < |ms| && ss[k + 1].disk != ss[k].disk
    ensures p in c.locs && l < |c.locs[p]| && slot < |ss[k].data|
    ensures ss[k + 1].disk == ss[k].disk[c.locs[p][l] := ss[k].data[slot]]
    ensures IsDirty(ss[k], p) && Resides(c, ss[k], p, slot)
  {
    hide Inv, Config.Valid, Shape, Enabled, Next, Init, IsDirty, Resides;
    var s, m := ss[k], ms[k];
    assert Step(c, s, m, ss[k + 1]);
    RunInv(c, ss, ms, k);
    MoverExists(c, s, m.t, m.act);
    StepWritesDisk(c, s, m.t, m.act);
    var f := s.threads[m.t].f;
    p, l, slot := f.victim, f.k, f.slot;
    WrittenBackIsDirty(c, ss, ms, k, m.t, p);
    VictimResides(c, s, m.t);
  }

  lemma VictimResides(c: Config, s: State, t: nat)
    requires Inv(c, s) && t < |s.threads| && s.threads[t].Find? && s.threads[t].f.WriteBack?
    ensures Resides(c, s, s.threads[t].f.victim, s.threads[t].f.slot)
  {
    hide Inv, Config.Valid, CountInv, BusyInv, LockInv, SlotInv, ThreadsInv, DataInv, ThreadDataInv, Resides;
    Open(c, s, t);
    ValidResides(c, s, s.threads[t].f.victim);
  }

  /** Nobody asks to write page p in the first k moves. */
  predicate OnlyRead(ms: seq<Move>, k: nat, p: PageId)
    requires k <= |ms|
  {
    forall j | 0 <= j < k && ms[j].act.Acquire? && ms[j].act.a.page == p :: !ms[j].act.a.write
  }

  /** In every run, a page that nobody asks to write is never dirty, and its blocks on disk stay
      as they are. */
  lemma {:induction false} OnlyReadStaysOnDisk(c: Config, ss: seq<State>, ms: seq<Move>, k: nat, p: PageId)
    requires c.Valid() && IsRun(c, ss, ms) && k < |ss| && OnlyRead(ms, k, p) && p in c.locs
    ensures !IsDirty(ss[k], p)
    ensures forall l | 0 <= l < |c.locs[p]| ::
      c.locs[p][l] in ss[0].disk && c.locs[p][l] in ss[k].disk && ss[k].disk[c.locs[p][l]] == ss[0].disk[c.locs[p][l]]
  {
    hide Inv, Config.Invertible, Step;
    StartsClean(c, ss, ms, p);
    if k > 0 {
      OnlyReadStaysOnDisk(c, ss, ms, k - 1, p);
      if IsDirty(ss[k], p) {
        DirtyOnlyUnderWrite(c, ss, ms, k - 1, p);
        var j := OpenRequestWasMade(ms, k - 1, ms[k - 1].t);
        assert false;
      }
      if ss[k].disk != ss[k - 1].disk {
        var q, n, slot := DiskChangesOnlyByWriteBack(c, ss, ms, k - 1);
        assert q != p;
      }
    }
  }

  lemma StartsClean(c: Config, ss: seq<State>, ms: seq<Move>, p: PageId)
    requires c.Valid() && IsRun(c, ss, ms) && p in c.locs
    ensures !IsDirty(ss[0], p) && forall l | 0 <= l < |c.locs[p]| :: c.locs[p][l] in ss[0].disk
  {
    hide Config.Valid, Step;
  }
}
