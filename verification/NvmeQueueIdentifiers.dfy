/** Command identifiers are held exactly while somebody uses them, and `get_cid` finds one. */
module NvmeQueueIdentifiers {
  import opened NvmeQueue
  import opened NvmeQueueInvariant
  import opened NvmeQueueSteps
  import opened NvmeQueueTheorems
  import opened NvmeQueueProgress
  import opened Wrappers

  // ---------------------------------------------------------------- who holds an identifier

  /** The identifier that the thread has from `get_cid` and has not put back. */
  function CidOf(th: Thread): Option<nat> {
    if th.Ready? || th.Enqueue? || th.Poll? || th.Dequeue? || th.Release? then Some(th.cid) else None
  }

  predicate HasCid(th: Thread, id: nat) { CidOf(th) == Some(id) }

  ghost predicate CidTaken(ts: seq<Thread>, id: nat) { exists t :: 0 <= t < |ts| && HasCid(ts[t], id) }

  ghost predicate CidsTaken(s: State) {
    forall id | 0 <= id < |s.mem.cids| && s.mem.cids[id] :: CidTaken(s.threads, id)
  }

  lemma StepHandsCid(c: Config, m: Mem, th: Thread, ch: Choice, id: nat)
    requires Defined(c, m, th) && id < CIDS
    ensures var r := ThreadStep(c, m, th, ch);
      && |r.mem.cids| == CIDS
      && (r.mem.cids[id] ==> HasCid(r.th, id) || (m.cids[id] && !HasCid(th, id)))
  {
    hide StepSq, StepCq, StepSqHead, Scan;
  }

  lemma StepKeepsTaken(c: Config, s: State, a: Action, s': State)
    requires Step(c, s, a, s') && CidsTaken(s)
    ensures CidsTaken(s')
  {
    hide ThreadStep, Defined, HasCid;
    if a.Run? {
      var ts, us := s.threads, s'.threads;
      forall id | 0 <= id < |s'.mem.cids| && s'.mem.cids[id] ensures CidTaken(us, id) {
        CidCount(c, s.mem, ts[a.t], a.ch);
        StepHandsCid(c, s.mem, ts[a.t], a.ch, id);
        if HasCid(us[a.t], id) {
        } else {
          var t :| 0 <= t < |ts| && HasCid(ts[t], id);
          assert us[t] == ts[t];
        }
      }
    }
  }

  lemma CidCount(c: Config, m: Mem, th: Thread, ch: Choice)
    requires Defined(c, m, th)
    ensures |m.cids| == |ThreadStep(c, m, th, ch).mem.cids| == CIDS
  {
    hide StepSq, StepCq, StepSqHead, Scan;
  }

  lemma {:induction false} RunCidsTaken(c: Config, ss: seq<State>, acts: seq<Action>, k: nat)
    requires IsRun(c, ss, acts) && k < |ss|
    ensures CidsTaken(ss[k])
  {
    hide Step, CidsTaken;
    if k == 0 { NoneTaken(c, ss[0]); }
    else {
      RunCidsTaken(c, ss, acts, k - 1);
      assert Step(c, ss[k - 1], acts[k - 1], ss[k]);
      StepKeepsTaken(c, ss[k - 1], acts[k - 1], ss[k]);
    }
  }

  lemma NoneTaken(c: Config, s: State)
    requires Init(c, s)
    ensures CidsTaken(s)
  {}

  /** In every reachable state an identifier is locked if and only if some thread is using it,
      and one thread at most does: none is lost when a call ends. */
  lemma CidHeldIffUsed(c: Config, ss: seq<State>, acts: seq<Action>, k: nat, id: nat)
    requires IsRun(c, ss, acts) && k < |ss| && id < CIDS
    ensures |ss[k].mem.cids| == CIDS
    ensures ss[k].mem.cids[id] <==> CidTaken(ss[k].threads, id)
    ensures forall t, u | 0 <= t < |ss[k].threads| && 0 <= u < |ss[k].threads| && HasCid(ss[k].threads[t], id) && HasCid(ss[k].threads[u], id) ::
      t == u
  {
    hide IsRun;
    var s := ss[k];
    RunInv(c, ss, acts, k);
    RunCidsTaken(c, ss, acts, k);
    hide SqInv, CqInv, LiveOk, Fetched, SqOk, CqOk;
    assert forall t | 0 <= t < |s.threads| && HasCid(s.threads[t], id) :: ThreadInv(c, s.mem, s.threads[t]);
    forall t, u | 0 <= t < |s.threads| && 0 <= u < |s.threads| && HasCid(s.threads[t], id) && HasCid(s.threads[u], id)
      ensures t == u
    {
      assert t != u ==> NoClash(c, s.threads[t], s.threads[u]);
    }
  }

  /** An identifier is freed by exactly one step: a thread that is done with it puts it back,
      and does not keep it for a second command. */
  lemma FreedExactlyByPut(c: Config, ss: seq<State>, acts: seq<Action>, k: nat, id: nat)
    requires IsRun(c, ss, acts) && k < |acts| && id < CIDS
    ensures |ss[k].mem.cids| == |ss[k + 1].mem.cids| == CIDS
    ensures ss[k].mem.cids[id] && !ss[k + 1].mem.cids[id] <==>
      acts[k].Run? && acts[k].t < |ss[k].threads| && ss[k].threads[acts[k].t] == Release(id) && !acts[k].ch.again
  {
    hide Step;
    assert Step(c, ss[k], acts[k], ss[k + 1]);
    if acts[k].Run? && acts[k].t < |ss[k].threads| && ss[k].threads[acts[k].t] == Release(id) {
      CidHeldIffUsed(c, ss, acts, k, id);
      assert HasCid(ss[k].threads[acts[k].t], id);
    }
    StepFrees(c, ss[k], acts[k], ss[k + 1], id);
  }

  lemma StepFrees(c: Config, s: State, a: Action, s': State, id: nat)
    requires Step(c, s, a, s') && id < CIDS
    ensures |s.mem.cids| == |s'.mem.cids| == CIDS
    ensures s.mem.cids[id] && !s'.mem.cids[id] <==>
      s.mem.cids[id] && a.Run? && a.t < |s.threads| && s.threads[a.t] == Release(id) && !a.ch.again
  {
    hide StepSq, StepCq, StepSqHead, Scan;
  }

  // ---------------------------------------------------------------- get_cid run alone

  /** The identifiers that the first n threads hold. */
  function HeldBy(ts: seq<Thread>, n: nat): set<nat>
    requires n <= |ts|
  {
    if n == 0 then {}
    else HeldBy(ts, n - 1) + if CidOf(ts[n - 1]).Some? then {CidOf(ts[n - 1]).value} else {}
  }

  lemma {:induction false} HeldByAll(ts: seq<Thread>, n: nat, id: nat)
    requires n <= |ts|
    ensures id in HeldBy(ts, n) <==> exists t :: 0 <= t < n && HasCid(ts[t], id)
  {
    if n > 0 {
      HeldByAll(ts, n - 1, id);
      assert HasCid(ts[n - 1], id) || !HasCid(ts[n - 1], id);
    }
  }

  /** A thread that holds none leaves room for one. */
  lemma {:induction false} HeldBySize(ts: seq<Thread>, n: nat, t: nat)
    requires n <= |ts| && t < |ts| && CidOf(ts[t]).None?
    ensures |HeldBy(ts, n)| <= if t < n then n - 1 else n
  {
    hide CidOf;
    if n > 0 { HeldBySize(ts, n - 1, t); }
  }

  function Ids(n: nat): (r: set<nat>)
    ensures |r| == n && forall id: nat :: id in r <==> id < n
  {
    if n == 0 then {} else Ids(n - 1) + {n - 1}
  }

  lemma SubsetSize(a: set<nat>, b: set<nat>)
    requires a <= b
    ensures |a| <= |b|
  {
    assert b == a + (b - a);
  }

  /** As long as there are no more threads than identifiers, a thread that looks for one has
      one to find. */
  lemma SomeCidIsFree(c: Config, ss: seq<State>, acts: seq<Action>, k: nat, t: nat) returns (id: nat)
    requires IsRun(c, ss, acts) && k < |ss| && t < |ss[k].threads| <= CIDS && (ss[k].threads[t].PickCid? || ss[k].threads[t].LockCid?)
    ensures id < CIDS == |ss[k].mem.cids| && !ss[k].mem.cids[id]
  {
    hide IsRun;
    var ts := ss[k].threads;
    HeldBySize(ts, |ts|, t);
    if Ids(CIDS) <= HeldBy(ts, |ts|) { SubsetSize(Ids(CIDS), HeldBy(ts, |ts|)); }
    id :| id in Ids(CIDS) && id !in HeldBy(ts, |ts|);
    HeldByAll(ts, |ts|, id);
    CidHeldIffUsed(c, ss, acts, k, id);
  }

  /** The j-th identifier that a thread tries from now on. */
  function TriedCid(m: Mem, j: nat): nat { (m.cidTicket + j) % CIDS }

  /** As many tickets as there are identifiers try each of them. */
  lemma EveryCidIsTried(m: Mem, id: nat) returns (j: nat)
    requires id < CIDS
    ensures j < CIDS && TriedCid(m, j) == id
  {
    var a := m.cidTicket % CIDS;
    j := if id >= a then id - a else id + CIDS - a;
    assert m.cidTicket == m.cidTicket / CIDS * CIDS + a;
  }

  /** Steps of thread t alone. */
  ghost predicate IsSolo(c: Config, ss: seq<State>, acts: seq<Action>, t: nat) {
    IsPath(c, ss, acts) && forall k | 0 <= k < |acts| :: acts[k].Run? && acts[k].t == t
  }

  lemma Prepend(c: Config, s: State, a: Action, ss: seq<State>, acts: seq<Action>, t: nat)
    requires IsSolo(c, ss, acts, t) && Step(c, s, a, ss[0]) && a.Run? && a.t == t
    ensures IsSolo(c, [s] + ss, [a] + acts, t) && ([s] + ss)[|acts| + 1] == ss[|acts|]
  {
    hide Step;
  }

  /** What `get_cid` leaves: the thread has the identifier, which nobody had, and nothing else
      has changed but the ticket. */
  ghost predicate GotCid(s: State, s': State, t: nat, id: nat, tickets: nat) {
    && t < |s.threads| && id < |s.mem.cids| && !s.mem.cids[id]
    && s' == State(s.mem.(cidTicket := s.mem.cidTicket + tickets, cids := s.mem.cids[id := true]), s.threads[t := Ready(id)])
  }

  /** One try of `get_cid`. */
  lemma TryCid(c: Config, s: State, t: nat) returns (s1: State, s2: State)
    requires Shape(c, s.mem) && t < |s.threads| && s.threads[t].PickCid?
    ensures var go := Run(t, Choice(0, false)); Step(c, s, go, s1) && Step(c, s1, go, s2)
    ensures var id := TriedCid(s.mem, 0);
      if s.mem.cids[id] then s2 == s.(mem := s.mem.(cidTicket := s.mem.cidTicket + 1)) else GotCid(s, s2, t, id, 1)
  {
    var id := s.mem.cidTicket % CIDS;
    s1 := State(s.mem.(cidTicket := s.mem.cidTicket + 1), s.threads[t := LockCid(id)]);
    if s.mem.cids[id] {
      s2 := s1.(threads := s1.threads[t := PickCid]);
      assert s2.threads == s.threads;
    } else {
      s2 := State(s1.mem.(cids := s1.mem.cids[id := true]), s1.threads[t := Ready(id)]);
      assert s2.threads == s.threads[t := Ready(id)];
    }
  }

  /** `get_cid` run alone: if the identifier of the j-th ticket is free, one is found by then. */
  lemma {:induction false} GetCidBy(c: Config, s: State, t: nat, j: nat) returns (ss: seq<State>, acts: seq<Action>, id: nat, tickets: nat)
    requires Shape(c, s.mem) && t < |s.threads| && s.threads[t].PickCid? && !s.mem.cids[TriedCid(s.mem, j)]
    ensures IsSolo(c, ss, acts, t) && ss[0] == s && GotCid(s, ss[|acts|], t, id, tickets) && 1 <= tickets <= j + 1
    decreases j
  {
    hide Step;
    var go := Run(t, Choice(0, false));
    var s1, s2 := TryCid(c, s, t);
    if s.mem.cids[TriedCid(s.mem, 0)] {
      SameShape(c, s.mem, s2.mem);
      ss, acts, id, tickets := GetCidBy(c, s2, t, j - 1);
      tickets := tickets + 1;
    } else { ss, acts, id, tickets := [s2], [], TriedCid(s.mem, 0), 1; }
    Prepend(c, s1, go, ss, acts, t);
    Prepend(c, s, go, [s1] + ss, [go] + acts, t);
    ss, acts := [s] + ([s1] + ss), [go] + ([go] + acts);
  }

  lemma SameShape(c: Config, m: Mem, m': Mem)
    requires Shape(c, m) && m' == m.(cidTicket := m'.cidTicket)
    ensures Shape(c, m')
  {}

  /** `get_cid` run alone: whenever an identifier is free, it finds one within as many tickets
      as there are identifiers. */
  lemma GetCidEnds(c: Config, s: State, t: nat, free: nat) returns (ss: seq<State>, acts: seq<Action>, id: nat, tickets: nat)
    requires Shape(c, s.mem) && t < |s.threads| && s.threads[t].PickCid? && free < CIDS && !s.mem.cids[free]
    ensures IsSolo(c, ss, acts, t) && ss[0] == s && GotCid(s, ss[|acts|], t, id, tickets) && 1 <= tickets <= CIDS
  {
    hide Step;
    var j := EveryCidIsTried(s.mem, free);
    ss, acts, id, tickets := GetCidBy(c, s, t, j);
  }
}
