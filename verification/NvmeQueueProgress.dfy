/** The queue pair never gets stuck: from every reachable state it can be run until every
    command that was issued is completed and received, without a new command. */
module NvmeQueueProgress {
  import opened Ring
  import opened NvmeQueue
  import opened NvmeQueueInvariant
  import opened NvmeQueueSteps
  import opened NvmeQueueTheorems

  // ---------------------------------------------------------------- who is at work

  /** The thread is between the issue of command n and the passing of its completion. */
  predicate Serves(th: Thread, cid: nat, n: nat) {
    (th.Enqueue? || th.Poll? || (th.Dequeue? && !th.cq.UnlockPos?)) && th.cid == cid && th.n == n
  }

  predicate HoldsTail(th: Thread) { th.Enqueue? && TailHolder(th.sq) }

  predicate HoldsHead(th: Thread) { th.Dequeue? && HeadHolder(th.cq) }

  predicate HoldsSlot(c: Config, th: Thread, p: nat)
    requires c.Valid()
  {
    th.Dequeue? && !th.cq.LockPos? && Pos(c.cqs, th.j) == p
  }

  ghost predicate Served(ts: seq<Thread>, cid: nat, n: nat) { exists t :: 0 <= t < |ts| && Serves(ts[t], cid, n) }

  ghost predicate TailHeld(ts: seq<Thread>) { exists t :: 0 <= t < |ts| && HoldsTail(ts[t]) }

  ghost predicate HeadHeld(ts: seq<Thread>) { exists t :: 0 <= t < |ts| && HoldsHead(ts[t]) }

  ghost predicate SlotTaken(c: Config, ts: seq<Thread>, p: nat)
    requires c.Valid()
  {
    exists t :: 0 <= t < |ts| && HoldsSlot(c, ts[t], p)
  }

  ghost predicate IsPosted(posted: seq<Posted>, n: nat) { exists j :: 0 <= j < |posted| && posted[j].n == n }

  /** Every live command has a thread, and every lock that is held a holder. */
  ghost predicate Owned(c: Config, s: State) {
    && c.Valid()
    && (forall cid | cid in s.mem.live :: Served(s.threads, cid, s.mem.live[cid]))
    && (s.mem.sq.locked ==> TailHeld(s.threads))
    && (s.mem.cq.locked ==> HeadHeld(s.threads))
    && (forall p | 0 <= p < |s.mem.cq.posLock| && s.mem.cq.posLock[p] :: SlotTaken(c, s.threads, p))
  }

  /** A producer has added its one before its completion is looked for. */
  ghost predicate BumpedFirst(s: State) {
    && s.mem.cq.consumed <= s.mem.sq.bumped
    && forall t | 0 <= t < |s.threads| && (s.threads[t].Poll? || s.threads[t].Dequeue?) :: s.threads[t].n in s.mem.sq.bumped
  }

  /** What is fetched is in progress or completed. */
  ghost predicate Accounted(m: Mem) {
    forall n: nat | n < m.ctrl.head :: n in m.ctrl.pending || IsPosted(m.cq.posted, n)
  }

  ghost predicate Peopled(c: Config, s: State) {
    Owned(c, s) && BumpedFirst(s) && Accounted(s.mem)
  }

  /** A step of a thread gives up what it gives up, and keeps the rest. */
  ghost predicate HandsOver(c: Config, m: Mem, th: Thread, r: Out)
    requires c.Valid()
  {
    && (forall cid | cid in r.mem.live :: Serves(r.th, cid, r.mem.live[cid])
         || (cid in m.live && m.live[cid] == r.mem.live[cid] && !Serves(th, cid, m.live[cid])))
    && (r.mem.sq.locked ==> HoldsTail(r.th) || (m.sq.locked && !HoldsTail(th)))
    && (r.mem.cq.locked ==> HoldsHead(r.th) || (m.cq.locked && !HoldsHead(th)))
    && |r.mem.cq.posLock| == |m.cq.posLock|
    && (forall p | 0 <= p < |m.cq.posLock| && r.mem.cq.posLock[p] ::
          HoldsSlot(c, r.th, p) || (m.cq.posLock[p] && !HoldsSlot(c, th, p)))
  }

  lemma SqHandsOver(c: Config, q: Sq, n: nat, pc: SqPc, cmd: Cmd)
    requires c.Valid() && |q.tickets| == |q.tailMark| == |q.mem| == c.sqs
    ensures var r := StepSq(c, q, n, pc, cmd);
      && (r.0.locked ==> TailHolder(r.1) || (q.locked && !TailHolder(pc)))
      && (pc.Bump? ==> r.1.Bump?)
      && r.0.bumped == if pc.Bump? then q.bumped + {n} else q.bumped
  {}

  lemma CqHandsOver(c: Config, q: Cq, n: nat, j: nat, h0: nat, pc: CqPc)
    requires c.Valid() && |q.mem| == |q.headMark| == |q.posLock| == c.cqs && (pc.ReadSqhd? ==> pc.k > 0)
    ensures var r := StepCq(c, q, n, j, h0, pc);
      && (r.0.locked ==> HeadHolder(r.1) || (q.locked && !HeadHolder(pc)))
      && (r.1.LockPos? ==> pc.LockPos? && r.0 == q)
      && (r.1.UnlockPos? ==> pc.UnlockPos? || pc.Await?) && (pc.UnlockPos? ==> r.1.UnlockPos?)
      && r.0.posted == q.posted
      && |r.0.posLock| == |q.posLock|
      && (forall p | 0 <= p < c.cqs && r.0.posLock[p] :: if p == Pos(c.cqs, j) then !pc.UnlockPos? && (q.posLock[p] || !r.1.LockPos?) else q.posLock[p])
      && r.0.consumed == (if pc.MarkHead? then q.consumed + {n} else q.consumed)
  {}

  lemma SqHeadHandsOver(c: Config, q: Sq, pc: CqPc)
    requires c.Valid() && |q.tickets| == c.sqs && OnSqHead(pc)
    ensures var r := StepSqHead(c, q, pc); r.0.locked == q.locked && r.0.bumped == q.bumped && HeadHolder(r.1)
  {}

  lemma StepHandsOver(c: Config, m: Mem, th: Thread, ch: Choice, r: Out)
    requires Defined(c, m, th) && r == ThreadStep(c, m, th, ch)
    ensures HandsOver(c, m, th, r)
  {
    hide StepSq, StepCq, StepSqHead, Scan;
    match th
    case Enqueue(cid, n, pc) => SqHandsOver(c, m.sq, n, pc, m.sq.issued[n]);
    case Dequeue(cid, n, j, h0, pc) =>
      if OnSqHead(pc) { SqHeadHandsOver(c, m.sq, pc); } else { CqHandsOver(c, m.cq, n, j, h0, pc); }
    case _ =>
  }

  /** So every live command keeps a thread, and every held lock a holder. */
  lemma HandOverKeeps(c: Config, s: State, t: nat, r: Out)
    requires Owned(c, s) && t < |s.threads| && HandsOver(c, s.mem, s.threads[t], r)
    ensures Owned(c, State(r.mem, s.threads[t := r.th]))
  {
    hide Serves, HoldsTail, HoldsHead, HoldsSlot;
    var ts, us := s.threads, s.threads[t := r.th];
    assert us[t] == r.th;
    forall cid | cid in r.mem.live ensures Served(us, cid, r.mem.live[cid]) {
      if !Serves(r.th, cid, r.mem.live[cid]) {
        var u :| 0 <= u < |ts| && Serves(ts[u], cid, s.mem.live[cid]);
        assert us[u] == ts[u];
      }
    }
    if r.mem.sq.locked && !HoldsTail(r.th) {
      var u :| 0 <= u < |ts| && HoldsTail(ts[u]);
      assert us[u] == ts[u];
    }
    if r.mem.cq.locked && !HoldsHead(r.th) {
      var u :| 0 <= u < |ts| && HoldsHead(ts[u]);
      assert us[u] == ts[u];
    }
    forall p | 0 <= p < |r.mem.cq.posLock| && r.mem.cq.posLock[p] ensures SlotTaken(c, us, p) {
      if !HoldsSlot(c, r.th, p) {
        var u :| 0 <= u < |ts| && HoldsSlot(c, ts[u], p);
        assert us[u] == ts[u];
      }
    }
  }

  lemma StepBumps(c: Config, m: Mem, th: Thread, ch: Choice, r: Out)
    requires Defined(c, m, th) && r == ThreadStep(c, m, th, ch)
    requires m.cq.consumed <= m.sq.bumped && (th.Poll? || th.Dequeue? ==> th.n in m.sq.bumped)
    ensures m.sq.bumped <= r.mem.sq.bumped && r.mem.cq.consumed <= r.mem.sq.bumped
    ensures r.th.Poll? || r.th.Dequeue? ==> r.th.n in r.mem.sq.bumped
    ensures r.mem.ctrl == m.ctrl && r.mem.cq.posted == m.cq.posted
  {
    hide StepSq, StepCq, StepSqHead, Scan;
    match th
    case Enqueue(cid, n, pc) => SqHandsOver(c, m.sq, n, pc, m.sq.issued[n]);
    case Dequeue(cid, n, j, h0, pc) =>
      if OnSqHead(pc) { SqHeadHandsOver(c, m.sq, pc); } else { CqHandsOver(c, m.cq, n, j, h0, pc); }
    case _ =>
  }

  lemma FetchAccounts(m: Mem, c: Config)
    requires Shape(c, m) && Accounted(m)
    ensures Accounted(StepFetch(c, m))
  {}

  lemma CompleteAccounts(m: Mem, c: Config, n: nat)
    requires Shape(c, m) && Accounted(m) && n in m.ctrl.pending
    ensures Accounted(StepComplete(c, m, n))
  {
    var m' := StepComplete(c, m, n);
    forall i: nat | i < m.ctrl.head ensures i in m'.ctrl.pending || IsPosted(m'.cq.posted, i) {
      if i == n { assert m'.cq.posted[|m.cq.posted|].n == n; }
      else if IsPosted(m.cq.posted, i) {
        var j :| 0 <= j < |m.cq.posted| && m.cq.posted[j].n == i;
        assert m'.cq.posted[j].n == i;
      }
    }
  }

  lemma StepKeepsPeopled(c: Config, s: State, a: Action, s': State)
    requires Peopled(c, s) && Step(c, s, a, s')
    ensures Peopled(c, s')
  {
    hide ThreadStep, Defined, HandsOver, Accounted;
    match a
    case Run(t, ch) =>
      var r := ThreadStep(c, s.mem, s.threads[t], ch);
      StepHandsOver(c, s.mem, s.threads[t], ch, r);
      HandOverKeeps(c, s, t, r);
      StepBumps(c, s.mem, s.threads[t], ch, r);
      SameAccounts(s.mem, r.mem);
    case Fetch => FetchAccounts(s.mem, c);
    case Complete(n) => CompleteAccounts(s.mem, c, n);
  }

  lemma SameAccounts(m: Mem, m': Mem)
    requires Accounted(m) && m'.ctrl == m.ctrl && m'.cq.posted == m.cq.posted
    ensures Accounted(m')
  {}

  lemma {:induction false} RunPeopled(c: Config, ss: seq<State>, acts: seq<Action>, k: nat)
    requires IsRun(c, ss, acts) && k < |ss|
    ensures Peopled(c, ss[k])
  {
    hide Step, Peopled;
    if k == 0 { InitPeopled(c, ss[0]); }
    else {
      RunPeopled(c, ss, acts, k - 1);
      assert Step(c, ss[k - 1], acts[k - 1], ss[k]);
      StepKeepsPeopled(c, ss[k - 1], acts[k - 1], ss[k]);
    }
  }

  lemma InitPeopled(c: Config, s: State)
    requires Init(c, s)
    ensures Peopled(c, s)
  {}

  // ---------------------------------------------------------------- who can go on

  /** The next holder of the tail lock will move the tail. */
  predicate TailGoes(c: Config, q: Sq)
    requires c.Valid() && |q.tailMark| == c.sqs
  {
    Pos(c.sqs, q.tailP + 1) != Pos(c.sqs, q.head) && q.tailMark[Pos(c.sqs, q.tailP)]
  }

  /** The next holder of the head lock will move the head. */
  predicate HeadGoes(c: Config, q: Cq)
    requires c.Valid() && |q.headMark| == c.cqs
  {
    q.headMark[Pos(c.cqs, q.headP)]
  }

  /** The thread's step in `sq_enqueue` does more than wait. */
  predicate SqMoves(c: Config, q: Sq, n: nat, pc: SqPc)
    requires c.Valid() && |q.tickets| == |q.tailMark| == c.sqs
  {
    match pc
    case Wait => q.tickets[Pos(c.sqs, n)] == 2 * Lap(c.sqs, n)
    case Check => !q.tailMark[Pos(c.sqs, n)] || TailGoes(c, q)
    case TryLock => !q.locked
    case _ => true
  }

  /** Likewise in `cq_dequeue`. */
  predicate CqMoves(c: Config, q: Cq, j: nat, h0: nat, pc: CqPc)
    requires c.Valid() && |q.headMark| == |q.posLock| == c.cqs
  {
    match pc
    case LockPos => !q.posLock[Pos(c.cqs, j)]
    case CheckMark => !q.headMark[Pos(c.cqs, j)] || HeadGoes(c, q)
    case TryHead => !q.locked
    case Await => HeadPassed(q.head, j, h0)
    case _ => true
  }

  predicate Moves(c: Config, m: Mem, th: Thread)
    requires Shape(c, m)
  {
    match th
    case Enqueue(cid, n, pc) => SqMoves(c, m.sq, n, pc)
    case Poll(cid, n) => Scan(c, m.cq.mem, m.cq.head, cid, 0).At?
    case Dequeue(cid, n, j, h0, pc) => CqMoves(c, m.cq, j, h0, pc)
    case _ => false
  }

  /** A step that brings some command further, and issues none. */
  predicate Useful(c: Config, s: State, a: Action)
    requires Shape(c, s.mem)
  {
    match a
    case Run(t, ch) => t < |s.threads| && Moves(c, s.mem, s.threads[t])
    case Fetch => CanFetch(c, s.mem)
    case Complete(n) => CanComplete(c, s.mem, n)
  }

  predicate Busy(th: Thread) { th.Enqueue? || th.Poll? || th.Dequeue? }

  /** Both locks are free. */
  predicate Quiescent(m: Mem) { !m.sq.locked && !m.cq.locked }

  lemma ShapeOf(c: Config, s: State)
    requires Inv(c, s)
    ensures Shape(c, s.mem)
  {
    hide CqOrder, Completions, CqMemOk, HeadMarks, SqOrder, Turnstile, TailMarks, QueueMem, Fetched, LiveOk, ThreadInv;
  }

  /** A ticket behind the tail need not wait once the tail lock is free. */
  lemma BehindTailMoves(c: Config, q: Sq, n: nat, pc: SqPc)
    requires SqOk(c, q, n, pc) && n < q.tailP && !q.locked
    ensures SqMoves(c, q, n, pc)
  {
    hide Turn;
  }

  /** The holder of the slot at the head, or of one behind it, need not wait once the head
      lock is free. */
  lemma SlotHolderMoves(c: Config, q: Cq, sh: nat, sp: nat, n: nat, j: nat, h0: nat, pc: CqPc)
    requires CqOk(c, q, sh, sp, n, j, h0, pc) && !pc.LockPos? && !q.locked && q.headP == q.head
    requires j < q.head || Pos(c.cqs, j) == Pos(c.cqs, q.head)
    ensures CqMoves(c, q, j, h0, pc)
  {
    hide Pos, HeadPcOk;
  }

  /** With both locks free the counters of each queue agree. */
  lemma SettledCounters(c: Config, s: State)
    requires Inv(c, s) && Quiescent(s.mem)
    ensures var q, r := s.mem.sq, s.mem.cq;
      && q.tailP == q.dbT && s.mem.ctrl.head <= q.tailP <= |q.issued|
      && r.headP == r.head == r.dbH <= |r.posted| && q.headP == q.head == HeadAt(r.posted, r.head)
  {
    hide Completions, CqMemOk, HeadMarks, Turnstile, TailMarks, QueueMem, Fetched, LiveOk, ThreadInv;
  }

  /** Command n, not passed by the completion queue's head, has a thread. */
  lemma LiveHasThread(c: Config, s: State, n: nat) returns (t: nat)
    requires Inv(c, s) && Peopled(c, s) && Live(s.mem.sq.issued, s.mem.live, n)
    ensures t < |s.threads| && Serves(s.threads[t], s.mem.sq.issued[n].cid, n) && ThreadInv(c, s.mem, s.threads[t])
  {
    hide Globals, ThreadInv, Serves, Accounted, BumpedFirst;
    t :| 0 <= t < |s.threads| && Serves(s.threads[t], s.mem.sq.issued[n].cid, n);
  }

  lemma OldestIsLive(c: Config, s: State)
    requires Inv(c, s) && s.mem.cq.head < |s.mem.cq.posted|
    ensures var n := s.mem.cq.posted[s.mem.cq.head].n; Live(s.mem.sq.issued, s.mem.live, n) && n < s.mem.ctrl.head
  {
    hide SqInv, CqOrder, CqMemOk, HeadMarks, Fetched, ThreadInv, Live;
  }

  /** A completion is posted once. */
  lemma PostedOnce(c: Config, s: State, i: nat, j: nat)
    requires Inv(c, s) && i < |s.mem.cq.posted| && j < |s.mem.cq.posted| && s.mem.cq.posted[i].n == s.mem.cq.posted[j].n
    ensures i == j
  {
    hide SqInv, CqOrder, CqMemOk, HeadMarks, Fetched, LiveOk, ThreadInv;
  }

  /** While a completion waits at the head, its thread or another one that is in its way can
      go on. */
  lemma OldestIsTakenUp(c: Config, s: State) returns (t: nat)
    requires Inv(c, s) && Peopled(c, s) && Quiescent(s.mem) && s.mem.cq.head < |s.mem.cq.posted|
    ensures Shape(c, s.mem) && t < |s.threads| && Moves(c, s.mem, s.threads[t])
  {
    hide Inv, Peopled, SqOk, CqOk, SqMoves, CqMoves;
    ShapeOf(c, s);
    SettledCounters(c, s);
    OldestIsLive(c, s);
    var q := s.mem.cq;
    var j := q.head;
    t := LiveHasThread(c, s, q.posted[j].n);
    match s.threads[t]
    case Enqueue(cid, n, pc) => BehindTailMoves(c, s.mem.sq, n, pc);
    case Poll(cid, n) => PollFindsExactlyWhenPosted(c, s, t, cid, n, j);
    case Dequeue(cid, n, i, h0, pc) =>
      CompletionOf(c, q, s.mem.sq.head, s.mem.sq.headP, n, i, h0, pc);
      PostedOnce(c, s, i, j);
      if !pc.LockPos? { SlotHolderMoves(c, q, s.mem.sq.head, s.mem.sq.headP, n, i, h0, pc); }
      else if q.posLock[Pos(c.cqs, j)] { t := SlotOwnerMoves(c, s); }
      else { FreeSlotMoves(c, q, j, h0); }
  }

  lemma CompletionOf(c: Config, q: Cq, sh: nat, sp: nat, n: nat, j: nat, h0: nat, pc: CqPc)
    requires CqOk(c, q, sh, sp, n, j, h0, pc)
    ensures j < |q.posted| && q.posted[j].n == n
  {}

  lemma FreeSlotMoves(c: Config, q: Cq, j: nat, h0: nat)
    requires c.Valid() && |q.headMark| == |q.posLock| == c.cqs && !q.posLock[Pos(c.cqs, j)]
    ensures CqMoves(c, q, j, h0, LockPos)
  {}

  lemma SlotOwnerMoves(c: Config, s: State) returns (t: nat)
    requires Inv(c, s) && Peopled(c, s) && Quiescent(s.mem)
    requires Shape(c, s.mem) && s.mem.cq.posLock[Pos(c.cqs, s.mem.cq.head)]
    ensures t < |s.threads| && Moves(c, s.mem, s.threads[t])
  {
    SettledCounters(c, s);
    hide Globals, CqOk, CqMoves, Accounted, BumpedFirst, Pos;
    t :| 0 <= t < |s.threads| && HoldsSlot(c, s.threads[t], Pos(c.cqs, s.mem.cq.head));
    var th := s.threads[t];
    assert ThreadInv(c, s.mem, th);
    SlotHolderMoves(c, s.mem.cq, s.mem.sq.head, s.mem.sq.headP, th.n, th.j, th.h0, th.cq);
  }

  /** Both locks are free, the controller has nothing to do, and no completion waits. */
  ghost predicate AtRest(s: State) {
    && Quiescent(s.mem) && s.mem.ctrl.head == s.mem.sq.tailP && s.mem.ctrl.pending == map[]
    && s.mem.cq.head == |s.mem.cq.posted|
  }

  /** Then everything behind the tail is done with. */
  lemma BehindTailIsDone(c: Config, s: State, n: nat)
    requires Inv(c, s) && Peopled(c, s) && AtRest(s) && n < s.mem.sq.tailP
    ensures n in s.mem.cq.consumed && n in s.mem.sq.bumped
  {
    SettledCounters(c, s);
    hide SqInv, CqOrder, CqMemOk, Completions, Fetched, LiveOk, Owned, ThreadInv;
    assert IsPosted(s.mem.cq.posted, n);
  }

  lemma LastReportsAll(posted: seq<Posted>, f: nat)
    requires Completions(posted, map[], f) && forall n: nat | n < f :: IsPosted(posted, n)
    ensures HeadAt(posted, |posted|) == f
  {
    if f > 0 {
      assert IsPosted(posted, 0);
      var h := posted[|posted| - 1].h;
      assert h >= f || IsPosted(posted, h);
    }
  }

  /** The ring is empty as far as the threads know. */
  lemma RingIsEmpty(c: Config, s: State)
    requires Inv(c, s) && Peopled(c, s) && AtRest(s)
    ensures s.mem.sq.head == s.mem.sq.headP == s.mem.sq.tailP <= |s.mem.sq.issued|
  {
    SettledCounters(c, s);
    hide SqInv, CqOrder, CqMemOk, HeadMarks, Fetched, LiveOk, Owned, ThreadInv;
    LastReportsAll(s.mem.cq.posted, s.mem.ctrl.head);
  }

  /** The first ticket ahead of the tail finds its turnstile open, or its mark lets the tail
      move. */
  lemma FirstAheadMoves(c: Config, q: Sq, f: nat, n: nat, pc: SqPc)
    requires SqInv(c, q, f) && SqOk(c, q, n, pc) && !q.locked && n == q.tailP == q.headP == q.head
    requires n >= c.sqs ==> n - c.sqs in q.bumped
    ensures SqMoves(c, q, n, pc)
  {
    hide TailMarks, QueueMem;
    if pc.Wait? {
      assert TicketOk(c.sqs, q.tickets, q.bumped, q.headP, n);
      if n >= c.sqs { assert TicketOk(c.sqs, q.tickets, q.bumped, q.headP, n - c.sqs); }
    } else if Pos(c.sqs, n) == Pos(c.sqs, n + 1) { PosInjective(c.sqs, n, n + 1); }
  }

  lemma TicketAheadIsNotBumped(c: Config, s: State, n: nat)
    requires Inv(c, s) && n in s.mem.sq.bumped
    ensures n < s.mem.sq.tailP
  {
    hide CqInv, TailMarks, QueueMem, TicketOk, Turn, LiveOk, Fetched, ThreadInv;
  }

  lemma UnfetchedIsLive(c: Config, s: State, n: nat)
    requires Inv(c, s) && s.mem.ctrl.head <= n < |s.mem.sq.issued|
    ensures Live(s.mem.sq.issued, s.mem.live, n)
  {
    hide CqInv, SqInv, Fetched, ThreadInv, Live;
  }

  /** At rest, the thread of the first ticket ahead of the tail can go on. */
  lemma NextTicketMoves(c: Config, s: State) returns (t: nat)
    requires Inv(c, s) && Peopled(c, s) && AtRest(s) && s.mem.sq.tailP < |s.mem.sq.issued|
    ensures Shape(c, s.mem) && t < |s.threads| && Moves(c, s.mem, s.threads[t])
  {
    hide Globals, Owned, Accounted, SqOk, CqOk, SqMoves, SqInv;
    ShapeOf(c, s);
    RingIsEmpty(c, s);
    var n := s.mem.sq.tailP;
    UnfetchedIsLive(c, s, n);
    t := LiveHasThread(c, s, n);
    var th := s.threads[t];
    if n in s.mem.sq.bumped { TicketAheadIsNotBumped(c, s, n); }
    assert th.Enqueue?;
    if n >= c.sqs { BehindTailIsDone(c, s, n - c.sqs); }
    SqInvOf(c, s);
    FirstAheadMoves(c, s.mem.sq, s.mem.ctrl.head, n, th.sq);
  }

  lemma SqInvOf(c: Config, s: State)
    requires Inv(c, s)
    ensures SqInv(c, s.mem.sq, s.mem.ctrl.head)
  {
    hide CqInv, SqInv, Fetched, LiveOk, ThreadInv;
  }

  /** At rest, a thread that is not in `sq_enqueue` is on its way out of `cq_dequeue`. */
  lemma LeaversMove(c: Config, s: State, t: nat)
    requires Inv(c, s) && Peopled(c, s) && AtRest(s) && t < |s.threads| && Busy(s.threads[t])
    ensures Shape(c, s.mem)
    ensures if s.threads[t].Enqueue? then s.mem.sq.tailP < |s.mem.sq.issued| || Moves(c, s.mem, s.threads[t])
      else Moves(c, s.mem, s.threads[t])
  {
    hide Globals, Owned, Accounted, SqOk, CqOk, SqMoves, CqMoves, SqInv, CqInv;
    ShapeOf(c, s);
    SettledCounters(c, s);
    var th := s.threads[t];
    assert ThreadInv(c, s.mem, th);
    match th
    case Enqueue(cid, n, pc) =>
      if n < s.mem.sq.tailP { BehindTailMoves(c, s.mem.sq, n, pc); }
    case Poll(cid, n) =>
      TicketAheadIsNotBumped(c, s, n);
      BehindTailIsDone(c, s, n);
      assert false;
    case Dequeue(cid, n, j, h0, pc) =>
      CompletionOf(c, s.mem.cq, s.mem.sq.head, s.mem.sq.headP, n, j, h0, pc);
      TicketAheadIsNotBumped(c, s, n);
      BehindTailIsDone(c, s, n);
      if pc.LockPos? { NotYetConsumed(c, s.mem.cq, s.mem.sq.head, s.mem.sq.headP, n, j, h0); assert false; }
      else { SlotHolderMoves(c, s.mem.cq, s.mem.sq.head, s.mem.sq.headP, n, j, h0, pc); }
  }

  lemma NotYetConsumed(c: Config, q: Cq, sh: nat, sp: nat, n: nat, j: nat, h0: nat)
    requires CqOk(c, q, sh, sp, n, j, h0, LockPos)
    ensures n !in q.consumed
  {}

  lemma HolderMoves(c: Config, s: State) returns (t: nat)
    requires Inv(c, s) && Peopled(c, s) && !Quiescent(s.mem)
    ensures Shape(c, s.mem) && t < |s.threads| && Moves(c, s.mem, s.threads[t])
  {
    hide Globals, ThreadInv, Accounted, BumpedFirst;
    ShapeOf(c, s);
    if s.mem.sq.locked { t :| 0 <= t < |s.threads| && HoldsTail(s.threads[t]); }
    else { t :| 0 <= t < |s.threads| && HoldsHead(s.threads[t]); }
  }

  lemma CoveredIsFetched(c: Config, s: State)
    requires Inv(c, s)
    ensures c.Valid() && (CanFetch(c, s.mem) <==> s.mem.ctrl.head < s.mem.sq.dbT)
  {
    hide CqInv, SqInv, Fetched, LiveOk, ThreadInv;
    FetchIsCovered(c, s.mem.sq, s.mem.ctrl.head);
  }

  lemma RoomToComplete(c: Config, s: State, n: nat)
    requires Inv(c, s) && Quiescent(s.mem) && s.mem.cq.head == |s.mem.cq.posted| && n in s.mem.ctrl.pending
    ensures c.Valid() && CanComplete(c, s.mem, n)
  {
    SettledCounters(c, s);
    hide SqInv, Fetched, LiveOk, ThreadInv, CqMemOk, Completions, HeadMarks;
    RoomIsSeen(c, s.mem.cq, s.mem.ctrl, s.mem.sq.issued, s.mem.sq.head, s.mem.sq.headP);
  }

  /** Freedom from deadlock: while a thread is inside `sq_enqueue`, `cq_poll` or `cq_dequeue`,
      some step does more than spin. */
  lemma SomethingMoves(c: Config, s: State, u: nat) returns (a: Action)
    requires Inv(c, s) && Peopled(c, s) && u < |s.threads| && Busy(s.threads[u])
    ensures Shape(c, s.mem) && Useful(c, s, a)
  {
    hide Inv, Peopled, CanFetch, CanComplete, Moves;
    ShapeOf(c, s);
    CoveredIsFetched(c, s);
    var go := Choice(0, false);
    if !Quiescent(s.mem) {
      var t := HolderMoves(c, s);
      return Run(t, go);
    }
    SettledCounters(c, s);
    if CanFetch(c, s.mem) { return Fetch; }
    if s.mem.cq.head < |s.mem.cq.posted| {
      var t := OldestIsTakenUp(c, s);
      return Run(t, go);
    }
    if s.mem.ctrl.pending != map[] {
      var n :| n in s.mem.ctrl.pending;
      RoomToComplete(c, s, n);
      return Complete(n);
    }
    LeaversMove(c, s, u);
    if Moves(c, s.mem, s.threads[u]) { return Run(u, go); }
    var t := NextTicketMoves(c, s);
    return Run(t, go);
  }

  // ---------------------------------------------------------------- what is left to do

  /** The events of a thread's command that are still to come. */
  function Stage(th: Thread): nat {
    match th
    case Enqueue(cid, n, pc) => SqStage(pc)
    case Poll(cid, n) => 6
    case Dequeue(cid, n, j, h0, pc) => CqStage(pc)
    case _ => 0
  }

  function SqStage(pc: SqPc): nat {
    match pc
    case Wait => 11
    case Write => 10
    case Mark => 9
    case Bump => 7
    case _ => 8
  }

  function CqStage(pc: CqPc): nat {
    match pc
    case LockPos => 5
    case MarkHead => 4
    case Await => 2
    case UnlockPos => 1
    case _ => 3
  }

  /** The steps before the tail moves, or, if it cannot, before the thread waits again. */
  function TailRank(pc: SqPc, goes: bool): nat {
    match pc
    case Check => if goes then 5 else 0
    case TryLock => if goes then 4 else 7
    case LoadTail => if goes then 3 else 6
    case Full(cur, k) => if goes then 2 else 5
    case Exchange(cur, k) => if goes then 1 else 4
    case Doorbell(cur, k) => if goes then 8 else 3
    case StoreTail(cur, k) => if goes then 7 else 2
    case UnlockTail => if goes then 6 else 1
    case _ => 0
  }

  /** Likewise for the completion queue's head. */
  function HeadRank(pc: CqPc, goes: bool): nat {
    match pc
    case CheckMark => if goes then 5 else 0
    case TryHead => if goes then 4 else 11
    case LoadHead => if goes then 3 else 10
    case Sweep(cur, k) => if goes then 2 else 9
    case ReadSqhd(cur, k) => if goes then 12 else 8
    case LoadSqHead(cur, k, target) => if goes then 11 else 7
    case Walk(cur, k, target, base, i) => if goes then 10 else 6
    case AddSqHead(cur, k, i) => if goes then 9 else 5
    case RingCq(cur, k) => if goes then 8 else 4
    case StoreHead(cur, k) => if goes then 7 else 3
    case UnlockHead => if goes then 6 else 2
    case _ => 0
  }

  function Rank(th: Thread, tail: bool, head: bool): nat {
    match th
    case Enqueue(cid, n, pc) => TailRank(pc, tail)
    case Dequeue(cid, n, j, h0, pc) => HeadRank(pc, head)
    case _ => 0
  }

  /** How far the shared counters are from the end. */
  function SqTodo(q: Sq): int { 3 * |q.issued| - q.tailP - q.headP - q.head }

  function Todo(m: Mem): int {
    SqTodo(m.sq) + 3 * (|m.sq.issued| - m.ctrl.head) + 2 * |m.ctrl.pending| + |m.cq.posted| - m.cq.headP
  }

  lemma TodoNotNegative(c: Config, s: State)
    requires Inv(c, s)
    ensures Todo(s.mem) >= 0
  {
    hide Completions, CqMemOk, HeadMarks, Turnstile, TailMarks, QueueMem, Fetched, LiveOk, ThreadInv;
  }

  /** A useful step in `sq_enqueue` brings an event, or comes nearer to one. */
  lemma SqStepLess(c: Config, q: Sq, n: nat, pc: SqPc, cmd: Cmd)
    requires SqOk(c, q, n, pc) && SqMoves(c, q, n, pc) && !pc.Bump?
    ensures var r := StepSq(c, q, n, pc, cmd);
      && r.0.issued == q.issued && r.0.headP == q.headP && r.0.head == q.head && |r.0.tailMark| == c.sqs
      && (|| SqStage(r.1) - r.0.tailP < SqStage(pc) - q.tailP
          || (&& SqStage(r.1) - r.0.tailP == SqStage(pc) - q.tailP
              && TailGoes(c, r.0) == TailGoes(c, q) && TailRank(r.1, TailGoes(c, q)) < TailRank(pc, TailGoes(c, q))))
  {
    hide Turn, Pos;
  }

  lemma CqStepLess(c: Config, q: Cq, sh: nat, sp: nat, n: nat, j: nat, h0: nat, pc: CqPc)
    requires CqOk(c, q, sh, sp, n, j, h0, pc) && CqMoves(c, q, j, h0, pc) && !OnSqHead(pc) && !pc.UnlockPos?
    requires pc.ReadSqhd? ==> pc.k > 0
    ensures var r := StepCq(c, q, n, j, h0, pc);
      && |r.0.posted| == |q.posted| && |r.0.headMark| == c.cqs
      && (|| CqStage(r.1) - r.0.headP < CqStage(pc) - q.headP
          || (&& CqStage(r.1) - r.0.headP == CqStage(pc) - q.headP
              && HeadGoes(c, r.0) == HeadGoes(c, q) && HeadRank(r.1, HeadGoes(c, q)) < HeadRank(pc, HeadGoes(c, q))))
  {
    hide Pos;
  }

  lemma SqHeadStepLess(c: Config, q: Sq, cq: Cq, pc: CqPc, goes: bool)
    requires c.Valid() && |q.tickets| == |q.tailMark| == c.sqs && OnSqHead(pc) && HeadPcOk(c, cq, q.head, q.headP, pc)
    ensures var r := StepSqHead(c, q, pc);
      && r.0.issued == q.issued && |r.0.tailMark| == c.sqs && CqStage(r.1) == CqStage(pc)
      && (|| SqTodo(r.0) < SqTodo(q)
          || (SqTodo(r.0) == SqTodo(q) && TailGoes(c, r.0) == TailGoes(c, q) && HeadRank(r.1, goes) < HeadRank(pc, goes)))
  {
    hide Pos;
  }

  /** A thread's useful step takes it and the shared memory nearer to the end. */
  ghost predicate Nearer(c: Config, m: Mem, th: Thread, r: Out)
    requires Shape(c, m) && Shape(c, r.mem)
  {
    || Stage(r.th) + Todo(r.mem) < Stage(th) + Todo(m)
    || (&& Stage(r.th) + Todo(r.mem) == Stage(th) + Todo(m)
        && TailGoes(c, r.mem.sq) == TailGoes(c, m.sq) && HeadGoes(c, r.mem.cq) == HeadGoes(c, m.cq)
        && Rank(r.th, TailGoes(c, m.sq), HeadGoes(c, m.cq)) < Rank(th, TailGoes(c, m.sq), HeadGoes(c, m.cq)))
  }

  lemma EnqueueNearer(c: Config, m: Mem, cid: nat, n: nat, pc: SqPc, r: Out)
    requires Defined(c, m, Enqueue(cid, n, pc)) && SqOk(c, m.sq, n, pc) && SqMoves(c, m.sq, n, pc)
    requires r == StepEnqueue(c, m, cid, n, pc, m.sq.issued[n]) && Shape(c, r.mem)
    ensures Nearer(c, m, Enqueue(cid, n, pc), r) && r.mem.sq.issued == m.sq.issued
  {
    if pc.Bump? {
      hide Pos, TailGoes, HeadGoes, SqOk, SqMoves;
      assert r.th == Poll(cid, n) && r.mem.sq.tailP == m.sq.tailP && SqTodo(r.mem.sq) == SqTodo(m.sq);
    } else {
      hide Pos, TailGoes, HeadGoes, SqOk, SqMoves, StepSq, SqStage, TailRank;
      SqStepLess(c, m.sq, n, pc, m.sq.issued[n]);
    }
  }

  lemma DequeueNearer(c: Config, m: Mem, cid: nat, n: nat, j: nat, h0: nat, pc: CqPc, r: Out)
    requires Defined(c, m, Dequeue(cid, n, j, h0, pc)) && CqOk(c, m.cq, m.sq.head, m.sq.headP, n, j, h0, pc)
    requires CqMoves(c, m.cq, j, h0, pc)
    requires r == StepDequeue(c, m, cid, n, j, h0, pc) && Shape(c, r.mem)
    ensures Nearer(c, m, Dequeue(cid, n, j, h0, pc), r) && r.mem.sq.issued == m.sq.issued
  {
    hide Pos, TailGoes, HeadGoes, CqOk, CqMoves, StepSqHead, CqStage, HeadRank;
    if OnSqHead(pc) {
      hide StepCq;
      OpenSqHead(c, m.cq, m.sq.head, m.sq.headP, n, j, h0, pc);
      SqHeadStepLess(c, m.sq, m.cq, pc, HeadGoes(c, m.cq));
    } else if pc.UnlockPos? {
      assert CqStage(UnlockPos) > 0 by { LastStage(); }
      assert r.th == Release(cid) && r.mem.cq.headP == m.cq.headP;
    } else {
      hide StepCq;
      CqStepLess(c, m.cq, m.sq.head, m.sq.headP, n, j, h0, pc);
    }
  }

  lemma LastStage()
    ensures CqStage(UnlockPos) == 1
  {}

  lemma ThreadNearer(c: Config, m: Mem, th: Thread, ch: Choice, r: Out)
    requires Defined(c, m, th) && Globals(c, m) && ThreadInv(c, m, th) && Moves(c, m, th)
    requires r == ThreadStep(c, m, th, ch) && Shape(c, r.mem)
    ensures Nearer(c, m, th, r) && r.mem.sq.issued == m.sq.issued
  {
    hide Globals, SqOk, CqOk, SqMoves, CqMoves, StepSq, StepCq, StepSqHead, Scan, TailGoes, HeadGoes, Current;
    match th
    case Enqueue(cid, n, pc) =>
      hide Nearer;
      EnqueueNearer(c, m, cid, n, pc, r);
    case Dequeue(cid, n, j, h0, pc) =>
      hide Nearer;
      DequeueNearer(c, m, cid, n, j, h0, pc, r);
    case _ =>
  }

  function Stages(ts: seq<Thread>, n: nat): nat
    requires n <= |ts|
  {
    if n == 0 then 0 else Stages(ts, n - 1) + Stage(ts[n - 1])
  }

  function Ranks(ts: seq<Thread>, n: nat, tail: bool, head: bool): nat
    requires n <= |ts|
  {
    if n == 0 then 0 else Ranks(ts, n - 1, tail, head) + Rank(ts[n - 1], tail, head)
  }

  lemma {:induction false} StagesUpdate(ts: seq<Thread>, n: nat, t: nat, th: Thread)
    requires t < |ts| && n <= |ts|
    ensures Stages(ts[t := th], n) == Stages(ts, n) + if t < n then Stage(th) - Stage(ts[t]) else 0
  {
    if n > 0 { StagesUpdate(ts, n - 1, t, th); }
  }

  lemma {:induction false} RanksUpdate(ts: seq<Thread>, n: nat, t: nat, th: Thread, tail: bool, head: bool)
    requires t < |ts| && n <= |ts|
    ensures Ranks(ts[t := th], n, tail, head) ==
      Ranks(ts, n, tail, head) + if t < n then Rank(th, tail, head) - Rank(ts[t], tail, head) else 0
  {
    if n > 0 { RanksUpdate(ts, n - 1, t, th, tail, head); }
  }

  /** The events to come until every issued command is done with. */
  function Events(s: State): int { Stages(s.threads, |s.threads|) + Todo(s.mem) }

  /** The steps until the next event. */
  function Distance(c: Config, s: State): nat
    requires Shape(c, s.mem)
  {
    Ranks(s.threads, |s.threads|, TailGoes(c, s.mem.sq), HeadGoes(c, s.mem.cq))
  }

  /** Every useful step brings the end nearer. */
  lemma UsefulStepIsNearer(c: Config, s: State, a: Action) returns (s': State)
    requires Inv(c, s) && Peopled(c, s) && Shape(c, s.mem) && Useful(c, s, a)
    ensures Step(c, s, a, s') && Inv(c, s') && Peopled(c, s') && Shape(c, s'.mem) && s'.mem.sq.issued == s.mem.sq.issued
    ensures 0 <= Events(s') < Events(s) || (0 <= Events(s') == Events(s) && Distance(c, s') < Distance(c, s))
  {
    hide Inv, Peopled, Globals, ThreadInv, Moves, ThreadStep, Defined, Nearer, TailGoes, HeadGoes, Stage, Rank;
    match a
    case Run(t, ch) =>
      ThreadStepDefined(c, s, t, ch);
      var r := ThreadStep(c, s.mem, s.threads[t], ch);
      s' := State(r.mem, s.threads[t := r.th]);
      StepKeepsInv(c, s, a, s');
      StepKeepsPeopled(c, s, a, s');
      ShapeOf(c, s');
      RunIsNearer(c, s, t, ch, r);
      TodoNotNegative(c, s');
    case Fetch =>
      s' := s.(mem := StepFetch(c, s.mem));
      StepKeepsInv(c, s, a, s');
      StepKeepsPeopled(c, s, a, s');
      ShapeOf(c, s');
      FetchIsEvent(c, s.mem);
      TodoNotNegative(c, s');
    case Complete(n) =>
      s' := s.(mem := StepComplete(c, s.mem, n));
      StepKeepsInv(c, s, a, s');
      StepKeepsPeopled(c, s, a, s');
      ShapeOf(c, s');
      CompleteIsEvent(c, s.mem, n);
      TodoNotNegative(c, s');
  }

  lemma ThreadStepDefined(c: Config, s: State, t: nat, ch: Choice)
    requires Inv(c, s) && t < |s.threads|
    ensures Defined(c, s.mem, s.threads[t]) && Globals(c, s.mem) && ThreadInv(c, s.mem, s.threads[t])
  {
    hide Globals, ThreadInv, NoClash;
    ThreadStepKeeps(c, s.mem, s.threads[t], ch);
  }

  lemma RunIsNearer(c: Config, s: State, t: nat, ch: Choice, r: Out)
    requires Inv(c, s) && Shape(c, s.mem) && t < |s.threads| && Moves(c, s.mem, s.threads[t])
    requires Defined(c, s.mem, s.threads[t]) && r == ThreadStep(c, s.mem, s.threads[t], ch) && Shape(c, r.mem)
    ensures var s' := State(r.mem, s.threads[t := r.th]);
      && r.mem.sq.issued == s.mem.sq.issued
      && (Events(s') < Events(s) || (Events(s') == Events(s) && Distance(c, s') < Distance(c, s)))
  {
    hide Inv, ThreadStep, Defined, TailGoes, HeadGoes, Stage, Rank, Todo, Moves;
    ThreadStepDefined(c, s, t, ch);
    ThreadNearer(c, s.mem, s.threads[t], ch, r);
    StagesUpdate(s.threads, |s.threads|, t, r.th);
    RanksUpdate(s.threads, |s.threads|, t, r.th, TailGoes(c, s.mem.sq), HeadGoes(c, s.mem.cq));
  }

  lemma FetchIsEvent(c: Config, m: Mem)
    requires Shape(c, m)
    ensures Todo(StepFetch(c, m)) < Todo(m)
  {
    assert m.ctrl.head in m.ctrl.pending || |m.ctrl.pending[m.ctrl.head := m.sq.mem[Pos(c.sqs, m.ctrl.head)]]| == |m.ctrl.pending| + 1;
  }

  lemma CompleteIsEvent(c: Config, m: Mem, n: nat)
    requires Shape(c, m) && n in m.ctrl.pending
    ensures Todo(StepComplete(c, m, n)) < Todo(m)
  {
    assert (m.ctrl.pending - {n}).Keys == m.ctrl.pending.Keys - {n};
  }

  // ---------------------------------------------------------------- every run can be finished

  /** Every issued command is completed and received, and no thread is on the way. */
  ghost predicate Finished(s: State) {
    && (forall t | 0 <= t < |s.threads| :: !Busy(s.threads[t]))
    && s.mem.ctrl.head == |s.mem.sq.issued| && s.mem.ctrl.pending == map[]
    && s.mem.cq.head == |s.mem.cq.posted|
    && (forall n: nat | n < |s.mem.sq.issued| :: IsPosted(s.mem.cq.posted, n) && n in s.mem.cq.consumed)
  }

  lemma NobodyBusyIsFinished(c: Config, s: State)
    requires Inv(c, s) && Peopled(c, s) && forall t | 0 <= t < |s.threads| :: !Busy(s.threads[t])
    ensures Finished(s)
  {
    NothingLive(c, s);
    NothingHeld(c, s);
    AllFetched(c, s);
    hide Inv, Peopled;
    forall n: nat | n < |s.mem.sq.issued| ensures IsPosted(s.mem.cq.posted, n) && n in s.mem.cq.consumed {
      BehindTailIsDone(c, s, n);
      FetchedIsPosted(c, s, n);
    }
  }

  lemma FetchedIsPosted(c: Config, s: State, n: nat)
    requires Peopled(c, s) && n < s.mem.ctrl.head && s.mem.ctrl.pending == map[]
    ensures IsPosted(s.mem.cq.posted, n)
  {
    hide Owned, BumpedFirst;
  }

  lemma NothingLive(c: Config, s: State)
    requires Peopled(c, s) && forall t | 0 <= t < |s.threads| :: !Busy(s.threads[t])
    ensures s.mem.live == map[]
  {
    hide BumpedFirst, Accounted;
    assert forall cid | cid in s.mem.live :: Served(s.threads, cid, s.mem.live[cid]);
  }

  lemma NothingHeld(c: Config, s: State)
    requires Peopled(c, s) && forall t | 0 <= t < |s.threads| :: !Busy(s.threads[t])
    ensures Quiescent(s.mem)
  {
    hide BumpedFirst, Accounted;
  }

  lemma AllFetched(c: Config, s: State)
    requires Inv(c, s) && s.mem.live == map[] && Quiescent(s.mem)
    ensures AtRest(s) && s.mem.ctrl.head == |s.mem.sq.issued|
  {
    SettledCounters(c, s);
    NotLive(c, s);
  }

  lemma NotLive(c: Config, s: State)
    requires Inv(c, s) && s.mem.live == map[]
    ensures |s.mem.sq.issued| <= s.mem.ctrl.head && s.mem.ctrl.pending == map[] && |s.mem.cq.posted| <= s.mem.cq.head
  {
    hide Inv, Live;
    forall n ensures !Live(s.mem.sq.issued, s.mem.live, n) { NoneLive(s.mem.sq.issued, s.mem.live, n); }
    if s.mem.cq.head < |s.mem.cq.posted| { OldestIsLive(c, s); }
    if s.mem.ctrl.head < |s.mem.sq.issued| { UnfetchedIsLive(c, s, s.mem.ctrl.head); }
    PendingIsLive(c, s);
  }

  lemma NoneLive(issued: seq<Cmd>, live: map<nat, nat>, n: nat)
    requires live == map[]
    ensures !Live(issued, live, n)
  {}

  lemma PendingIsLive(c: Config, s: State)
    requires Inv(c, s)
    ensures forall n | n in s.mem.ctrl.pending :: Live(s.mem.sq.issued, s.mem.live, n)
  {
    hide CqInv, SqInv, Fetched, ThreadInv, Live;
  }

  ghost predicate IsPath(c: Config, ss: seq<State>, acts: seq<Action>) {
    |ss| == |acts| + 1 && forall k | 0 <= k < |acts| :: Step(c, ss[k], acts[k], ss[k + 1])
  }

  lemma {:induction false} FinishFrom(c: Config, s: State) returns (ss: seq<State>, acts: seq<Action>)
    requires Inv(c, s) && Peopled(c, s) && Shape(c, s.mem) && Events(s) >= 0
    ensures IsPath(c, ss, acts) && ss[0] == s && Finished(ss[|acts|]) && ss[|acts|].mem.sq.issued == s.mem.sq.issued
    decreases Events(s), Distance(c, s)
  {
    hide Inv, Peopled, Step, Useful, Finished, Events, Distance, Shape, Busy;
    if u: nat :| u < |s.threads| && Busy(s.threads[u]) {
      var a := SomethingMoves(c, s, u);
      var s' := UsefulStepIsNearer(c, s, a);
      var rest, later := FinishFrom(c, s');
      ss, acts := [s] + rest, [a] + later;
    } else {
      NobodyBusyIsFinished(c, s);
      ss, acts := [s], [];
    }
  }

  /** Every run can be continued, without another command, until every command that was
      issued is completed and received: no interleaving ends in a deadlock, nor where threads
      could only spin. */
  lemma EveryRunCanFinish(c: Config, ss: seq<State>, acts: seq<Action>) returns (more: seq<State>, acts': seq<Action>)
    requires IsRun(c, ss, acts)
    ensures IsRun(c, ss + more, acts + acts')
    ensures var s, s' := ss[|acts|], (ss + more)[|acts| + |acts'|]; Finished(s') && s'.mem.sq.issued == s.mem.sq.issued
  {
    hide Inv, Peopled, Step, Finished, Events, Init;
    var s := ss[|acts|];
    RunInv(c, ss, acts, |acts|);
    RunPeopled(c, ss, acts, |acts|);
    ShapeOf(c, s);
    EventsNotNegative(c, s);
    var path, later := FinishFrom(c, s);
    more, acts' := path[1..], later;
    forall k | 0 <= k < |acts + acts'| ensures Step(c, (ss + more)[k], (acts + acts')[k], (ss + more)[k + 1]) {
      if k < |acts| { assert Step(c, ss[k], acts[k], ss[k + 1]); }
      else { assert Step(c, path[k - |acts|], later[k - |acts|], path[k - |acts| + 1]); }
    }
  }

  lemma EventsNotNegative(c: Config, s: State)
    requires Inv(c, s)
    ensures Events(s) >= 0
  {
    hide Inv;
    TodoNotNegative(c, s);
  }
}
