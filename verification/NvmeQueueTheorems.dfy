/** What the NVMe queue pair promises over every run. */
module NvmeQueueTheorems {
  import opened Ring
  import opened NvmeQueue
  import opened NvmeQueueInvariant
  import opened NvmeQueueSteps
  import opened Wrappers

  /** Any interleaving of threads and controller, from an empty queue pair. */
  ghost predicate IsRun(c: Config, ss: seq<State>, acts: seq<Action>) {
    && |ss| == |acts| + 1
    && Init(c, ss[0])
    && (forall k | 0 <= k < |acts| :: Step(c, ss[k], acts[k], ss[k + 1]))
  }

  lemma {:induction false} RunInv(c: Config, ss: seq<State>, acts: seq<Action>, k: nat)
    requires IsRun(c, ss, acts) && k < |ss|
    ensures Inv(c, ss[k])
  {
    hide Init, Step, Inv;
    if k == 0 { InitInv(c, ss[0]); }
    else {
      RunInv(c, ss, acts, k - 1);
      assert Step(c, ss[k - 1], acts[k - 1], ss[k]);
      StepKeepsInv(c, ss[k - 1], acts[k - 1], ss[k]);
    }
  }

  /** No thread is ever without a next step that is defined. */
  lemma StepsAreDefined(c: Config, ss: seq<State>, acts: seq<Action>, k: nat, t: nat)
    requires IsRun(c, ss, acts) && k < |ss| && t < |ss[k].threads|
    ensures Defined(c, ss[k].mem, ss[k].threads[t])
  {
    hide IsRun, Globals, ThreadInv;
    RunInv(c, ss, acts, k);
    ThreadStepKeeps(c, ss[k].mem, ss[k].threads[t], Choice(0, false));
  }

  // ---------------------------------------------------------------- completion matching

  ghost predicate Polls(th: Thread, n: nat) {
    (th.Enqueue? || th.Poll?) && th.n == n
  }

  /** The entry a thread gets from `cq_poll` is the completion of its own command, the only
      completion that command ever gets, and no other thread is waiting for it. */
  lemma CompletionMatches(c: Config, ss: seq<State>, acts: seq<Action>, k: nat, t: nat, cid: nat, n: nat)
    requires IsRun(c, ss, acts) && k < |ss| && t < |ss[k].threads| && ss[k].threads[t] == Poll(cid, n)
    ensures var m := ss[k].mem;
      && Shape(c, m) && n < |m.sq.issued| && m.sq.issued[n].cid == cid
      && match Scan(c, m.cq.mem, m.cq.head, cid, 0)
         case Nothing => true
         case At(j) =>
           && j < |m.cq.posted| && m.cq.posted[j].n == n
           && m.cq.mem[Pos(c.cqs, j)] == Entry(cid, Phase(c.cqs, j), Pos(c.sqs, m.cq.posted[j].h))
           && (forall i | 0 <= i < |m.cq.posted| && m.cq.posted[i].n == n :: i == j)
           && (forall u | 0 <= u < |ss[k].threads| && u != t :: !Polls(ss[k].threads[u], n))
  {
    var m := ss[k].mem;
    hide IsRun, SqInv, LiveOk, Fetched, SqOk, CqOk, HeadMarks;
    RunInv(c, ss, acts, k);
    assert Shape(c, m) by { ThreadStepKeeps(c, m, ss[k].threads[t], Choice(0, false)); }
    PollFindsOwn(c, m, cid, n);
    ScanResult(c, m.cq.mem, m.cq.head, cid, 0);
    var r := Scan(c, m.cq.mem, m.cq.head, cid, 0);
    if r.At? {
      PhaseTellsPosted(c, m.cq, m.ctrl, m.sq.issued, m.sq.head, m.sq.headP, r.j);
      OnlyOneWaits(c, ss[k], t, cid, n);
    }
  }

  lemma OnlyOneWaits(c: Config, s: State, t: nat, cid: nat, n: nat)
    requires Inv(c, s) && t < |s.threads| && Current(s.mem.cids, s.mem.live, s.mem.sq.issued, cid, n)
    requires GripOf(c, s.threads[t]).cid == Some(cid)
    ensures forall u | 0 <= u < |s.threads| && u != t :: !Polls(s.threads[u], n)
  {
    assert c.Valid();
    hide Globals, SqOk, CqOk;
    forall u | 0 <= u < |s.threads| && u != t ensures !Polls(s.threads[u], n) {
      assert NoClash(c, s.threads[t], s.threads[u]) && ThreadInv(c, s.mem, s.threads[u]);
    }
  }

  /** A scan that starts at the doorbell's head stops only at the end of what is posted. */
  lemma {:induction false} ScanReaches(c: Config, q: Cq, ctrl: Ctrl, issued: seq<Cmd>, sh: nat, sp: nat, cid: nat,
          i: nat, j: nat)
    requires CqInv(c, q, ctrl, issued, sh, sp) && q.head == q.dbH
    requires q.head + i <= j < |q.posted| && q.posted[j].n < |issued| && issued[q.posted[j].n].cid == cid
    requires forall x | q.head + i <= x < j && q.posted[x].n < |issued| :: issued[q.posted[x].n].cid != cid
    ensures Scan(c, q.mem, q.head, cid, i) == At(j)
    decreases j - i
  {
    assert EntryOk(c, q.mem, issued, q.posted, q.head + i);
    hide Completions, HeadMarks, CqMemOk;
    if q.head + i < j { ScanReaches(c, q, ctrl, issued, sh, sp, cid, i + 1, j); }
  }

  /** While the head mover is not between the doorbell and the new head, a thread finds its
      completion as soon as it is posted. */
  lemma PollFindsExactlyWhenPosted(c: Config, s: State, t: nat, cid: nat, n: nat, j: nat)
    requires Inv(c, s) && t < |s.threads| && s.threads[t] == Poll(cid, n) && s.mem.cq.head == s.mem.cq.dbH
    ensures Shape(c, s.mem)
    ensures Scan(c, s.mem.cq.mem, s.mem.cq.head, cid, 0) == At(j) <==> j < |s.mem.cq.posted| && s.mem.cq.posted[j].n == n
  {
    var m := s.mem;
    assert Shape(c, m) by { ThreadStepKeeps(c, m, s.threads[t], Choice(0, false)); }
    PollFindsOwn(c, m, cid, n);
    if j < |m.cq.posted| && m.cq.posted[j].n == n {
      hide Scan, SqInv;
      assert m.cq.head <= j;
      forall x | m.cq.head <= x < j && m.cq.posted[x].n < |m.sq.issued| ensures m.sq.issued[m.cq.posted[x].n].cid != cid {
        assert Live(m.sq.issued, m.live, m.cq.posted[x].n);
      }
      ScanReaches(c, m.cq, m.ctrl, m.sq.issued, m.sq.head, m.sq.headP, cid, 0, j);
    }
  }

  // ---------------------------------------------------------------- exactly once

  /** Thread t's step at k is the scan that finds its completion. */
  ghost predicate Receives(c: Config, ss: seq<State>, acts: seq<Action>, k: nat, t: nat, n: nat)
    requires |ss| == |acts| + 1 && k < |acts|
  {
    && acts[k].Run? && acts[k].t == t < |ss[k].threads| && t < |ss[k + 1].threads|
    && ss[k].threads[t].Poll? && ss[k].threads[t].n == n && ss[k + 1].threads[t].Dequeue?
  }

  /** Command n is issued and nobody waits for it any more. */
  ghost predicate Over(s: State, n: nat) {
    n < s.mem.sq.inTicket && forall t | 0 <= t < |s.threads| :: !Polls(s.threads[t], n)
  }

  lemma TicketsGrow(c: Config, m: Mem, th: Thread, ch: Choice, n: nat)
    requires Defined(c, m, th) && n < m.sq.inTicket && !Polls(th, n)
    ensures var r := ThreadStep(c, m, th, ch); m.sq.inTicket <= r.mem.sq.inTicket && !Polls(r.th, n)
  {
    hide Scan;
    if OnSqDequeue(th) { SqHeadStepKeepsTickets(c, m.sq, th.cq); }
  }

  predicate OnSqDequeue(th: Thread) { th.Dequeue? && OnSqHead(th.cq) }

  lemma SqHeadStepKeepsTickets(c: Config, q: Sq, pc: CqPc)
    requires c.Valid() && |q.tickets| == c.sqs
    ensures StepSqHead(c, q, pc).0.inTicket == q.inTicket
  {}

  lemma OverStays(c: Config, s: State, a: Action, s': State, n: nat)
    requires Step(c, s, a, s') && Over(s, n)
    ensures Over(s', n)
  {
    hide ThreadStep, Defined;
    match a
    case Run(t, ch) => TicketsGrow(c, s.mem, s.threads[t], ch, n);
    case _ =>
  }

  lemma {:induction false} OverStaysAlong(c: Config, ss: seq<State>, acts: seq<Action>, i: nat, k: nat, n: nat)
    requires IsRun(c, ss, acts) && i <= k < |ss| && Over(ss[i], n)
    ensures Over(ss[k], n)
  {
    hide Step, Over, Init;
    if i < k {
      OverStaysAlong(c, ss, acts, i, k - 1, n);
      assert Step(c, ss[k - 1], acts[k - 1], ss[k]);
      OverStays(c, ss[k - 1], acts[k - 1], ss[k], n);
    }
  }

  /** No command's completion is received twice in a run. */
  lemma ReceivedOnce(c: Config, ss: seq<State>, acts: seq<Action>, i: nat, k: nat, t: nat, u: nat, n: nat)
    requires IsRun(c, ss, acts) && i < k < |acts| && Receives(c, ss, acts, i, t, n)
    ensures !Receives(c, ss, acts, k, u, n)
  {
    hide ThreadStep, Init, Globals, SqOk, CqOk;
    var s, s' := ss[i], ss[i + 1];
    RunInv(c, ss, acts, i);
    RunInv(c, ss, acts, i + 1);
    assert Step(c, s, acts[i], s');
    assert ThreadInv(c, s.mem, s.threads[t]);
    PollReceives(c, s.mem, s.threads[t].cid, n);
    StillCurrent(c, s, acts[i].ch, t, n);
    OnlyOneWaits(c, s', t, s.threads[t].cid, n);
    assert n < |s'.mem.sq.issued| == s'.mem.sq.inTicket by { TicketsIssued(c, s'); }
    assert Over(s', n);
    OverStaysAlong(c, ss, acts, i + 1, k, n);
  }

  lemma TicketsIssued(c: Config, s: State)
    requires Inv(c, s)
    ensures |s.mem.sq.issued| == s.mem.sq.inTicket
  {}

  lemma PollReceives(c: Config, m: Mem, cid: nat, n: nat)
    requires Shape(c, m)
    ensures var r := StepPoll(c, m, cid, n); r.mem == m && (r.th.Dequeue? ==> r.th.cq.LockPos? && r.th.n == n && r.th.cid == cid)
  {}

  lemma StillCurrent(c: Config, s: State, ch: Choice, t: nat, n: nat)
    requires Inv(c, s) && t < |s.threads| && s.threads[t].Poll? && s.threads[t].n == n && Defined(c, s.mem, s.threads[t])
    ensures var r := ThreadStep(c, s.mem, s.threads[t], ch);
      Current(r.mem.cids, r.mem.live, r.mem.sq.issued, s.threads[t].cid, n) && GripOf(c, r.th).cid == Some(s.threads[t].cid)
  {
    hide Globals, Scan;
    assert ThreadInv(c, s.mem, s.threads[t]);
  }

  /** The completion queue head passes only completions that their threads have found, and
      the controller overwrites only such. */
  lemma HeadPassesOnlyConsumed(c: Config, ss: seq<State>, acts: seq<Action>, k: nat)
    requires IsRun(c, ss, acts) && k < |ss|
    ensures var q := ss[k].mem.cq;
      && q.head <= q.headP <= |q.posted|
      && (forall j | 0 <= j < q.headP :: q.posted[j].n in q.consumed)
      && (forall j, t | 0 <= j < q.headP && 0 <= t < |ss[k].threads| :: !Polls(ss[k].threads[t], q.posted[j].n))
  {
    hide IsRun, SqInv, LiveOk, Fetched, SqOk, CqOk, CqMemOk, Completions;
    RunInv(c, ss, acts, k);
    forall j, t | 0 <= j < ss[k].mem.cq.headP && 0 <= t < |ss[k].threads| ensures !Polls(ss[k].threads[t], ss[k].mem.cq.posted[j].n) {
      assert ThreadInv(c, ss[k].mem, ss[k].threads[t]);
    }
  }

  /** A completion is overwritten only after its thread has found it. */
  lemma ControllerOverwritesOnlyConsumed(c: Config, s: State, n: nat, j: nat)
    requires Inv(c, s) && CanComplete(c, s.mem, n)
    requires j < |s.mem.cq.posted| && Pos(c.cqs, j) == Pos(c.cqs, s.mem.ctrl.tail)
    ensures s.mem.cq.posted[j].n in s.mem.cq.consumed
  {
    var m := s.mem;
    RoomIsSeen(c, m.cq, m.ctrl, m.sq.issued, m.sq.head, m.sq.headP);
    hide SqInv, LiveOk, Fetched, CqMemOk, Completions;
    SameSlot(c.cqs, j, m.ctrl.tail);
  }

  /** Two commands that the controller has not both completed have different identifiers. */
  lemma IdentifiersInFlightDiffer(c: Config, s: State, n1: nat, n2: nat)
    requires Inv(c, s) && n1 != n2
    requires n1 in s.mem.ctrl.pending || s.mem.ctrl.head <= n1 < |s.mem.sq.issued|
    requires n2 in s.mem.ctrl.pending || s.mem.ctrl.head <= n2 < |s.mem.sq.issued|
    ensures n1 < |s.mem.sq.issued| && n2 < |s.mem.sq.issued| && s.mem.sq.issued[n1].cid != s.mem.sq.issued[n2].cid
  {
    hide SqInv, CqInv, Fetched;
    assert Live(s.mem.sq.issued, s.mem.live, n1) && Live(s.mem.sq.issued, s.mem.live, n2);
  }

  // ---------------------------------------------------------------- the submission turnstile

  function Bit(b: bool): nat { if b then 1 else 0 }

  /** A ticket whose producer is done and which the head has passed. */
  ghost predicate TicketDone(q: Sq, n: nat) { n in q.bumped && n < q.headP }

  /** The ticket that a slot is waiting for: the one before it there is done, it is not. */
  ghost predicate CurrentTicket(c: Config, q: Sq, n: nat) {
    (n >= c.sqs ==> TicketDone(q, n - c.sqs)) && !TicketDone(q, n)
  }

  /** Slot p has a current ticket: the first one of the slot that is not done. */
  lemma {:induction false} SlotHasCurrent(c: Config, q: Sq, first: nat) returns (n: nat)
    requires c.Valid() && (first >= c.sqs ==> TicketDone(q, first - c.sqs))
    ensures n >= first && Pos(c.sqs, n) == Pos(c.sqs, first) && CurrentTicket(c, q, n)
    decreases q.headP + c.sqs - first
  {
    if TicketDone(q, first) {
      PosRound(c.sqs, first);
      n := SlotHasCurrent(c, q, first + c.sqs);
    } else { n := first; }
  }

  lemma CurrentTicketCounts(c: Config, q: Sq, n: nat)
    requires c.Valid() && Turnstile(c.sqs, q.tickets, q.bumped, q.headP, q.tailP) && CurrentTicket(c, q, n)
    ensures |q.tickets| == c.sqs && q.tickets[Pos(c.sqs, n)] == 2 * Lap(c.sqs, n) + Bit(n in q.bumped) + Bit(n < q.headP)
  {
    hide Turnstile, Pos, Lap, TicketOk, Bit;
    TicketIsOk(c, q, n);
    RoundIsOpen(c, q, n);
    CountsBits(q.tickets[Pos(c.sqs, n)], Lap(c.sqs, n), n in q.bumped, n < q.headP);
  }

  /** The slot's earlier rounds are over. */
  lemma RoundIsOpen(c: Config, q: Sq, n: nat)
    requires c.Valid() && Turnstile(c.sqs, q.tickets, q.bumped, q.headP, q.tailP) && CurrentTicket(c, q, n)
    ensures |q.tickets| == c.sqs && q.tickets[Pos(c.sqs, n)] >= 2 * Lap(c.sqs, n)
  {
    hide Turnstile, Pos, Lap, TicketOk;
    TicketIsOk(c, q, n);
    LapBack(c.sqs, n);
    if n >= c.sqs {
      var m := n - c.sqs;
      TicketIsOk(c, q, m);
      assert TicketDone(q, m);
    }
  }

  lemma CountsBits(v: nat, lap: nat, a: bool, b: bool)
    requires v >= 2 * lap && !(a && b) && (v >= 2 * lap + 1 <==> a || b) && v < 2 * lap + 2
    ensures v == 2 * lap + Bit(a) + Bit(b)
  {}

  lemma LapBack(q: nat, x: nat)
    requires q > 0
    ensures if x >= q then Pos(q, x - q) == Pos(q, x) && Lap(q, x - q) + 1 == Lap(q, x) else Lap(q, x) == 0
  {}

  lemma TicketIsOk(c: Config, q: Sq, n: nat)
    requires c.Valid() && Turnstile(c.sqs, q.tickets, q.bumped, q.headP, q.tailP)
    ensures |q.tickets| == c.sqs
    ensures q.tickets[Pos(c.sqs, n)] >= 2 * Lap(c.sqs, n) + 1 <==> n in q.bumped || n < q.headP
    ensures q.tickets[Pos(c.sqs, n)] >= 2 * Lap(c.sqs, n) + 2 <==> TicketDone(q, n)
  {
    assert TicketOk(c.sqs, q.tickets, q.bumped, q.headP, n);
    hide Turnstile;
  }

  /** Every slot p has a current ticket, and `tickets[p]` is twice that ticket's round plus the
      number of the round's two increments that are done. */
  lemma TurnstileCounts(c: Config, s: State, p: nat) returns (n: nat)
    requires Inv(c, s) && p < c.sqs
    ensures Pos(c.sqs, n) == p && CurrentTicket(c, s.mem.sq, n)
    ensures var q := s.mem.sq;
      |q.tickets| == c.sqs && q.tickets[p] == 2 * Lap(c.sqs, n) + Bit(n in q.bumped) + Bit(n < q.headP)
  {
    hide CqInv, LiveOk, Fetched, Turnstile, TailMarks, QueueMem, ThreadInv, CurrentTicket;
    n := SlotHasCurrent(c, s.mem.sq, p);
    CurrentTicketCounts(c, s.mem.sq, n);
  }

  predicate Writes(th: Thread) { th.Enqueue? && (th.sq.Write? || th.sq.Mark?) }

  /** A slot is rewritten only after the controller has reported the slot's previous command
      fetched, and its producer is done with it. */
  lemma SlotReusedAfterFetch(c: Config, s: State, t: nat)
    requires Inv(c, s) && t < |s.threads| && Writes(s.threads[t]) && s.threads[t].n >= c.sqs
    ensures var n := s.threads[t].n - c.sqs; var q := s.mem.sq;
      && n in q.bumped && n < q.headP <= |s.mem.ctrl.fetched|
      && exists j :: 0 <= j < |s.mem.cq.posted| && n < s.mem.cq.posted[j].h
  {
    hide CqInv, LiveOk, TailMarks, QueueMem, CqOk;
    assert ThreadInv(c, s.mem, s.threads[t]);
    var q := s.mem.sq;
    var n := s.threads[t].n;
    PosBack(c.sqs, n);
    EarlierTicketsDone(c, q, n - c.sqs, n);
    HeadReported(c, s);
  }

  /** What the turnstiles have passed, some posted completion has reported. */
  lemma HeadReported(c: Config, s: State)
    requires Inv(c, s)
    ensures s.mem.sq.headP > 0 ==> exists j :: 0 <= j < |s.mem.cq.posted| && s.mem.sq.headP <= s.mem.cq.posted[j].h
  {
    hide LiveOk, Fetched, CqMemOk, HeadMarks, SqInv;
    var q := s.mem.cq;
    if s.mem.sq.headP > 0 { assert s.mem.sq.headP <= q.posted[q.headP - 1].h; }
  }

  /** Two threads that write commands write to different slots. */
  lemma WritersHaveOwnSlots(c: Config, s: State, t: nat, u: nat)
    requires Inv(c, s) && t < |s.threads| && u < |s.threads| && t != u && Writes(s.threads[t]) && Writes(s.threads[u])
    ensures Pos(c.sqs, s.threads[t].n) != Pos(c.sqs, s.threads[u].n)
  {
    hide CqInv, LiveOk, Fetched, TailMarks, QueueMem, CqOk;
    assert ThreadInv(c, s.mem, s.threads[t]) && ThreadInv(c, s.mem, s.threads[u]) && NoClash(c, s.threads[t], s.threads[u]);
    SlotsApart(c, s.mem.sq, s.threads[t].n, s.threads[u].n);
  }

  // ---------------------------------------------------------------- what the callers asked for

  /** The command that a step asks the queue pair to carry out: a caller of `sq_enqueue` comes
      with an identifier and the rest of its command. */
  ghost function Asked(s: State, a: Action): seq<Cmd> {
    if a.Run? && a.t < |s.threads| && s.threads[a.t].Ready? then [Cmd(s.threads[a.t].cid, a.ch.payload)] else []
  }

  /** All that was asked for in the first k steps, in order. */
  ghost function AskedAlong(ss: seq<State>, acts: seq<Action>, k: nat): seq<Cmd>
    requires |ss| == |acts| + 1 && k <= |acts|
  {
    if k == 0 then [] else AskedAlong(ss, acts, k - 1) + Asked(ss[k - 1], acts[k - 1])
  }

  lemma StepIssuesAsked(c: Config, s: State, a: Action, s': State)
    requires Step(c, s, a, s')
    ensures s'.mem.sq.issued == s.mem.sq.issued + Asked(s, a)
  {
    hide StepSq, StepCq, StepSqHead, Scan;
    if a.Run? {
      match s.threads[a.t]
      case Enqueue(cid, n, pc) => SqStepFrame(c, s.mem.sq, n, pc, s.mem.sq.issued[n]);
      case Dequeue(cid, n, j, h0, pc) => if OnSqHead(pc) { SqHeadFrame(c, s.mem.sq, pc); }
      case _ =>
    }
  }

  /** Over every run, the issued commands are those that callers asked for, in order. */
  lemma {:induction false} IssuedAreAsked(c: Config, ss: seq<State>, acts: seq<Action>, k: nat)
    requires IsRun(c, ss, acts) && k < |ss|
    ensures ss[k].mem.sq.issued == AskedAlong(ss, acts, k)
  {
    hide Step, Asked;
    if k > 0 {
      IssuedAreAsked(c, ss, acts, k - 1);
      assert Step(c, ss[k - 1], acts[k - 1], ss[k]);
      StepIssuesAsked(c, ss[k - 1], acts[k - 1], ss[k]);
    }
  }

  /** The thread works on command n under identifier cid. */
  predicate WorksOn(th: Thread, cid: nat, n: nat) {
    (th.Enqueue? || th.Poll? || th.Dequeue?) && th.cid == cid && th.n == n
  }

  lemma StepWorksOn(c: Config, s: State, a: Action, s': State, t: nat, cid: nat, n: nat)
    requires Step(c, s, a, s') && t < |s'.threads| && WorksOn(s'.threads[t], cid, n)
    ensures t < |s.threads|
    ensures WorksOn(s.threads[t], cid, n) || (a.Run? && a.t == t && s.threads[t] == Ready(cid) && n == s.mem.sq.inTicket)
  {
    hide StepSq, StepCq, StepSqHead, Scan;
  }

  /** A thread's command is the one that it asked for when it last came from its caller: from
      that step j on it has worked on no other, and the completion it waits for is that
      command's. */
  lemma {:induction false} OwnCommandIsAsked(c: Config, ss: seq<State>, acts: seq<Action>, k: nat, t: nat, cid: nat, n: nat)
      returns (j: nat)
    requires IsRun(c, ss, acts) && k < |ss| && t < |ss[k].threads| && WorksOn(ss[k].threads[t], cid, n)
    ensures j < k && t < |ss[j].threads| && acts[j].Run? && acts[j].t == t && ss[j].threads[t] == Ready(cid)
    ensures forall i | j < i <= k :: t < |ss[i].threads| && WorksOn(ss[i].threads[t], cid, n)
    ensures n == |AskedAlong(ss, acts, j)| < |ss[k].mem.sq.issued| && ss[k].mem.sq.issued[n] == Cmd(cid, acts[j].ch.payload)
  {
    hide Step, WorksOn, Asked, AskedAlong;
    NoneAtStart(c, ss, acts);
    assert k > 0;
    assert Step(c, ss[k - 1], acts[k - 1], ss[k]);
    StepWorksOn(c, ss[k - 1], acts[k - 1], ss[k], t, cid, n);
    StepIssuesAsked(c, ss[k - 1], acts[k - 1], ss[k]);
    if WorksOn(ss[k - 1].threads[t], cid, n) {
      j := OwnCommandIsAsked(c, ss, acts, k - 1, t, cid, n);
    } else {
      j := k - 1;
      IssuedAreAsked(c, ss, acts, j);
      RunInv(c, ss, acts, j);
      TicketsIssued(c, ss[j]);
      AskedIs(ss[j], acts[j], cid);
    }
  }

  lemma NoneAtStart(c: Config, ss: seq<State>, acts: seq<Action>)
    requires IsRun(c, ss, acts)
    ensures forall t, cid, n | 0 <= t < |ss[0].threads| :: !WorksOn(ss[0].threads[t], cid, n)
  {
    hide Step;
  }

  lemma AskedIs(s: State, a: Action, cid: nat)
    requires a.Run? && a.t < |s.threads| && s.threads[a.t] == Ready(cid)
    ensures Asked(s, a) == [Cmd(cid, a.ch.payload)]
  {}

  // ---------------------------------------------------------------- the doorbells

  /** The controller has fetched exactly the first of the commands that callers asked for, in
      order, each once; the ring never overfills; every slot the doorbell covers holds its
      ticket's command. */
  lemma DoorbellSafety(c: Config, ss: seq<State>, acts: seq<Action>, k: nat)
    requires IsRun(c, ss, acts) && k < |ss|
    ensures var q := ss[k].mem.sq; var f := ss[k].mem.ctrl.head;
      && c.Valid() && |q.mem| == c.sqs
      && f <= q.dbT <= q.tailP <= |q.issued| && q.db == Pos(c.sqs, q.dbT)
      && q.issued == AskedAlong(ss, acts, k) && ss[k].mem.ctrl.fetched == AskedAlong(ss, acts, k)[..f]
      && q.tailP - q.head <= c.sqs - 1
      && (forall n: nat | f <= n < q.dbT :: q.mem[Pos(c.sqs, n)] == q.issued[n])
  {
    hide IsRun, CqInv, LiveOk, Turnstile, TailMarks, ThreadInv, AskedAlong;
    RunInv(c, ss, acts, k);
    IssuedAreAsked(c, ss, acts, k);
  }

  /** The controller fetches when, and only when, the doorbell is ahead of it, and then
      fetches the next ticket's command. */
  lemma FetchTakesNextTicket(c: Config, s: State)
    requires Inv(c, s)
    ensures Shape(c, s.mem)
    ensures var q := s.mem.sq; var f := s.mem.ctrl.head;
      && (CanFetch(c, s.mem) <==> f < q.dbT)
      && (f < q.dbT ==> f < |q.issued| && StepFetch(c, s.mem).ctrl.fetched == s.mem.ctrl.fetched + [q.issued[f]])
  {
    FetchIsCovered(c, s.mem.sq, s.mem.ctrl.head);
    hide Turnstile, TailMarks, QueueMem, CqMemOk, HeadMarks, Completions, LiveOk, Fetched;
  }

  /** A thread leaves `sq_enqueue` only when the tail has passed its ticket, and once the
      tail lock is free the doorbell has too. */
  lemma LeavesOnlyBehindTail(c: Config, s: State, t: nat)
    requires Inv(c, s) && t < |s.threads| && s.threads[t].Enqueue? && s.threads[t].sq.Bump?
    ensures s.threads[t].n < s.mem.sq.tailP
    ensures !s.mem.sq.locked ==> s.threads[t].n < s.mem.sq.dbT == s.mem.sq.tail
  {
    hide CqInv, LiveOk, Fetched, Turnstile, TailMarks, QueueMem;
    assert ThreadInv(c, s.mem, s.threads[t]);
  }

  /** Once a thread has set its mark, the mark is gone if and only if the tail has passed its
      ticket: no mark is lost, and none outlives its command. */
  lemma MarkGoneIffPassed(c: Config, s: State, t: nat)
    requires Inv(c, s) && t < |s.threads| && s.threads[t].Enqueue?
    requires s.threads[t].sq.Check? || s.threads[t].sq.TryLock? || TailHolder(s.threads[t].sq)
    ensures Shape(c, s.mem)
    ensures !s.mem.sq.tailMark[Pos(c.sqs, s.threads[t].n)] <==> s.threads[t].n < s.mem.sq.tailP
  {
    hide LiveOk, Fetched, Turnstile, TailMarks, QueueMem, CqMemOk, Completions, HeadMarks;
    assert ThreadInv(c, s.mem, s.threads[t]);
  }

  /** A thread whose ticket the tail has passed leaves `sq_enqueue` without the tail lock, even
      if others keep it: its own steps do not touch the queue until it adds its one. */
  lemma PassedProducerLeaves(c: Config, q: Sq, n: nat, pc: SqPc, cmd: Cmd)
    requires SqOk(c, q, n, pc) && n < q.tailP && (pc.Check? || (pc.TryLock? && q.locked))
    ensures var r := StepSq(c, q, n, pc, cmd); r == (q, Bump) || (r.0 == q && StepSq(c, q, n, r.1, cmd) == (q, Bump))
  {
    hide Turn;
  }

  /** Likewise a thread whose completion the head has passed goes on to its last wait. */
  lemma PassedConsumerLeaves(c: Config, q: Cq, sh: nat, sp: nat, n: nat, j: nat, h0: nat, pc: CqPc)
    requires CqOk(c, q, sh, sp, n, j, h0, pc) && j < q.headP && (pc.CheckMark? || (pc.TryHead? && q.locked))
    ensures var r := StepCq(c, q, n, j, h0, pc); r == (q, Await) || (r == (q, CheckMark) && StepCq(c, q, n, j, h0, CheckMark) == (q, Await))
  {
    hide Pos;
  }

  // ---------------------------------------------------------------- recovering the submission queue head

  /** Whenever the head lock is free, the submission queue's head is the one that the last
      completion behind the completion queue's head reports. */
  lemma HeadIsTheReportedOne(c: Config, ss: seq<State>, acts: seq<Action>, k: nat)
    requires IsRun(c, ss, acts) && k < |ss| && !ss[k].mem.cq.locked
    ensures var m := ss[k].mem;
      && m.cq.head <= |m.cq.posted| && m.sq.headP == m.sq.head == HeadAt(m.cq.posted, m.cq.head)
      && (m.cq.head > 0 ==> m.cq.posted[m.cq.head - 1].n < m.sq.head <= m.ctrl.head)
  {
    hide IsRun, SqInv, LiveOk, Fetched, CqMemOk, HeadMarks;
    RunInv(c, ss, acts, k);
  }

  /** When the walk is over, the slots it passed lead from the old head to the reported one,
      although it compared only positions in the ring. */
  lemma WalkEndsAtReportedHead(c: Config, s: State, t: nat, cur: nat, k: nat, i: nat)
    requires Inv(c, s) && t < |s.threads| && s.threads[t].Dequeue? && s.threads[t].cq == AddSqHead(cur, k, i)
    ensures cur + k == s.mem.cq.headP <= |s.mem.cq.posted|
    ensures s.mem.sq.head + i == HeadAt(s.mem.cq.posted, cur + k)
  {
    hide SqInv, CqInv, LiveOk, Fetched;
    assert ThreadInv(c, s.mem, s.threads[t]);
  }

  /** The slots whose turnstiles a step of a thread advances for the head. */
  ghost function PassedBy(c: Config, th: Thread): seq<nat>
    requires c.Valid()
  {
    if th.Dequeue? && th.cq.Walk? && Pos(c.sqs, th.cq.base + th.cq.m) != th.cq.target then [th.cq.base + th.cq.m] else []
  }

  ghost function Passed(c: Config, s: State, a: Action): seq<nat>
    requires c.Valid()
  {
    if a.Run? && a.t < |s.threads| then PassedBy(c, s.threads[a.t]) else []
  }

  ghost function PassedAlong(c: Config, ss: seq<State>, acts: seq<Action>, k: nat): seq<nat>
    requires c.Valid() && |ss| == |acts| + 1 && k <= |acts|
  {
    if k == 0 then [] else PassedAlong(c, ss, acts, k - 1) + Passed(c, ss[k - 1], acts[k - 1])
  }

  lemma StepPassesHead(c: Config, m: Mem, th: Thread, ch: Choice, m': Mem)
    requires Defined(c, m, th) && ThreadInv(c, m, th) && m' == ThreadStep(c, m, th, ch).mem
    ensures m'.sq.headP == m.sq.headP + |PassedBy(c, th)|
    ensures PassedBy(c, th) == seq(|PassedBy(c, th)|, i => m.sq.headP + i)
  {
    hide Scan, StepSq, StepCq, SqOk;
    if th.Enqueue? { SqStepFrame(c, m.sq, th.n, th.sq, m.sq.issued[th.n]); }
  }

  lemma PassedStep(c: Config, s: State, a: Action, s': State)
    requires Inv(c, s) && Step(c, s, a, s')
    ensures s'.mem.sq.headP == s.mem.sq.headP + |Passed(c, s, a)|
    ensures Passed(c, s, a) == seq(|Passed(c, s, a)|, i => s.mem.sq.headP + i)
  {
    hide Globals, ThreadInv, ThreadStep, PassedBy, NoClash;
    if a.Run? { StepPassesHead(c, s.mem, s.threads[a.t], a.ch, s'.mem); }
  }

  /** Over a run the head mover advances the turnstile of every ticket once, in ticket order,
      up to the head it has reached. */
  lemma {:induction false} EverySlotPassedOnce(c: Config, ss: seq<State>, acts: seq<Action>, k: nat)
    requires IsRun(c, ss, acts) && k <= |acts|
    ensures c.Valid() && PassedAlong(c, ss, acts, k) == seq(ss[k].mem.sq.headP, n => n)
  {
    hide Step, Inv, Passed;
    if k > 0 {
      EverySlotPassedOnce(c, ss, acts, k - 1);
      RunInv(c, ss, acts, k - 1);
      assert Step(c, ss[k - 1], acts[k - 1], ss[k]);
      PassedStep(c, ss[k - 1], acts[k - 1], ss[k]);
    }
  }

  // ---------------------------------------------------------------- the last wait of cq_dequeue

  const WORD: nat := 0x1_0000_0000

  /** The test that ends `cq_dequeue` compares counters truncated to 32 bits.  For a head h0
      that was read before entry l was found less than 2^32 ahead of it, and a later head
      less than 2^32 ahead, it is true exactly when the head has passed l. */
  lemma WaitTestIsExact(h0: nat, l: nat, hn: nat)
    requires h0 <= l < h0 + WORD && h0 <= hn < h0 + WORD
    ensures HeadPassed(hn % WORD, l % WORD, h0 % WORD) <==> l < hn
  {
    var k := h0 / WORD;
    assert forall x | h0 <= x < h0 + WORD :: x % WORD == if x < (k + 1) * WORD then x - k * WORD else x - (k + 1) * WORD;
  }

  /** The bounds are the exact ones: a head a whole 2^32 further on is not noticed. */
  lemma WaitTestMissesWrap(h0: nat, l: nat)
    requires h0 <= l < h0 + WORD
    ensures var hn := h0 + WORD; l < hn && !HeadPassed(hn % WORD, l % WORD, h0 % WORD)
  {
    assert (h0 + WORD) % WORD == h0 % WORD;
  }

  lemma StepKeepsFound(c: Config, s: State, a: Action, s': State, t: nat)
    requires Step(c, s, a, s') && t < |s'.threads| && s'.threads[t].Dequeue?
    ensures c.Valid() && t < |s.threads|
    ensures var th, th' := s.threads[t], s'.threads[t];
      || (th.Dequeue? && th.j == th'.j && th.h0 == th'.h0)
      || (th.Poll? && a.Run? && a.t == t && th'.h0 == s.mem.cq.head && th'.h0 <= th'.j < th'.h0 + c.cqs - 1)
  {
    hide StepSq, StepCq, StepSqHead, Scan;
    if a.Run? && a.t == t && s.threads[t].Poll? { ScanResult(c, s.mem.cq.mem, s.mem.cq.head, s.threads[t].cid, 0); }
  }

  /** In every run the head that a thread compares with is the one its scan started from, less
      than a round behind the entry found there. */
  lemma {:induction false} FoundNearHead(c: Config, ss: seq<State>, acts: seq<Action>, k: nat, t: nat) returns (i: nat)
    requires IsRun(c, ss, acts) && k < |ss| && t < |ss[k].threads| && ss[k].threads[t].Dequeue?
    ensures i < k && t < |ss[i].threads| && ss[i].threads[t].Poll? && acts[i].Run? && acts[i].t == t
    ensures ss[k].threads[t].h0 == ss[i].mem.cq.head
    ensures c.Valid() && ss[k].threads[t].h0 <= ss[k].threads[t].j < ss[k].threads[t].h0 + c.cqs - 1
  {
    hide Step;
    NoneAtStart(c, ss, acts);
    assert WorksOn(ss[k].threads[t], ss[k].threads[t].cid, ss[k].threads[t].n);
    assert k > 0;
    assert Step(c, ss[k - 1], acts[k - 1], ss[k]);
    StepKeepsFound(c, ss[k - 1], acts[k - 1], ss[k], t);
    if ss[k - 1].threads[t].Dequeue? { i := FoundNearHead(c, ss, acts, k - 1, t); } else { i := k - 1; }
  }

  /** So in every reachable state the last wait of `cq_dequeue` ends exactly if the head has
      passed the thread's entry, and on 32-bit counters too unless the head has moved on by
      2^32 since the scan. */
  lemma AwaitEndsWhenPassed(c: Config, ss: seq<State>, acts: seq<Action>, k: nat, t: nat)
    requires IsRun(c, ss, acts) && k < |ss| && t < |ss[k].threads| && ss[k].threads[t].Dequeue? && ss[k].threads[t].cq.Await?
    ensures var th, head := ss[k].threads[t], ss[k].mem.cq.head;
      && (HeadPassed(head, th.j, th.h0) <==> th.j < head)
      && (c.cqs <= WORD && head < th.h0 + WORD ==> (HeadPassed(head % WORD, th.j % WORD, th.h0 % WORD) <==> th.j < head))
  {
    hide IsRun, Globals;
    var th, head := ss[k].threads[t], ss[k].mem.cq.head;
    RunInv(c, ss, acts, k);
    assert ThreadInv(c, ss[k].mem, th);
    var i := FoundNearHead(c, ss, acts, k, t);
    if c.cqs <= WORD && head < th.h0 + WORD { WaitTestIsExact(th.h0, th.j, head); }
  }
}
