/** The inductive invariant of the NVMe queue pair. */
module NvmeQueueInvariant {
  import opened Ring
  import opened NvmeQueue
  import opened Wrappers

  // ---------------------------------------------------------------- the submission queue

  /** Slot n's turnstile has let ticket n in. */
  ghost predicate Turn(q: nat, tickets: seq<nat>, n: nat) {
    q > 0 && |tickets| == q && tickets[Pos(q, n)] >= 2 * Lap(q, n)
  }

  /** The turnstile of ticket n's slot has moved once for each of the two events of its
      round that have happened: the producer is done, the head has passed. */
  ghost predicate TicketOk(q: nat, tickets: seq<nat>, bumped: set<nat>, headP: nat, n: nat) {
    q > 0 && |tickets| == q &&
    var v := tickets[Pos(q, n)];
    && (v >= 2 * Lap(q, n) + 1 <==> n in bumped || n < headP)
    && (v >= 2 * Lap(q, n) + 2 <==> n in bumped && n < headP)
  }

  ghost predicate Turnstile(q: nat, tickets: seq<nat>, bumped: set<nat>, headP: nat, tailP: nat) {
    && (forall n | n in bumped :: n < tailP)
    && (forall n: nat :: TicketOk(q, tickets, bumped, headP, n))
    && (forall n: nat | n < tailP :: Turn(q, tickets, n))
  }

  /** A tail mark ahead of the tail stands for a ticket whose command is in its slot. */
  ghost predicate TailMarks(q: nat, tickets: seq<nat>, tailMark: seq<bool>, tailP: nat, mem: seq<Cmd>,
          issued: seq<Cmd>) {
    q > 0 && |tailMark| == |mem| == q &&
    forall n: nat {:trigger Turn(q, tickets, n)} | tailP <= n < tailP + q && tailMark[Pos(q, n)] ::
      n < |issued| && Turn(q, tickets, n) && mem[Pos(q, n)] == issued[n]
  }

  /** The slots from the controller's head to the tail hold their commands. */
  ghost predicate QueueMem(q: nat, mem: seq<Cmd>, issued: seq<Cmd>, f: nat, tailP: nat) {
    q > 0 && |mem| == q && tailP <= |issued| &&
    forall n: nat {:trigger Pos(q, n)} | f <= n < tailP :: mem[Pos(q, n)] == issued[n]
  }

  ghost predicate TailSettled(q: Sq) {
    q.tailP == q.tail == q.dbT
  }

  ghost predicate SqOrder(c: Config, q: Sq, f: nat)
    requires c.Valid()
  {
    && q.inTicket == |q.issued|
    && q.head <= q.headP <= f <= q.dbT <= q.tailP <= q.inTicket
    && q.tail <= q.dbT && q.tailP < q.head + c.sqs && q.db == Pos(c.sqs, q.dbT)
    && (!q.locked ==> TailSettled(q))
  }

  /** f is the number of commands the controller has fetched. */
  ghost predicate SqInv(c: Config, q: Sq, f: nat) {
    && c.Valid() && |q.tickets| == |q.tailMark| == |q.mem| == c.sqs
    && SqOrder(c, q, f)
    && Turnstile(c.sqs, q.tickets, q.bumped, q.headP, q.tailP)
    && TailMarks(c.sqs, q.tickets, q.tailMark, q.tailP, q.mem, q.issued)
    && QueueMem(c.sqs, q.mem, q.issued, f, q.tailP)
  }

  predicate TailHolder(pc: SqPc) {
    pc.LoadTail? || pc.Full? || pc.Exchange? || pc.Doorbell? || pc.StoreTail? || pc.UnlockTail?
  }

  /** How far the holder of the tail lock has got. */
  ghost predicate TailPcOk(c: Config, q: Sq, pc: SqPc) {
    match pc
    case Full(cur, k) => cur == q.tail == q.dbT && q.tailP == cur + k
    case Exchange(cur, k) => cur == q.tail == q.dbT && q.tailP == cur + k && cur + k + 1 < q.head + c.sqs
    case Doorbell(cur, k) => cur == q.tail == q.dbT && q.tailP == cur + k && k > 0
    case StoreTail(cur, k) => cur == q.tail && q.dbT == q.tailP == cur + k
    case _ => TailSettled(q)
  }

  /** Ticket n is ahead of the tail and its mark is not set. */
  ghost predicate Unmarked(c: Config, q: Sq, n: nat)
    requires c.Valid() && |q.tailMark| == c.sqs
  {
    q.tailP <= n && (n < q.tailP + c.sqs ==> !q.tailMark[Pos(c.sqs, n)])
  }

  /** A thread at pc of `sq_enqueue` with ticket n. */
  ghost predicate SqOk(c: Config, q: Sq, n: nat, pc: SqPc) {
    && c.Valid() && |q.tickets| == |q.tailMark| == |q.mem| == c.sqs
    && n < |q.issued| && n !in q.bumped
    && match pc
       case Wait => Unmarked(c, q, n)
       case Write => Unmarked(c, q, n) && Turn(c.sqs, q.tickets, n)
       case Mark => Unmarked(c, q, n) && Turn(c.sqs, q.tickets, n) && q.mem[Pos(c.sqs, n)] == q.issued[n]
       case Bump => n < q.tailP
       case _ =>
         && Turn(c.sqs, q.tickets, n)
         && (q.tailMark[Pos(c.sqs, n)] <==> q.tailP <= n)
         && (TailHolder(pc) ==> q.locked && TailPcOk(c, q, pc))
  }

  // ---------------------------------------------------------------- the completion queue

  ghost predicate Completions(posted: seq<Posted>, pending: map<nat, Cmd>, f: nat) {
    && (forall j | 0 <= j < |posted| :: posted[j].n < posted[j].h <= f && posted[j].n !in pending)
    && (forall i, j | 0 <= i < j < |posted| :: posted[i].n != posted[j].n && posted[i].h <= posted[j].h)
  }

  ghost predicate EntryOk(c: Config, mem: seq<Entry>, issued: seq<Cmd>, posted: seq<Posted>, j: nat) {
    && c.Valid() && |mem| == c.cqs && j < |posted| && posted[j].n < |issued|
    && mem[Pos(c.cqs, j)] == Entry(issued[posted[j].n].cid, Phase(c.cqs, j), Pos(c.sqs, posted[j].h))
  }

  /** The last round of completions is in memory; every other slot has the other phase. */
  ghost predicate CqMemOk(c: Config, mem: seq<Entry>, issued: seq<Cmd>, posted: seq<Posted>) {
    c.Valid() && |mem| == c.cqs
    && (forall j: nat | j < |posted| <= j + c.cqs :: EntryOk(c, mem, issued, posted, j))
    && (forall j: nat {:trigger Phase(c.cqs, j)} | |posted| <= j < |posted| + c.cqs :: mem[Pos(c.cqs, j)].phase != Phase(c.cqs, j))
  }

  /** Head marks ahead of the head, and completions behind it, belong to threads that have
      found them. */
  ghost predicate HeadMarks(q: nat, headMark: seq<bool>, posted: seq<Posted>, consumed: set<nat>, headP: nat) {
    q > 0 && |headMark| == q && headP <= |posted|
    && (forall j | 0 <= j < headP :: posted[j].n in consumed)
    && (forall j: nat {:trigger Pos(q, j)} | headP <= j < headP + q && headMark[Pos(q, j)] :: j < |posted| && posted[j].n in consumed)
  }

  /** The submission queue head that the first k completions report. */
  function HeadAt(posted: seq<Posted>, k: nat): nat
    requires k <= |posted|
  {
    if k == 0 then 0 else posted[k - 1].h
  }

  /** No head mover is at work; sh and sp are the submission queue's head and how far its
      turnstiles have moved. */
  ghost predicate HeadSettled(q: Cq, sh: nat, sp: nat) {
    && q.headP == q.head == q.dbH <= |q.posted|
    && sp == sh == HeadAt(q.posted, q.head)
  }

  ghost predicate CqOrder(c: Config, q: Cq, sh: nat, sp: nat)
    requires c.Valid()
  {
    && q.head <= q.dbH <= q.headP <= |q.posted| < q.dbH + c.cqs
    && q.headP < q.head + c.cqs && q.db == Pos(c.cqs, q.dbH)
    && sp <= HeadAt(q.posted, q.headP)
    && (!q.locked ==> HeadSettled(q, sh, sp))
  }

  ghost predicate CqInv(c: Config, q: Cq, ctrl: Ctrl, issued: seq<Cmd>, sh: nat, sp: nat) {
    && c.Valid() && |q.mem| == |q.headMark| == |q.posLock| == c.cqs
    && ctrl.tail == |q.posted|
    && CqOrder(c, q, sh, sp)
    && Completions(q.posted, ctrl.pending, ctrl.head)
    && CqMemOk(c, q.mem, issued, q.posted)
    && HeadMarks(c.cqs, q.headMark, q.posted, q.consumed, q.headP)
    && (forall n | n in q.consumed :: n < |issued|)
  }

  predicate HeadHolder(pc: CqPc) {
    !pc.LockPos? && !pc.MarkHead? && !pc.CheckMark? && !pc.TryHead? && !pc.Await? && !pc.UnlockPos?
  }

  ghost predicate Swept(q: Cq, cur: nat, k: nat) {
    cur == q.head == q.dbH && q.headP == cur + k <= |q.posted|
  }

  /** How far the holder of the head lock has got. */
  ghost predicate HeadPcOk(c: Config, q: Cq, sh: nat, sp: nat, pc: CqPc)
    requires c.Valid()
  {
    match pc
    case Sweep(cur, k) => Swept(q, cur, k) && sp == sh == HeadAt(q.posted, cur)
    case ReadSqhd(cur, k) => k > 0 && Swept(q, cur, k) && sp == sh == HeadAt(q.posted, cur)
    case LoadSqHead(cur, k, target) =>
      && k > 0 && Swept(q, cur, k) && sp == sh == HeadAt(q.posted, cur)
      && target == Pos(c.sqs, HeadAt(q.posted, cur + k))
    case Walk(cur, k, target, base, i) =>
      && k > 0 && Swept(q, cur, k) && base == sh == HeadAt(q.posted, cur)
      && sp == base + i <= HeadAt(q.posted, cur + k)
      && target == Pos(c.sqs, HeadAt(q.posted, cur + k))
    case AddSqHead(cur, k, i) => k > 0 && Swept(q, cur, k) && sp == sh + i == HeadAt(q.posted, cur + k)
    case RingCq(cur, k) => k > 0 && Swept(q, cur, k) && sp == sh == HeadAt(q.posted, cur + k)
    case StoreHead(cur, k) =>
      && k > 0 && cur == q.head && q.dbH == q.headP == cur + k <= |q.posted|
      && sp == sh == HeadAt(q.posted, cur + k)
    case _ => HeadSettled(q, sh, sp)
  }

  /** A thread at pc of `cq_dequeue` with command n and completion j. */
  ghost predicate CqOk(c: Config, q: Cq, sh: nat, sp: nat, n: nat, j: nat, h0: nat, pc: CqPc) {
    && c.Valid() && |q.mem| == |q.headMark| == |q.posLock| == c.cqs
    && j < |q.posted| && q.posted[j].n == n && h0 <= j && h0 <= q.head
    && (!pc.LockPos? ==> q.posLock[Pos(c.cqs, j)])
    && match pc
       case LockPos => n !in q.consumed
       case MarkHead => n !in q.consumed
       case Await => j < q.headP
       case UnlockPos => j < q.head
       case _ =>
         && (q.headMark[Pos(c.cqs, j)] <==> q.headP <= j)
         && (HeadHolder(pc) ==> q.locked && HeadPcOk(c, q, sh, sp, pc))
  }

  // ---------------------------------------------------------------- identifiers and the controller

  ghost predicate Fetched(issued: seq<Cmd>, ctrl: Ctrl) {
    && ctrl.head == |ctrl.fetched| <= |issued|
    && (forall n | 0 <= n < |ctrl.fetched| :: ctrl.fetched[n] == issued[n])
    && (forall n | n in ctrl.pending :: n < |ctrl.fetched| && ctrl.pending[n] == issued[n])
  }

  /** Command n's identifier stands for n. */
  ghost predicate Live(issued: seq<Cmd>, live: map<nat, nat>, n: nat) {
    n < |issued| && issued[n].cid in live && live[issued[n].cid] == n
  }

  /** Every command whose completion the head has not passed is live. */
  ghost predicate LiveOk(issued: seq<Cmd>, live: map<nat, nat>, cids: seq<bool>, ctrl: Ctrl, posted: seq<Posted>,
          cqHead: nat) {
    && (forall cid | cid in live :: cid < |cids| && cids[cid])
    && (forall n: nat {:trigger Live(issued, live, n)} | ctrl.head <= n < |issued| || n in ctrl.pending :: Live(issued, live, n))
    && (forall j | cqHead <= j < |posted| :: Live(issued, live, posted[j].n))
  }

  ghost predicate CidHeld(cids: seq<bool>, cid: nat) {
    cid < CIDS && cid < |cids| && cids[cid]
  }

  /** The identifier is held and stands for command n. */
  ghost predicate Current(cids: seq<bool>, live: map<nat, nat>, issued: seq<Cmd>, cid: nat, n: nat) {
    && CidHeld(cids, cid) && cid in live && live[cid] == n
    && n < |issued| && issued[n].cid == cid
  }

  // ---------------------------------------------------------------- the whole

  ghost predicate Globals(c: Config, m: Mem) {
    && c.Valid() && |m.cids| == CIDS
    && SqInv(c, m.sq, m.ctrl.head)
    && CqInv(c, m.cq, m.ctrl, m.sq.issued, m.sq.head, m.sq.headP)
    && Fetched(m.sq.issued, m.ctrl)
    && LiveOk(m.sq.issued, m.live, m.cids, m.ctrl, m.cq.posted, m.cq.head)
  }

  ghost predicate ThreadInv(c: Config, m: Mem, th: Thread) {
    match th
    case Idle => true
    case PickCid => true
    case LockCid(id) => id < CIDS
    case Ready(cid) => CidHeld(m.cids, cid) && cid !in m.live
    case Release(cid) => CidHeld(m.cids, cid) && cid !in m.live
    case Enqueue(cid, n, pc) => Current(m.cids, m.live, m.sq.issued, cid, n) && n !in m.cq.consumed && SqOk(c, m.sq, n, pc)
    case Poll(cid, n) => Current(m.cids, m.live, m.sq.issued, cid, n) && n !in m.cq.consumed
    case Dequeue(cid, n, j, h0, pc) =>
      && (if pc.UnlockPos? then CidHeld(m.cids, cid) && cid !in m.live else Current(m.cids, m.live, m.sq.issued, cid, n))
      && CqOk(c, m.cq, m.sq.head, m.sq.headP, n, j, h0, pc)
  }

  /** What a thread holds for itself: an identifier, the tail lock, the head lock, the lock
      of one completion queue slot. */
  datatype Grip = Grip(cid: Option<nat>, tail: bool, head: bool, slot: Option<nat>)

  function GripOf(c: Config, th: Thread): Grip
    requires c.Valid()
  {
    match th
    case Ready(cid) => Grip(Some(cid), false, false, None)
    case Release(cid) => Grip(Some(cid), false, false, None)
    case Enqueue(cid, n, pc) => Grip(Some(cid), TailHolder(pc), false, None)
    case Poll(cid, n) => Grip(Some(cid), false, false, None)
    case Dequeue(cid, n, j, h0, pc) =>
      Grip(Some(cid), false, HeadHolder(pc), if pc.LockPos? then None else Some(Pos(c.cqs, j)))
    case _ => Grip(None, false, false, None)
  }

  /** No two threads hold the same thing. */
  predicate NoClash(c: Config, a: Thread, b: Thread)
    requires c.Valid()
  {
    var g, h := GripOf(c, a), GripOf(c, b);
    && (g.cid.Some? ==> g.cid != h.cid) && !(g.tail && h.tail) && !(g.head && h.head)
    && (g.slot.Some? ==> g.slot != h.slot)
  }

  ghost predicate Exclusive(c: Config, threads: seq<Thread>)
    requires c.Valid()
  {
    forall t, u {:trigger threads[t], threads[u]} | 0 <= t < |threads| && 0 <= u < |threads| && t != u :: NoClash(c, threads[t], threads[u])
  }

  ghost predicate Inv(c: Config, s: State) {
    && Globals(c, s.mem)
    && (forall t | 0 <= t < |s.threads| :: ThreadInv(c, s.mem, s.threads[t]))
    && Exclusive(c, s.threads)
  }

  // ---------------------------------------------------------------- facts about the turnstile

  /** A ticket that has been let in finds every earlier ticket of its slot done. */
  lemma EarlierTicketsDone(c: Config, q: Sq, m: nat, n: nat)
    requires c.Valid() && Turnstile(c.sqs, q.tickets, q.bumped, q.headP, q.tailP) && Turn(c.sqs, q.tickets, n)
    requires m < n && Pos(c.sqs, m) == Pos(c.sqs, n)
    ensures m in q.bumped && m < q.headP
  {
    SameSlot(c.sqs, m, n);
    assert TicketOk(c.sqs, q.tickets, q.bumped, q.headP, m);
  }

  lemma PosBack(q: nat, x: nat)
    requires q > 0 && x >= q
    ensures Pos(q, x - q) == Pos(q, x)
  {}

  /** No ticket is let in a whole round ahead of the tail. */
  lemma TurnNearTail(c: Config, q: Sq, n: nat)
    requires c.Valid() && Turnstile(c.sqs, q.tickets, q.bumped, q.headP, q.tailP) && Turn(c.sqs, q.tickets, n)
    ensures n < q.tailP + c.sqs
  {
    if n >= c.sqs {
      PosBack(c.sqs, n);
      EarlierTicketsDone(c, q, n - c.sqs, n);
    }
  }

  /** Two tickets that are let in and not done have different slots. */
  lemma SlotsApart(c: Config, q: Sq, m: nat, n: nat)
    requires c.Valid() && Turnstile(c.sqs, q.tickets, q.bumped, q.headP, q.tailP)
    requires Turn(c.sqs, q.tickets, m) && Turn(c.sqs, q.tickets, n) && m != n
    requires m !in q.bumped && n !in q.bumped
    ensures Pos(c.sqs, m) != Pos(c.sqs, n)
  {
    if Pos(c.sqs, m) == Pos(c.sqs, n) {
      if m < n { EarlierTicketsDone(c, q, m, n); } else { EarlierTicketsDone(c, q, n, m); }
    }
  }

  /** Within a round of the tail a slot belongs to one ticket. */
  lemma SlotNearTail(c: Config, q: Sq, m: nat, n: nat)
    requires c.Valid() && q.tailP <= m < q.tailP + c.sqs && q.tailP <= n < q.tailP + c.sqs
    requires Pos(c.sqs, m) == Pos(c.sqs, n)
    ensures m == n
  {
    if m <= n { PosInjective(c.sqs, m, n); } else { PosInjective(c.sqs, n, m); }
  }

  // ---------------------------------------------------------------- steps of sq_enqueue

  predicate Quiet(q: Sq, pc: SqPc) {
    pc.Wait? || pc.Check? || (pc.TryLock? && q.locked) || pc.LoadTail? || pc.Full?
  }

  lemma SqQuiet(c: Config, q: Sq, n: nat, pc: SqPc, cmd: Cmd)
    requires c.Valid() && |q.tickets| == |q.tailMark| == |q.mem| == c.sqs
    requires Quiet(q, pc) || (pc.Exchange? && !q.tailMark[Pos(c.sqs, pc.cur + pc.k)])
    ensures StepSq(c, q, n, pc, cmd).0 == q
  {}

  lemma QuietSqOk(c: Config, q: Sq, f: nat, n: nat, pc: SqPc, cmd: Cmd)
    requires SqInv(c, q, f) && SqOk(c, q, n, pc)
    requires Quiet(q, pc) || (pc.Exchange? && !q.tailMark[Pos(c.sqs, pc.cur + pc.k)])
    ensures SqOk(c, q, n, StepSq(c, q, n, pc, cmd).1)
  {
    hide Turnstile, TailMarks, QueueMem;
    if pc.Full? && q.tailP + 1 == q.head + c.sqs { PosBack(c.sqs, q.tailP + 1); }
  }

  lemma WriteKeeps(c: Config, q: Sq, f: nat, n: nat)
    requires SqInv(c, q, f) && SqOk(c, q, n, Write)
    ensures var r := StepSq(c, q, n, Write, q.issued[n]); SqInv(c, r.0, f) && SqOk(c, r.0, n, r.1)
  {
    var p := Pos(c.sqs, n);
    var q' := q.(mem := q.mem[p := q.issued[n]]);
    TurnNearTail(c, q, n);
    forall m: nat | q.tailP <= m < q.tailP + c.sqs && q.tailMark[Pos(c.sqs, m)]
      ensures m < |q.issued| && Turn(c.sqs, q.tickets, m) && q'.mem[Pos(c.sqs, m)] == q.issued[m]
    {
      assert Turn(c.sqs, q.tickets, m);
      if Pos(c.sqs, m) == p { SlotNearTail(c, q, m, n); }
    }
    assert TailMarks(c.sqs, q.tickets, q.tailMark, q.tailP, q'.mem, q.issued);
    forall m: nat | f <= m < q.tailP ensures q'.mem[Pos(c.sqs, m)] == q.issued[m] {
      if Pos(c.sqs, m) == p { EarlierTicketsDone(c, q, m, n); }
    }
  }

  lemma MarkKeeps(c: Config, q: Sq, f: nat, n: nat, cmd: Cmd)
    requires SqInv(c, q, f) && SqOk(c, q, n, Mark)
    ensures var r := StepSq(c, q, n, Mark, cmd); SqInv(c, r.0, f) && SqOk(c, r.0, n, r.1)
  {
    hide Turnstile, QueueMem;
    var p := Pos(c.sqs, n);
    var marks := q.tailMark[p := true];
    TurnNearTail(c, q, n);
    forall m: nat | q.tailP <= m < q.tailP + c.sqs && marks[Pos(c.sqs, m)]
      ensures m < |q.issued| && Turn(c.sqs, q.tickets, m) && q.mem[Pos(c.sqs, m)] == q.issued[m]
    {
      if Pos(c.sqs, m) == p { SlotNearTail(c, q, m, n); }
      else { assert q.tailMark[Pos(c.sqs, m)]; MarkedIsWritten(c, q, f, m); }
    }
  }

  lemma MarkedIsWritten(c: Config, q: Sq, f: nat, m: nat)
    requires SqInv(c, q, f) && q.tailP <= m < q.tailP + c.sqs && q.tailMark[Pos(c.sqs, m)]
    ensures m < |q.issued| && Turn(c.sqs, q.tickets, m) && q.mem[Pos(c.sqs, m)] == q.issued[m]
  {
    hide Turnstile, QueueMem;
    assert Turn(c.sqs, q.tickets, m) || !Turn(c.sqs, q.tickets, m);
  }

  lemma LockTailKeeps(c: Config, q: Sq, f: nat, n: nat, cmd: Cmd)
    requires SqInv(c, q, f) && SqOk(c, q, n, TryLock) && !q.locked
    ensures var r := StepSq(c, q, n, TryLock, cmd); SqInv(c, r.0, f) && SqOk(c, r.0, n, r.1)
  {
    hide Turnstile, TailMarks, QueueMem, Turn;
  }

  /** Clearing the mark at the tail moves the round that the marks are about. */
  lemma MarksMove(c: Config, q: Sq, f: nat)
    requires SqInv(c, q, f)
    ensures TailMarks(c.sqs, q.tickets, q.tailMark[Pos(c.sqs, q.tailP) := false], q.tailP + 1, q.mem, q.issued)
  {
    var t := q.tailP;
    var marks := q.tailMark[Pos(c.sqs, t) := false];
    forall m: nat | t + 1 <= m < t + 1 + c.sqs && marks[Pos(c.sqs, m)]
      ensures m < |q.issued| && Turn(c.sqs, q.tickets, m) && q.mem[Pos(c.sqs, m)] == q.issued[m]
    {
      hide SqInv;
      if m == t + c.sqs { PosBack(c.sqs, m); }
      MarkedIsWritten(c, q, f, m);
    }
  }

  lemma TailGrows(c: Config, q: Sq, f: nat)
    requires SqInv(c, q, f) && q.tailMark[Pos(c.sqs, q.tailP)]
    ensures q.tailP < |q.issued|
    ensures Turnstile(c.sqs, q.tickets, q.bumped, q.headP, q.tailP + 1)
    ensures QueueMem(c.sqs, q.mem, q.issued, f, q.tailP + 1)
  {
    hide TicketOk;
    MarkedIsWritten(c, q, f, q.tailP);
  }

  /** Clearing the mark at the tail: it stands for the tail's own ticket. */
  lemma ExchangeKeeps(c: Config, q: Sq, f: nat, n: nat, cur: nat, k: nat, cmd: Cmd)
    requires SqInv(c, q, f) && SqOk(c, q, n, Exchange(cur, k)) && q.tailMark[Pos(c.sqs, cur + k)]
    ensures var r := StepSq(c, q, n, Exchange(cur, k), cmd); SqInv(c, r.0, f) && SqOk(c, r.0, n, r.1)
  {
    hide Turnstile, QueueMem, TailMarks, Turn;
    TailGrows(c, q, f);
    MarksMove(c, q, f);
    TurnNearTail(c, q, n);
    if q.tailP <= n && Pos(c.sqs, n) == Pos(c.sqs, q.tailP) { SlotNearTail(c, q, q.tailP, n); }
  }

  lemma DoorbellKeeps(c: Config, q: Sq, f: nat, n: nat, pc: SqPc, cmd: Cmd)
    requires SqInv(c, q, f) && SqOk(c, q, n, pc) && (pc.Doorbell? || pc.StoreTail? || pc.UnlockTail?)
    ensures var r := StepSq(c, q, n, pc, cmd); SqInv(c, r.0, f) && SqOk(c, r.0, n, r.1)
  {
    hide Turnstile, TailMarks, QueueMem, Turn;
  }

  /** One more turn of slot p keeps the turnstiles of all other tickets. */
  lemma OtherTickets(c: Config, q: Sq, n: nat, m: nat, bumped': set<nat>, headP': nat)
    requires c.Valid() && Turnstile(c.sqs, q.tickets, q.bumped, q.headP, q.tailP) && Turn(c.sqs, q.tickets, n) && m != n
    requires q.tickets[Pos(c.sqs, n)] <= 2 * Lap(c.sqs, n) + 1
    requires m in bumped' <==> m in q.bumped
    requires m < headP' <==> m < q.headP
    ensures TicketOk(c.sqs, q.tickets[Pos(c.sqs, n) := q.tickets[Pos(c.sqs, n)] + 1], bumped', headP', m)
  {
    assert TicketOk(c.sqs, q.tickets, q.bumped, q.headP, m);
    if Pos(c.sqs, m) == Pos(c.sqs, n) {
      if m < n { SameSlot(c.sqs, m, n); } else { SameSlot(c.sqs, n, m); }
    }
  }

  lemma TurnGrows(q: nat, tickets: seq<nat>, p: nat, n: nat)
    requires Turn(q, tickets, n) && p < q
    ensures Turn(q, tickets[p := tickets[p] + 1], n)
  {}

  lemma MarksTurn(c: Config, q: Sq, f: nat, p: nat)
    requires SqInv(c, q, f) && p < c.sqs
    ensures TailMarks(c.sqs, q.tickets[p := q.tickets[p] + 1], q.tailMark, q.tailP, q.mem, q.issued)
  {
    var tickets := q.tickets[p := q.tickets[p] + 1];
    forall m: nat | q.tailP <= m < q.tailP + c.sqs && q.tailMark[Pos(c.sqs, m)]
      ensures m < |q.issued| && Turn(c.sqs, tickets, m) && q.mem[Pos(c.sqs, m)] == q.issued[m]
    {
      hide SqInv;
      MarkedIsWritten(c, q, f, m);
      TurnGrows(c.sqs, q.tickets, p, m);
    }
  }

  /** Advancing a turnstile keeps all but the ticket it is for. */
  lemma TurnstileMoves(c: Config, q: Sq, n: nat, bumped': set<nat>, headP': nat)
    requires c.Valid() && Turnstile(c.sqs, q.tickets, q.bumped, q.headP, q.tailP) && Turn(c.sqs, q.tickets, n) && n < q.tailP
    requires q.tickets[Pos(c.sqs, n)] <= 2 * Lap(c.sqs, n) + 1
    requires bumped' == q.bumped || bumped' == q.bumped + {n}
    requires headP' == q.headP || n + 1 == headP' == q.headP + 1
    requires TicketOk(c.sqs, q.tickets[Pos(c.sqs, n) := q.tickets[Pos(c.sqs, n)] + 1], bumped', headP', n)
    ensures Turnstile(c.sqs, q.tickets[Pos(c.sqs, n) := q.tickets[Pos(c.sqs, n)] + 1], bumped', headP', q.tailP)
  {
    var p := Pos(c.sqs, n);
    var tickets := q.tickets[p := q.tickets[p] + 1];
    forall m: nat ensures TicketOk(c.sqs, tickets, bumped', headP', m) {
      hide Turnstile, TicketOk;
      if m != n { OtherTickets(c, q, n, m, bumped', headP'); }
    }
    forall m: nat | m < q.tailP ensures Turn(c.sqs, tickets, m) { TurnGrows(c.sqs, q.tickets, p, m); }
  }

  lemma BumpKeeps(c: Config, q: Sq, f: nat, n: nat, cmd: Cmd)
    requires SqInv(c, q, f) && SqOk(c, q, n, Bump)
    ensures SqInv(c, StepSq(c, q, n, Bump, cmd).0, f)
  {
    assert Turn(c.sqs, q.tickets, n) && TicketOk(c.sqs, q.tickets, q.bumped, q.headP, n);
    hide Turnstile, TailMarks, QueueMem;
    TurnstileMoves(c, q, n, q.bumped + {n}, q.headP);
    MarksTurn(c, q, f, Pos(c.sqs, n));
  }

  /** Every step of `sq_enqueue` keeps the submission queue in order. */
  lemma SqStepKeeps(c: Config, q: Sq, f: nat, n: nat, pc: SqPc)
    requires SqInv(c, q, f) && SqOk(c, q, n, pc)
    ensures var r := StepSq(c, q, n, pc, q.issued[n]);
      SqInv(c, r.0, f) && (!pc.Bump? ==> SqOk(c, r.0, n, r.1))
  {
    hide SqInv, SqOk, StepSq;
    assert c.Valid() && |q.tickets| == |q.tailMark| == |q.mem| == c.sqs && n < |q.issued| by { SqShape(c, q, f, n, pc); }
    var cmd := q.issued[n];
    match pc
    case Write => WriteKeeps(c, q, f, n);
    case Mark => MarkKeeps(c, q, f, n, cmd);
    case Bump => BumpKeeps(c, q, f, n, cmd);
    case Doorbell(_, _) => DoorbellKeeps(c, q, f, n, pc, cmd);
    case StoreTail(_, _) => DoorbellKeeps(c, q, f, n, pc, cmd);
    case UnlockTail => DoorbellKeeps(c, q, f, n, pc, cmd);
    case Exchange(cur, k) =>
      if q.tailMark[Pos(c.sqs, cur + k)] { ExchangeKeeps(c, q, f, n, cur, k, cmd); }
      else { SqQuiet(c, q, n, pc, cmd); QuietSqOk(c, q, f, n, pc, cmd); }
    case TryLock =>
      if q.locked { SqQuiet(c, q, n, pc, cmd); QuietSqOk(c, q, f, n, pc, cmd); }
      else { LockTailKeeps(c, q, f, n, cmd); }
    case _ => SqQuiet(c, q, n, pc, cmd); QuietSqOk(c, q, f, n, pc, cmd);
  }

  lemma SqShape(c: Config, q: Sq, f: nat, n: nat, pc: SqPc)
    requires SqInv(c, q, f) && SqOk(c, q, n, pc)
    ensures c.Valid() && |q.tickets| == |q.tailMark| == |q.mem| == c.sqs && n < |q.issued|
  {}

  lemma WriteSpares(c: Config, q: Sq, f: nat, n: nat, n2: nat, pc2: SqPc)
    requires SqInv(c, q, f) && SqOk(c, q, n, Write) && SqOk(c, q, n2, pc2) && n != n2
    ensures SqOk(c, StepSq(c, q, n, Write, q.issued[n]).0, n2, pc2)
  {
    hide Turnstile, TailMarks, QueueMem, Turn;
    if Turn(c.sqs, q.tickets, n2) { SlotsApart(c, q, n, n2); }
  }

  lemma MarkSpares(c: Config, q: Sq, f: nat, n: nat, n2: nat, pc2: SqPc, cmd: Cmd)
    requires SqInv(c, q, f) && SqOk(c, q, n, Mark) && SqOk(c, q, n2, pc2) && n != n2
    ensures SqOk(c, StepSq(c, q, n, Mark, cmd).0, n2, pc2)
  {
    hide Turnstile, TailMarks, QueueMem, Turn;
    TurnNearTail(c, q, n);
    if Turn(c.sqs, q.tickets, n2) { SlotsApart(c, q, n, n2); }
    else if q.tailP <= n2 < q.tailP + c.sqs && Pos(c.sqs, n) == Pos(c.sqs, n2) { SlotNearTail(c, q, n, n2); }
  }

  lemma ExchangeSpares(c: Config, q: Sq, f: nat, n: nat, cur: nat, k: nat, n2: nat, pc2: SqPc, cmd: Cmd)
    requires SqInv(c, q, f) && SqOk(c, q, n, Exchange(cur, k)) && SqOk(c, q, n2, pc2) && !TailHolder(pc2)
    ensures SqOk(c, StepSq(c, q, n, Exchange(cur, k), cmd).0, n2, pc2)
  {
    hide Turnstile, TailMarks, QueueMem, Turn;
    if Turn(c.sqs, q.tickets, n2) { TurnNearTail(c, q, n2); }
    if q.tailP <= n2 < q.tailP + c.sqs && Pos(c.sqs, n2) == Pos(c.sqs, q.tailP) { SlotNearTail(c, q, n2, q.tailP); }
    if n2 == q.tailP + c.sqs { PosBack(c.sqs, n2); }
  }

  lemma BumpSpares(c: Config, q: Sq, n: nat, n2: nat, pc2: SqPc, cmd: Cmd)
    requires SqOk(c, q, n, Bump) && SqOk(c, q, n2, pc2) && n != n2
    ensures SqOk(c, StepSq(c, q, n, Bump, cmd).0, n2, pc2)
  {
    hide Turn;
    var p := Pos(c.sqs, n);
    if Turn(c.sqs, q.tickets, n2) { TurnGrows(c.sqs, q.tickets, p, n2); }
  }

  lemma OtherSqSpares(c: Config, q: Sq, n: nat, pc: SqPc, n2: nat, pc2: SqPc, cmd: Cmd)
    requires SqOk(c, q, n, pc) && SqOk(c, q, n2, pc2) && !(TailHolder(pc) && TailHolder(pc2))
    requires !pc.Write? && !pc.Mark? && !pc.Exchange? && !pc.Bump?
    ensures var r := StepSq(c, q, n, pc, cmd); SqOk(c, r.0, n2, pc2) && !(TailHolder(r.1) && TailHolder(pc2))
  {
    hide Turn;
  }

  /** A step of one thread in `sq_enqueue` as another thread sees it. */
  lemma SqStepSpares(c: Config, q: Sq, f: nat, n: nat, pc: SqPc, n2: nat, pc2: SqPc)
    requires SqInv(c, q, f) && SqOk(c, q, n, pc) && SqOk(c, q, n2, pc2)
    requires n != n2 && !(TailHolder(pc) && TailHolder(pc2))
    ensures var r := StepSq(c, q, n, pc, q.issued[n]);
      SqOk(c, r.0, n2, pc2) && !(TailHolder(r.1) && TailHolder(pc2))
  {
    hide Turnstile, TailMarks, QueueMem, Turn;
    match pc
    case Write => WriteSpares(c, q, f, n, n2, pc2);
    case Mark => MarkSpares(c, q, f, n, n2, pc2, q.issued[n]);
    case Exchange(cur, k) => ExchangeSpares(c, q, f, n, cur, k, n2, pc2, q.issued[n]);
    case Bump => BumpSpares(c, q, n, n2, pc2, q.issued[n]);
    case _ => OtherSqSpares(c, q, n, pc, n2, pc2, q.issued[n]);
  }

  // ---------------------------------------------------------------- steps that move the submission queue's head

  /** One turn of the walk: the slot at the head is the one whose turnstile moves. */
  lemma WalkKeeps(c: Config, q: Sq, f: nat, n: nat)
    requires SqInv(c, q, f) && q.headP == n < f
    ensures var p := Pos(c.sqs, n); SqInv(c, q.(tickets := q.tickets[p := q.tickets[p] + 1], headP := n + 1), f)
  {
    assert Turn(c.sqs, q.tickets, n) && TicketOk(c.sqs, q.tickets, q.bumped, q.headP, n);
    hide Turnstile, TailMarks, QueueMem;
    TurnstileMoves(c, q, n, q.bumped, n + 1);
    MarksTurn(c, q, f, Pos(c.sqs, n));
  }

  lemma AddSqHeadKeeps(c: Config, q: Sq, f: nat, i: nat)
    requires SqInv(c, q, f) && q.head + i == q.headP
    ensures SqInv(c, q.(head := q.headP), f)
  {
    hide Turnstile, TailMarks, QueueMem;
  }

  lemma SqHeadShape(c: Config, q: Sq, f: nat)
    requires SqInv(c, q, f)
    ensures c.Valid() && |q.tickets| == c.sqs && q.head <= q.headP <= f < q.head + c.sqs
  {}

  lemma HeadAtGrows(posted: seq<Posted>, pending: map<nat, Cmd>, f: nat, i: nat, j: nat)
    requires Completions(posted, pending, f) && i <= j <= |posted|
    ensures HeadAt(posted, i) <= HeadAt(posted, j) <= f
  {}

  lemma WalkStepKeeps(c: Config, q: Sq, f: nat, cq: Cq, pc: CqPc)
    requires SqInv(c, q, f) && pc.Walk? && HeadPcOk(c, cq, q.head, q.headP, pc)
    requires HeadAt(cq.posted, pc.cur + pc.k) <= f
    ensures var r := StepSqHead(c, q, pc); SqInv(c, r.0, f) && HeadPcOk(c, cq, r.0.head, r.0.headP, r.1)
  {
    SqHeadShape(c, q, f);
    hide SqInv;
    if Pos(c.sqs, q.headP) == pc.target { PosInjective(c.sqs, q.headP, HeadAt(cq.posted, pc.cur + pc.k)); }
    else { WalkKeeps(c, q, f, q.headP); }
  }

  /** The walk and the addition leave the queue's head at the one that the last swept
      completion reports. */
  lemma SqHeadStepKeeps(c: Config, q: Sq, f: nat, cq: Cq, pending: map<nat, Cmd>, pc: CqPc)
    requires SqInv(c, q, f) && OnSqHead(pc) && HeadPcOk(c, cq, q.head, q.headP, pc) && Completions(cq.posted, pending, f)
    ensures var r := StepSqHead(c, q, pc);
      SqInv(c, r.0, f) && HeadPcOk(c, cq, r.0.head, r.0.headP, r.1) && HeadHolder(r.1)
  {
    SqHeadShape(c, q, f);
    hide SqInv, Completions;
    HeadAtGrows(cq.posted, pending, f, pc.cur, pc.cur + pc.k);
    if pc.Walk? { WalkStepKeeps(c, q, f, cq, pc); }
    else if pc.AddSqHead? { AddSqHeadKeeps(c, q, f, pc.m); }
  }

  lemma SqHeadStepSpares(c: Config, q: Sq, f: nat, pc: CqPc, n2: nat, pc2: SqPc)
    requires SqInv(c, q, f) && SqOk(c, q, n2, pc2)
    ensures SqOk(c, StepSqHead(c, q, pc).0, n2, pc2)
  {
    SqHeadShape(c, q, f);
    hide SqInv, Turn;
    if pc.Walk? && Turn(c.sqs, q.tickets, n2) { TurnGrows(c.sqs, q.tickets, Pos(c.sqs, pc.base + pc.m), n2); }
  }

  lemma SqHeadStepSparesCq(c: Config, cq: Cq, sh: nat, sp: nat, sh': nat, sp': nat, n: nat, j: nat, h0: nat, pc: CqPc)
    requires CqOk(c, cq, sh, sp, n, j, h0, pc) && !HeadHolder(pc)
    ensures CqOk(c, cq, sh', sp', n, j, h0, pc)
  {}

  lemma SqHeadStepSparesCqInv(c: Config, cq: Cq, ctrl: Ctrl, issued: seq<Cmd>, sh: nat, sp: nat, sh': nat, sp': nat)
    requires CqInv(c, cq, ctrl, issued, sh, sp) && cq.locked && cq.headP <= |cq.posted| && sp' <= HeadAt(cq.posted, cq.headP)
    ensures CqInv(c, cq, ctrl, issued, sh', sp')
  {
    hide Completions, CqMemOk, HeadMarks;
  }

  // ---------------------------------------------------------------- steps of cq_dequeue

  /** The completion that the last swept entry holds, read for its submission queue head. */
  lemma SqhdOfLast(c: Config, q: Cq, ctrl: Ctrl, issued: seq<Cmd>, sh: nat, sp: nat, k: nat)
    requires CqInv(c, q, ctrl, issued, sh, sp) && 0 < k <= |q.posted| <= k - 1 + c.cqs
    ensures q.mem[Pos(c.cqs, k - 1)].sqhd == Pos(c.sqs, HeadAt(q.posted, k))
  {
    assert EntryOk(c, q.mem, issued, q.posted, k - 1);
  }

  lemma CqQuietOk(c: Config, q: Cq, ctrl: Ctrl, issued: seq<Cmd>, sh: nat, sp: nat, n: nat, j: nat, h0: nat, pc: CqPc)
    requires CqInv(c, q, ctrl, issued, sh, sp) && CqOk(c, q, sh, sp, n, j, h0, pc) && !OnSqHead(pc)
    requires StepCq(c, q, n, j, h0, pc).0 == q && !pc.UnlockPos?
    ensures CqOk(c, q, sh, sp, n, j, h0, StepCq(c, q, n, j, h0, pc).1)
  {
    hide CqMemOk, HeadMarks, Completions;
    if pc.ReadSqhd? { SqhdOfLast(c, q, ctrl, issued, sh, sp, pc.cur + pc.k); }
  }

  lemma MarkHeadKeeps(c: Config, q: Cq, ctrl: Ctrl, issued: seq<Cmd>, sh: nat, sp: nat, n: nat, j: nat, h0: nat)
    requires CqInv(c, q, ctrl, issued, sh, sp) && CqOk(c, q, sh, sp, n, j, h0, MarkHead) && n < |issued|
    ensures var r := StepCq(c, q, n, j, h0, MarkHead);
      CqInv(c, r.0, ctrl, issued, sh, sp) && CqOk(c, r.0, sh, sp, n, j, h0, r.1)
  {
    hide CqMemOk, Completions;
    var p := Pos(c.cqs, j);
    var marks := q.headMark[p := true];
    assert q.headP <= j;
    forall i: nat | q.headP <= i < q.headP + c.cqs && marks[Pos(c.cqs, i)]
      ensures i < |q.posted| && q.posted[i].n in q.consumed + {n}
    {
      if Pos(c.cqs, i) == p { SameRound(c.cqs, q.headP, i, j); }
    }
  }

  lemma SameRound(q: nat, base: nat, i: nat, j: nat)
    requires q > 0 && base <= i < base + q && base <= j < base + q && Pos(q, i) == Pos(q, j)
    ensures i == j
  {
    if i <= j { PosInjective(q, i, j); } else { PosInjective(q, j, i); }
  }

  /** Clearing the mark at the head moves the round that the marks are about. */
  lemma HeadMarksMove(q: nat, headMark: seq<bool>, posted: seq<Posted>, consumed: set<nat>, h: nat)
    requires HeadMarks(q, headMark, posted, consumed, h) && headMark[Pos(q, h)]
    ensures HeadMarks(q, headMark[Pos(q, h) := false], posted, consumed, h + 1)
  {
    var marks := headMark[Pos(q, h) := false];
    forall i: nat | h + 1 <= i < h + 1 + q && marks[Pos(q, i)] ensures i < |posted| && posted[i].n in consumed {
      if i == h + q { PosBack(q, i); }
    }
  }

  /** Clearing the mark at the head: it stands for the completion at the head. */
  lemma SweepKeeps(c: Config, q: Cq, ctrl: Ctrl, issued: seq<Cmd>, sh: nat, sp: nat, n: nat, j: nat, h0: nat,
          cur: nat, k: nat)
    requires CqInv(c, q, ctrl, issued, sh, sp) && CqOk(c, q, sh, sp, n, j, h0, Sweep(cur, k)) && q.headMark[Pos(c.cqs, cur + k)]
    ensures var r := StepCq(c, q, n, j, h0, Sweep(cur, k));
      CqInv(c, r.0, ctrl, issued, sh, sp) && CqOk(c, r.0, sh, sp, n, j, h0, r.1)
  {
    hide CqMemOk, Completions, HeadMarks, Pos, HeadAt;
    HeadMarksMove(c.cqs, q.headMark, q.posted, q.consumed, q.headP);
    MarksBehindPosted(c.cqs, q.headMark[Pos(c.cqs, q.headP) := false], q.posted, q.consumed, q.headP + 1);
    HeadAtGrows(q.posted, ctrl.pending, ctrl.head, q.headP, q.headP + 1);
    if q.headP <= j && Pos(c.cqs, j) == Pos(c.cqs, q.headP) { SameRound(c.cqs, q.headP, q.headP, j); }
  }

  lemma MarksBehindPosted(q: nat, headMark: seq<bool>, posted: seq<Posted>, consumed: set<nat>, h: nat)
    requires HeadMarks(q, headMark, posted, consumed, h)
    ensures h <= |posted|
  {}

  /** Taking and giving back a lock. */
  lemma CqLockKeeps(c: Config, q: Cq, ctrl: Ctrl, issued: seq<Cmd>, sh: nat, sp: nat, n: nat, j: nat, h0: nat, pc: CqPc)
    requires CqInv(c, q, ctrl, issued, sh, sp) && CqOk(c, q, sh, sp, n, j, h0, pc)
    requires pc.LockPos? || pc.UnlockPos? || pc.TryHead?
    requires StepCq(c, q, n, j, h0, pc).0 != q
    ensures var r := StepCq(c, q, n, j, h0, pc);
      CqInv(c, r.0, ctrl, issued, sh, sp) && (!pc.UnlockPos? ==> CqOk(c, r.0, sh, sp, n, j, h0, r.1))
  {
    hide CqMemOk, Completions, HeadMarks, Pos, HeadAt;
  }

  /** The doorbell, the new head, and the end of the head mover's work. */
  lemma CqHolderKeeps(c: Config, q: Cq, ctrl: Ctrl, issued: seq<Cmd>, sh: nat, sp: nat, n: nat, j: nat, h0: nat, pc: CqPc)
    requires CqInv(c, q, ctrl, issued, sh, sp) && CqOk(c, q, sh, sp, n, j, h0, pc)
    requires pc.RingCq? || pc.StoreHead? || pc.UnlockHead?
    ensures var r := StepCq(c, q, n, j, h0, pc); CqInv(c, r.0, ctrl, issued, sh, sp) && CqOk(c, r.0, sh, sp, n, j, h0, r.1)
  {
    hide CqMemOk, Completions, HeadMarks, Pos, HeadAt;
  }

  lemma CqShape(c: Config, q: Cq, sh: nat, sp: nat, n: nat, j: nat, h0: nat, pc: CqPc)
    requires CqOk(c, q, sh, sp, n, j, h0, pc)
    ensures c.Valid() && |q.mem| == |q.headMark| == |q.posLock| == c.cqs && (pc.ReadSqhd? ==> pc.k > 0)
  {}

  /** Every step of `cq_dequeue` on the completion queue keeps it in order. */
  lemma CqStepKeeps(c: Config, q: Cq, ctrl: Ctrl, issued: seq<Cmd>, sh: nat, sp: nat, n: nat, j: nat, h0: nat, pc: CqPc)
    requires CqInv(c, q, ctrl, issued, sh, sp) && CqOk(c, q, sh, sp, n, j, h0, pc) && n < |issued| && !OnSqHead(pc)
    ensures c.Valid() && |q.mem| == |q.headMark| == |q.posLock| == c.cqs && (pc.ReadSqhd? ==> pc.k > 0)
    ensures var r := StepCq(c, q, n, j, h0, pc);
      CqInv(c, r.0, ctrl, issued, sh, sp) && (!pc.UnlockPos? ==> CqOk(c, r.0, sh, sp, n, j, h0, r.1))
  {
    CqShape(c, q, sh, sp, n, j, h0, pc);
    hide CqInv, CqOk;
    if pc.MarkHead? { MarkHeadKeeps(c, q, ctrl, issued, sh, sp, n, j, h0); }
    else if pc.Sweep? && q.headMark[Pos(c.cqs, pc.cur + pc.k)] { SweepKeeps(c, q, ctrl, issued, sh, sp, n, j, h0, pc.cur, pc.k); }
    else if StepCq(c, q, n, j, h0, pc).0 == q {
      if !pc.UnlockPos? { CqQuietOk(c, q, ctrl, issued, sh, sp, n, j, h0, pc); }
    } else if HeadHolder(pc) { CqHolderKeeps(c, q, ctrl, issued, sh, sp, n, j, h0, pc); }
    else { CqLockKeeps(c, q, ctrl, issued, sh, sp, n, j, h0, pc); }
  }

  predicate SlotHeld(pc: CqPc) { !pc.LockPos? }

  lemma MarkHeadSpares(c: Config, q: Cq, sh: nat, sp: nat, n: nat, j: nat, h0: nat, n2: nat, j2: nat, g2: nat,
          pc2: CqPc)
    requires CqOk(c, q, sh, sp, n, j, h0, MarkHead) && CqOk(c, q, sh, sp, n2, j2, g2, pc2)
    requires SlotHeld(pc2) ==> Pos(c.cqs, j) != Pos(c.cqs, j2)
    requires pc2.LockPos? || pc2.MarkHead? ==> n != n2
    ensures CqOk(c, StepCq(c, q, n, j, h0, MarkHead).0, sh, sp, n2, j2, g2, pc2)
  {}

  lemma SweepSpares(c: Config, q: Cq, ctrl: Ctrl, issued: seq<Cmd>, sh: nat, sp: nat, n: nat, j: nat, h0: nat,
          cur: nat, k: nat, n2: nat, j2: nat, g2: nat, pc2: CqPc)
    requires CqInv(c, q, ctrl, issued, sh, sp) && CqOk(c, q, sh, sp, n, j, h0, Sweep(cur, k)) && CqOk(c, q, sh, sp, n2, j2, g2, pc2)
    requires !HeadHolder(pc2)
    ensures CqOk(c, StepCq(c, q, n, j, h0, Sweep(cur, k)).0, sh, sp, n2, j2, g2, pc2)
  {
    hide CqMemOk, Completions, HeadMarks;
    if q.headP <= j2 && Pos(c.cqs, j2) == Pos(c.cqs, q.headP) { SameRound(c.cqs, q.headP, q.headP, j2); }
  }

  lemma HolderSpares(c: Config, q: Cq, sh: nat, sp: nat, n: nat, j: nat, h0: nat, pc: CqPc, n2: nat, j2: nat,
          g2: nat, pc2: CqPc)
    requires CqOk(c, q, sh, sp, n, j, h0, pc) && CqOk(c, q, sh, sp, n2, j2, g2, pc2)
    requires HeadHolder(pc) && !pc.Sweep? && !OnSqHead(pc) && !HeadHolder(pc2)
    ensures CqOk(c, StepCq(c, q, n, j, h0, pc).0, sh, sp, n2, j2, g2, pc2)
  {}

  lemma VisitorSpares(c: Config, q: Cq, sh: nat, sp: nat, n: nat, j: nat, h0: nat, pc: CqPc, n2: nat, j2: nat,
          g2: nat, pc2: CqPc)
    requires CqOk(c, q, sh, sp, n, j, h0, pc) && CqOk(c, q, sh, sp, n2, j2, g2, pc2)
    requires !HeadHolder(pc) && !pc.MarkHead?
    requires SlotHeld(pc) && SlotHeld(pc2) ==> Pos(c.cqs, j) != Pos(c.cqs, j2)
    ensures var r := StepCq(c, q, n, j, h0, pc);
      && CqOk(c, r.0, sh, sp, n2, j2, g2, pc2) && !(HeadHolder(r.1) && HeadHolder(pc2))
      && (SlotHeld(r.1) && SlotHeld(pc2) ==> Pos(c.cqs, j) != Pos(c.cqs, j2))
  {
    hide Pos;
  }

  lemma NoNewHolder(c: Config, q: Cq, n: nat, j: nat, h0: nat, pc: CqPc)
    requires c.Valid() && |q.mem| == |q.headMark| == |q.posLock| == c.cqs && (pc.ReadSqhd? ==> pc.k > 0)
    requires pc.MarkHead? || HeadHolder(pc)
    ensures SlotHeld(pc) && (HeadHolder(StepCq(c, q, n, j, h0, pc).1) ==> HeadHolder(pc))
  {}

  /** A step of one thread in `cq_dequeue` as another one there sees it. */
  lemma CqStepSpares(c: Config, q: Cq, ctrl: Ctrl, issued: seq<Cmd>, sh: nat, sp: nat, n: nat, j: nat, h0: nat,
          pc: CqPc, n2: nat, j2: nat, g2: nat, pc2: CqPc)
    requires CqInv(c, q, ctrl, issued, sh, sp) && CqOk(c, q, sh, sp, n, j, h0, pc) && CqOk(c, q, sh, sp, n2, j2, g2, pc2)
    requires !OnSqHead(pc) && !(HeadHolder(pc) && HeadHolder(pc2))
    requires SlotHeld(pc) && SlotHeld(pc2) ==> Pos(c.cqs, j) != Pos(c.cqs, j2)
    requires pc.MarkHead? && (pc2.LockPos? || pc2.MarkHead?) ==> n != n2
    ensures c.Valid() && |q.mem| == |q.headMark| == |q.posLock| == c.cqs && (pc.ReadSqhd? ==> pc.k > 0)
    ensures var r := StepCq(c, q, n, j, h0, pc);
      && CqOk(c, r.0, sh, sp, n2, j2, g2, pc2) && !(HeadHolder(r.1) && HeadHolder(pc2))
      && (SlotHeld(r.1) && SlotHeld(pc2) ==> Pos(c.cqs, j) != Pos(c.cqs, j2))
  {
    CqShape(c, q, sh, sp, n, j, h0, pc);
    hide CqInv, CqOk, Pos, StepCq;
    if pc.MarkHead? || HeadHolder(pc) { NoNewHolder(c, q, n, j, h0, pc); }
    if pc.MarkHead? { MarkHeadSpares(c, q, sh, sp, n, j, h0, n2, j2, g2, pc2); }
    else if pc.Sweep? { SweepSpares(c, q, ctrl, issued, sh, sp, n, j, h0, pc.cur, pc.k, n2, j2, g2, pc2); }
    else if HeadHolder(pc) { HolderSpares(c, q, sh, sp, n, j, h0, pc, n2, j2, g2, pc2); }
    else { VisitorSpares(c, q, sh, sp, n, j, h0, pc, n2, j2, g2, pc2); }
  }
}
