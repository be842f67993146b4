/** The lock-free NVMe queue pair of BaM as a transition system: GPU threads that enqueue
    commands and consume completions, and a controller as section 4.1 and section 4.6 of
    NVM Express 1.3 describe it.  Every atomic operation and every access to queue memory or
    a doorbell is one step; one scan of the completion queue is one step.

    Fields after `// history` record what has happened.  The threads read none of them; the
    one use is that a thread's own command is the one it was issued with. */
module NvmeQueue {
  import opened Ring

  const CIDS: nat := 0x1_0000

  datatype Config = Config(sqs: nat, cqs: nat) {
    predicate Valid() { sqs >= 2 && cqs >= 2 }
  }

  datatype Cmd = Cmd(cid: nat, payload: int)

  /** A completion: command identifier, phase tag, and the submission queue head pointer. */
  datatype Entry = Entry(cid: nat, phase: bool, sqhd: nat)

  /** Posted completion: of the n-th fetched command, with h commands fetched so far. */
  datatype Posted = Posted(n: nat, h: nat)

  /** The submission queue.  `bumped`: tickets whose producer has added its one to the
      turnstile; `tailP` and `headP` count the slots whose tail mark was cleared and whose
      turnstile the head mover has advanced; `dbT` is the unwrapped value of the doorbell. */
  datatype Sq = Sq(
    inTicket: nat,
    tickets: seq<nat>,
    tailMark: seq<bool>,
    mem: seq<Cmd>,
    head: nat,
    tail: nat,
    locked: bool,
    db: nat,
    // history
    issued: seq<Cmd>,
    bumped: set<nat>,
    tailP: nat,
    headP: nat,
    dbT: nat)

  /** The completion queue.  `consumed`: commands whose thread has marked their completion;
      `headP` counts the completions whose head mark was cleared; `dbH` is the unwrapped
      value of the doorbell. */
  datatype Cq = Cq(
    mem: seq<Entry>,
    head: nat,
    headMark: seq<bool>,
    locked: bool,
    posLock: seq<bool>,
    db: nat,
    // history
    posted: seq<Posted>,
    consumed: set<nat>,
    headP: nat,
    dbH: nat)

  datatype Ctrl = Ctrl(
    head: nat,
    tail: nat,
    pending: map<nat, Cmd>,
    // history
    fetched: seq<Cmd>)

  /** `live`: the command each identifier stands for, from the time it is issued until its
      thread sees the completion queue head pass. */
  datatype Mem = Mem(
    cidTicket: nat,
    cids: seq<bool>,
    sq: Sq,
    cq: Cq,
    ctrl: Ctrl,
    // history
    live: map<nat, nat>)

  /** Where a thread stands inside `sq_enqueue`, once it has its ticket. */
  datatype SqPc =
    | Wait
    | Write
    | Mark
    | Check
    | TryLock
    | LoadTail
    | Full(cur: nat, k: nat)
    | Exchange(cur: nat, k: nat)
    | Doorbell(cur: nat, k: nat)
    | StoreTail(cur: nat, k: nat)
    | UnlockTail
    | Bump

  /** Where a thread stands inside `cq_dequeue`. */
  datatype CqPc =
    | LockPos
    | MarkHead
    | CheckMark
    | TryHead
    | LoadHead
    | Sweep(cur: nat, k: nat)
    | ReadSqhd(cur: nat, k: nat)
    | LoadSqHead(cur: nat, k: nat, target: nat)
    | Walk(cur: nat, k: nat, target: nat, base: nat, m: nat)
    | AddSqHead(cur: nat, k: nat, m: nat)
    | RingCq(cur: nat, k: nat)
    | StoreHead(cur: nat, k: nat)
    | UnlockHead
    | Await
    | UnlockPos

  /** A thread: n is the ticket of its command, j the completion it consumes, h0 the head
      its scan started from. */
  datatype Thread =
    | Idle
    | PickCid
    | LockCid(id: nat)
    | Ready(cid: nat)
    | Enqueue(cid: nat, n: nat, sq: SqPc)
    | Poll(cid: nat, n: nat)
    | Dequeue(cid: nat, n: nat, j: nat, h0: nat, cq: CqPc)
    | Release(cid: nat)

  datatype State = State(mem: Mem, threads: seq<Thread>)

  predicate Shape(c: Config, m: Mem) {
    && c.Valid()
    && |m.cids| == CIDS
    && |m.sq.tickets| == |m.sq.tailMark| == |m.sq.mem| == c.sqs
    && |m.cq.mem| == |m.cq.headMark| == |m.cq.posLock| == c.cqs
  }

  ghost predicate InitMem(c: Config, m: Mem) {
    && Shape(c, m)
    && (forall i | 0 <= i < CIDS :: !m.cids[i])
    && (forall p | 0 <= p < c.sqs :: m.sq.tickets[p] == 0 && !m.sq.tailMark[p])
    && (forall p | 0 <= p < c.cqs :: !m.cq.headMark[p] && !m.cq.posLock[p] && !m.cq.mem[p].phase)
    && m.sq == Sq(0, m.sq.tickets, m.sq.tailMark, m.sq.mem, 0, 0, false, 0, [], {}, 0, 0, 0)
    && m.cq == Cq(m.cq.mem, 0, m.cq.headMark, false, m.cq.posLock, 0, [], {}, 0, 0)
    && m.ctrl == Ctrl(0, 0, map[], []) && m.live == map[]
  }

  ghost predicate Init(c: Config, s: State) {
    InitMem(c, s.mem) && forall t | 0 <= t < |s.threads| :: s.threads[t].Idle?
  }

  // ---------------------------------------------------------------- threads

  /** What a step of a thread leaves: the shared memory and the thread's next position. */
  datatype Out = Out(mem: Mem, th: Thread)

  /** `get_cid`. */
  function StepPickCid(m: Mem): Out {
    Out(m.(cidTicket := m.cidTicket + 1), LockCid(m.cidTicket % CIDS))
  }

  function StepLockCid(m: Mem, id: nat): Out
    requires id < |m.cids|
  {
    if m.cids[id] then Out(m, PickCid) else Out(m.(cids := m.cids[id := true]), Ready(id))
  }

  /** `in_ticket.fetch_add(1)`, for a command with the thread's identifier. */
  function StepSubmit(m: Mem, cid: nat, payload: int): Out {
    var n := m.sq.inTicket;
    Out(m.(sq := m.sq.(inTicket := n + 1, issued := m.sq.issued + [Cmd(cid, payload)]), live := m.live[cid := n]),
        Enqueue(cid, n, Wait))
  }

  /** The rest of `sq_enqueue`, on the submission queue alone; cmd is the thread's command. */
  function StepSq(c: Config, q: Sq, n: nat, sq: SqPc, cmd: Cmd): (r: (Sq, SqPc))
    requires c.Valid() && |q.tickets| == |q.tailMark| == |q.mem| == c.sqs
  {
    var p := Pos(c.sqs, n);
    match sq
    case Wait => (q, if q.tickets[p] == 2 * Lap(c.sqs, n) then Write else Wait)
    case Write => (q.(mem := q.mem[p := cmd]), Mark)
    case Mark => (q.(tailMark := q.tailMark[p := true]), Check)
    case Check => (q, if q.tailMark[p] then TryLock else Bump)
    case TryLock => if q.locked then (q, Check) else (q.(locked := true), LoadTail)
    case LoadTail => (q, Full(q.tail, 0))
    case Full(cur, k) =>
      (q, if Pos(c.sqs, cur + k + 1) != Pos(c.sqs, q.head) then Exchange(cur, k) else TailMoved(cur, k))
    case Exchange(cur, k) =>
      var e := Pos(c.sqs, cur + k);
      if q.tailMark[e] then (q.(tailMark := q.tailMark[e := false], tailP := cur + k + 1), Full(cur, k + 1))
      else (q, TailMoved(cur, k))
    case Doorbell(cur, k) => (q.(db := Pos(c.sqs, cur + k), dbT := cur + k), StoreTail(cur, k))
    case StoreTail(cur, k) => (q.(tail := cur + k), UnlockTail)
    case UnlockTail => (q.(locked := false), Check)
    case Bump => (q.(tickets := q.tickets[p := q.tickets[p] + 1], bumped := q.bumped + {n}), Bump)
  }

  /** `move_tail` is over: ring the doorbell if it moved at all. */
  function TailMoved(cur: nat, k: nat): SqPc {
    if k > 0 then Doorbell(cur, k) else UnlockTail
  }

  function StepEnqueue(c: Config, m: Mem, cid: nat, n: nat, sq: SqPc, cmd: Cmd): Out
    requires Shape(c, m)
  {
    var r := StepSq(c, m.sq, n, sq, cmd);
    Out(m.(sq := r.0), if sq.Bump? then Poll(cid, n) else Enqueue(cid, n, r.1))
  }

  datatype Found = Nothing | At(j: nat)

  /** One scan of `cq_poll` from entry head + i: the first entry of the current round that
      carries the identifier, unless an entry of another round comes first. */
  function Scan(c: Config, mem: seq<Entry>, head: nat, cid: nat, i: nat): Found
    requires c.Valid() && |mem| == c.cqs
    decreases c.cqs - i
  {
    if i >= c.cqs - 1 then Nothing
    else
      var e := mem[Pos(c.cqs, head + i)];
      if e.cid == cid && e.phase == Phase(c.cqs, head + i) then At(head + i)
      else if e.phase != Phase(c.cqs, head + i) then Nothing
      else Scan(c, mem, head, cid, i + 1)
  }

  function StepPoll(c: Config, m: Mem, cid: nat, n: nat): Out
    requires Shape(c, m)
  {
    match Scan(c, m.cq.mem, m.cq.head, cid, 0)
    case Nothing => Out(m, Poll(cid, n))
    case At(j) => Out(m, Dequeue(cid, n, j, m.cq.head, LockPos))
  }

  /** The test that ends the last loop of `cq_dequeue`. */
  predicate HeadPassed(newHead: nat, loc: nat, curHead: nat) {
    if newHead > curHead then loc >= curHead && loc < newHead
    else if newHead < curHead then loc >= curHead || loc < newHead
    else false
  }

  /** The steps of `cq_dequeue` that touch the completion queue alone. */
  function StepCq(c: Config, q: Cq, n: nat, j: nat, h0: nat, cq: CqPc): (r: (Cq, CqPc))
    requires c.Valid() && |q.mem| == |q.headMark| == |q.posLock| == c.cqs
    requires cq.ReadSqhd? ==> cq.k > 0
  {
    var p := Pos(c.cqs, j);
    match cq
    case LockPos => if q.posLock[p] then (q, LockPos) else (q.(posLock := q.posLock[p := true]), MarkHead)
    case MarkHead => (q.(headMark := q.headMark[p := true], consumed := q.consumed + {n}), CheckMark)
    case CheckMark => (q, if q.headMark[p] then TryHead else Await)
    case TryHead => if q.locked then (q, CheckMark) else (q.(locked := true), LoadHead)
    case LoadHead => (q, Sweep(q.head, 0))
    case Sweep(cur, k) =>
      var e := Pos(c.cqs, cur + k);
      if q.headMark[e] then (q.(headMark := q.headMark[e := false], headP := cur + k + 1), Sweep(cur, k + 1))
      else (q, if k == 0 then UnlockHead else ReadSqhd(cur, k))
    case ReadSqhd(cur, k) => (q, LoadSqHead(cur, k, q.mem[Pos(c.cqs, cur + k - 1)].sqhd))
    case RingCq(cur, k) => (q.(db := Pos(c.cqs, cur + k), dbH := cur + k), StoreHead(cur, k))
    case StoreHead(cur, k) => (q.(head := cur + k), UnlockHead)
    case UnlockHead => (q.(locked := false), CheckMark)
    case Await => (q, if HeadPassed(q.head, j, h0) then UnlockPos else Await)
    case UnlockPos => (q.(posLock := q.posLock[p := false]), UnlockPos)
    case _ => (q, cq)
  }

  /** The steps of `move_head_cq` that advance the submission queue's head: one turn of the
      walk over the slots that the controller has fetched, and the final addition. */
  function StepSqHead(c: Config, q: Sq, cq: CqPc): (r: (Sq, CqPc))
    requires c.Valid() && |q.tickets| == c.sqs
  {
    match cq
    case LoadSqHead(cur, k, target) => (q, Walk(cur, k, target, q.head, 0))
    case Walk(cur, k, target, base, i) =>
      var p := Pos(c.sqs, base + i);
      if p == target then (q, AddSqHead(cur, k, i))
      else (q.(tickets := q.tickets[p := q.tickets[p] + 1], headP := base + i + 1), Walk(cur, k, target, base, i + 1))
    case AddSqHead(cur, k, i) => (q.(head := q.head + i), RingCq(cur, k))
    case _ => (q, cq)
  }

  predicate OnSqHead(cq: CqPc) {
    cq.LoadSqHead? || cq.Walk? || cq.AddSqHead?
  }

  function StepDequeue(c: Config, m: Mem, cid: nat, n: nat, j: nat, h0: nat, cq: CqPc): Out
    requires Shape(c, m) && (cq.ReadSqhd? ==> cq.k > 0)
  {
    if OnSqHead(cq) then
      var r := StepSqHead(c, m.sq, cq);
      Out(m.(sq := r.0), Dequeue(cid, n, j, h0, r.1))
    else
      var r := StepCq(c, m.cq, n, j, h0, cq);
      Out(m.(cq := r.0, live := if cq.Await? && r.1.UnlockPos? then m.live - {cid} else m.live),
          if cq.UnlockPos? then Release(cid) else Dequeue(cid, n, j, h0, r.1))
  }

  /** `put_cid`, or the second command that `enqueue_second` issues under the same
      identifier. */
  function StepRelease(m: Mem, cid: nat, again: bool): Out
    requires cid < |m.cids|
  {
    if again then Out(m, Ready(cid)) else Out(m.(cids := m.cids[cid := false]), Idle)
  }

  /** What a thread needs of the shared memory for its step to be defined. */
  predicate Defined(c: Config, m: Mem, th: Thread) {
    && Shape(c, m)
    && match th
       case LockCid(id) => id < CIDS
       case Release(cid) => cid < CIDS
       case Enqueue(cid, n, sq) => n < |m.sq.issued|
       case Dequeue(cid, n, j, h0, cq) => cq.ReadSqhd? ==> cq.k > 0
       case _ => true
  }

  /** The choices a thread's caller makes: the next command, and whether the identifier is
      kept for a second one. */
  datatype Choice = Choice(payload: int, again: bool)

  function ThreadStep(c: Config, m: Mem, th: Thread, ch: Choice): Out
    requires Defined(c, m, th)
  {
    match th
    case Idle => Out(m, PickCid)
    case PickCid => StepPickCid(m)
    case LockCid(id) => StepLockCid(m, id)
    case Ready(cid) => StepSubmit(m, cid, ch.payload)
    case Enqueue(cid, n, sq) => StepEnqueue(c, m, cid, n, sq, m.sq.issued[n])
    case Poll(cid, n) => StepPoll(c, m, cid, n)
    case Dequeue(cid, n, j, h0, cq) => StepDequeue(c, m, cid, n, j, h0, cq)
    case Release(cid) => StepRelease(m, cid, ch.again)
  }

  // ---------------------------------------------------------------- the controller

  /** The doorbell covers another command. */
  predicate CanFetch(c: Config, m: Mem)
    requires c.Valid()
  {
    Pos(c.sqs, m.ctrl.head) != m.sq.db
  }

  function StepFetch(c: Config, m: Mem): Mem
    requires Shape(c, m)
  {
    var n := m.ctrl.head;
    var cmd := m.sq.mem[Pos(c.sqs, n)];
    m.(ctrl := m.ctrl.(head := n + 1, pending := m.ctrl.pending[n := cmd], fetched := m.ctrl.fetched + [cmd]))
  }

  /** Command n is in progress and the completion queue is not full. */
  predicate CanComplete(c: Config, m: Mem, n: nat)
    requires c.Valid()
  {
    n in m.ctrl.pending && Pos(c.cqs, m.ctrl.tail + 1) != m.cq.db
  }

  function StepComplete(c: Config, m: Mem, n: nat): Mem
    requires Shape(c, m) && n in m.ctrl.pending
  {
    var j := m.ctrl.tail;
    var e := Entry(m.ctrl.pending[n].cid, Phase(c.cqs, j), Pos(c.sqs, m.ctrl.head));
    m.(cq := m.cq.(mem := m.cq.mem[Pos(c.cqs, j) := e], posted := m.cq.posted + [Posted(n, m.ctrl.head)]),
       ctrl := m.ctrl.(tail := j + 1, pending := m.ctrl.pending - {n}))
  }

  // ---------------------------------------------------------------- one step of the system

  datatype Action = Run(t: nat, ch: Choice) | Fetch | Complete(n: nat)

  ghost predicate Step(c: Config, s: State, a: Action, s': State) {
    Shape(c, s.mem) &&
    match a
    case Run(t, ch) =>
      && t < |s.threads| && Defined(c, s.mem, s.threads[t])
      && var r := ThreadStep(c, s.mem, s.threads[t], ch);
         s' == State(r.mem, s.threads[t := r.th])
    case Fetch => CanFetch(c, s.mem) && s' == s.(mem := StepFetch(c, s.mem))
    case Complete(n) => CanComplete(c, s.mem, n) && s' == s.(mem := StepComplete(c, s.mem, n))
  }
}
