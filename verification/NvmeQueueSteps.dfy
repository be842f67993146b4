/** Every step of the NVMe queue pair keeps the invariant. */
module NvmeQueueSteps {
  import opened Ring
  import opened NvmeQueue
  import opened NvmeQueueInvariant

  // ---------------------------------------------------------------- identifiers

  lemma TakeCidKeeps(c: Config, m: Mem, id: nat)
    requires Globals(c, m) && id < CIDS && !m.cids[id]
    ensures var r := StepLockCid(m, id); Globals(c, r.mem) && ThreadInv(c, r.mem, r.th)
  {
    hide SqInv, CqInv, Fetched, Live;
  }

  lemma TakeCidSpares(c: Config, m: Mem, id: nat, o: Thread)
    requires Globals(c, m) && id < CIDS && !m.cids[id] && ThreadInv(c, m, o)
    ensures var r := StepLockCid(m, id); ThreadInv(c, r.mem, o) && NoClash(c, o, r.th)
  {
    hide SqInv, CqInv, Fetched, LiveOk, SqOk, CqOk;
  }

  lemma ReleaseKeeps(c: Config, m: Mem, cid: nat)
    requires Globals(c, m) && ThreadInv(c, m, Release(cid))
    ensures Globals(c, StepRelease(m, cid, false).mem)
  {
    hide SqInv, CqInv, Fetched, Live;
  }

  lemma ReleaseSpares(c: Config, m: Mem, cid: nat, o: Thread)
    requires Globals(c, m) && ThreadInv(c, m, Release(cid)) && ThreadInv(c, m, o) && NoClash(c, o, Release(cid))
    ensures ThreadInv(c, StepRelease(m, cid, false).mem, o)
  {
    hide SqInv, CqInv, Fetched, LiveOk, SqOk, CqOk;
  }

  // ---------------------------------------------------------------- issuing a command

  lemma IssueKeepsSq(c: Config, q: Sq, f: nat, cmd: Cmd)
    requires SqInv(c, q, f)
    ensures var q' := q.(inTicket := q.inTicket + 1, issued := q.issued + [cmd]);
      SqInv(c, q', f) && SqOk(c, q', q.inTicket, Wait)
  {
    hide Turn, TicketOk;
    var q' := q.(inTicket := q.inTicket + 1, issued := q.issued + [cmd]);
    var n := q.inTicket;
    if n < q.tailP + c.sqs && q.tailMark[Pos(c.sqs, n)] { MarkedIsWritten(c, q, f, n); }
    forall m: nat | q.tailP <= m < q.tailP + c.sqs && q.tailMark[Pos(c.sqs, m)]
      ensures m < |q'.issued| && Turn(c.sqs, q.tickets, m) && q.mem[Pos(c.sqs, m)] == q'.issued[m]
    {
      MarkedIsWritten(c, q, f, m);
    }
    assert TailMarks(c.sqs, q.tickets, q.tailMark, q.tailP, q.mem, q'.issued);
  }

  lemma IssueSparesSq(c: Config, q: Sq, cmd: Cmd, n: nat, pc: SqPc)
    requires SqOk(c, q, n, pc)
    ensures SqOk(c, q.(inTicket := q.inTicket + 1, issued := q.issued + [cmd]), n, pc)
  {
    hide Turn;
  }

  lemma IssueKeepsCq(c: Config, q: Cq, ctrl: Ctrl, issued: seq<Cmd>, sh: nat, sp: nat, cmd: Cmd)
    requires CqInv(c, q, ctrl, issued, sh, sp)
    ensures CqInv(c, q, ctrl, issued + [cmd], sh, sp)
  {
    hide HeadMarks, Completions, CqOrder;
    forall j: nat | j < |q.posted| <= j + c.cqs ensures EntryOk(c, q.mem, issued + [cmd], q.posted, j) {
      assert EntryOk(c, q.mem, issued, q.posted, j);
    }
  }

  lemma IssueKeepsLive(issued: seq<Cmd>, live: map<nat, nat>, cids: seq<bool>, ctrl: Ctrl, posted: seq<Posted>,
          cqHead: nat, cmd: Cmd)
    requires LiveOk(issued, live, cids, ctrl, posted, cqHead) && Fetched(issued, ctrl)
    requires CidHeld(cids, cmd.cid) && cmd.cid !in live
    ensures LiveOk(issued + [cmd], live[cmd.cid := |issued|], cids, ctrl, posted, cqHead)
  {
    var issued' := issued + [cmd];
    var live' := live[cmd.cid := |issued|];
    forall n: nat | ctrl.head <= n < |issued'| || n in ctrl.pending ensures Live(issued', live', n) {
      if n < |issued| { assert Live(issued, live, n); }
    }
    forall j | cqHead <= j < |posted| ensures Live(issued', live', posted[j].n) {
      assert Live(issued, live, posted[j].n);
    }
  }

  lemma SubmitKeeps(c: Config, m: Mem, cid: nat, payload: int)
    requires Globals(c, m) && ThreadInv(c, m, Ready(cid))
    ensures var r := StepSubmit(m, cid, payload); Globals(c, r.mem) && ThreadInv(c, r.mem, r.th)
  {
    var cmd := Cmd(cid, payload);
    assert m.sq.inTicket == |m.sq.issued|;
    assert m.sq.inTicket !in m.cq.consumed;
    hide SqInv, CqInv, LiveOk, SqOk;
    IssueKeepsSq(c, m.sq, m.ctrl.head, cmd);
    IssueKeepsCq(c, m.cq, m.ctrl, m.sq.issued, m.sq.head, m.sq.headP, cmd);
    IssueKeepsLive(m.sq.issued, m.live, m.cids, m.ctrl, m.cq.posted, m.cq.head, cmd);
  }

  lemma SubmitSpares(c: Config, m: Mem, cid: nat, payload: int, o: Thread)
    requires Globals(c, m) && ThreadInv(c, m, Ready(cid)) && ThreadInv(c, m, o) && NoClash(c, o, Ready(cid))
    ensures var r := StepSubmit(m, cid, payload); ThreadInv(c, r.mem, o) && NoClash(c, o, r.th)
  {
    hide SqInv, CqInv, LiveOk, SqOk, CqOk, Fetched;
    if o.Enqueue? { IssueSparesSq(c, m.sq, Cmd(cid, payload), o.n, o.sq); }
  }

  // ---------------------------------------------------------------- sq_enqueue

  lemma SqStepFrame(c: Config, q: Sq, n: nat, pc: SqPc, cmd: Cmd)
    requires c.Valid() && |q.tickets| == |q.tailMark| == |q.mem| == c.sqs
    ensures var q' := StepSq(c, q, n, pc, cmd).0; q'.issued == q.issued && q'.head == q.head && q'.headP == q.headP
  {}

  lemma EnqueueKeeps(c: Config, m: Mem, cid: nat, n: nat, pc: SqPc)
    requires Globals(c, m) && ThreadInv(c, m, Enqueue(cid, n, pc))
    ensures Defined(c, m, Enqueue(cid, n, pc))
    ensures var r := StepEnqueue(c, m, cid, n, pc, m.sq.issued[n]); Globals(c, r.mem) && ThreadInv(c, r.mem, r.th)
  {
    SqShape(c, m.sq, m.ctrl.head, n, pc);
    assert Shape(c, m);
    hide SqInv, CqInv, LiveOk, SqOk, StepSq, Fetched;
    SqStepKeeps(c, m.sq, m.ctrl.head, n, pc);
    SqStepFrame(c, m.sq, n, pc, m.sq.issued[n]);
  }

  lemma EnqueueSpares(c: Config, m: Mem, cid: nat, n: nat, pc: SqPc, o: Thread)
    requires Globals(c, m) && ThreadInv(c, m, Enqueue(cid, n, pc)) && ThreadInv(c, m, o) && NoClash(c, o, Enqueue(cid, n, pc))
    ensures Defined(c, m, Enqueue(cid, n, pc))
    ensures var r := StepEnqueue(c, m, cid, n, pc, m.sq.issued[n]); ThreadInv(c, r.mem, o) && NoClash(c, o, r.th)
  {
    SqShape(c, m.sq, m.ctrl.head, n, pc);
    assert Shape(c, m);
    hide SqInv, CqInv, LiveOk, SqOk, CqOk, StepSq, Fetched, TailHolder;
    SqStepFrame(c, m.sq, n, pc, m.sq.issued[n]);
    if o.Enqueue? { SqStepSpares(c, m.sq, m.ctrl.head, n, pc, o.n, o.sq); }
  }

  // ---------------------------------------------------------------- cq_poll

  lemma ScanResult(c: Config, mem: seq<Entry>, head: nat, cid: nat, i: nat)
    requires c.Valid() && |mem| == c.cqs
    ensures match Scan(c, mem, head, cid, i)
      case Nothing => true
      case At(j) => head + i <= j < head + c.cqs - 1 && mem[Pos(c.cqs, j)].cid == cid && mem[Pos(c.cqs, j)].phase == Phase(c.cqs, j)
    decreases c.cqs - i
  {}

  lemma PhaseTurns(q: nat, x: nat)
    requires q > 0
    ensures Phase(q, x + q) == !Phase(q, x) && Pos(q, x + q) == Pos(q, x)
  {}

  /** An entry near the head that carries the phase of its round is the completion that was
      posted there in that round. */
  lemma PhaseTellsPosted(c: Config, q: Cq, ctrl: Ctrl, issued: seq<Cmd>, sh: nat, sp: nat, j: nat)
    requires CqInv(c, q, ctrl, issued, sh, sp)
    requires q.head <= j < q.head + c.cqs - 1 && q.mem[Pos(c.cqs, j)].phase == Phase(c.cqs, j)
    ensures j < |q.posted| && EntryOk(c, q.mem, issued, q.posted, j)
  {
    hide Completions, HeadMarks, EntryOk;
    PhaseTurns(c.cqs, j);
    if j + c.cqs < |q.posted| { EntryPhase(c, q.mem, issued, q.posted, j + c.cqs); }
  }

  lemma EntryPhase(c: Config, mem: seq<Entry>, issued: seq<Cmd>, posted: seq<Posted>, j: nat)
    requires CqMemOk(c, mem, issued, posted) && j < |posted| <= j + c.cqs
    ensures mem[Pos(c.cqs, j)].phase == Phase(c.cqs, j)
  {
    assert EntryOk(c, mem, issued, posted, j);
  }

  /** What a scan finds is the completion of the thread's own command. */
  lemma PollFindsOwn(c: Config, m: Mem, cid: nat, n: nat)
    requires Globals(c, m) && ThreadInv(c, m, Poll(cid, n))
    ensures match Scan(c, m.cq.mem, m.cq.head, cid, 0)
      case Nothing => true
      case At(j) => m.cq.head <= j < |m.cq.posted| && m.cq.posted[j].n == n
  {
    hide SqInv, CqInv, Fetched;
    assert c.Valid() && |m.cq.mem| == c.cqs by { CqSizes(c, m.cq, m.ctrl, m.sq.issued, m.sq.head, m.sq.headP); }
    ScanResult(c, m.cq.mem, m.cq.head, cid, 0);
    var r := Scan(c, m.cq.mem, m.cq.head, cid, 0);
    if r.At? {
      PhaseTellsPosted(c, m.cq, m.ctrl, m.sq.issued, m.sq.head, m.sq.headP, r.j);
      assert Live(m.sq.issued, m.live, m.cq.posted[r.j].n);
    }
  }

  lemma CqSizes(c: Config, q: Cq, ctrl: Ctrl, issued: seq<Cmd>, sh: nat, sp: nat)
    requires CqInv(c, q, ctrl, issued, sh, sp)
    ensures c.Valid() && |q.mem| == |q.headMark| == |q.posLock| == c.cqs
  {}

  lemma PollKeeps(c: Config, m: Mem, cid: nat, n: nat)
    requires Globals(c, m) && ThreadInv(c, m, Poll(cid, n))
    ensures Shape(c, m)
    ensures var r := StepPoll(c, m, cid, n); r.mem == m && ThreadInv(c, m, r.th)
  {
    assert Shape(c, m);
    hide SqInv, CqInv, Fetched, LiveOk, Scan;
    PollFindsOwn(c, m, cid, n);
  }

  // ---------------------------------------------------------------- cq_dequeue

  lemma RetireKeepsLive(c: Config, m: Mem, cid: nat, n: nat, j: nat)
    requires LiveOk(m.sq.issued, m.live, m.cids, m.ctrl, m.cq.posted, m.cq.head)
    requires Completions(m.cq.posted, m.ctrl.pending, m.ctrl.head)
    requires Current(m.cids, m.live, m.sq.issued, cid, n) && j < m.cq.head && j < |m.cq.posted| && m.cq.posted[j].n == n
    ensures LiveOk(m.sq.issued, m.live - {cid}, m.cids, m.ctrl, m.cq.posted, m.cq.head)
  {
    forall i: nat | m.ctrl.head <= i < |m.sq.issued| || i in m.ctrl.pending ensures Live(m.sq.issued, m.live - {cid}, i) {
      assert Live(m.sq.issued, m.live, i);
    }
    forall i | m.cq.head <= i < |m.cq.posted| ensures Live(m.sq.issued, m.live - {cid}, m.cq.posted[i].n) {
      assert Live(m.sq.issued, m.live, m.cq.posted[i].n);
    }
  }

  lemma CqStepFrame(c: Config, q: Cq, n: nat, j: nat, h0: nat, pc: CqPc, sh: nat, sp: nat)
    requires CqOk(c, q, sh, sp, n, j, h0, pc)
    requires pc.ReadSqhd? ==> pc.k > 0
    ensures var r := StepCq(c, q, n, j, h0, pc);
      && r.0.posted == q.posted && r.0.head >= q.head
      && r.0.consumed == (if pc.MarkHead? then q.consumed + {n} else q.consumed)
      && (r.1.UnlockPos? ==> pc.UnlockPos? || (pc.Await? && r.0 == q && CqOk(c, q, sh, sp, n, j, h0, UnlockPos)))
      && (r.1.LockPos? <==> pc.LockPos? && r.0 == q)
      && (r.1.MarkHead? ==> pc.LockPos? && !q.posLock[Pos(c.cqs, j)])
  {}

  lemma LiveOkLater(issued: seq<Cmd>, live: map<nat, nat>, cids: seq<bool>, ctrl: Ctrl, posted: seq<Posted>,
          h: nat, h': nat)
    requires LiveOk(issued, live, cids, ctrl, posted, h) && h <= h'
    ensures LiveOk(issued, live, cids, ctrl, posted, h')
  {}

  lemma CqInvParts(c: Config, q: Cq, ctrl: Ctrl, issued: seq<Cmd>, sh: nat, sp: nat)
    requires CqInv(c, q, ctrl, issued, sh, sp)
    ensures Completions(q.posted, ctrl.pending, ctrl.head)
  {}

  lemma DequeueShape(c: Config, m: Mem, cid: nat, n: nat, j: nat, h0: nat, pc: CqPc)
    requires Globals(c, m) && ThreadInv(c, m, Dequeue(cid, n, j, h0, pc))
    ensures Defined(c, m, Dequeue(cid, n, j, h0, pc)) && j < |m.cq.posted| && m.cq.posted[j].n == n && n < |m.sq.issued|
    ensures CqOk(c, m.cq, m.sq.head, m.sq.headP, n, j, h0, pc)
    ensures CqInv(c, m.cq, m.ctrl, m.sq.issued, m.sq.head, m.sq.headP) && SqInv(c, m.sq, m.ctrl.head)
  {}

  lemma SetCq(c: Config, m: Mem, q: Cq, live: map<nat, nat>)
    requires Globals(c, m) && CqInv(c, q, m.ctrl, m.sq.issued, m.sq.head, m.sq.headP)
    requires LiveOk(m.sq.issued, live, m.cids, m.ctrl, q.posted, q.head)
    ensures Globals(c, m.(cq := q, live := live))
  {
    hide SqInv, CqInv, Fetched, LiveOk;
  }

  lemma OpenLive(c: Config, m: Mem)
    requires Globals(c, m)
    ensures LiveOk(m.sq.issued, m.live, m.cids, m.ctrl, m.cq.posted, m.cq.head)
  {
    hide SqInv, CqInv, Fetched, LiveOk;
  }

  lemma DequeueOnCqKeeps(c: Config, m: Mem, cid: nat, n: nat, j: nat, h0: nat, pc: CqPc)
    requires Globals(c, m) && ThreadInv(c, m, Dequeue(cid, n, j, h0, pc)) && !OnSqHead(pc)
    ensures Defined(c, m, Dequeue(cid, n, j, h0, pc))
    ensures var r := StepDequeue(c, m, cid, n, j, h0, pc); Globals(c, r.mem) && ThreadInv(c, r.mem, r.th)
  {
    hide Globals, SqInv, CqInv, LiveOk, CqOk, StepCq, Completions, OnSqHead;
    DequeueShape(c, m, cid, n, j, h0, pc);
    OpenLive(c, m);
    CqStepKeeps(c, m.cq, m.ctrl, m.sq.issued, m.sq.head, m.sq.headP, n, j, h0, pc);
    CqStepFrame(c, m.cq, n, j, h0, pc, m.sq.head, m.sq.headP);
    CqInvParts(c, m.cq, m.ctrl, m.sq.issued, m.sq.head, m.sq.headP);
    var r := StepCq(c, m.cq, n, j, h0, pc);
    if pc.Await? && r.1.UnlockPos? {
      PassedHead(c, m.cq, n, j, h0, m.sq.head, m.sq.headP);
      RetireKeepsLive(c, m, cid, n, j);
      SetCq(c, m, r.0, m.live - {cid});
    } else {
      LiveOkLater(m.sq.issued, m.live, m.cids, m.ctrl, m.cq.posted, m.cq.head, r.0.head);
      SetCq(c, m, r.0, m.live);
    }
  }

  lemma PassedHead(c: Config, q: Cq, n: nat, j: nat, h0: nat, sh: nat, sp: nat)
    requires CqOk(c, q, sh, sp, n, j, h0, UnlockPos)
    ensures j < q.head
  {}

  lemma SqHeadGlobals(c: Config, m: Mem, q: Sq)
    requires Globals(c, m) && SqInv(c, q, m.ctrl.head) && q.issued == m.sq.issued
    requires CqInv(c, m.cq, m.ctrl, m.sq.issued, q.head, q.headP)
    ensures Globals(c, m.(sq := q))
  {
    hide SqInv, CqInv, Fetched, LiveOk;
  }

  lemma WalkedWithinReported(c: Config, q: Cq, sh: nat, sp: nat, pc: CqPc)
    requires c.Valid() && (pc.Walk? || pc.AddSqHead? || pc.RingCq?) && HeadPcOk(c, q, sh, sp, pc)
    ensures q.headP <= |q.posted| && sp <= HeadAt(q.posted, q.headP)
  {}

  lemma OpenSqHead(c: Config, q: Cq, sh: nat, sp: nat, n: nat, j: nat, h0: nat, pc: CqPc)
    requires CqOk(c, q, sh, sp, n, j, h0, pc) && OnSqHead(pc)
    ensures q.locked && HeadPcOk(c, q, sh, sp, pc)
  {}

  lemma DequeueOnSqKeeps(c: Config, m: Mem, cid: nat, n: nat, j: nat, h0: nat, pc: CqPc)
    requires Globals(c, m) && ThreadInv(c, m, Dequeue(cid, n, j, h0, pc)) && OnSqHead(pc)
    ensures Defined(c, m, Dequeue(cid, n, j, h0, pc))
    ensures var r := StepDequeue(c, m, cid, n, j, h0, pc); Globals(c, r.mem) && ThreadInv(c, r.mem, r.th)
  {
    hide Globals, SqInv, CqInv, HeadPcOk, Completions, CqOk, StepSqHead, HeadHolder;
    DequeueShape(c, m, cid, n, j, h0, pc);
    OpenSqHead(c, m.cq, m.sq.head, m.sq.headP, n, j, h0, pc);
    SqHeadFrame(c, m.sq, pc);
    var r := StepSqHead(c, m.sq, pc);
    CqInvParts(c, m.cq, m.ctrl, m.sq.issued, m.sq.head, m.sq.headP);
    SqHeadStepKeeps(c, m.sq, m.ctrl.head, m.cq, m.ctrl.pending, pc);
    SqHeadOwn(c, m, n, j, h0, pc, r.1, r.0.head, r.0.headP);
    WalkedWithinReported(c, m.cq, r.0.head, r.0.headP, r.1);
    SqHeadStepSparesCqInv(c, m.cq, m.ctrl, m.sq.issued, m.sq.head, m.sq.headP, r.0.head, r.0.headP);
    SqHeadGlobals(c, m, r.0);
  }

  lemma SqHeadFrame(c: Config, q: Sq, pc: CqPc)
    requires c.Valid() && |q.tickets| == c.sqs
    ensures var r := StepSqHead(c, q, pc);
      r.0.issued == q.issued && (OnSqHead(pc) ==> HeadHolder(pc) && HeadHolder(r.1) && (r.1.Walk? || r.1.AddSqHead? || r.1.RingCq?))
  {}

  lemma SqHeadOwn(c: Config, m: Mem, n: nat, j: nat, h0: nat, pc: CqPc, pc': CqPc, sh: nat, sp: nat)
    requires CqOk(c, m.cq, m.sq.head, m.sq.headP, n, j, h0, pc) && HeadHolder(pc) && HeadHolder(pc')
    ensures HeadPcOk(c, m.cq, sh, sp, pc') ==> CqOk(c, m.cq, sh, sp, n, j, h0, pc')
  {
    hide HeadPcOk;
  }

  lemma DequeueOnSqSpares(c: Config, m: Mem, cid: nat, n: nat, j: nat, h0: nat, pc: CqPc, o: Thread)
    requires Globals(c, m) && ThreadInv(c, m, Dequeue(cid, n, j, h0, pc)) && OnSqHead(pc)
    requires ThreadInv(c, m, o) && NoClash(c, o, Dequeue(cid, n, j, h0, pc))
    ensures Defined(c, m, Dequeue(cid, n, j, h0, pc))
    ensures var r := StepDequeue(c, m, cid, n, j, h0, pc); ThreadInv(c, r.mem, o) && NoClash(c, o, r.th)
  {
    hide SqInv, CqInv, StepSqHead, SqOk, CqOk, Globals;
    DequeueShape(c, m, cid, n, j, h0, pc);
    var r := StepSqHead(c, m.sq, pc);
    SqHeadFrame(c, m.sq, pc);
    if o.Enqueue? { SqHeadStepSpares(c, m.sq, m.ctrl.head, pc, o.n, o.sq); }
    else if o.Dequeue? {
      SqHeadStepSparesCq(c, m.cq, m.sq.head, m.sq.headP, r.0.head, r.0.headP, o.n, o.j, o.h0, o.cq);
    }
  }

  /** Another thread in `cq_dequeue`: it shares neither identifier, slot nor head lock. */
  lemma DequeuersApart(c: Config, m: Mem, cid: nat, n: nat, j: nat, h0: nat, pc: CqPc, cid2: nat, n2: nat, j2: nat,
          g2: nat, pc2: CqPc)
    requires Globals(c, m) && ThreadInv(c, m, Dequeue(cid, n, j, h0, pc)) && !OnSqHead(pc)
    requires ThreadInv(c, m, Dequeue(cid2, n2, j2, g2, pc2)) && NoClash(c, Dequeue(cid2, n2, j2, g2, pc2), Dequeue(cid, n, j, h0, pc))
    ensures cid != cid2
    ensures var r := StepCq(c, m.cq, n, j, h0, pc);
      && CqOk(c, r.0, m.sq.head, m.sq.headP, n2, j2, g2, pc2) && !(HeadHolder(r.1) && HeadHolder(pc2))
      && (SlotHeld(r.1) && SlotHeld(pc2) ==> Pos(c.cqs, j) != Pos(c.cqs, j2))
  {
    hide StepCq, CqOk, HeadHolder, CqInv, SqInv, LiveOk, Fetched;
    CqStepSpares(c, m.cq, m.ctrl, m.sq.issued, m.sq.head, m.sq.headP, n, j, h0, pc, n2, j2, g2, pc2);
  }

  lemma DequeueSparesDequeue(c: Config, m: Mem, cid: nat, n: nat, j: nat, h0: nat, pc: CqPc, o: Thread, r: Out)
    requires Globals(c, m) && ThreadInv(c, m, Dequeue(cid, n, j, h0, pc)) && !OnSqHead(pc)
    requires o.Dequeue? && ThreadInv(c, m, o) && NoClash(c, o, Dequeue(cid, n, j, h0, pc))
    requires Defined(c, m, Dequeue(cid, n, j, h0, pc)) && r == StepDequeue(c, m, cid, n, j, h0, pc)
    ensures ThreadInv(c, r.mem, o) && NoClash(c, o, r.th)
  {
    hide StepCq, CqOk, HeadHolder, OnSqHead, Globals;
    DequeuersApart(c, m, cid, n, j, h0, pc, o.cid, o.n, o.j, o.h0, o.cq);
  }

  lemma DequeueSparesOther(c: Config, m: Mem, cid: nat, n: nat, j: nat, h0: nat, pc: CqPc, o: Thread, r: Out)
    requires Globals(c, m) && ThreadInv(c, m, Dequeue(cid, n, j, h0, pc)) && !OnSqHead(pc)
    requires !o.Dequeue? && ThreadInv(c, m, o) && NoClash(c, o, Dequeue(cid, n, j, h0, pc))
    requires Defined(c, m, Dequeue(cid, n, j, h0, pc)) && r == StepDequeue(c, m, cid, n, j, h0, pc)
    ensures ThreadInv(c, r.mem, o) && NoClash(c, o, r.th)
  {
    hide StepCq, CqOk, SqOk, HeadHolder, OnSqHead, Globals, CqInv, SqInv;
    DequeueShape(c, m, cid, n, j, h0, pc);
    CqStepFrame(c, m.cq, n, j, h0, pc, m.sq.head, m.sq.headP);
  }

  lemma DequeueOnCqSpares(c: Config, m: Mem, cid: nat, n: nat, j: nat, h0: nat, pc: CqPc, o: Thread)
    requires Globals(c, m) && ThreadInv(c, m, Dequeue(cid, n, j, h0, pc)) && !OnSqHead(pc)
    requires ThreadInv(c, m, o) && NoClash(c, o, Dequeue(cid, n, j, h0, pc))
    ensures Defined(c, m, Dequeue(cid, n, j, h0, pc))
    ensures var r := StepDequeue(c, m, cid, n, j, h0, pc); ThreadInv(c, r.mem, o) && NoClash(c, o, r.th)
  {
    DequeueShape(c, m, cid, n, j, h0, pc);
    var r := StepDequeue(c, m, cid, n, j, h0, pc);
    hide Globals, ThreadInv, NoClash, StepDequeue;
    if o.Dequeue? { DequeueSparesDequeue(c, m, cid, n, j, h0, pc, o, r); }
    else { DequeueSparesOther(c, m, cid, n, j, h0, pc, o, r); }
  }

  // ---------------------------------------------------------------- the controller

  /** The doorbell differs from the controller's head exactly when it is ahead of it. */
  lemma FetchIsCovered(c: Config, q: Sq, f: nat)
    requires SqInv(c, q, f)
    ensures Pos(c.sqs, f) != q.db <==> f < q.dbT
    ensures f < q.dbT ==> f < |q.issued| && q.mem[Pos(c.sqs, f)] == q.issued[f]
  {
    hide Turnstile, TailMarks;
    if Pos(c.sqs, f) == q.db { PosInjective(c.sqs, f, q.dbT); }
  }

  lemma FetchKeeps(c: Config, m: Mem)
    requires Globals(c, m) && CanFetch(c, m)
    ensures Shape(c, m) && Globals(c, StepFetch(c, m))
  {
    FetchIsCovered(c, m.sq, m.ctrl.head);
    hide Turnstile, TailMarks, CqMemOk, HeadMarks, Live;
    assert Live(m.sq.issued, m.live, m.ctrl.head);
    FetchKeepsPosted(m.cq.posted, m.ctrl.pending, m.ctrl.head, m.sq.mem[Pos(c.sqs, m.ctrl.head)]);
    hide Completions, LiveOk;
    FetchKeepsLive(m.sq.issued, m.live, m.cids, m.ctrl, m.cq.posted, m.cq.head, StepFetch(c, m).ctrl);
  }

  lemma FetchKeepsPosted(posted: seq<Posted>, pending: map<nat, Cmd>, f: nat, cmd: Cmd)
    requires Completions(posted, pending, f)
    ensures Completions(posted, pending[f := cmd], f + 1)
  {}

  lemma FetchKeepsLive(issued: seq<Cmd>, live: map<nat, nat>, cids: seq<bool>, ctrl: Ctrl, posted: seq<Posted>,
          cqHead: nat, ctrl': Ctrl)
    requires LiveOk(issued, live, cids, ctrl, posted, cqHead) && ctrl.head < |issued|
    requires ctrl'.head == ctrl.head + 1 && ctrl'.pending.Keys == ctrl.pending.Keys + {ctrl.head}
    ensures LiveOk(issued, live, cids, ctrl', posted, cqHead)
  {}

  /** The completion queue doorbell shows a full queue exactly when it is full. */
  lemma RoomIsSeen(c: Config, q: Cq, ctrl: Ctrl, issued: seq<Cmd>, sh: nat, sp: nat)
    requires CqInv(c, q, ctrl, issued, sh, sp)
    ensures Pos(c.cqs, ctrl.tail + 1) != q.db <==> ctrl.tail + 1 < q.dbH + c.cqs
  {
    hide CqMemOk, Completions, HeadMarks;
    if ctrl.tail + 1 == q.dbH + c.cqs { PosBack(c.cqs, ctrl.tail + 1); }
    else if Pos(c.cqs, ctrl.tail + 1) == q.db { PosInjective(c.cqs, q.dbH, ctrl.tail + 1); }
  }

  lemma PostKeepsMem(c: Config, mem: seq<Entry>, issued: seq<Cmd>, posted: seq<Posted>, n: nat, f: nat)
    requires CqMemOk(c, mem, issued, posted) && n < |issued|
    ensures var j := |posted|;
      CqMemOk(c, mem[Pos(c.cqs, j) := Entry(issued[n].cid, Phase(c.cqs, j), Pos(c.sqs, f))], issued, posted + [Posted(n, f)])
  {
    var t := |posted|;
    var p := Pos(c.cqs, t);
    var mem' := mem[p := Entry(issued[n].cid, Phase(c.cqs, t), Pos(c.sqs, f))];
    var posted' := posted + [Posted(n, f)];
    forall j: nat | j < t + 1 <= j + c.cqs ensures EntryOk(c, mem', issued, posted', j) {
      if j < t {
        assert EntryOk(c, mem, issued, posted, j);
        if Pos(c.cqs, j) == p { PosInjective(c.cqs, j, t); }
      }
    }
    forall j: nat | t + 1 <= j < t + 1 + c.cqs ensures mem'[Pos(c.cqs, j)].phase != Phase(c.cqs, j) {
      if j == t + c.cqs { PhaseTurns(c.cqs, t); }
      else if Pos(c.cqs, j) == p { PosInjective(c.cqs, t, j); }
    }
  }

  lemma PostKeepsCq(c: Config, q: Cq, ctrl: Ctrl, issued: seq<Cmd>, sh: nat, sp: nat, n: nat)
    requires CqInv(c, q, ctrl, issued, sh, sp) && Fetched(issued, ctrl) && n in ctrl.pending
    requires ctrl.tail + 1 < q.dbH + c.cqs
    ensures var j := ctrl.tail;
      var e := Entry(ctrl.pending[n].cid, Phase(c.cqs, j), Pos(c.sqs, ctrl.head));
      CqInv(c, q.(mem := q.mem[Pos(c.cqs, j) := e], posted := q.posted + [Posted(n, ctrl.head)]),
            ctrl.(tail := j + 1, pending := ctrl.pending - {n}), issued, sh, sp)
  {
    hide CqMemOk;
    PostKeepsMem(c, q.mem, issued, q.posted, n, ctrl.head);
  }

  lemma PostSparesCq(c: Config, q: Cq, sh: nat, sp: nat, mem: seq<Entry>, e: Posted, n: nat, j: nat, h0: nat, pc: CqPc)
    requires CqOk(c, q, sh, sp, n, j, h0, pc) && |mem| == |q.mem|
    ensures CqOk(c, q.(mem := mem, posted := q.posted + [e]), sh, sp, n, j, h0, pc)
  {}

  lemma PostKeepsLive(issued: seq<Cmd>, live: map<nat, nat>, cids: seq<bool>, ctrl: Ctrl, posted: seq<Posted>,
          cqHead: nat, n: nat, e: Posted, ctrl': Ctrl)
    requires LiveOk(issued, live, cids, ctrl, posted, cqHead) && n in ctrl.pending && e.n == n
    requires ctrl'.head == ctrl.head && ctrl'.pending == ctrl.pending - {n}
    ensures LiveOk(issued, live, cids, ctrl', posted + [e], cqHead)
  {}

  lemma CompleteKeeps(c: Config, m: Mem, n: nat)
    requires Globals(c, m) && CanComplete(c, m, n)
    ensures Shape(c, m) && Globals(c, StepComplete(c, m, n))
  {
    assert Shape(c, m);
    hide SqInv, CqInv, LiveOk;
    RoomIsSeen(c, m.cq, m.ctrl, m.sq.issued, m.sq.head, m.sq.headP);
    PostKeepsCq(c, m.cq, m.ctrl, m.sq.issued, m.sq.head, m.sq.headP, n);
    PostKeepsLive(m.sq.issued, m.live, m.cids, m.ctrl, m.cq.posted, m.cq.head, n, Posted(n, m.ctrl.head), StepComplete(c, m, n).ctrl);
  }

  lemma CompleteSpares(c: Config, m: Mem, n: nat, o: Thread)
    requires Globals(c, m) && n in m.ctrl.pending && ThreadInv(c, m, o)
    ensures Shape(c, m) && ThreadInv(c, StepComplete(c, m, n), o)
  {
    assert Shape(c, m);
    hide SqInv, CqInv, LiveOk, Fetched, SqOk, CqOk;
    if o.Dequeue? {
      PostSparesCq(c, m.cq, m.sq.head, m.sq.headP, StepComplete(c, m, n).cq.mem, Posted(n, m.ctrl.head), o.n, o.j, o.h0, o.cq);
    }
  }

  // ---------------------------------------------------------------- all steps

  lemma ThreadStepKeeps(c: Config, m: Mem, th: Thread, ch: Choice)
    requires Globals(c, m) && ThreadInv(c, m, th)
    ensures Defined(c, m, th)
    ensures var r := ThreadStep(c, m, th, ch); Globals(c, r.mem) && ThreadInv(c, r.mem, r.th)
  {
    assert Shape(c, m);
    hide SqInv, CqInv, LiveOk, Fetched, SqOk, CqOk, StepSq, StepCq, Scan, StepSqHead;
    match th
    case LockCid(id) => if !m.cids[id] { TakeCidKeeps(c, m, id); }
    case Ready(cid) => SubmitKeeps(c, m, cid, ch.payload);
    case Enqueue(cid, n, pc) => EnqueueKeeps(c, m, cid, n, pc);
    case Poll(cid, n) => PollKeeps(c, m, cid, n);
    case Dequeue(cid, n, j, h0, pc) =>
      if OnSqHead(pc) { DequeueOnSqKeeps(c, m, cid, n, j, h0, pc); } else { DequeueOnCqKeeps(c, m, cid, n, j, h0, pc); }
    case Release(cid) => if !ch.again { ReleaseKeeps(c, m, cid); }
    case _ =>
  }

  lemma ThreadStepSpares(c: Config, m: Mem, th: Thread, ch: Choice, o: Thread)
    requires Globals(c, m) && ThreadInv(c, m, th) && ThreadInv(c, m, o) && NoClash(c, o, th)
    ensures Defined(c, m, th)
    ensures var r := ThreadStep(c, m, th, ch); ThreadInv(c, r.mem, o) && NoClash(c, o, r.th)
  {
    assert Shape(c, m);
    hide SqInv, CqInv, LiveOk, Fetched, SqOk, CqOk, StepSq, StepCq, Scan, StepSqHead;
    match th
    case LockCid(id) => if !m.cids[id] { TakeCidSpares(c, m, id, o); }
    case Ready(cid) => SubmitSpares(c, m, cid, ch.payload, o);
    case Enqueue(cid, n, pc) => EnqueueSpares(c, m, cid, n, pc, o);
    case Dequeue(cid, n, j, h0, pc) =>
      if OnSqHead(pc) { DequeueOnSqSpares(c, m, cid, n, j, h0, pc, o); } else { DequeueOnCqSpares(c, m, cid, n, j, h0, pc, o); }
    case Release(cid) => if !ch.again { ReleaseSpares(c, m, cid, o); }
    case _ =>
  }

  lemma InitInv(c: Config, s: State)
    requires Init(c, s)
    ensures Inv(c, s)
  {
    var m := s.mem;
    forall n: nat | n < c.sqs ensures !m.sq.tailMark[Pos(c.sqs, n)] {}
    assert TailMarks(c.sqs, m.sq.tickets, m.sq.tailMark, 0, m.sq.mem, []);
    forall t | 0 <= t < |s.threads| ensures s.threads[t] == Idle {}
  }

  /** Every thread can always take its next step, and every step keeps the invariant. */
  lemma StepKeepsInv(c: Config, s: State, a: Action, s': State)
    requires Inv(c, s) && Step(c, s, a, s')
    ensures Inv(c, s')
  {
    hide Globals, ThreadInv, ThreadStep, NoClash;
    match a
    case Run(t, ch) =>
      var th := s.threads[t];
      var r := ThreadStep(c, s.mem, th, ch);
      ThreadStepKeeps(c, s.mem, th, ch);
      forall u | 0 <= u < |s.threads| && u != t
        ensures ThreadInv(c, r.mem, s.threads[u]) && NoClash(c, s.threads[u], r.th) && NoClash(c, r.th, s.threads[u])
      {
        assert NoClash(c, s.threads[u], th);
        ThreadStepSpares(c, s.mem, th, ch, s.threads[u]);
        ClashSymmetric(c, s.threads[u], r.th);
      }
    case Fetch =>
      FetchKeeps(c, s.mem);
      forall u | 0 <= u < |s.threads| ensures ThreadInv(c, s'.mem, s.threads[u]) { FetchSpares(c, s.mem, s.threads[u]); }
    case Complete(n) =>
      CompleteKeeps(c, s.mem, n);
      forall u | 0 <= u < |s.threads| ensures ThreadInv(c, s'.mem, s.threads[u]) { CompleteSpares(c, s.mem, n, s.threads[u]); }
  }

  lemma ClashSymmetric(c: Config, a: Thread, b: Thread)
    requires c.Valid() && NoClash(c, a, b)
    ensures NoClash(c, b, a)
  {}

  lemma FetchSpares(c: Config, m: Mem, o: Thread)
    requires Shape(c, m) && ThreadInv(c, m, o)
    ensures ThreadInv(c, StepFetch(c, m), o)
  {
    hide SqOk, CqOk;
  }
}
