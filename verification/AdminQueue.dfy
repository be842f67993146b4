/** The synchronous admin client (`rpc.cpp`) over a pair of host rings and a controller that
    fetches in order, works on any number of commands and completes them in any order. */
module AdminQueue {
  import opened Ring
  import opened HostRing
  import opened Wrappers

  /** Something the controller may do: fetch the next command, or post command n's
      completion. */
  datatype Act = Fetch | Post(n: nat)

  class Controller {
    const reply: nat -> int
    var head: nat
    var tail: nat
    var pending: map<nat, nat>
    ghost var posted: seq<nat>

    constructor (reply: nat -> int)
      ensures this.reply == reply && head == tail == 0 && pending == map[] && posted == []
    {
      this.reply := reply;
      head, tail, pending, posted := 0, 0, map[], [];
    }
  }

  method WriteEntry<T>(mem: array<T>, slot: nat, entry: T)
    requires slot < mem.Length
    modifies mem
    ensures mem[..] == old(mem[..])[slot := entry]
  {
    mem[slot] := entry;
  }

  class Admin {
    const asq: SubmissionQueue
    const acq: CompletionQueue
    const ctrl: Controller
    /** The commands put into the ring, and how many of them the doorbell covers. */
    ghost var issued: seq<Cmd>
    ghost var rung: nat
    /** How many completions the completion queue's doorbell has freed. */
    ghost var freed: nat

    /** Host and controller agree on the rings. */
    ghost predicate Sync()
      reads this, asq, asq.mem, acq, acq.mem, ctrl
    {
      Agree() && |issued| == asq.t
    }

    /** They do, but for slots that are handed out and not yet filled. */
    ghost predicate Agree()
      reads this, asq, asq.mem, acq, acq.mem, ctrl
    {
      && asq.Ok() && acq.Ok() && asq.mapped && acq.mapped
      && asq.db == Pos(asq.qs, rung) && asq.h <= ctrl.head <= rung <= |issued| <= asq.t
      && acq.db == Pos(acq.qs, freed) && freed <= acq.h <= ctrl.tail == |ctrl.posted| < freed + acq.qs
      && CommandsIn(asq.qs, asq.mem[..], issued, asq.h, rung) && Named(asq.qs, issued)
      && Working(issued, ctrl.head, ctrl.pending, ctrl.posted)
      && CompletionsIn(acq.qs, acq.mem[..], issued, ctrl.reply, ctrl.posted, acq.h)
    }

    /** Between calls: everything enqueued is submitted, and each completion that was taken
        has been accounted for in both rings. */
    ghost predicate Valid()
      reads this, asq, asq.mem, acq, acq.mem, ctrl
    {
      Sync() && rung == asq.t && freed == acq.h == asq.h
    }

    /** Commands that were given up on a timeout and are still in the ring. */
    ghost function Backlog(): nat
      reads this, asq, asq.mem, acq, acq.mem, ctrl
      requires Valid()
    {
      asq.t - asq.h
    }

    /** `create_admin`. */
    constructor (sqs: nat, cqs: nat, reply: nat -> int)
      requires 2 <= sqs <= HALF_WORD && HALF_WORD % sqs == 0 && 2 <= cqs <= HALF_WORD
      ensures Valid() && Backlog() == 0 && issued == [] && ctrl.reply == reply
      ensures fresh(asq) && fresh(asq.mem) && fresh(acq) && fresh(acq.mem) && fresh(ctrl)
    {
      asq := new SubmissionQueue(sqs, true);
      acq := new CompletionQueue(cqs, true);
      ctrl := new Controller(reply);
      issued, rung, freed := [], 0, 0;
    }

    method FetchNext()
      requires Sync()
      modifies ctrl
      ensures Sync() && ctrl.posted == old(ctrl.posted)
    {
      hide Working, CommandsIn, CompletionsIn, Named, Pos, Phase;
      if Pos(asq.qs, ctrl.head) != asq.db {
        var n := ctrl.head;
        assert n < rung;
        FetchKeeps(asq.qs, asq.mem[..], issued, asq.h, rung, n, ctrl.pending, ctrl.posted);
        ctrl.pending := ctrl.pending[n := asq.mem[Pos(asq.qs, n)].cid];
        ctrl.head := n + 1;
      }
    }

    method PostOne(n: nat)
      requires Sync()
      modifies ctrl, acq.mem
      ensures Sync() && old(ctrl.posted) <= ctrl.posted
    {
      hide Working, CommandsIn, CompletionsIn, Named, Pos, Phase;
      if n in ctrl.pending && Pos(acq.qs, ctrl.tail + 1) != acq.db {
        var j := ctrl.tail;
        HasRoom(acq.qs, freed, j);
        PostKeepsWork(issued, ctrl.head, ctrl.pending, ctrl.posted, n);
        PostKeeps(acq.qs, acq.mem[..], issued, ctrl.reply, ctrl.posted, acq.h, n, ctrl.pending[n]);
        WriteEntry(acq.mem, Pos(acq.qs, j), Cpl(ctrl.pending[n], Phase(acq.qs, j), ctrl.reply(n)));
        ctrl.tail := j + 1;
        ctrl.pending := ctrl.pending - {n};
        ctrl.posted := ctrl.posted + [n];
      }
    }

    /** What the controller does meanwhile. */
    method Work(acts: seq<Act>)
      requires Sync()
      modifies ctrl, acq.mem
      ensures Sync() && old(ctrl.posted) <= ctrl.posted
    {
      hide *;
      var i := 0;
      while i < |acts|
        invariant Sync() && old(ctrl.posted) <= ctrl.posted
        decreases |acts| - i
      {
        match acts[i] {
          case Fetch => FetchNext();
          case Post(n) => PostOne(n);
        }
        i := i + 1;
      }
    }

    /** One poll of `nvm_cq_dequeue`. */
    method TakeCompletion() returns (cpl: Option<Cpl>)
      requires Sync()
      modifies acq`head, acq`phase, acq`h
      ensures Sync()
      ensures cpl.None? ==> acq.h == old(acq.h)
      ensures cpl.Some? ==> acq.h == old(acq.h) + 1 && IsCompletion(cpl.value, old(acq.h))
      ensures cpl.Some? <==> old(acq.h) < |ctrl.posted|
    {
      hide Working, CommandsIn, Named, Pos, Phase;
      PollTells(acq.qs, acq.mem[..], issued, ctrl.reply, ctrl.posted, acq.h);
      cpl := acq.Dequeue();
    }

    /** cpl is the j-th posted completion. */
    ghost predicate IsCompletion(cpl: Cpl, j: nat)
      reads this, ctrl, acq
    {
      && acq.qs > 0 && j < |ctrl.posted| && ctrl.posted[j] < |issued|
      && cpl == Cpl(issued[ctrl.posted[j]].cid, Phase(acq.qs, j), ctrl.reply(ctrl.posted[j]))
    }

    /** `nvm_cq_dequeue_block`; script tells what the controller does before each further poll,
        until time is up. */
    method DequeueBlock(script: seq<seq<Act>>) returns (cpl: Option<Cpl>)
      requires Sync()
      modifies ctrl, acq.mem, acq`head, acq`phase, acq`h
      ensures Sync() && old(ctrl.posted) <= ctrl.posted
      ensures cpl.None? ==> acq.h == old(acq.h)
      ensures cpl.Some? ==> acq.h == old(acq.h) + 1 && IsCompletion(cpl.value, old(acq.h))
    {
      hide Sync, IsCompletion;
      cpl := TakeCompletion();
      var k := 0;
      while cpl.None? && k < |script|
        invariant Sync() && old(ctrl.posted) <= ctrl.posted
        invariant cpl.None? ==> acq.h == old(acq.h)
        invariant cpl.Some? ==> acq.h == old(acq.h) + 1 && IsCompletion(cpl.value, old(acq.h))
        decreases |script| - k
      {
        Work(script[k]);
        cpl := TakeCompletion();
        k := k + 1;
      }
    }

    /** The host's half of `execute_command` up to the doorbell. */
    method Issue(body: int) returns (ok: bool)
      requires Valid()
      modifies this, asq, asq.mem
      ensures ok <==> old(Backlog()) < asq.qs - 1
      ensures !ok ==> Valid() && issued == old(issued) && asq.t == old(asq.t)
      ensures ok ==> Sync() && rung == asq.t == old(asq.t) + 1
      ensures ok ==> issued == old(issued) + [Cmd(CidAfter(asq.qs, asq.t), body)]
      ensures asq.h == old(asq.h) && freed == old(freed)
    {
      hide Working, CommandsIn, CompletionsIn, Named, Pos, Phase, CidAfter, DefaultCid, SubmissionQueue.Items;
      var slot := asq.Enqueue();
      if slot.None? { return false; }
      var id := DefaultCid(asq.tail, asq.phase, asq.qs);
      NamedGrows(asq.qs, issued, asq.tail, asq.phase, body);
      Put(slot.value, Cmd(id, body));
      return true;
    }

    /** A command is written into its slot and submitted. */
    method Put(slot: nat, cmd: Cmd)
      requires Agree() && rung == |issued| == asq.t - 1 && slot == Pos(asq.qs, rung) && Named(asq.qs, issued + [cmd])
      modifies this`issued, this`rung, asq`db, asq`last, asq.mem
      ensures Sync() && rung == asq.t && issued == old(issued) + [cmd]
    {
      hide Working, CommandsIn, CompletionsIn, Named, Pos, Phase;
      IssueKeeps(asq.qs, asq.mem[..], issued, asq.h, rung, cmd);
      IssueKeepsOthers(acq.qs, acq.mem[..], issued, ctrl.reply, ctrl.posted, acq.h, ctrl.head, ctrl.pending, cmd);
      WriteEntry(asq.mem, slot, cmd);
      issued := issued + [cmd];
      asq.Submit();
      rung := rung + 1;
    }

    /** Both rings after a completion was taken. */
    method Account()
      requires Sync() && freed == asq.h && acq.h == freed + 1 && asq.h < asq.t == rung
      modifies this`freed, asq`head, asq`h, acq`db, acq`tail, acq`last
      ensures Valid() && asq.h == old(asq.h) + 1
    {
      hide Working, CommandsIn, CompletionsIn, Named, Pos, Phase;
      CommandsLater(asq.qs, asq.mem[..], issued, asq.h, rung);
      PostedAreFetched(issued, ctrl.head, ctrl.pending, ctrl.posted);
      asq.Update();
      PosNext(acq.qs, freed);
      acq.Update();
      freed := freed + 1;
    }

    /** `execute_command`. */
    method ExecuteCommand(body: int, script: seq<seq<Act>>) returns (r: Result)
      requires Valid()
      modifies this, asq, asq.mem, acq, acq.mem, ctrl
      ensures Valid() && old(ctrl.posted) <= ctrl.posted
      ensures r.Again? <==> old(Backlog()) == asq.qs - 1
      ensures r.Again? ==> issued == old(issued) && Backlog() == old(Backlog())
      ensures !r.Again? ==> issued == old(issued) + [Cmd(CidAfter(asq.qs, |old(issued)| + 1), body)]
      ensures r.Timeout? ==> Backlog() == old(Backlog()) + 1
      ensures r.Done? ==> Backlog() == old(Backlog()) && IsCompletion(r.cpl, old(acq.h))
      ensures r.Done? && old(Backlog()) == 0 ==>
        && r.cpl.cid == CidAfter(asq.qs, |old(issued)| + 1)
        && r.cpl.result == ctrl.reply(|old(issued)|)
      ensures r.Done? && InOrder(ctrl.posted) && 2 * asq.qs <= HALF_WORD ==>
        (r.cpl.cid == CidAfter(asq.qs, |old(issued)| + 1) <==> old(Backlog()) == 0)
    {
      hide Working, CommandsIn, CompletionsIn, Named, Pos, Phase, CidAfter, DefaultCid;
      ghost var n, posted, pending := asq.t, ctrl.posted, ctrl.pending;
      PostedAreFetched(issued, ctrl.head, pending, posted);
      var ok := Issue(body);
      if !ok { return Again; }
      var c := DequeueBlock(script);
      if c.None? { return Timeout; }
      if old(Backlog()) == 0 { OwnCompletion(issued[..n], pending, posted, issued, ctrl.head, ctrl.pending, ctrl.posted); }
      if InOrder(ctrl.posted) && 2 * asq.qs <= HALF_WORD { NamesDiffer(asq.qs, issued, acq.h - 1, n); }
      Account();
      return Done(c.value);
    }

    /** Commands one after the other, until one call fails. */
    method Run(bodies: seq<int>, scripts: seq<seq<seq<Act>>>) returns (cpls: seq<Cpl>)
      requires Valid() && Backlog() == 0 && |scripts| == |bodies|
      modifies this, asq, asq.mem, acq, acq.mem, ctrl
      ensures Valid() && |cpls| <= |bodies|
      ensures forall i | 0 <= i < |cpls| ::
        && cpls[i].cid == CidAfter(asq.qs, |old(issued)| + i + 1)
        && cpls[i].result == ctrl.reply(|old(issued)| + i)
      ensures |cpls| == |bodies| ==>
        && Backlog() == 0 && |issued| == |old(issued)| + |bodies|
        && ctrl.head == ctrl.tail == asq.t == acq.h
        && (acq.phase <==> Phase(acq.qs, ctrl.tail))
    {
      hide Working, CommandsIn, CompletionsIn, Named, Pos, Phase, CidAfter;
      ghost var base := |issued|;
      cpls := [];
      var i := 0;
      while i < |bodies|
        invariant 0 <= i == |cpls| <= |bodies| && Valid() && Backlog() == 0 && |issued| == base + i
        invariant forall k | 0 <= k < i ::
          cpls[k].cid == CidAfter(asq.qs, base + k + 1) && cpls[k].result == ctrl.reply(base + k)
      {
        var r := ExecuteCommand(bodies[i], scripts[i]);
        if !r.Done? { return; }
        cpls := cpls + [r.cpl];
        i := i + 1;
      }
      PostedAreFetched(issued, ctrl.head, ctrl.pending, ctrl.posted);
    }
  }

  datatype Result = Done(cpl: Cpl) | Again | Timeout

  lemma PollTells(qs: nat, mem: seq<Cpl>, issued: seq<Cmd>, reply: nat -> int, posted: seq<nat>, h: nat)
    requires CompletionsIn(qs, mem, issued, reply, posted, h) && h <= |posted|
    ensures mem[Pos(qs, h)].phase == Phase(qs, h) <==> h < |posted|
    ensures h < |posted| ==> posted[h] < |issued| && mem[Pos(qs, h)] == Cpl(issued[posted[h]].cid, Phase(qs, h), reply(posted[h]))
    ensures CompletionsIn(qs, mem, issued, reply, posted, h + 1)
  {}

  lemma PostedAreFetched(issued: seq<Cmd>, head: nat, pending: map<nat, nat>, posted: seq<nat>)
    requires Working(issued, head, pending, posted)
    ensures |posted| <= head
  {}

  lemma CommandsLater(qs: nat, mem: seq<Cmd>, issued: seq<Cmd>, h: nat, rung: nat)
    requires CommandsIn(qs, mem, issued, h, rung)
    ensures CommandsIn(qs, mem, issued, h + 1, rung)
  {}

  lemma IssueKeeps(qs: nat, mem: seq<Cmd>, issued: seq<Cmd>, h: nat, rung: nat, cmd: Cmd)
    requires CommandsIn(qs, mem, issued, h, rung) && rung == |issued| && h <= rung < h + qs - 1
    ensures CommandsIn(qs, mem[Pos(qs, rung) := cmd], issued + [cmd], h, rung + 1)
  {
    forall i: nat | h <= i < rung && Pos(qs, i) == Pos(qs, rung) ensures false { PosInjective(qs, i, rung); }
  }

  lemma IssueKeepsOthers(qs: nat, mem: seq<Cpl>, issued: seq<Cmd>, reply: nat -> int, posted: seq<nat>, h: nat,
          head: nat, pending: map<nat, nat>, cmd: Cmd)
    requires CompletionsIn(qs, mem, issued, reply, posted, h) && Working(issued, head, pending, posted)
    ensures CompletionsIn(qs, mem, issued + [cmd], reply, posted, h) && Working(issued + [cmd], head, pending, posted)
  {}

  /** With an empty ring before the call, the next completion is that of the call's command. */
  lemma OwnCompletion(issued0: seq<Cmd>, pending0: map<nat, nat>, posted0: seq<nat>, issued: seq<Cmd>, head: nat,
          pending: map<nat, nat>, posted: seq<nat>)
    requires Working(issued0, |posted0|, pending0, posted0) && Working(issued, head, pending, posted)
    requires posted0 <= posted && |posted0| < |posted| && head <= |posted0| + 1
    ensures posted[|posted0|] == |posted0|
  {
    var n := |posted0|;
    assert pending0 == map[];
    forall m: nat | m < n ensures m in posted0 { assert m in pending0 || m in posted0; }
    assert posted[..n] == posted0;
    assert posted[n] !in posted[..n];
  }

  /** Each command carries the default identifier of its turn. */
  ghost predicate Named(qs: nat, issued: seq<Cmd>) {
    qs > 0 && forall i | 0 <= i < |issued| :: issued[i].cid == CidAfter(qs, i + 1)
  }

  lemma NamedGrows(qs: nat, issued: seq<Cmd>, tail: nat, phase: bool, body: int)
    requires Named(qs, issued) && tail == Pos(qs, |issued| + 1) && (phase <==> Phase(qs, |issued| + 1))
    ensures DefaultCid(tail, phase, qs) == CidAfter(qs, |issued| + 1)
    ensures Named(qs, issued + [Cmd(DefaultCid(tail, phase, qs), body)])
  {}

  ghost predicate InOrder(posted: seq<nat>) {
    forall j | 0 <= j < |posted| :: posted[j] == j
  }

  /** Identifiers within a round of each other differ. */
  lemma NamesDiffer(qs: nat, issued: seq<Cmd>, i: nat, j: nat)
    requires Named(qs, issued) && 2 * qs <= HALF_WORD && i <= j < |issued| && j < i + qs
    ensures issued[i].cid == issued[j].cid <==> i == j
  {
    CidIsPosition(qs, i + 1);
    CidIsPosition(qs, j + 1);
    if issued[i].cid == issued[j].cid { PosInjective(2 * qs, i + 1, j + 1); }
  }

  /** The commands from h to rung are in their slots. */
  ghost predicate CommandsIn(qs: nat, mem: seq<Cmd>, issued: seq<Cmd>, h: nat, rung: nat) {
    && qs > 0 && |mem| == qs && rung <= |issued|
    && forall i: nat {:trigger Pos(qs, i)} | h <= i < rung :: mem[Pos(qs, i)] == issued[i]
  }

  /** The completions from h on are in their slots; the others carry the other phase. */
  ghost predicate CompletionsIn(qs: nat, mem: seq<Cpl>, issued: seq<Cmd>, reply: nat -> int, posted: seq<nat>, h: nat) {
    && qs > 0 && |mem| == qs
    && (forall j: nat {:trigger Pos(qs, j)} | h <= j < |posted| ::
          posted[j] < |issued| && mem[Pos(qs, j)] == Cpl(issued[posted[j]].cid, Phase(qs, j), reply(posted[j])))
    && (forall j: nat {:trigger Phase(qs, j)} | |posted| <= j < |posted| + qs :: mem[Pos(qs, j)].phase != Phase(qs, j))
  }

  lemma HasRoom(qs: nat, freed: nat, j: nat)
    requires qs > 1 && freed <= j < freed + qs && Pos(qs, j + 1) != Pos(qs, freed)
    ensures j + 1 < freed + qs
  {
    PosRound(qs, freed);
  }

  lemma FetchKeeps(qs: nat, mem: seq<Cmd>, issued: seq<Cmd>, h: nat, rung: nat, n: nat, pending: map<nat, nat>,
          posted: seq<nat>)
    requires CommandsIn(qs, mem, issued, h, rung) && Working(issued, n, pending, posted) && h <= n < rung
    ensures Working(issued, n + 1, pending[n := mem[Pos(qs, n)].cid], posted)
  {
    assert pending[n := mem[Pos(qs, n)].cid].Keys == pending.Keys + {n};
  }

  lemma PostKeepsWork(issued: seq<Cmd>, head: nat, pending: map<nat, nat>, posted: seq<nat>, n: nat)
    requires Working(issued, head, pending, posted) && n in pending
    ensures Working(issued, head, pending - {n}, posted + [n]) && n < |issued| && pending[n] == issued[n].cid && n !in posted
  {
    assert (pending - {n}).Keys == pending.Keys - {n};
    forall m: nat | m < head ensures m in pending - {n} || m in posted + [n] {
      assert m in pending || m in posted;
    }
  }

  lemma PostKeeps(qs: nat, mem: seq<Cpl>, issued: seq<Cmd>, reply: nat -> int, posted: seq<nat>, h: nat, n: nat,
          cid: nat)
    requires CompletionsIn(qs, mem, issued, reply, posted, h) && n < |issued| && cid == issued[n].cid && h <= |posted| < h + qs
    ensures var j := |posted|; CompletionsIn(qs, mem[Pos(qs, j) := Cpl(cid, Phase(qs, j), reply(n))], issued, reply, posted + [n], h)
  {
    var t := |posted|;
    forall j: nat | h <= j < t && Pos(qs, j) == Pos(qs, t) ensures false { PosInjective(qs, j, t); }
    forall j: nat | t + 1 <= j < t + 1 + qs && Pos(qs, j) == Pos(qs, t) ensures j == t + qs {
      if j < t + qs { PosInjective(qs, t, j); }
    }
  }

  /** What the controller has fetched is in work or completed, once. */
  ghost predicate Working(issued: seq<Cmd>, head: nat, pending: map<nat, nat>, posted: seq<nat>) {
    && head <= |issued| && |posted| + |pending| == head
    && (forall n | n in pending :: n < head && n !in posted && pending[n] == issued[n].cid)
    && (forall j | 0 <= j < |posted| :: posted[j] < head)
    && (forall i, j | 0 <= i < j < |posted| :: posted[i] != posted[j])
    && (forall n: nat | n < head :: n in pending || n in posted)
  }
}
