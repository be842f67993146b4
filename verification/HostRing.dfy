/** The host's queue rings (`nvm_queue.h`).  A ring keeps wrapped positions and a phase tag;
    the ghost fields are the same positions unwrapped. */
module HostRing {
  import opened Arith
  import opened Ring
  import opened Wrappers

  const HALF_WORD: nat := 0x1_0000
  const WORD: nat := 0x1_0000_0000

  datatype Cmd = Cmd(cid: nat, body: int)

  datatype Cpl = Cpl(cid: nat, phase: bool, result: int)

  // ---------------------------------------------------------------- the full test

  /** `((uint16_t) (tail - head) % qs) == qs - 1`, in 32-bit unsigned arithmetic. */
  predicate FullTest(head: nat, tail: nat, qs: nat)
    requires qs > 0
  {
    (tail - head + WORD) % WORD % HALF_WORD % qs == qs - 1
  }

  /** The number of entries from head to tail. */
  function Between(head: nat, tail: nat, qs: nat): nat
    requires head < qs && tail < qs
  {
    if tail >= head then tail - head else tail + qs - head
  }

  lemma TestForward(head: nat, tail: nat, qs: nat)
    requires 2 <= qs <= HALF_WORD && head <= tail < qs
    ensures FullTest(head, tail, qs) <==> tail - head == qs - 1
  {
    var d := tail - head;
    assert (d + WORD) % WORD % HALF_WORD == d;
    ModUnique(d, 0, qs, d);
  }

  lemma TestWrapped(head: nat, tail: nat, qs: nat)
    requires 2 <= qs <= HALF_WORD && tail < head < qs
    ensures FullTest(head, tail, qs) <==> (HALF_WORD - (head - tail)) % qs == qs - 1
  {
    var d := head - tail;
    assert (WORD - d) % WORD % HALF_WORD == HALF_WORD - d;
  }

  /** The test is right for every head and tail exactly when the size divides 65536. */
  lemma FullTestIsExact(qs: nat)
    requires 2 <= qs <= HALF_WORD
    ensures (forall head, tail | 0 <= head < qs && 0 <= tail < qs :: FullTest(head, tail, qs) <==> Between(head, tail, qs) == qs - 1)
        <==> HALF_WORD % qs == 0
  {
    if HALF_WORD % qs == 0 {
      forall head, tail | 0 <= head < qs && 0 <= tail < qs
        ensures FullTest(head, tail, qs) <==> Between(head, tail, qs) == qs - 1
      {
        FullTestAt(head, tail, qs);
      }
    } else {
      DivMod(HALF_WORD, qs);
      var r := HALF_WORD % qs;
      TestWrapped(1, 0, qs);
      ModUnique(HALF_WORD - 1, HALF_WORD / qs, qs, r - 1);
      assert !FullTest(1, 0, qs) && Between(1, 0, qs) == qs - 1;
    }
  }

  lemma FullTestAt(head: nat, tail: nat, qs: nat)
    requires 2 <= qs <= HALF_WORD && HALF_WORD % qs == 0 && head < qs && tail < qs
    ensures FullTest(head, tail, qs) <==> Between(head, tail, qs) == qs - 1
  {
    if tail >= head { TestForward(head, tail, qs); }
    else {
      TestWrapped(head, tail, qs);
      DivMod(HALF_WORD, qs);
      var d := head - tail;
      var k := HALF_WORD / qs;
      MulDistributes(k - 1, 1, qs);
      ModUnique(HALF_WORD - d, k - 1, qs, qs - d);
    }
  }

  /** A ring of 100 entries that is full passes for one that is not. */
  lemma FullTestMissesFullRing()
    ensures !FullTest(1, 0, 100) && Between(1, 0, 100) == 99
  {}

  lemma BetweenIsCount(h: nat, t: nat, qs: nat)
    requires qs >= 1 && h <= t < h + qs
    ensures Between(Pos(qs, h), Pos(qs, t), qs) == t - h
    decreases t
  {
    if h >= qs { BetweenIsCount(h - qs, t - qs, qs); }
    else if t >= qs { PosSecondLap(qs, t); }
  }

  // ---------------------------------------------------------------- default identifiers

  /** `NVM_DEFAULT_CID` of a ring. */
  function DefaultCid(tail: nat, phase: bool, qs: nat): nat {
    (tail + (if phase then 0 else qs)) % HALF_WORD
  }

  /** The identifier after n enqueues. */
  function CidAfter(qs: nat, n: nat): nat
    requires qs > 0
  {
    DefaultCid(Pos(qs, n), Phase(qs, n), qs)
  }

  lemma {:induction false} CidIsPosition(qs: nat, n: nat)
    requires qs > 0 && 2 * qs <= HALF_WORD
    ensures CidAfter(qs, n) == Pos(2 * qs, n)
    decreases n
  {
    if n >= 2 * qs {
      CidIsPosition(qs, n - 2 * qs);
      assert Pos(qs, n) == Pos(qs, n - qs) == Pos(qs, n - qs - qs);
      assert Phase(qs, n) == !Phase(qs, n - qs) == Phase(qs, n - qs - qs);
    } else if n >= qs {
      PosSecondLap(qs, n);
      assert Phase(qs, n) == !Phase(qs, n - qs) == false;
    }
  }

  /** The identifier after n enqueues is n modulo 2 * qs, so identifiers repeat exactly every
      2 * qs enqueues. */
  lemma CidsRepeatEveryTwoRounds(qs: nat, n: nat, m: nat)
    requires qs > 0 && 2 * qs <= HALF_WORD
    ensures CidAfter(qs, n) == n % (2 * qs)
    ensures CidAfter(qs, n) == CidAfter(qs, m) <==> n % (2 * qs) == m % (2 * qs)
  {
    CidIsPosition(qs, n);
    CidIsPosition(qs, m);
    PosIsMod(2 * qs, n);
    PosIsMod(2 * qs, m);
  }

  // ---------------------------------------------------------------- the submission ring

  class SubmissionQueue {
    const qs: nat
    const mem: array<Cmd>
    const mapped: bool
    var head: nat
    var tail: nat
    var last: nat
    var phase: bool
    var db: nat
    ghost var h: nat
    ghost var t: nat

    ghost predicate Ok()
      reads this
    {
      && 2 <= qs <= HALF_WORD && HALF_WORD % qs == 0 && mem.Length == qs
      && h <= t < h + qs
      && head == Pos(qs, h) && tail == Pos(qs, t) && (phase <==> Phase(qs, t))
      && (mapped ==> db == last)
    }

    /** The commands in the ring, oldest first. */
    ghost function Items(): (s: seq<Cmd>)
      reads this, mem
      requires Ok()
      ensures |s| == t - h
    {
      seq(t - h, i requires 0 <= i < t - h reads this, mem => mem[Pos(qs, h + i)])
    }

    /** `nvm_queue_clear` and `nvm_queue_reset`. */
    constructor (qs: nat, mapped: bool)
      requires 2 <= qs <= HALF_WORD && HALF_WORD % qs == 0
      ensures Ok() && this.qs == qs && this.mapped == mapped && fresh(mem)
      ensures h == t == 0 && last == db == 0 && Items() == []
    {
      this.qs := qs;
      this.mapped := mapped;
      mem := new Cmd[qs](i => Cmd(0, 0));
      head, tail, last, db := 0, 0, 0, 0;
      phase := true;
      h, t := 0, 0;
    }

    /** `nvm_sq_enqueue`: the slot for one more command, unless qs - 1 are in the ring. */
    method Enqueue() returns (slot: Option<nat>)
      requires Ok()
      modifies this`tail, this`phase, this`t
      ensures Ok()
      ensures slot == if old(t - h) == qs - 1 then None else Some(Pos(qs, old(t)))
      ensures t == if slot.None? then old(t) else old(t) + 1
      ensures forall i | h <= i < old(t) :: slot != Some(Pos(qs, i))
      ensures Items() == old(Items()) + if slot.Some? then [mem[slot.value]] else []
    {
      hide Pos, Phase, FullTest, Between;
      BetweenIsCount(h, t, qs);
      FullTestAt(head, tail, qs);
      if FullTest(head, tail, qs) { return None; }
      slot := Some(tail);
      Unused(qs, h, t);
      PosNext(qs, t);
      PhaseNext(qs, t);
      tail := tail + 1;
      if tail == qs {
        phase := !phase;
        tail := 0;
      }
      t := t + 1;
    }

    /** `nvm_sq_submit`: rings the doorbell if anything was enqueued; a mapped doorbell then
        shows the position after all commands enqueued so far. */
    method Submit()
      requires Ok()
      modifies this`db, this`last
      ensures Ok()
      ensures mapped ==> db == Pos(qs, t)
      ensures !mapped ==> db == old(db) && last == old(last)
    {
      if last != tail && mapped {
        db := tail;
        last := tail;
      }
    }

    /** `nvm_sq_update`: the oldest command leaves. */
    method Update()
      requires Ok() && h < t
      modifies this`head, this`h
      ensures Ok() && h == if mapped then old(h) + 1 else old(h)
      ensures Items() == if mapped then old(Items())[1..] else old(Items())
    {
      if mapped {
        PosNext(qs, h);
        ghost var was := Items();
        head := head + 1;
        if head == qs { head := 0; }
        h := h + 1;
        assert Items() == was[1..];
      }
    }
  }

  /** A ring that is not full has a free slot at its tail. */
  lemma Unused(qs: nat, h: nat, t: nat)
    requires qs > 0 && h <= t < h + qs
    ensures forall i | h <= i < t :: Pos(qs, i) != Pos(qs, t)
  {
    forall i | h <= i < t ensures Pos(qs, i) != Pos(qs, t) {
      if Pos(qs, i) == Pos(qs, t) { PosInjective(qs, i, t); }
    }
  }

  /** The phase turns when the ring wraps. */
  lemma {:induction false} PhaseNext(q: nat, x: nat)
    requires q > 0
    ensures Phase(q, x + 1) == if Pos(q, x) + 1 == q then !Phase(q, x) else Phase(q, x)
    decreases x
  {
    if x >= q { PhaseNext(q, x - q); }
  }

  // ---------------------------------------------------------------- the completion ring

  class CompletionQueue {
    const qs: nat
    const mem: array<Cpl>
    const mapped: bool
    var head: nat
    var tail: nat
    var last: nat
    var phase: bool
    var db: nat
    ghost var h: nat

    ghost predicate Ok()
      reads this
    {
      && 2 <= qs <= HALF_WORD && mem.Length == qs
      && head == Pos(qs, h) && (phase <==> Phase(qs, h))
      && (mapped ==> db == last)
    }

    constructor (qs: nat, mapped: bool)
      requires 2 <= qs <= HALF_WORD
      ensures Ok() && this.qs == qs && this.mapped == mapped && fresh(mem)
      ensures h == 0 && last == db == 0
      ensures forall i | 0 <= i < qs :: !mem[i].phase
    {
      this.qs := qs;
      this.mapped := mapped;
      mem := new Cpl[qs](i => Cpl(0, false, 0));
      head, tail, last, db := 0, 0, 0, 0;
      phase := true;
      h := 0;
    }

    /** `nvm_cq_poll`: the entry at the head, if its phase tag is the current one. */
    method Poll() returns (cpl: Option<Cpl>)
      requires Ok()
      ensures cpl == if mem[Pos(qs, h)].phase == Phase(qs, h) then Some(mem[Pos(qs, h)]) else None
    {
      if mem[head].phase != phase { return None; }
      return Some(mem[head]);
    }

    /** `nvm_cq_dequeue`. */
    method Dequeue() returns (cpl: Option<Cpl>)
      requires Ok()
      modifies this`head, this`phase, this`h
      ensures Ok()
      ensures cpl == if mem[Pos(qs, old(h))].phase == Phase(qs, old(h)) then Some(mem[Pos(qs, old(h))]) else None
      ensures h == if cpl.Some? then old(h) + 1 else old(h)
    {
      cpl := Poll();
      if cpl.Some? {
        PosNext(qs, h);
        PhaseNext(qs, h);
        head := head + 1;
        if head == qs {
          head := 0;
          phase := !phase;
        }
        h := h + 1;
      }
    }

    /** `nvm_cq_update`: tells the controller that the entries behind the head are free. */
    method Update()
      requires Ok()
      modifies this`db, this`tail, this`last
      ensures Ok()
      ensures mapped ==> db == Pos(qs, h)
      ensures !mapped ==> db == old(db) && last == old(last) && tail == old(tail)
    {
      if last != head && mapped {
        db := head;
        last := head;
        tail := last;
      }
    }
  }
}
