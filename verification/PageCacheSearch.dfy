/** `find_slot` in the page cache protocol, run by one thread from whatever the others have
    left: it takes a slot whenever one can be taken, and soon. */
module PageCacheSearch {
  import opened PageCache
  import opened PageCacheInvariant
  import opened PageCacheRefinement
  import opened PageCacheProgress
  import FindSlot

  const TICKETS := FindSlot.TICKETS

  /** The slot is free, or it is not locked and holds a page without pins and not BUSY. */
  predicate Takeable(c: Config, s: State, i: nat)
    requires c.rangeStride > 0 && c.rangeLimit > 0 && |s.trans| == |s.lock|
  {
    && i < |s.lock|
    && (s.lock[i].Free?
        || (&& s.lock[i].Unlocked?
            && var p := c.Unpack(s.trans[i]); p in s.word && s.word[p].cnt == 0 && !s.word[p].busy))
  }

  /** Thread t has taken slot i: it writes its own page's address there, or is busy with the
      page that it evicts from it. */
  predicate Taking(th: Thread, a: Acq, i: nat) {
    th.Find? && th.a == a && (th.f.Assign? || th.f.WriteBack? || th.f.Clear?) && th.f.slot == i
  }

  /** Steps of thread t alone. */
  ghost predicate IsAlone(c: Config, ss: seq<State>, ms: seq<Move>, t: nat)
    requires c.Valid()
  {
    IsClosing(c, ss, ms) && forall k | 0 <= k < |ms| :: ms[k].t == t
  }

  lemma Prefix(c: Config, s: State, ss: seq<State>, ms: seq<Move>, t: nat)
    requires c.Valid() && IsAlone(c, ss, ms, t) && Step(c, s, Move(t, Advance(0)), ss[0])
    ensures IsAlone(c, [s] + ss, [Move(t, Advance(0))] + ms, t) && ([s] + ss)[|ms| + 1] == ss[|ms|]
  {
    hide Step, Config.Valid;
    Prepend(c, s, Move(t, Advance(0)), ss, ms);
  }

  /** The next step of a search. */
  lemma SoloFind(c: Config, s: State, t: nat, a: Acq, f: Finder) returns (s': State)
    requires Inv(c, s) && LocksHeld(s) && t < |s.threads| && s.threads[t] == Find(a, f)
    ensures c.Valid() && Shape(c, s) && Step(c, s, Move(t, Advance(0)), s') && s' == FindNext(c, s, t, a, f)
    ensures Inv(c, s') && LocksHeld(s')
  {
    hide Inv, Shape, Config.Valid, LocksHeld, FindNext;
    ShapeOf(c, s);
    var m;
    m, s' := Solo(c, s, t);
    NextIsFindNext(c, s, t, a, f);
  }

  lemma NextIsFindNext(c: Config, s: State, t: nat, a: Acq, f: Finder)
    requires c.Valid() && Shape(c, s) && t < |s.threads| && s.threads[t] == Find(a, f) && Enabled(c, s, t, Advance(0))
    ensures Next(c, s, t, Advance(0)) == FindNext(c, s, t, a, f)
  {
    hide Shape, Config.Valid, FindNext;
  }

  /** What a turn of the search leaves when it gets no slot: only the ticket has moved on. */
  function Turned(s: State): State { s.(ticket := FindSlot.NextTicket(s.ticket)) }

  lemma SlotsOf(c: Config, s: State)
    requires Inv(c, s)
    ensures c.Valid() && |s.lock| == |s.trans| == c.slots > 0
  {
  }

  /** The thread has its ticket and has looked at the lock of its slot. */
  lemma Look(c: Config, s: State, t: nat, a: Acq) returns (s1: State, s2: State)
    requires Inv(c, s) && LocksHeld(s) && t < |s.threads| && s.threads[t] == Find(a, Ticket)
    ensures c.Valid() && |s.lock| == |s.trans| == c.slots > 0
    ensures Step(c, s, Move(t, Advance(0)), s1) && Step(c, s1, Move(t, Advance(0)), s2) && Inv(c, s2) && LocksHeld(s2)
    ensures var i := s.ticket % |s.lock|;
      if s.lock[i].Locked? then s2 == Turned(s)
      else s2 == Turned(s).(threads := s.threads[t := Find(a, Cas(i, s.lock[i]))])
  {
    hide Inv, Shape, Config.Valid, LocksHeld, Step;
    SlotsOf(c, s);
    var i := s.ticket % |s.lock|;
    s1 := SoloFind(c, s, t, a, Ticket);
    assert s1 == Turned(s).(threads := s.threads[t := Find(a, LoadLock(i))]);
    s2 := SoloFind(c, s1, t, a, LoadLock(i));
    if s.lock[i].Locked? { assert s2.threads == s.threads; }
  }

  /** The thread has locked a slot in use and has seen its page's state word. */
  lemma LockAndProbe(c: Config, s: State, t: nat, a: Acq, i: nat) returns (s1: State, s2: State, s3: State)
    requires Inv(c, s) && LocksHeld(s) && t < |s.threads| && i < |s.lock| && s.lock[i].Unlocked?
    requires s.threads[t] == Find(a, Cas(i, Unlocked))
    ensures c.Valid() && |s.lock| == |s.trans| && c.Unpack(s.trans[i]) in s.word
    ensures Step(c, s, Move(t, Advance(0)), s1) && Step(c, s1, Move(t, Advance(0)), s2) && Step(c, s2, Move(t, Advance(0)), s3)
    ensures Inv(c, s3) && LocksHeld(s3)
    ensures var p := c.Unpack(s.trans[i]);
      var f := if s.word[p].cnt == 0 && !s.word[p].busy then Claim(i, p) else Unlock(i, false);
      s3 == s.(lock := s.lock[i := Locked], threads := s.threads[t := Find(a, f)])
  {
    hide Inv, Shape, Config.Valid, LocksHeld, Step;
    SlotsOf(c, s);
    s1 := SoloFind(c, s, t, a, Cas(i, Unlocked));
    s2 := SoloFind(c, s1, t, a, ReadTrans(i));
    StrideOf(c);
    var p := c.Unpack(s.trans[i]);
    VictimExists(c, s2, t, a, i, p);
    s3 := SoloFind(c, s2, t, a, Probe(i, p));
  }

  lemma StrideOf(c: Config)
    requires c.Valid()
    ensures c.rangeStride > 0 && c.rangeLimit > 0
  {
  }

  lemma VictimExists(c: Config, s: State, t: nat, a: Acq, i: nat, p: PageId)
    requires Inv(c, s) && t < |s.threads| && s.threads[t] == Find(a, Probe(i, p))
    ensures p in s.word
  {
    hide Inv, Config.Valid, CountInv, BusyInv, LockInv, SlotInv, ThreadsInv, DataInv, ThreadInv, ThreadDataInv;
    Open(c, s, t);
  }

  /** The end of a turn on a slot in use: the page is claimed, or the lock given back. */
  lemma ClaimOrLeave(c: Config, s: State, t: nat, a: Acq, i: nat, f: Finder) returns (s': State)
    requires Inv(c, s) && LocksHeld(s) && t < |s.threads| && i < |s.lock| && s.threads[t] == Find(a, f)
    requires f == Unlock(i, false) || (f.Claim? && f.slot == i && f.victim in s.word && s.word[f.victim].cnt == 0 && !s.word[f.victim].busy)
    ensures c.Valid() && Step(c, s, Move(t, Advance(0)), s') && Inv(c, s') && LocksHeld(s')
    ensures if f.Claim? then t < |s'.threads| && Taking(s'.threads[t], a, i) && s'.ticket == s.ticket
      else s' == s.(lock := s.lock[i := Unlocked], threads := s.threads[t := Find(a, Ticket)])
  {
    hide Inv, Shape, Config.Valid, LocksHeld, Step;
    s' := SoloFind(c, s, t, a, f);
  }

  lemma TakeFree(c: Config, s: State, t: nat, a: Acq, i: nat) returns (s': State)
    requires Inv(c, s) && LocksHeld(s) && t < |s.threads| && i < |s.lock| && s.lock[i].Free? && s.threads[t] == Find(a, Cas(i, Free))
    ensures c.Valid() && Step(c, s, Move(t, Advance(0)), s') && Inv(c, s') && LocksHeld(s')
    ensures t < |s'.threads| && Taking(s'.threads[t], a, i) && s'.ticket == s.ticket
  {
    hide Inv, Shape, Config.Valid, LocksHeld, Step;
    s' := SoloFind(c, s, t, a, Cas(i, Free));
  }

  /** The turn's end on a slot in use that is not locked. */
  lemma TurnInUse(c: Config, s: State, t: nat, a: Acq, i: nat) returns (ss: seq<State>, ms: seq<Move>)
    requires Inv(c, s) && LocksHeld(s) && t < |s.threads| && i < |s.lock| && s.lock[i].Unlocked?
    requires s.threads[t] == Find(a, Cas(i, Unlocked))
    ensures c.Valid() && |s.lock| == |s.trans| && IsAlone(c, ss, ms, t) && ss[0] == s && Inv(c, ss[|ms|]) && LocksHeld(ss[|ms|])
    ensures var s' := ss[|ms|];
      if Takeable(c, s, i) then t < |s'.threads| && Taking(s'.threads[t], a, i) && s'.ticket == s.ticket
      else s' == s.(threads := s.threads[t := Find(a, Ticket)])
  {
    hide Inv, Config.Valid, LocksHeld, Step, Taking;
    var s1, s2, s3 := LockAndProbe(c, s, t, a, i);
    var s4 := ClaimOrLeave(c, s3, t, a, i, s3.threads[t].f);
    assert s.lock[i := Locked][i := Unlocked] == s.lock;
    assert s3.threads[t := Find(a, Ticket)] == s.threads[t := Find(a, Ticket)];
    ss, ms := [s4], [];
    Prefix(c, s3, ss, ms, t);
    ss, ms := [s3] + ss, [Move(t, Advance(0))] + ms;
    Prefix(c, s2, ss, ms, t);
    ss, ms := [s2] + ss, [Move(t, Advance(0))] + ms;
    Prefix(c, s1, ss, ms, t);
    ss, ms := [s1] + ss, [Move(t, Advance(0))] + ms;
    Prefix(c, s, ss, ms, t);
    ss, ms := [s] + ss, [Move(t, Advance(0))] + ms;
  }

  /** One turn of the search: it takes its slot exactly if the slot can be taken, and otherwise
      leaves everything but the ticket as it was. */
  lemma OneTurn(c: Config, s: State, t: nat, a: Acq) returns (ss: seq<State>, ms: seq<Move>)
    requires Inv(c, s) && LocksHeld(s) && t < |s.threads| && s.threads[t] == Find(a, Ticket)
    ensures c.Valid() && |s.lock| == |s.trans| == c.slots > 0
    ensures IsAlone(c, ss, ms, t) && ss[0] == s && Inv(c, ss[|ms|]) && LocksHeld(ss[|ms|])
    ensures var i, s' := s.ticket % |s.lock|, ss[|ms|];
      if Takeable(c, s, i) then t < |s'.threads| && Taking(s'.threads[t], a, i) && s'.ticket == FindSlot.NextTicket(s.ticket)
      else s' == Turned(s)
  {
    hide Inv, Config.Valid, LocksHeld, Step, Taking, Takeable;
    var s1, s2 := Look(c, s, t, a);
    var i := s.ticket % |s.lock|;
    TakeableBut(c, s, s2, i);
    if s.lock[i].Locked? { ss, ms := [s2], []; }
    else if s.lock[i].Free? {
      var s3 := TakeFree(c, s2, t, a, i);
      ss, ms := [s3], [];
      Prefix(c, s2, ss, ms, t);
      ss, ms := [s2] + ss, [Move(t, Advance(0))] + ms;
    } else {
      ss, ms := TurnInUse(c, s2, t, a, i);
      assert s2.threads[t := Find(a, Ticket)] == s.threads;
    }
    Prefix(c, s1, ss, ms, t);
    ss, ms := [s1] + ss, [Move(t, Advance(0))] + ms;
    Prefix(c, s, ss, ms, t);
    ss, ms := [s] + ss, [Move(t, Advance(0))] + ms;
  }

  lemma TakeableBut(c: Config, s: State, s': State, i: nat)
    requires c.Valid() && |s.trans| == |s.lock| && i < |s.lock|
    ensures s.lock[i].Locked? ==> !Takeable(c, s, i)
    ensures s.lock[i].Free? ==> Takeable(c, s, i)
    ensures s'.lock == s.lock && s'.trans == s.trans && s'.word == s.word ==> Takeable(c, s', i) == Takeable(c, s, i)
  {
  }

  /** The j-th ticket from ticket x on. */
  function Nth(x: nat, j: nat): nat { (x + j) % TICKETS }

  lemma NthOfNext(x: nat, j: nat)
    requires x < TICKETS && j > 0
    ensures Nth(FindSlot.NextTicket(x), j - 1) == Nth(x, j) && FindSlot.NextTicket(x) < TICKETS
    ensures Nth(x, 0) == x && FindSlot.NextTicket(x) == Nth(x, 1)
  {
  }

  /** If the slot of the j-th ticket can be taken, the search has taken one by then. */
  lemma {:induction false} SearchBy(c: Config, s: State, t: nat, a: Acq, j: nat)
      returns (ss: seq<State>, ms: seq<Move>, i: nat, tickets: nat)
    requires Inv(c, s) && LocksHeld(s) && t < |s.threads| && s.threads[t] == Find(a, Ticket) && s.ticket < TICKETS
    requires |s.lock| == |s.trans| > 0 && c.rangeStride > 0 && c.rangeLimit > 0 && Takeable(c, s, Nth(s.ticket, j) % |s.lock|)
    ensures c.Valid() && IsAlone(c, ss, ms, t) && ss[0] == s && t < |ss[|ms|].threads|
    ensures Takeable(c, s, i) && Taking(ss[|ms|].threads[t], a, i)
    ensures 1 <= tickets <= j + 1 && ss[|ms|].ticket == Nth(s.ticket, tickets) && i == Nth(s.ticket, tickets - 1) % |s.lock|
    decreases j
  {
    hide Inv, Config.Valid, LocksHeld, Step, Taking, Takeable, Nth, IsAlone;
    ss, ms := OneTurn(c, s, t, a);
    i, tickets := s.ticket % |s.lock|, 1;
    NthOfNext(s.ticket, 1);
    if !Takeable(c, s, i) {
      NthOfNext(s.ticket, j);
      var s' := Turned(s);
      TakeableBut(c, s, s', Nth(s.ticket, j) % |s.lock|);
      var rest, more, i', n := SearchBy(c, s', t, a, j - 1);
      TakeableBut(c, s, s', i');
      Join(c, ss, ms, rest, more, t);
      ss, ms, i, tickets := ss + rest[1..], ms + more, i', n + 1;
      NthOfNext(s.ticket, n + 1);
      NthOfNext(s.ticket, n);
    }
  }

  lemma Join(c: Config, ss: seq<State>, ms: seq<Move>, rest: seq<State>, more: seq<Move>, t: nat)
    requires c.Valid() && IsAlone(c, ss, ms, t) && IsAlone(c, rest, more, t) && ss[|ms|] == rest[0]
    ensures IsAlone(c, ss + rest[1..], ms + more, t) && (ss + rest[1..])[|ms| + |more|] == rest[|more|]
    ensures (ss + rest[1..])[0] == ss[0] && |rest| == |more| + 1
  {
    hide Step, Config.Valid;
    var us, ns := ss + rest[1..], ms + more;
    forall k | 0 <= k < |ns| ensures (ns[k].act.Advance? || ns[k].act.Release?) && Step(c, us[k], ns[k], us[k + 1]) && ns[k].t == t {
      if k < |ms| { assert Step(c, ss[k], ms[k], ss[k + 1]); }
      else { assert Step(c, rest[k - |ms|], more[k - |ms|], rest[k - |ms| + 1]); }
    }
  }

  /** Among n tickets in a row one is for slot p. */
  lemma OneInN(x: nat, n: nat, p: nat) returns (i: nat)
    requires p < n
    ensures i < n && FindSlot.SlotAt(x, i, n) == p
  {
    FindSlot.AllMet(x, n, n, p);
    i :| i < n && FindSlot.SlotAt(x, i, n) == p;
  }

  lemma NthIs(x: nat, j: nat)
    requires x < TICKETS
    ensures x + j < TICKETS ==> Nth(x, j) == x + j
    ensures TICKETS <= x + j < 2 * TICKETS ==> Nth(x, j) == x + j - TICKETS
  {
  }

  /** A ticket for slot p comes within 2n - 1 tickets, and within n if none wraps. */
  lemma TicketFor(x: nat, n: nat, p: nat) returns (j: nat)
    requires p < n <= TICKETS && x < TICKETS
    ensures j < 2 * n - 1 && (x + n <= TICKETS ==> j < n) && Nth(x, j) % n == p
  {
    hide Nth;
    j := OneInN(x, n, p);
    if x + j >= TICKETS {
      var k := OneInN(0, n, p);
      j := TICKETS - x + k;
      NthIs(x, j);
      assert Nth(x, j) == k;
    } else { NthIs(x, j); }
  }

  /** `find_slot` run alone from any reachable state, with other threads anywhere in their
      calls: if some slot can be taken, the search takes one that can, within 2 * n - 1 tickets
      for n slots, and within n if the 32-bit ticket does not wrap on the way. */
  lemma SearchEnds(c: Config, s: State, t: nat, a: Acq, goal: nat)
      returns (ss: seq<State>, ms: seq<Move>, i: nat, tickets: nat)
    requires Inv(c, s) && LocksHeld(s) && t < |s.threads| && s.threads[t] == Find(a, Ticket)
    requires s.ticket < TICKETS && c.slots <= TICKETS
    requires |s.lock| == |s.trans| && c.rangeStride > 0 && c.rangeLimit > 0 && Takeable(c, s, goal)
    ensures c.Valid() && IsAlone(c, ss, ms, t) && ss[0] == s && t < |ss[|ms|].threads|
    ensures Takeable(c, s, i) && Taking(ss[|ms|].threads[t], a, i)
    ensures 1 <= tickets <= 2 * c.slots - 1 && (s.ticket + c.slots <= TICKETS ==> tickets <= c.slots)
    ensures ss[|ms|].ticket == Nth(s.ticket, tickets)
  {
    hide Inv, Config.Valid, LocksHeld, Step, Taking, Nth, IsAlone;
    SlotsOf(c, s);
    var j := TicketFor(s.ticket, c.slots, goal);
    ss, ms, i, tickets := SearchBy(c, s, t, a, j);
  }

  lemma OnlyTicketsLook(c: Config, s: State, t: nat, a: Acq, f: Finder)
    requires c.Valid() && Shape(c, s) && t < |s.threads| && s.threads[t] == Find(a, f)
    requires var th' := FindNext(c, s, t, a, f).threads[t]; th'.Find? && th'.f.LoadLock?
    ensures |s.lock| > 0 && f.Ticket? && FindNext(c, s, t, a, f).threads[t] == Find(a, LoadLock(s.ticket % |s.lock|))
    ensures FindNext(c, s, t, a, f).ticket == FindSlot.NextTicket(s.ticket)
  {
    hide Config.Invertible, Config.Disjoint;
  }

  /** Every slot that a search looks at is that of a ticket of its own: whatever a turn meets, a
      lost race for the lock included, the next one has the next ticket. */
  lemma EveryTurnHasItsTicket(c: Config, s: State, t: nat, act: Action, u: nat)
    requires c.Valid() && Shape(c, s) && Enabled(c, s, t, act) && u < |Next(c, s, t, act).threads|
    requires var th' := Next(c, s, t, act).threads[u]; th'.Find? && th'.f.LoadLock?
    ensures var s' := Next(c, s, t, act);
      && u < |s.threads| && |s.lock| > 0
      && (s'.threads[u] == s.threads[u]
          || (&& u == t && s.threads[u].Find? && s.threads[u].f.Ticket?
              && s'.threads[u].f.slot == s.ticket % |s.lock| && s'.ticket == FindSlot.NextTicket(s.ticket)))
  {
    assert |s.lock| > 0;
    SameThreads(c, s, t, act);
    if u == t {
      if act.Advance? && s.threads[t].Find? { OnlyTicketsLook(c, s, t, s.threads[t].a, s.threads[t].f); }
      else { OnlyFindersLook(c, s, t, act); }
    }
    hide Config.Valid, FindNext, Shape;
  }

  lemma OnlyFindersLook(c: Config, s: State, t: nat, act: Action)
    requires c.Valid() && Shape(c, s) && Enabled(c, s, t, act) && !(act.Advance? && s.threads[t].Find?)
    ensures var s' := Next(c, s, t, act);
      t < |s'.threads| && (s'.threads[t].Find? && s'.threads[t].f.LoadLock? ==> s'.threads[t] == s.threads[t])
  {
    hide Config.Valid, FindNext, Shape;
  }

  /** The ticket stays a 32-bit number. */
  lemma {:induction false} TicketsFit(c: Config, ss: seq<State>, ms: seq<Move>, k: nat)
    requires c.Valid() && IsRun(c, ss, ms) && k < |ss| && ss[0].ticket < TICKETS
    ensures ss[k].ticket < TICKETS
  {
    hide Config.Valid, Shape, Enabled, Next, Init;
    if k > 0 {
      TicketsFit(c, ss, ms, k - 1);
      assert Step(c, ss[k - 1], ms[k - 1], ss[k]);
      StepTicketFits(c, ss[k - 1], ms[k - 1].t, ms[k - 1].act);
    }
  }

  lemma StepTicketFits(c: Config, s: State, t: nat, act: Action)
    requires c.Valid() && Shape(c, s) && Enabled(c, s, t, act) && s.ticket < TICKETS
    ensures Next(c, s, t, act).ticket < TICKETS
  {
    hide Config.Invertible, Config.Disjoint;
  }
}
