/** `find_slot` run by one thread while the others rest: it ends, and soon. */
module FindSlot {
  import opened Arith
  import opened StateWord
  import PageCache

  type Lock = PageCache.Lock

  const TICKETS: nat := 0x1_0000_0000

  /** `page_ticket->fetch_add(1)`, before the increment; the ticket is a 32-bit counter. */
  function NextTicket(t: nat): nat {
    (t + 1) % TICKETS
  }

  // ---------------------------------------------------------------- tickets reach every slot

  /** The slot of the i-th ticket from t on. */
  function SlotAt(t: nat, i: nat, n: nat): (p: nat)
    requires n > 0
    ensures p < n
  {
    (t + i) % n
  }

  /** One of k tickets in a row is for slot p. */
  ghost predicate Met(t: nat, k: nat, n: nat, p: nat)
    requires n > 0
  {
    exists i: nat :: i < k && SlotAt(t, i, n) == p
  }

  /** As many tickets in a row as there are slots meet every slot. */
  lemma AllMet(t: nat, k: nat, n: nat, p: nat)
    requires p < n <= k
    ensures Met(t, k, n, p)
  {
    DivMod(t, n);
    var a := t % n;
    var i := if p >= a then p - a else p + n - a;
    MulDistributes(t / n, 1, n);
    ModUnique(t + i, if p >= a then t / n else t / n + 1, n, p);
    assert SlotAt(t, i, n) == p;
  }

  class Slots {
    const nPages: nat
    const lock: array<Lock>
    const trans: array<nat>
    var ticket: nat
    /** The state words of the cached pages, by global address. */
    var word: map<nat, Word>
    /** Slots written back, with the address of the page that was in them. */
    var written: seq<(nat, nat)>

    ghost predicate Ok()
      reads this, lock, trans
    {
      && 0 < nPages <= TICKETS && lock.Length == trans.Length == nPages && ticket < TICKETS
      && forall p | 0 <= p < nPages && !lock[p].Free? :: trans[p] in word
    }

    /** Nobody is at work on a slot. */
    ghost predicate Resting()
      reads this, lock, trans
      requires Ok()
    {
      forall p | 0 <= p < nPages :: !lock[p].Locked?
    }

    /** A slot that is free or holds a page that is neither pinned nor busy. */
    ghost predicate Takeable(p: nat)
      reads this, lock, trans
      requires Ok() && p < nPages
    {
      lock[p].Free? || (lock[p].Unlocked? && word[trans[p]].cnt == 0 && !word[trans[p]].busy)
    }

    constructor (nPages: nat, lock: array<Lock>, trans: array<nat>, ticket: nat, word: map<nat, Word>)
      requires 0 < nPages <= TICKETS && lock.Length == trans.Length == nPages && ticket < TICKETS
      requires forall p | 0 <= p < nPages && !lock[p].Free? :: trans[p] in word
      ensures Ok() && this.lock == lock && this.trans == trans && this.word == word && this.nPages == nPages && this.ticket == ticket
      ensures written == []
    {
      this.nPages, this.lock, this.trans := nPages, lock, trans;
      this.ticket, this.word, written := ticket, word, [];
    }

    /** The slot now names the given page.  A page that was in it is no longer cached: its
        state word is all clear, and it was written back if and only if it was dirty. */
    ghost predicate Took(locks: seq<Lock>, transs: seq<nat>, words: map<nat, Word>, wrote: seq<(nat, nat)>,
            globalAddress: nat, page: nat)
      reads this, lock, trans
    {
      && page < |locks| == |transs|
      && lock[..] == locks[page := PageCache.Unlocked] && trans[..] == transs[page := globalAddress]
      && if locks[page].Free? then word == words && written == wrote
         else
           var victim := transs[page];
           && victim in words && word == words[victim := Word(false, false, false, 0)]
           && written == wrote + if words[victim].dirty then [(page, victim)] else []
    }

    /** One turn of the loop of `find_slot`. */
    method Try(globalAddress: nat) returns (page: nat, fail: bool)
      requires Ok() && Resting() && globalAddress in word
      modifies this`ticket, this`word, this`written, lock, trans
      ensures Ok() && Resting() && page == old(ticket) % nPages && ticket == NextTicket(old(ticket))
      ensures fail <==> !old(Takeable(page))
      ensures fail ==> word == old(word) && written == old(written) && lock[..] == old(lock[..]) && trans[..] == old(trans[..])
      ensures !fail ==> Took(old(lock[..]), old(trans[..]), old(word), old(written), globalAddress, page)
    {
      page := ticket % nPages;
      ticket := NextTicket(ticket);
      fail := true;
      var v := lock[page];
      if v.Free? {
        lock[page] := PageCache.Locked;
        trans[page] := globalAddress;
        lock[page] := PageCache.Unlocked;
        fail := false;
      } else if v.Unlocked? {
        lock[page] := PageCache.Locked;
        var previous := trans[page];
        var expected := word[previous];
        if expected.cnt == 0 && !expected.busy {
          var seen := word[previous];
          word := word[previous := FetchOrBusy(seen)];
          if !seen.busy {
            if seen.cnt == 0 {
              if seen.dirty { written := written + [(page, previous)]; }
              fail := false;
              word := word[previous := FetchAndCount(word[previous])];
            } else {
              // only another thread could have pinned the page since it was probed
              assert false;
            }
          }
        }
        if !fail { trans[page] := globalAddress; }
        lock[page] := PageCache.Unlocked;
      }
      assert lock[..] == if fail then old(lock[..]) else old(lock[..])[page := PageCache.Unlocked];
    }

    /** `find_slot`: if any slot can be taken, one is, within 2 * nPages - 1 tickets, even if
        the 32-bit ticket wraps on the way. */
    method FindSlot(globalAddress: nat) returns (page: nat, ghost tickets: nat)
      requires Ok() && Resting() && globalAddress in word
      requires exists p | 0 <= p < nPages :: Takeable(p)
      modifies this`ticket, this`word, this`written, lock, trans
      ensures Ok() && Resting() && page < nPages && old(Takeable(page))
      ensures 1 <= tickets <= 2 * nPages - 1
      ensures old(ticket) + nPages <= TICKETS ==> tickets <= nPages
      ensures Took(old(lock[..]), old(trans[..]), old(word), old(written), globalAddress, page)
    {
      hide Took, Met;
      ghost var locks, transs, words, wrote := lock[..], trans[..], word, written;
      ghost var goal :| 0 <= goal < nPages && Takeable(goal);
      ghost var start := ticket;
      ghost var before, after := 0, 0;
      NoneMet(start, nPages, goal);
      NoneMet(0, nPages, goal);
      var fail := true;
      tickets := 0;
      page := 0;
      while fail
        invariant Ok() && Resting() && tickets == before + after
        invariant fail ==> word == words && written == wrote && lock[..] == locks && trans[..] == transs
        invariant fail ==> ticket == if after == 0 && start + before < TICKETS then start + before else after
        invariant fail ==> before <= TICKETS - start && (after > 0 ==> before == TICKETS - start) && after < TICKETS
        invariant fail ==> before < nPages && after < nPages
        invariant fail ==> !Met(start, before, nPages, goal) && !Met(0, after, nPages, goal)
        invariant !fail ==> page < nPages && old(Takeable(page)) && 1 <= tickets <= 2 * nPages - 1
        invariant !fail && start + nPages <= TICKETS ==> tickets <= nPages
        invariant !fail ==> Took(locks, transs, words, wrote, globalAddress, page)
        decreases if fail then 2 * nPages - tickets else 0
      {
        ghost var wrapped := after > 0 || start + before == TICKETS;
        if wrapped { MeetsNext(0, after, nPages, goal); } else { MeetsNext(start, before, nPages, goal); }
        page, fail := Try(globalAddress);
        if wrapped { after := after + 1; } else { before := before + 1; }
        tickets := tickets + 1;
      }
    }
  }

  lemma NoneMet(t: nat, n: nat, p: nat)
    requires n > 0
    ensures !Met(t, 0, n, p)
  {}

  /** The next ticket meets slot p or leaves it unmet, and is the last one that can. */
  lemma MeetsNext(t: nat, k: nat, n: nat, p: nat)
    requires p < n && k < n && !Met(t, k, n, p)
    ensures Met(t, k + 1, n, p) <==> (t + k) % n == p
    ensures k + 1 == n ==> (t + k) % n == p
  {
    if k + 1 == n { AllMet(t, n, n, p); }
    assert SlotAt(t, k, n) == (t + k) % n;
  }
}
