/** Positions in a ring of q slots that a counter walks round, defined by subtraction so
    that proofs need no nonlinear arithmetic; `PosIsMod` gives the usual reading. */
module Ring {
  import opened Arith

  /** The slot of counter value x: `x & (qs - 1)` when q is a power of two. */
  function Pos(q: nat, x: nat): (p: nat)
    requires q > 0
    ensures p < q
    decreases x
  {
    if x < q then x else Pos(q, x - q)
  }

  /** How often the counter has gone round: `x >> qs_log2`. */
  function Lap(q: nat, x: nat): nat
    requires q > 0
    decreases x
  {
    if x < q then 0 else Lap(q, x - q) + 1
  }

  /** The phase tag of round `Lap(q, x)`: `~(x >> qs_log2) & 1`, true in the first round. */
  function Phase(q: nat, x: nat): bool
    requires q > 0
    decreases x
  {
    if x < q then true else !Phase(q, x - q)
  }

  lemma {:induction false} PosIsMod(q: nat, x: nat)
    requires q > 0
    ensures Pos(q, x) == x % q && Lap(q, x) == x / q && (Phase(q, x) <==> x / q % 2 == 0)
    decreases x
  {
    if x < q { ModUnique(x, 0, q, x); }
    else {
      PosIsMod(q, x - q);
      DivMod(x - q, q);
      var d := (x - q) / q;
      MulDistributes(d, 1, q);
      ModUnique(x, d + 1, q, (x - q) % q);
    }
  }

  lemma PosRound(q: nat, x: nat)
    requires q > 0
    ensures Pos(q, x + q) == Pos(q, x)
  {}

  lemma PosSecondLap(q: nat, x: nat)
    requires 0 < q <= x < q + q
    ensures Pos(q, x) == x - q
  {}

  /** Counters less than a round apart have different slots. */
  lemma {:induction false} PosInjective(q: nat, x: nat, y: nat)
    requires q > 0 && x <= y < x + q && Pos(q, x) == Pos(q, y)
    ensures x == y
    decreases y
  {
    if x >= q { PosInjective(q, x - q, y - q); }
    else if y >= q { PosSecondLap(q, y); }
  }

  /** Counters with the same slot are whole rounds apart. */
  lemma {:induction false} SameSlot(q: nat, x: nat, y: nat)
    requires q > 0 && x < y && Pos(q, x) == Pos(q, y)
    ensures x + q <= y && Lap(q, x) + 1 <= Lap(q, y)
    decreases y
  {
    if y < x + q { PosInjective(q, x, y); }
    else if y - q > x { SameSlot(q, x, y - q); }
  }

  /** One step forward wraps at the end of the ring. */
  lemma {:induction false} PosNext(q: nat, x: nat)
    requires q > 0
    ensures Pos(q, x + 1) == if Pos(q, x) + 1 == q then 0 else Pos(q, x) + 1
    decreases x
  {
    if x >= q { PosNext(q, x - q); }
  }
}
