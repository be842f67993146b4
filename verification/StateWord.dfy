/** The 32-bit page state word: VALID, BUSY, DIRTY and a 29-bit pin count.

  `Word` is the word taken apart, `Encode` the 32-bit number the GPU stores.  The
  functions named `Fetch...` are what the atomics of the page cache do to a word taken
  apart; the lemmas prove that they are the 32-bit operations, bit for bit.
 */
module StateWord {
  const COUNT_LIMIT: nat := 0x2000_0000
  const DIRTY: nat := 0x2000_0000
  const BUSY: nat := 0x4000_0000
  const VALID: nat := 0x8000_0000
  const WORD_LIMIT: nat := 0x1_0000_0000

  datatype Word = Word(valid: bool, busy: bool, dirty: bool, cnt: nat)

  predicate Fits(w: Word) { w.cnt < COUNT_LIMIT }

  function Encode(w: Word): nat {
    (if w.valid then VALID else 0) + (if w.busy then BUSY else 0) + (if w.dirty then DIRTY else 0) + w.cnt
  }

  predicate Bit(x: nat, mask: nat)
    requires mask > 0
  {
    x / mask % 2 == 1
  }

  function Decode(x: nat): Word {
    Word(Bit(x, VALID), Bit(x, BUSY), Bit(x, DIRTY), x % COUNT_LIMIT)
  }

  /** Setting, clearing and flipping one bit of a 32-bit number. */
  function SetBit(x: nat, mask: nat): nat
    requires mask > 0
  {
    if Bit(x, mask) then x else x + mask
  }

  function ClearBit(x: nat, mask: nat): nat
    requires 0 < mask
  {
    if Bit(x, mask) && mask <= x then x - mask else x
  }

  function FlipBit(x: nat, mask: nat): nat
    requires mask > 0
  {
    if Bit(x, mask) then ClearBit(x, mask) else SetBit(x, mask)
  }

  // The atomics, on a word taken apart.  An addition or subtraction that leaves the
  // 29-bit field spills into the flags exactly as it does in 32 bits.

  function FetchAdd(w: Word, n: nat): Word {
    if w.cnt + n < COUNT_LIMIT then w.(cnt := w.cnt + n) else Spill(Encode(w) + n)
  }

  function FetchSub(w: Word, n: nat): Word {
    if n <= w.cnt then w.(cnt := w.cnt - n) else Spill(Encode(w) - n)
  }

  function Spill(x: int): Word { Decode(x % WORD_LIMIT) }

  function FetchOrBusy(w: Word): Word { w.(busy := true) }
  function FetchOrDirty(w: Word): Word { w.(dirty := true) }
  function FetchAndNotBusy(w: Word): Word { w.(busy := false) }
  function FetchAndCount(w: Word): Word { Word(false, false, false, w.cnt) }
  function FetchXorBusyValid(w: Word): Word { w.(valid := !w.valid, busy := !w.busy) }

  lemma EncodeBits(w: Word)
    requires Fits(w)
    ensures Encode(w) < WORD_LIMIT
    ensures Bit(Encode(w), VALID) == w.valid && Bit(Encode(w), BUSY) == w.busy && Bit(Encode(w), DIRTY) == w.dirty
    ensures Encode(w) % COUNT_LIMIT == w.cnt
    ensures Encode(w) / BUSY % 4 == (if w.valid then 2 else 0) + (if w.busy then 1 else 0)
  {
  }

  lemma DecodeEncode(w: Word)
    requires Fits(w)
    ensures Decode(Encode(w)) == w
  {
    EncodeBits(w);
  }

  lemma EncodeDecode(x: nat)
    requires x < WORD_LIMIT
    ensures Fits(Decode(x)) && Encode(Decode(x)) == x
  {
  }

  /** Each flag atomic on the word taken apart is the 32-bit atomic on the encoded word. */
  lemma FlagAtomicsAreThirtyTwoBit(w: Word)
    requires Fits(w)
    ensures Encode(FetchOrBusy(w)) == SetBit(Encode(w), BUSY)
    ensures Encode(FetchOrDirty(w)) == SetBit(Encode(w), DIRTY)
    ensures Encode(FetchAndNotBusy(w)) == ClearBit(Encode(w), BUSY)
    ensures Encode(FetchAndCount(w)) == Encode(w) % COUNT_LIMIT
    ensures Encode(FetchXorBusyValid(w)) == FlipBit(FlipBit(Encode(w), BUSY), VALID)
  {
    EncodeBits(w);
    EncodeBits(w.(busy := !w.busy));
  }

  /** So are the additions and subtractions of pins, wherever they lead. */
  lemma CountAtomicsAreThirtyTwoBit(w: Word, n: nat)
    requires Fits(w)
    ensures Fits(FetchAdd(w, n)) && Encode(FetchAdd(w, n)) == (Encode(w) + n) % WORD_LIMIT
    ensures Fits(FetchSub(w, n)) && Encode(FetchSub(w, n)) == (Encode(w) - n) % WORD_LIMIT
  {
    if w.cnt + n < COUNT_LIMIT { EncodeRange(FetchAdd(w, n)); } else { EncodeDecode((Encode(w) + n) % WORD_LIMIT); }
    if n <= w.cnt { EncodeRange(FetchSub(w, n)); } else { EncodeDecode((Encode(w) - n) % WORD_LIMIT); }
  }

  lemma EncodeRange(w: Word)
    requires Fits(w)
    ensures Encode(w) < WORD_LIMIT && Encode(w) % WORD_LIMIT == Encode(w)
  {
  }

  predicate SameFlags(v: Word, w: Word) { v.valid == w.valid && v.busy == w.busy && v.dirty == w.dirty }

  /** The flags are the number above the 29-bit field. */
  lemma FlagsAreHighBits(v: Word, w: Word)
    requires Fits(v) && Fits(w)
    ensures SameFlags(v, w) <==> Encode(v) / COUNT_LIMIT == Encode(w) / COUNT_LIMIT
  {
  }

  /** Adding pins leaves the three flags alone exactly when the count stays below 2^29. */
  lemma AddKeepsFlagsIffNoOverflow(w: Word, n: nat)
    requires Fits(w) && n < COUNT_LIMIT
    ensures SameFlags(Decode((Encode(w) + n) % WORD_LIMIT), w) <==> w.cnt + n < COUNT_LIMIT
  {
    var y := (Encode(w) + n) % WORD_LIMIT;
    EncodeRange(w);
    EncodeDecode(y);
    FlagsAreHighBits(Decode(y), w);
  }

  /** Subtracting pins leaves them alone exactly when no more are taken than are there. */
  lemma SubKeepsFlagsIffNoBorrow(w: Word, n: nat)
    requires Fits(w) && n < COUNT_LIMIT
    ensures SameFlags(Decode((Encode(w) - n) % WORD_LIMIT), w) <==> n <= w.cnt
  {
    var y := (Encode(w) - n) % WORD_LIMIT;
    EncodeRange(w);
    EncodeDecode(y);
    FlagsAreHighBits(Decode(y), w);
  }
}
