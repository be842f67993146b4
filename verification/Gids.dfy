/** The batch accumulator and window buffer of the GIDS data loader
    (`GIDS.fetch_feature`). */
module Gids {
  import opened Arith
  import opened Wrappers

  /** The node indices of one node type; a homogeneous batch has one part. */
  datatype Part = Part(key: string, nodes: seq<int>)

  /** A sampled batch: its input nodes, and what else the sampler put in. */
  datatype Batch = Batch(parts: seq<Part>, other: int)

  /** Feature rows read for nodes, from an offset into the storage. */
  datatype Rows = Rows(key: string, offset: int, nodes: seq<int>)

  /** `StopIteration` is what `next(it)` raises when the sampler has no more batches. */
  datatype Outcome = StopIteration | Fetched(batch: Batch, features: seq<Rows>)

  /** The sampler's iterator. */
  class Sampler {
    var rest: seq<Batch>

    constructor (batches: seq<Batch>)
      ensures rest == batches
    {
      rest := batches;
    }

    method Next() returns (b: Option<Batch>)
      modifies this
      ensures b == if old(rest) == [] then None else Some(old(rest)[0])
      ensures rest == if old(rest) == [] then [] else old(rest)[1..]
    {
      if rest == [] { return None; }
      b := Some(rest[0]);
      rest := rest[1..];
    }
  }

  // ---------------------------------------------------------------- what belongs to a batch

  type Offsets = Option<map<string, int>>

  function OffsetOf(offsets: Offsets, key: string): int {
    if offsets.Some? && key in offsets.value then offsets.value[key] else 0
  }

  /** The features of a batch's first n parts. */
  function Features(offsets: Offsets, parts: seq<Part>, n: nat): (r: seq<Rows>)
    requires n <= |parts|
    ensures |r| == n && forall i | 0 <= i < n :: r[i] == Rows(parts[i].key, OffsetOf(offsets, parts[i].key), parts[i].nodes)
  {
    if n == 0 then []
    else Features(offsets, parts, n - 1) + [Rows(parts[n - 1].key, OffsetOf(offsets, parts[n - 1].key), parts[n - 1].nodes)]
  }

  /** How many feature rows a batch's first n parts ask for. */
  function Size(parts: seq<Part>, n: nat): nat
    requires n <= |parts|
  {
    if n == 0 then 0 else Size(parts, n - 1) + |parts[n - 1].nodes|
  }

  function Accesses(bs: seq<Batch>, n: nat): nat
    requires n <= |bs|
  {
    if n == 0 then 0 else Accesses(bs, n - 1) + Size(bs[n - 1].parts, |bs[n - 1].parts|)
  }

  /** The prefetches of a batch's first n parts: empty node types are left out. */
  function Prefetch(offsets: Offsets, hetero: bool, parts: seq<Part>, n: nat): seq<Rows>
    requires n <= |parts|
  {
    if n == 0 then []
    else
      var p := parts[n - 1];
      Prefetch(offsets, hetero, parts, n - 1)
      + if hetero && p.nodes == [] then [] else [Rows(p.key, OffsetOf(offsets, p.key), p.nodes)]
  }

  /** Where a node type's rows start: at the map's offset for it, or at 0 if there is none. */
  ghost predicate StartsAt(offsets: Offsets, key: string, o: int) {
    && (offsets.Some? && key in offsets.value ==> o == offsets.value[key])
    && (offsets.None? || key !in offsets.value ==> o == 0)
  }

  /** The part's own nodes are asked for, at its own offset. */
  ghost predicate IsFor(offsets: Offsets, p: Part, r: Rows) {
    r.key == p.key && r.nodes == p.nodes && StartsAt(offsets, p.key, r.offset)
  }

  predicate IsKept(hetero: bool, p: Part) { !hetero || p.nodes != [] }

  /** How many of the first n parts are prefetched. */
  function Kept(hetero: bool, parts: seq<Part>, n: nat): nat
    requires n <= |parts|
  {
    if n == 0 then 0 else Kept(hetero, parts, n - 1) + if IsKept(hetero, parts[n - 1]) then 1 else 0
  }

  lemma {:induction false} PrefetchSize(offsets: Offsets, hetero: bool, parts: seq<Part>, n: nat)
    requires n <= |parts|
    ensures |Prefetch(offsets, hetero, parts, n)| == Kept(hetero, parts, n)
  {
    if n > 0 { PrefetchSize(offsets, hetero, parts, n - 1); }
  }

  /** Part i is prefetched, with its own nodes and offset and in its turn, if the graph is
      homogeneous or the part is not empty; and nothing but such parts is. */
  lemma {:induction false} PrefetchIsExact(offsets: Offsets, hetero: bool, parts: seq<Part>, n: nat, i: nat)
    requires i < n <= |parts| && IsKept(hetero, parts[i])
    ensures |Prefetch(offsets, hetero, parts, n)| == Kept(hetero, parts, n) > Kept(hetero, parts, i)
    ensures IsFor(offsets, parts[i], Prefetch(offsets, hetero, parts, n)[Kept(hetero, parts, i)])
  {
    PrefetchSize(offsets, hetero, parts, n);
    PrefetchSize(offsets, hetero, parts, n - 1);
    if i < n - 1 { PrefetchIsExact(offsets, hetero, parts, n - 1, i); }
  }

  /** Every part's feature rows are those of its own nodes, at its own offset. */
  lemma FeaturesAreOwn(offsets: Offsets, parts: seq<Part>)
    ensures |Features(offsets, parts, |parts|)| == |parts|
    ensures forall i | 0 <= i < |parts| :: IsFor(offsets, parts[i], Features(offsets, parts, |parts|)[i])
  {}

  /** The prefetches of a run of batches, in order. */
  function Prefetches(offsets: Offsets, hetero: bool, bs: seq<Batch>): seq<Rows> {
    if bs == [] then []
    else Prefetches(offsets, hetero, bs[..|bs| - 1]) + Prefetch(offsets, hetero, bs[|bs| - 1].parts, |bs[|bs| - 1].parts|)
  }

  lemma PrefetchesOneMore(offsets: Offsets, hetero: bool, bs: seq<Batch>, b: Batch)
    ensures Prefetches(offsets, hetero, bs + [b]) == Prefetches(offsets, hetero, bs) + Prefetch(offsets, hetero, b.parts, |b.parts|)
  {
    assert (bs + [b])[..|bs|] == bs;
  }

  /** Enough storage accesses to hide the latency, once n batches are read together: more
      than required, and more by prev for each batch. */
  ghost predicate Enough(required: real, prev: nat, bs: seq<Batch>, n: nat)
    requires n <= |bs|
  {
    Accesses(bs, n) as real > required + (n * prev) as real
  }

  // ---------------------------------------------------------------- the loader

  class Loader {
    const accumulator: bool
    const windowBuffering: bool
    const hetero: bool
    const wbSize: nat
    const offsets: Offsets
    var requiredAccesses: real
    var prevCpuAccess: nat
    var returnTorchBuffer: seq<seq<Rows>>
    var windowBuffer: seq<Batch>
    var wbInit: bool
    /** What was asked of the feature store's window buffer, in order. */
    var prefetched: seq<Rows>
    ghost var drawn: seq<Batch>
    ghost var returned: seq<Batch>

    /** Only a heterogeneous graph has its node types at offsets of their own. */
    function Map(): (m: Offsets)
      ensures if hetero then m == offsets else forall key :: OffsetOf(m, key) == 0
    {
      if hetero then offsets else None
    }

    /** Every batch drawn was returned or waits in the window buffer, in order; every feature
        tensor that waits was built from the batch it waits with; every batch drawn was
        prefetched once if windowing is on. */
    ghost predicate Valid()
      reads `returned, `windowBuffer, `drawn, `returnTorchBuffer, `prefetched
    {
      && returned + windowBuffer == drawn
      && |returnTorchBuffer| <= |windowBuffer|
      && (forall i | 0 <= i < |returnTorchBuffer| ::
            returnTorchBuffer[i] == Features(Map(), windowBuffer[i].parts, |windowBuffer[i].parts|))
      && (!accumulator ==> returnTorchBuffer == [])
      && prefetched == if windowBuffering then Prefetches(Map(), hetero, drawn) else []
    }

    constructor (accumulator: bool, windowBuffering: bool, hetero: bool, wbSize: nat, offsets: Offsets)
      ensures Valid() && drawn == returned == [] && windowBuffer == [] && !wbInit
      ensures this.accumulator == accumulator && this.windowBuffering == windowBuffering
      ensures this.hetero == hetero && this.wbSize == wbSize && this.offsets == offsets
    {
      this.accumulator, this.windowBuffering, this.hetero := accumulator, windowBuffering, hetero;
      this.wbSize, this.offsets := wbSize, offsets;
      requiredAccesses, prevCpuAccess := 0.0, 0;
      returnTorchBuffer, windowBuffer, wbInit, prefetched := [], [], false, [];
      drawn, returned := [], [];
    }

    /** `window_buffering`. */
    method WindowBuffering(batch: Batch)
      modifies this`prefetched
      ensures prefetched == old(prefetched) + Prefetch(Map(), hetero, batch.parts, |batch.parts|)
    {
      var i := 0;
      while i < |batch.parts|
        invariant 0 <= i <= |batch.parts|
        invariant prefetched == old(prefetched) + Prefetch(Map(), hetero, batch.parts, i)
      {
        var p := batch.parts[i];
        if !(hetero && p.nodes == []) {
          prefetched := prefetched + [Rows(p.key, OffsetOf(Map(), p.key), p.nodes)];
        }
        i := i + 1;
      }
    }

    /** One batch into the window buffer. */
    method Draw(it: Sampler) returns (ok: bool)
      requires Valid()
      modifies this`windowBuffer, this`prefetched, this`drawn, it
      ensures Valid() && (ok <==> old(it.rest) != [])
      ensures old(drawn) + old(it.rest) == drawn + it.rest
      ensures ok ==>
        && it.rest == old(it.rest)[1..]
        && windowBuffer == old(windowBuffer) + [old(it.rest)[0]] && drawn == old(drawn) + [old(it.rest)[0]]
      ensures !ok ==> it.rest == [] && windowBuffer == old(windowBuffer) && drawn == old(drawn)
    {
      var b := it.Next();
      if b.None? { return false; }
      windowBuffer := windowBuffer + [b.value];
      if windowBuffering {
        PrefetchesOneMore(Map(), hetero, drawn, b.value);
        WindowBuffering(b.value);
      }
      TakeOne(drawn, old(it.rest));
      drawn := drawn + [b.value];
      return true;
    }

    /** `fill_wb`. */
    method FillWb(it: Sampler, num: nat) returns (ok: bool)
      requires Valid()
      modifies this`windowBuffer, this`prefetched, this`drawn, it
      ensures Valid() && old(drawn) + old(it.rest) == drawn + it.rest
      ensures old(windowBuffer) <= windowBuffer && |it.rest| <= |old(it.rest)|
      ensures ok ==> |windowBuffer| == |old(windowBuffer)| + num
      ensures !ok ==> it.rest == [] && |windowBuffer| < |old(windowBuffer)| + num
    {
      hide Valid;
      var i := 0;
      while i < num
        invariant 0 <= i <= num && Valid() && |windowBuffer| == |old(windowBuffer)| + i
        invariant old(drawn) + old(it.rest) == drawn + it.rest
        invariant old(windowBuffer) <= windowBuffer && |it.rest| <= |old(it.rest)|
      {
        var more := Draw(it);
        if !more { return false; }
        i := i + 1;
      }
      return true;
    }

    /** The start of `fetch_feature`: the window is filled the first time, and one more batch
        is drawn. */
    method Begin(it: Sampler) returns (ok: bool)
      requires Valid()
      modifies this`windowBuffer, this`prefetched, this`drawn, this`wbInit, it
      ensures Valid() && old(drawn) + old(it.rest) == drawn + it.rest
      ensures old(windowBuffer) <= windowBuffer
      ensures ok ==> |it.rest| < |old(it.rest)| && windowBuffer != []
      ensures !ok ==> it.rest == []
      ensures ok ==> |windowBuffer| == |old(windowBuffer)| + 1 + if windowBuffering && !old(wbInit) then wbSize else 0
    {
      hide Valid;
      if windowBuffering && !wbInit {
        var filled := FillWb(it, wbSize);
        if !filled { return false; }
        wbInit := true;
      }
      ok := Draw(it);
    }

    method SizeOf(batch: Batch) returns (n: nat)
      ensures n == Size(batch.parts, |batch.parts|)
    {
      n := 0;
      var i := 0;
      while i < |batch.parts|
        invariant 0 <= i <= |batch.parts| && n == Size(batch.parts, i)
      {
        n := n + |batch.parts[i].nodes|;
        i := i + 1;
      }
    }

    /** Allocates and reads the feature tensors of one batch. */
    method ReadFeatures(batch: Batch) returns (r: seq<Rows>)
      ensures r == Features(Map(), batch.parts, |batch.parts|)
    {
      r := [];
      var i := 0;
      while i < |batch.parts|
        invariant 0 <= i <= |batch.parts| && r == Features(Map(), batch.parts, i)
      {
        var p := batch.parts[i];
        r := r + [Rows(p.key, OffsetOf(Map(), p.key), p.nodes)];
        i := i + 1;
      }
    }

    lemma NoAccesses(bs: seq<Batch>)
      ensures Accesses(bs, 0) == 0
    {}

    /** Appending batches keeps the counts before them. */
    lemma Frame(was: seq<Batch>, n: nat)
      requires was <= windowBuffer && n <= |was|
      ensures Accesses(windowBuffer, n) == Accesses(was, n)
      ensures forall m | 1 <= m <= n :: Enough(requiredAccesses, prevCpuAccess, windowBuffer, m) <==> Enough(requiredAccesses, prevCpuAccess, was, m)
    {
      AccessesOfPrefix(was, windowBuffer);
    }

    lemma OneMore(n: nat)
      requires n < |windowBuffer|
      ensures var b := windowBuffer[n]; Accesses(windowBuffer, n + 1) == Accesses(windowBuffer, n) + Size(b.parts, |b.parts|)
      ensures ((n + 1) * prevCpuAccess) as real == (n * prevCpuAccess) as real + prevCpuAccess as real
      ensures Enough(requiredAccesses, prevCpuAccess, windowBuffer, n + 1) <==> Accesses(windowBuffer, n + 1) as real > requiredAccesses + ((n + 1) * prevCpuAccess) as real
    {
      MulDistributes(n, 1, prevCpuAccess);
    }

    /** The accumulating loop: batches are counted, and drawn when the buffer runs out, until
        there are enough accesses. */
    method Accumulate(it: Sampler) returns (ok: bool, numIter: nat)
      requires Valid() && returnTorchBuffer == []
      modifies this`windowBuffer, this`prefetched, this`drawn, it
      ensures Valid() && old(windowBuffer) <= windowBuffer && |it.rest| <= |old(it.rest)|
      ensures old(drawn) + old(it.rest) == drawn + it.rest
      ensures ok ==> 1 <= numIter <= |windowBuffer| && Enough(requiredAccesses, prevCpuAccess, windowBuffer, numIter)
      ensures ok ==> forall m | 1 <= m < numIter :: !Enough(requiredAccesses, prevCpuAccess, windowBuffer, m)
      ensures ok ==> |windowBuffer| == |old(windowBuffer)| || |windowBuffer| == numIter
      ensures !ok ==> it.rest == [] && forall m | 1 <= m <= |windowBuffer| :: !Enough(requiredAccesses, prevCpuAccess, windowBuffer, m)
    {
      hide Valid, Accesses, Enough, Size;
      NoAccesses(windowBuffer);
      var bufferSize := |windowBuffer|;
      var currentAccess := 0;
      numIter := 0;
      var required := requiredAccesses;
      while true
        invariant Valid() && old(windowBuffer) <= windowBuffer && numIter <= |windowBuffer|
        invariant |windowBuffer| == if numIter > bufferSize then numIter else bufferSize
        invariant old(drawn) + old(it.rest) == drawn + it.rest && |it.rest| <= |old(it.rest)|
        invariant currentAccess == Accesses(windowBuffer, numIter)
        invariant required == requiredAccesses + (numIter * prevCpuAccess) as real
        invariant forall m | 1 <= m <= numIter :: !Enough(requiredAccesses, prevCpuAccess, windowBuffer, m)
        decreases |it.rest|, |windowBuffer| - numIter
      {
        ghost var was := windowBuffer;
        if numIter >= bufferSize {
          var more := Draw(it);
          if !more { return false, numIter; }
        }
        var batch := windowBuffer[numIter];
        var size := SizeOf(batch);
        Frame(was, numIter);
        OneMore(numIter);
        currentAccess := currentAccess + size;
        numIter := numIter + 1;
        required := required + prevCpuAccess as real;
        if currentAccess as real > required { return true, numIter; }
      }
    }

    /** The oldest batch leaves with its features. */
    method Pop(features: seq<Rows>) returns (r: Outcome)
      requires Valid() && windowBuffer != [] && features == Features(Map(), windowBuffer[0].parts, |windowBuffer[0].parts|)
      modifies this`windowBuffer, this`returnTorchBuffer, this`returned
      ensures Valid() && r == Fetched(old(windowBuffer)[0], features)
      ensures windowBuffer == old(windowBuffer)[1..] && returned == old(returned) + [r.batch]
      ensures returnTorchBuffer == if old(returnTorchBuffer) == [] then [] else old(returnTorchBuffer)[1..]
    {
      hide Prefetches;
      var batch := windowBuffer[0];
      if returnTorchBuffer != [] { returnTorchBuffer := returnTorchBuffer[1..]; }
      windowBuffer := windowBuffer[1..];
      returned := returned + [batch];
      assert returned + windowBuffer == drawn;
      return Fetched(batch, features);
    }

    /** The features of the first n batches are read together. */
    method ReadMerged(n: nat)
      requires Valid() && accumulator && returnTorchBuffer == [] && n <= |windowBuffer|
      modifies this`returnTorchBuffer
      ensures Valid() && |returnTorchBuffer| == n
    {
      hide Prefetches;
      var i := 0;
      while i < n
        invariant 0 <= i <= n && Valid() && |returnTorchBuffer| == i
      {
        var ten := ReadFeatures(windowBuffer[i]);
        returnTorchBuffer := returnTorchBuffer + [ten];
        i := i + 1;
      }
    }

    /** The accumulating part of `fetch_feature`. */
    method ReadTogether(it: Sampler, cpuAccesses: nat) returns (r: Outcome)
      requires Valid() && accumulator && returnTorchBuffer == []
      modifies this`windowBuffer, this`prefetched, this`drawn, this`returned, this`returnTorchBuffer, this`prevCpuAccess, it
      ensures Valid() && old(drawn) + old(it.rest) == drawn + it.rest && |it.rest| <= |old(it.rest)|
      ensures r.StopIteration? ==> it.rest == [] && returned == old(returned) && returnTorchBuffer == []
      ensures r.Fetched? ==>
        && returned == old(returned) + [r.batch]
        && r.features == Features(Map(), r.batch.parts, |r.batch.parts|)
      ensures r.Fetched? ==>
        var n := |returnTorchBuffer| + 1; var bs := [r.batch] + windowBuffer;
        && n <= |bs| && Enough(requiredAccesses, old(prevCpuAccess), bs, n)
        && (forall m | 1 <= m < n :: !Enough(requiredAccesses, old(prevCpuAccess), bs, m))
        && prevCpuAccess == cpuAccesses / n
    {
      hide Valid, Enough, Features;
      var ok, numIter := Accumulate(it);
      if !ok { return StopIteration; }
      ghost var bs := windowBuffer;
      ReadMerged(numIter);
      Waiting();
      r := Pop(returnTorchBuffer[0]);
      assert [r.batch] + windowBuffer == bs;
      prevCpuAccess := cpuAccesses / numIter;
    }

    /** `fetch_feature`; cpuAccesses is what the feature store counts during the call. */
    method FetchFeature(it: Sampler, cpuAccesses: nat) returns (r: Outcome)
      requires Valid()
      modifies this, it
      ensures Valid() && requiredAccesses == old(requiredAccesses)
      ensures old(drawn) + old(it.rest) == drawn + it.rest
      ensures r.StopIteration? ==> it.rest == [] && returned == old(returned) && returnTorchBuffer == old(returnTorchBuffer)
      ensures r.Fetched? ==>
        && |it.rest| < |old(it.rest)| && returned == old(returned) + [r.batch]
        && r.features == Features(Map(), r.batch.parts, |r.batch.parts|)
      // tensors that wait are served first; otherwise the fewest batches that are enough are read
      ensures r.Fetched? && old(returnTorchBuffer) != [] ==> returnTorchBuffer == old(returnTorchBuffer)[1..] && prevCpuAccess == old(prevCpuAccess)
      ensures r.Fetched? && accumulator && old(returnTorchBuffer) == [] ==>
        var n := |returnTorchBuffer| + 1; var bs := [r.batch] + windowBuffer;
        && n <= |bs| && Enough(requiredAccesses, old(prevCpuAccess), bs, n)
        && (forall m | 1 <= m < n :: !Enough(requiredAccesses, old(prevCpuAccess), bs, m))
        && prevCpuAccess == cpuAccesses / n
      // without the accumulator the look-ahead is filled once and then keeps its size
      ensures r.Fetched? && !accumulator ==>
        |windowBuffer| == |old(windowBuffer)| + if windowBuffering && !old(wbInit) then wbSize else 0
    {
      hide Valid, Enough;
      var more := Begin(it);
      if !more { return StopIteration; }
      if accumulator {
        if |returnTorchBuffer| != 0 {
          Waiting();
          r := Pop(returnTorchBuffer[0]);
          return;
        }
        r := ReadTogether(it, cpuAccesses);
      } else {
        Waiting();
        var ten := ReadFeatures(windowBuffer[0]);
        r := Pop(ten);
      }
    }

    lemma Waiting()
      requires Valid()
      ensures |returnTorchBuffer| <= |windowBuffer|
      ensures !accumulator ==> returnTorchBuffer == []
      ensures |returnTorchBuffer| > 0 ==> returnTorchBuffer[0] == Features(Map(), windowBuffer[0].parts, |windowBuffer[0].parts|)
    {}

    /** One epoch: batches are fetched until the sampler runs out. */
    method Epoch(it: Sampler, cpuAccesses: nat -> nat) returns (out: seq<Batch>)
      requires Valid()
      modifies this, it
      ensures Valid() && it.rest == []
      ensures old(windowBuffer) + old(it.rest) == out + windowBuffer
      ensures returned == old(returned) + out
    {
      hide Enough;
      out := [];
      ghost var all := drawn + it.rest;
      while true
        invariant Valid() && drawn + it.rest == all && returned == old(returned) + out
        decreases |it.rest|
      {
        var r := FetchFeature(it, cpuAccesses(|out|));
        if r.StopIteration? { break; }
        out := out + [r.batch];
      }
      Conserved(old(returned), old(windowBuffer), old(it.rest), out, windowBuffer);
    }
  }

  lemma TakeOne(drawn: seq<Batch>, rest: seq<Batch>)
    requires rest != []
    ensures drawn + rest == drawn + [rest[0]] + rest[1..]
  {}

  lemma Conserved(returned: seq<Batch>, waiting: seq<Batch>, rest: seq<Batch>, out: seq<Batch>, waiting': seq<Batch>)
    requires returned + waiting + rest == returned + out + waiting'
    ensures waiting + rest == out + waiting'
  {
    var n := |returned|;
    assert (returned + waiting + rest)[n..] == waiting + rest;
    assert (returned + out + waiting')[n..] == out + waiting';
  }

  /** Batches that are appended do not change the counts of those before. */
  lemma {:induction false} AccessesFrame(a: seq<Batch>, b: seq<Batch>, n: nat)
    requires a <= b && n <= |a|
    ensures Accesses(a, n) == Accesses(b, n)
  {
    if n > 0 { AccessesFrame(a, b, n - 1); }
  }

  lemma AccessesOfPrefix(a: seq<Batch>, b: seq<Batch>)
    requires a <= b
    ensures forall n: nat | n <= |a| :: Accesses(a, n) == Accesses(b, n)
  {
    forall n: nat | n <= |a| ensures Accesses(a, n) == Accesses(b, n) { AccessesFrame(a, b, n); }
  }
}
