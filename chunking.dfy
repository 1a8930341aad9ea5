/** The arithmetic of run_accelerated's two loops: how many ticks the time
    walk makes, how the accumulated records are cut into 400-record upload
    blocks, and how the stop flag, sampled at each loop test, cuts both short. */
module Chunking {

  /** The upload block size of run_accelerated, below Firestore's batch limit. */
  const CHUNK_SIZE: nat := 400

  function IntMin(a: int, b: int): int {
    if a <= b then a else b
  }

  function Flatten<T>(bs: seq<seq<T>>): seq<T>
    decreases |bs|
  {
    if |bs| == 0 then [] else Flatten(bs[..|bs| - 1]) + bs[|bs| - 1]
  }

  lemma FlattenAppend<T>(bs: seq<seq<T>>, cs: seq<seq<T>>)
    ensures Flatten(bs + cs) == Flatten(bs) + Flatten(cs)
    decreases |cs|
  {
    if |cs| > 0 {
      var n := |cs| - 1;
      assert (bs + cs)[..|bs + cs| - 1] == bs + cs[..n];
      FlattenAppend(bs, cs[..n]);
    } else {
      assert bs + cs == bs;
    }
  }

  lemma FlattenSingle<T>(c: seq<T>)
    ensures Flatten([c]) == c
  {
    assert [c][..0] == [];
  }

  lemma FlattenCons<T>(x: seq<T>, cs: seq<seq<T>>)
    ensures Flatten([x] + cs) == x + Flatten(cs)
  {
    FlattenAppend([x], cs);
    FlattenSingle(x);
  }

  lemma {:induction false} FlattenUniformLength<T>(bs: seq<seq<T>>, w: nat)
    requires forall k :: 0 <= k < |bs| ==> |bs[k]| == w
    ensures |Flatten(bs)| == w * |bs|
    decreases |bs|
  {
    if |bs| > 0 {
      var n := |bs| - 1;
      FlattenUniformLength(bs[..n], w);
      assert w * |bs| == w * n + w;
    }
  }

  /** Concatenating blocks of one width w puts element i of block k at k * w + i. */
  lemma FlattenUniformAt<T>(bs: seq<seq<T>>, w: nat, k: nat, i: nat)
    requires forall j :: 0 <= j < |bs| ==> |bs[j]| == w
    requires k < |bs| && i < w
    ensures |Flatten(bs)| == w * |bs| && k * w + i < |Flatten(bs)|
    ensures Flatten(bs)[k * w + i] == bs[k][i]
    decreases |bs|
  {
    var n := |bs| - 1;
    FlattenUniformLength(bs, w);
    FlattenUniformLength(bs[..n], w);
    var p := Flatten(bs[..n]);
    assert Flatten(bs) == p + bs[n];
    if k < n {
      MulGap(n, k, w);
      assert n * w == w * n;
      FlattenUniformAt(bs[..n], w, k, i);
      assert bs[..n][k] == bs[k];
    } else {
      assert k * w == w * n;
      assert w * |bs| == w * n + w;
    }
  }

  /** total_records[i:i + size], with Python's clamping at the end. */
  function Slice<T>(s: seq<T>, i: nat, size: nat): seq<T>
    requires i <= |s|
  {
    s[i..IntMin(|s|, i + size)]
  }

  /** The blocks the upload loop cuts, in order: one per i in range(0, |s|, size). */
  function Chunks<T>(s: seq<T>, size: nat): seq<seq<T>>
    requires size > 0
    decreases |s|
  {
    if |s| == 0 then []
    else if |s| <= size then [s]
    else [s[..size]] + Chunks(s[size..], size)
  }

  /** ceil(n / size): the length of range(0, n, size). */
  function NumChunks(n: nat, size: nat): nat
    requires size > 0
  {
    (n + size - 1) / size
  }

  lemma DivUnique(x: int, d: int, q: int, r: int)
    requires d > 0 && x == q * d + r && 0 <= r < d
    ensures x / d == q
  {
    var q0 := x / d;
    var r0 := x % d;
    assert x == q0 * d + r0 && 0 <= r0 < d;
    if q0 < q {
      MulGap(q, q0, d);
    } else if q0 > q {
      MulGap(q0, q, d);
    }
  }

  lemma MulGap(a: int, b: int, d: int)
    requires a > b && d > 0
    ensures a * d - b * d >= d
  {
    var e := a - b - 1;
    assert e >= 0;
    assert a * d - b * d == (a - b) * d;
    assert (a - b) * d == e * d + d;
    assert e * d >= 0;
  }

  lemma NumChunksStep(n: nat, size: nat)
    requires size > 0 && n > size
    ensures NumChunks(n, size) == 1 + NumChunks(n - size, size)
  {
    var a := n - size + size - 1;
    var q := a / size;
    var r := a % size;
    assert a == q * size + r;
    assert a + size == (q + 1) * size + r;
    DivUnique(a + size, size, q + 1, r);
  }

  lemma NumChunksSmall(n: nat, size: nat)
    requires size > 0 && 0 < n <= size
    ensures NumChunks(n, size) == 1
  {
  }

  /** There is one block per start index: the k-th block is the slice from
      k * size, and there are ceil(|s| / size) of them. */
  lemma ChunksIndex<T>(s: seq<T>, size: nat)
    requires size > 0
    ensures |Chunks(s, size)| == NumChunks(|s|, size)
    ensures forall k :: 0 <= k < |Chunks(s, size)| ==>
      k * size < |s| && Chunks(s, size)[k] == Slice(s, k * size, size)
  {
    ChunksLength(s, size);
    forall k | 0 <= k < |Chunks(s, size)|
      ensures k * size < |s| && Chunks(s, size)[k] == Slice(s, k * size, size)
    {
      ChunksAt(s, size, k);
    }
  }

  lemma {:induction false} ChunksLength<T>(s: seq<T>, size: nat)
    requires size > 0
    ensures |Chunks(s, size)| == NumChunks(|s|, size)
    decreases |s|
  {
    if |s| == 0 {
    } else if |s| <= size {
      NumChunksSmall(|s|, size);
    } else {
      ChunksLength(s[size..], size);
      NumChunksStep(|s|, size);
    }
  }

  lemma {:induction false} ChunksAt<T>(s: seq<T>, size: nat, k: nat)
    requires size > 0 && k < |Chunks(s, size)|
    ensures k * size < |s| && Chunks(s, size)[k] == Slice(s, k * size, size)
    decreases k
  {
    if k == 0 {
      if |s| > size {
        assert Chunks(s, size)[0] == s[..size];
      }
    } else {
      var rest := s[size..];
      assert |s| > size;
      assert Chunks(s, size)[k] == Chunks(rest, size)[k - 1];
      ChunksAt(rest, size, k - 1);
      SliceShift(s, size, k);
    }
  }

  lemma SliceShift<T>(s: seq<T>, size: nat, k: nat)
    requires 0 < size < |s| && 0 < k && (k - 1) * size < |s| - size
    ensures k * size < |s|
    ensures Slice(s[size..], (k - 1) * size, size) == Slice(s, k * size, size)
  {
    var i := (k - 1) * size;
    assert i + size == k * size;
  }

  /** Every block holds at most size records, every block but the last exactly size. */
  lemma {:induction false} ChunksBounded<T>(s: seq<T>, size: nat)
    requires size > 0
    ensures forall k :: 0 <= k < |Chunks(s, size)| ==> 0 < |Chunks(s, size)[k]| <= size
    ensures forall k :: 0 <= k < |Chunks(s, size)| - 1 ==> |Chunks(s, size)[k]| == size
    decreases |s|
  {
    if |s| > size {
      ChunksBounded(s[size..], size);
      var c := Chunks(s, size);
      assert c == [s[..size]] + Chunks(s[size..], size);
      assert forall k :: 1 <= k < |c| ==> c[k] == Chunks(s[size..], size)[k - 1];
    }
  }

  /** Without a stop the blocks put back together are the records. */
  lemma ChunksFlatten<T>(s: seq<T>, size: nat)
    requires size > 0
    ensures Flatten(Chunks(s, size)) == s
  {
    var c := Chunks(s, size);
    ChunksLength(s, size);
    ChunksPrefix(s, size, |c|);
    assert c[..|c|] == c;
    if |s| > 0 {
      CeilDivBound(|s|, size, |c|);
    }
    assert s[..IntMin(|s|, |c| * size)] == s;
  }

  /** A loop cut short after m blocks has uploaded exactly the first m * size records. */
  lemma {:induction false} ChunksPrefix<T>(s: seq<T>, size: nat, m: nat)
    requires size > 0 && m <= |Chunks(s, size)|
    ensures Flatten(Chunks(s, size)[..m]) == s[..IntMin(|s|, m * size)]
    decreases |s|
  {
    var c := Chunks(s, size);
    if m == 0 {
      assert c[..0] == [];
    } else if |s| <= size {
      assert c[..m] == c;
      FlattenSingle(s);
      assert s[..IntMin(|s|, m * size)] == s;
    } else {
      var rest := s[size..];
      ChunksPrefix(rest, size, m - 1);
      assert c[..m] == [s[..size]] + Chunks(rest, size)[..m - 1];
      FlattenCons(s[..size], Chunks(rest, size)[..m - 1]);
      assert (m - 1) * size == m * size - size;
      assert IntMin(|rest|, (m - 1) * size) == IntMin(|s|, m * size) - size;
      assert s[..size] + rest[..IntMin(|rest|, (m - 1) * size)] == s[..IntMin(|s|, m * size)];
    }
  }

  /** The number of ticks of the time walk: the offsets 0, d, 2d, ... below
      hours * 3600 seconds, none when hours <= 0. */
  function TickCount(hours: int, interval: nat): nat
    requires interval > 0
  {
    if hours <= 0 then 0 else (3600 * hours + interval - 1) / interval
  }

  lemma CeilDivBound(t: nat, d: nat, k: nat)
    requires d > 0 && t > 0
    ensures k < (t + d - 1) / d <==> k * d < t
  {
    var q := (t + d - 1) / d;
    var r := (t + d - 1) % d;
    assert t + d - 1 == q * d + r && 0 <= r < d;
    if k < q {
      assert k + 1 <= q;
      assert (k + 1) * d <= q * d;
      assert k * d + d <= q * d;
    } else {
      assert q <= k;
      assert q * d <= k * d;
    }
  }

  /** Tick k happens exactly when its offset k * interval lies strictly before
      the end of the walk: start + hours. */
  lemma TickCountMeaning(hours: int, interval: nat, k: nat)
    requires interval > 0
    ensures k < TickCount(hours, interval) <==> k * interval < 3600 * hours
  {
    if hours > 0 {
      CeilDivBound(3600 * hours, interval, k);
    } else {
      assert k * interval >= 0;
    }
  }

  /** stop_event as the loops see it: clear until the check numbered `check`
      (counting every test of the flag in the run from 0) and set from then on. */
  datatype StopSignal = NeverStopped | StoppedFrom(check: nat)

  predicate IsSet(sig: StopSignal, n: nat) {
    sig.StoppedFrom? && sig.check <= n
  }

  /** How many of the checks start, start + 1, ..., start + limit - 1 find the
      flag clear before the first one that finds it set. */
  function Passing(sig: StopSignal, start: nat, limit: nat): (p: nat)
    ensures p <= limit
  {
    if sig.NeverStopped? || sig.check >= start + limit then limit
    else if sig.check <= start then 0
    else sig.check - start
  }

  /** A loop that stops at the first set flag, with at most limit rounds,
      makes exactly Passing rounds: every one of them saw the flag clear, and
      if it ends early the next check saw it set. */
  lemma PassingMeaning(sig: StopSignal, start: nat, limit: nat)
    ensures forall n :: start <= n < start + Passing(sig, start, limit) ==> !IsSet(sig, n)
    ensures Passing(sig, start, limit) < limit ==> IsSet(sig, start + Passing(sig, start, limit))
    ensures sig.NeverStopped? ==> Passing(sig, start, limit) == limit
  {
  }

  /** Once set the flag stays set: a stop seen at one check cuts every later loop to nothing. */
  lemma StopIsFinal(sig: StopSignal, n: nat, start: nat, limit: nat)
    requires IsSet(sig, n) && n <= start
    ensures Passing(sig, start, limit) == 0
  {
  }
}
