// The index bookkeeping of one training epoch: the permuted index list 0..N-1, its split
// into consecutive mini-batches, and the gathering of the examples a batch names.

module Batching {

  /** 0, 1, ..., n - 1: the index list std::iota fills before the shuffle. */
  function Iota(n: nat): (s: seq<nat>)
    ensures |s| == n && forall i :: 0 <= i < n ==> s[i] == i
  {
    seq(n, i => i)
  }

  /** p is a reordering of 0..n-1 (what a shuffle of Iota(n) produces). */
  predicate IsPermutation(p: seq<nat>, n: nat) {
    multiset(p) == multiset(Iota(n))
  }

  /** Every value below n occurs exactly once in Iota(n), and no other value occurs. */
  lemma {:induction false} IotaOccurrences(n: nat, v: nat)
    ensures multiset(Iota(n))[v] == if v < n then 1 else 0
    decreases n
  {
    if n > 0 {
      assert Iota(n) == Iota(n - 1) + [n - 1];
      IotaOccurrences(n - 1, v);
    }
  }

  /** Every entry of a permutation of 0..n-1 is an index below n, and each index below n
      occurs in it exactly once. */
  lemma PermutationEntries(p: seq<nat>, n: nat)
    requires IsPermutation(p, n)
    ensures |p| == n
    ensures forall j :: 0 <= j < |p| ==> p[j] < n
    ensures forall v :: 0 <= v < n ==> multiset(p)[v] == 1
  {
    assert |p| == |multiset(p)| == |multiset(Iota(n))| == n;
    forall j | 0 <= j < |p|
      ensures p[j] < n
    {
      assert p[j] in multiset(p);
      IotaOccurrences(n, p[j]);
    }
    forall v | 0 <= v < n
      ensures multiset(p)[v] == 1
    {
      IotaOccurrences(n, v);
    }
  }

  function Min(a: nat, b: nat): nat {
    if a < b then a else b
  }

  /** Consecutive chunks of s of length b; the last one holds what is left (1..b entries).
      The loop `for (i = 0; i < N; i += b)` with an inner `j < b && i + j < N` visits them in this order. */
  function Chunks(s: seq<nat>, b: nat): seq<seq<nat>>
    requires b > 0
    decreases |s|
  {
    if |s| == 0 then []
    else
      var m := Min(b, |s|);
      [s[..m]] + Chunks(s[m..], b)
  }

  /** The chunks of s from position i on: one of up to b entries, then the chunks after it. */
  lemma ChunksFrom(s: seq<nat>, b: nat, i: nat)
    requires b > 0 && i < |s|
    ensures Chunks(s[i..], b) == [s[i..Min(i + b, |s|)]] + Chunks(s[Min(i + b, |s|)..], b)
  {
    var m := Min(b, |s| - i);
    assert s[i..][..m] == s[i..i + m] && s[i..][m..] == s[i + m..];
  }

  /** done are the chunks of s that lie before position i. */
  predicate ChunksBefore(done: seq<seq<nat>>, s: seq<nat>, b: nat, i: nat)
    requires b > 0
  {
    done + Chunks(s[Min(i, |s|)..], b) == Chunks(s, b)
  }

  /** One more step of the batching loop: the chunk starting at i joins the chunks done so far
      (n is the length of s). */
  lemma ChunksAdvance(s: seq<nat>, n: nat, b: nat, i: nat, done: seq<seq<nat>>) returns (next: seq<seq<nat>>)
    requires b > 0 && n == |s| && i < n && ChunksBefore(done, s, b, i)
    ensures next == done + [s[i..Min(i + b, n)]]
    ensures ChunksBefore(next, s, b, i + b)
  {
    ChunksFrom(s, b, i);
    next := done + [s[i..Min(i + b, n)]];
    var rest := Chunks(s[Min(i + b, n)..], b);
    assert next + rest == done + ([s[i..Min(i + b, n)]] + rest);
  }

  function Flatten(cs: seq<seq<nat>>): seq<nat>
    decreases |cs|
  {
    if |cs| == 0 then [] else cs[0] + Flatten(cs[1..])
  }

  lemma DivUnique(x: int, b: int, q: int, r: int)
    requires b > 0 && 0 <= r < b && x == q * b + r
    ensures x / b == q
  {
    var q0, r0 := x / b, x % b;
    assert q0 * b + r0 == q * b + r;
    assert (q0 - q) * b == r - r0;
    if q0 > q {
      MulAtLeast(q0 - q, b);
    } else if q0 < q {
      MulAtLeast(q - q0, b);
    }
  }

  lemma MulAtLeast(d: int, b: int)
    requires d >= 1 && b > 0
    ensures d * b >= b
  {
    assert d * b == (d - 1) * b + b;
  }

  lemma DivStep(x: nat, b: nat)
    requires b > 0
    ensures (x + b) / b == x / b + 1
  {
    var q, r := x / b, x % b;
    assert x == q * b + r && 0 <= r < b;
    assert x + b == (q + 1) * b + r;
    DivUnique(x + b, b, q + 1, r);
  }

  lemma DivSmall(x: nat, b: nat)
    requires 0 < x <= b
    ensures (x + b - 1) / b == 1
  {
    DivUnique(x + b - 1, b, 1, x - 1);
  }

  /** Concatenated in order, the chunks give s back: the batches partition the index list. */
  lemma {:induction false} ChunksFlatten(s: seq<nat>, b: nat)
    requires b > 0
    ensures Flatten(Chunks(s, b)) == s
    decreases |s|
  {
    if |s| > 0 {
      var m := Min(b, |s|);
      ChunksFlatten(s[m..], b);
      assert Chunks(s, b)[1..] == Chunks(s[m..], b);
      assert s[..m] + s[m..] == s;
    }
  }

  /** There are ceil(|s| / b) chunks, each non-empty and at most b long; all but the last
      hold exactly b entries. */
  lemma {:induction false} ChunksSizes(s: seq<nat>, b: nat)
    requires b > 0
    ensures |Chunks(s, b)| == (|s| + b - 1) / b
    ensures forall k :: 0 <= k < |Chunks(s, b)| ==> 0 < |Chunks(s, b)[k]| <= b
    ensures forall k :: 0 <= k < |Chunks(s, b)| - 1 ==> |Chunks(s, b)[k]| == b
    decreases |s|
  {
    var cs := Chunks(s, b);
    if |s| == 0 {
      DivUnique(b - 1, b, 0, b - 1);
    } else {
      var m := Min(b, |s|);
      var rest := Chunks(s[m..], b);
      ChunksSizes(s[m..], b);
      assert cs == [s[..m]] + rest;
      if |s| <= b {
        DivSmall(|s|, b);
      } else {
        DivStep(|s| - 1, b);
      }
      forall k | 0 <= k < |cs|
        ensures 0 < |cs[k]| <= b && (k < |cs| - 1 ==> |cs[k]| == b)
      {
        if k > 0 {
          assert cs[k] == rest[k - 1];
        }
      }
    }
  }

  /** The last chunk holds what the full ones leave: |s| minus b for every earlier chunk. */
  lemma {:induction false} ChunksLastSize(s: seq<nat>, b: nat)
    requires b > 0 && |s| > 0
    ensures |Chunks(s, b)| > 0
    ensures |Chunks(s, b)[|Chunks(s, b)| - 1]| == |s| - (|Chunks(s, b)| - 1) * b
    decreases |s|
  {
    var cs := Chunks(s, b);
    var m := Min(b, |s|);
    var rest := Chunks(s[m..], b);
    assert cs == [s[..m]] + rest;
    if |s| > b {
      ChunksLastSize(s[m..], b);
      assert cs[|cs| - 1] == rest[|rest| - 1];
      assert (|cs| - 1) * b == (|rest| - 1) * b + b;
    }
  }

  /** Every entry of every chunk is an entry of s. */
  lemma {:induction false} ChunksMembers(s: seq<nat>, b: nat)
    requires b > 0
    ensures forall k, j :: 0 <= k < |Chunks(s, b)| && 0 <= j < |Chunks(s, b)[k]| ==>
      Chunks(s, b)[k][j] in s
    decreases |s|
  {
    var cs := Chunks(s, b);
    if |s| > 0 {
      var m := Min(b, |s|);
      var rest := Chunks(s[m..], b);
      ChunksMembers(s[m..], b);
      assert cs == [s[..m]] + rest;
      forall k, j | 0 <= k < |cs| && 0 <= j < |cs[k]|
        ensures cs[k][j] in s
      {
        if k == 0 {
          assert cs[0][j] == s[j];
        } else {
          assert cs[k] == rest[k - 1];
          assert rest[k - 1][j] in s[m..];
        }
      }
    }
  }

  /** Used exactly once: over a permutation of 0..n-1, the chunks together contain every index
      below n exactly once, and nothing else. */
  lemma ChunksCoverEachIndexOnce(p: seq<nat>, n: nat, b: nat)
    requires b > 0 && IsPermutation(p, n)
    ensures forall v: nat :: multiset(Flatten(Chunks(p, b)))[v] == if v < n then 1 else 0
  {
    ChunksFlatten(p, b);
    forall v: nat
      ensures multiset(Flatten(Chunks(p, b)))[v] == if v < n then 1 else 0
    {
      IotaOccurrences(n, v);
    }
  }

  /** A non-empty chunk of indices below n. */
  predicate ChunkIndexBelow(c: seq<nat>, n: nat) {
    |c| > 0 && forall j :: 0 <= j < |c| ==> c[j] < n
  }

  /** Every chunk is non-empty and holds only indices below n. */
  predicate ChunksIndexBelow(cs: seq<seq<nat>>, n: nat) {
    forall k :: 0 <= k < |cs| ==> ChunkIndexBelow(cs[k], n)
  }

  lemma PermutationChunksIndexBelow(p: seq<nat>, n: nat, b: nat)
    requires b > 0 && IsPermutation(p, n)
    ensures ChunksIndexBelow(Chunks(p, b), n)
  {
    ChunksSizes(p, b);
    ChunksMembers(p, b);
    PermutationEntries(p, n);
    var cs := Chunks(p, b);
    forall k, j | 0 <= k < |cs| && 0 <= j < |cs[k]|
      ensures cs[k][j] < n
    {
      assert cs[k][j] in p;
    }
  }

  /** The examples a chunk of indices names, in chunk order. */
  function Gather<T>(xs: seq<T>, idx: seq<nat>): (g: seq<T>)
    requires forall j :: 0 <= j < |idx| ==> idx[j] < |xs|
    ensures |g| == |idx| && forall j :: 0 <= j < |idx| ==> g[j] == xs[idx[j]]
  {
    seq(|idx|, j requires 0 <= j < |idx| => xs[idx[j]])
  }
}
