/**
 * The two sequence helpers that `TextEncoder.batch_encode` is built from:
 * `chunked` (cut a list into consecutive pieces of at most `n` items) and
 * `flatten` (concatenate a list of lists), together with their laws.
 */
module Chunking {

  /** Concatenation of all the pieces, in order: an item is in the result exactly when it is in some piece. */
  function Flatten<T(!new)>(xss: seq<seq<T>>): (r: seq<T>)
    ensures forall x :: x in r <==> exists k :: 0 <= k < |xss| && x in xss[k]
  {
    if xss == [] then [] else xss[0] + Flatten(xss[1..])
  }

  /**
   * `chunked(xs, n)`: consecutive pieces of exactly `n` items, the last one
   * possibly shorter; no piece for an empty input.
   */
  function Chunked<T(!new)>(xs: seq<T>, n: nat): (r: seq<seq<T>>)
    requires n > 0
    ensures Flatten(r) == xs
    ensures forall k :: 0 <= k < |r| ==> 0 < |r[k]| <= n
    ensures forall k :: 0 <= k < |r| - 1 ==> |r[k]| == n
    ensures xs == [] <==> r == []
    decreases |xs|
  {
    if |xs| <= n then
      (if xs == [] then [] else [xs])
    else
      [xs[..n]] + Chunked(xs[n..], n)
  }

  /** Position `i` of `Flatten([a] + rest)` lies in `a` or, shifted by `|a|`, in `Flatten(rest)`. */
  lemma FlattenConsAt<T(!new)>(a: seq<T>, rest: seq<seq<T>>, i: nat)
    requires i < |a| + |Flatten(rest)|
    ensures |Flatten([a] + rest)| == |a| + |Flatten(rest)|
    ensures Flatten([a] + rest)[i] == if i < |a| then a[i] else Flatten(rest)[i - |a|]
  {
    assert ([a] + rest)[0] == a;
    assert ([a] + rest)[1..] == rest;
  }

  /** The number of pieces is the length divided by `n`, rounded up. */
  lemma {:induction false} ChunkCount<T(!new)>(xs: seq<T>, n: nat)
    requires n > 0
    ensures |Chunked(xs, n)| == (|xs| + n - 1) / n
    decreases |xs|
  {
    if |xs| <= n {
      if xs == [] {
        assert (n - 1) / n == 0;
      } else {
        assert n <= |xs| + n - 1 < 2 * n;
        DivIsOne(|xs| + n - 1, n);
      }
    } else {
      ChunkCount(xs[n..], n);
      DivShift(|xs| + n - 1, n);
    }
  }

  /**
   * In pieces of at most `n` items that all have exactly `n` except possibly the
   * last, position `i` of the concatenation is item `i % n` of piece `i / n`.
   */
  lemma {:induction false} FlattenUniformAt<T(!new)>(xss: seq<seq<T>>, n: nat, i: nat)
    requires n > 0 && i < |Flatten(xss)|
    requires forall k :: 0 <= k < |xss| ==> |xss[k]| <= n
    requires forall k :: 0 <= k < |xss| - 1 ==> |xss[k]| == n
    ensures i / n < |xss| && i % n < |xss[i / n]|
    ensures Flatten(xss)[i] == xss[i / n][i % n]
    decreases |xss|
  {
    var head, rest := xss[0], xss[1..];
    assert xss == [head] + rest;
    FlattenConsAt(head, rest, i);
    if i < |head| {
      SmallDivMod(i, n);
    } else {
      assert |xss| > 1 && |head| == n;
      FlattenUniformAt(rest, n, i - n);
      DivShift(i, n);
    }
  }

  /** Item `i` of the input is item `i % n` of piece `i / n`. */
  lemma ChunkedAt<T(!new)>(xs: seq<T>, n: nat, i: nat)
    requires n > 0 && i < |xs|
    ensures i / n < |Chunked(xs, n)|
    ensures i % n < |Chunked(xs, n)[i / n]|
    ensures Chunked(xs, n)[i / n][i % n] == xs[i]
  {
    FlattenUniformAt(Chunked(xs, n), n, i);
  }

  lemma SmallDivMod(i: nat, n: nat)
    requires i < n
    ensures i / n == 0 && i % n == i
  {
  }

  lemma DivIsOne(m: nat, n: nat)
    requires 0 < n <= m < 2 * n
    ensures m / n == 1
  {
    assert m == n * 1 + (m - n);
  }

  /** Removing `n` from a number of at least `n` lowers the quotient by one and keeps the remainder. */
  lemma DivShift(m: nat, n: nat)
    requires 0 < n <= m
    ensures (m - n) / n == m / n - 1
    ensures (m - n) % n == m % n
  {
    var q, r := (m - n) / n, (m - n) % n;
    assert m - n == q * n + r && 0 <= r < n;
    assert m == (q + 1) * n + r;
    DivModUnique(m, n, q + 1, r);
  }

  /** Euclidean quotient and remainder are determined by `m == q * n + r` with `0 <= r < n`. */
  lemma DivModUnique(m: int, n: int, q: int, r: int)
    requires n > 0 && 0 <= r < n && m == q * n + r
    ensures m / n == q && m % n == r
  {
    var q', r' := m / n, m % n;
    assert m == q' * n + r' && 0 <= r' < n;
    assert (q - q') * n == r' - r;
    if q > q' {
      MulAtLeast(q - q', n);
    } else if q < q' {
      MulAtLeast(q' - q, n);
    }
  }

  lemma MulAtLeast(k: int, n: int)
    requires k >= 1 && n > 0
    ensures k * n >= n
  {
    assert k * n == (k - 1) * n + n;
  }
}
