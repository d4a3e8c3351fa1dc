/**
 * The orchestration logic shared by every text encoder: a cache-aside `encode`
 * keyed on the whole batch, and `batch_encode` / `async_batch_encode`, which cut
 * the input into chunks of at most `batch_size` texts, encode each chunk and
 * flatten the chunk results in chunk order.
 *
 * The backend (`_encode`), the hash (`joblib.hash`) and the h5 cache directory
 * are abstract: the first two are arbitrary functions fixed when the encoder is
 * built, the third is an `H5Store`.
 */
module TextEncoders {
  import opened Wrappers
  import opened Embeddings
  import opened Chunking
  import opened H5Files

  /** What the hash is applied to: a string, or a list of strings. */
  datatype HashInput = Str(s: string) | StrList(items: seq<string>)

  /** Why `batch_encode` and `async_batch_encode` raise before encoding anything. */
  datatype BatchError =
    | ZeroBatchSize      // the progress-bar total `len(texts) // batch_size` divides by zero
    | NegativeBatchSize  // `chunked` with a negative size is rejected by `islice`

  /** One `encode` call: the vectors it returns, the cache afterwards, and whether it ran the backend. */
  datatype Step = Step(vectors: seq<Vector>, files: map<string, seq<Vector>>, called: bool)

  /** `encode` applied to chunk after chunk: the results, the cache afterwards, the backend calls made. */
  datatype Trace = Trace(outputs: seq<seq<Vector>>, files: map<string, seq<Vector>>, calls: seq<seq<Text>>)

  /** `order` is an order in which `count` tasks complete: each task index exactly once. */
  predicate IsSchedule(order: seq<nat>, count: nat)
  {
    && |order| == count
    && (forall k :: 0 <= k < |order| ==> order[k] < count)
    && (forall i :: 0 <= i < count ==> i in order)
    && (forall k, l :: 0 <= k < l < |order| ==> order[k] != order[l])
  }

  /** `embed` applied to each text, in order. */
  function EmbedEach(embed: Text -> Vector, texts: seq<Text>): (r: seq<Vector>)
    ensures |r| == |texts|
    ensures forall i :: 0 <= i < |texts| ==> r[i] == embed(texts[i])
  {
    seq(|texts|, i requires 0 <= i < |texts| => embed(texts[i]))
  }

  lemma EmbedEachAppend(embed: Text -> Vector, a: seq<Text>, b: seq<Text>)
    ensures EmbedEach(embed, a + b) == EmbedEach(embed, a) + EmbedEach(embed, b)
  {
  }

  /** The items of `s` at the positions `idx`, in that order. */
  function Pick<T>(s: seq<T>, idx: seq<nat>): (r: seq<T>)
    requires forall k :: 0 <= k < |idx| ==> idx[k] < |s|
    ensures |r| == |idx| && forall k :: 0 <= k < |idx| ==> r[k] == s[idx[k]]
  {
    seq(|idx|, k requires 0 <= k < |idx| => s[idx[k]])
  }

  /** Taking the items of `s` in a completion order that is a permutation gives the same multiset. */
  lemma {:induction false} PickPermutation<T>(s: seq<T>, idx: seq<nat>)
    requires IsSchedule(idx, |s|)
    ensures multiset(Pick(s, idx)) == multiset(s)
    decreases |s|
  {
    if s != [] {
      var n := |s| - 1;
      assert n in idx;
      var p :| 0 <= p < |idx| && idx[p] == n;
      var idx' := idx[..p] + idx[p + 1..];
      ScheduleWithoutLast(idx, n, p);
      PickPermutation(s[..n], idx');
      PickWithoutLast(s, idx, p);
      assert s == s[..n] + [s[n]];
    }
  }

  /** Removing the last task `n` from a completion order of `n + 1` tasks leaves one of `n` tasks. */
  lemma ScheduleWithoutLast(idx: seq<nat>, n: nat, p: nat)
    requires IsSchedule(idx, n + 1) && p < |idx| && idx[p] == n
    ensures IsSchedule(idx[..p] + idx[p + 1..], n)
  {
    var idx' := idx[..p] + idx[p + 1..];
    assert forall k :: 0 <= k < |idx'| ==> idx'[k] == if k < p then idx[k] else idx[k + 1];
    forall i | 0 <= i < n ensures i in idx' {
      assert i in idx;
      var q :| 0 <= q < |idx| && idx[q] == i;
      if q < p {
        assert idx'[q] == i;
      } else {
        assert idx'[q - 1] == i;
      }
    }
  }

  /** Picking at `idx` is picking at `idx` without the last position, plus the last item. */
  lemma PickWithoutLast<T>(s: seq<T>, idx: seq<nat>, p: nat)
    requires s != [] && IsSchedule(idx, |s|) && p < |idx| && idx[p] == |s| - 1
    requires IsSchedule(idx[..p] + idx[p + 1..], |s| - 1)
    ensures multiset(Pick(s, idx)) == multiset(Pick(s[..|s| - 1], idx[..p] + idx[p + 1..])) + multiset{s[|s| - 1]}
  {
    var n := |s| - 1;
    var front, back := idx[..p], idx[p + 1..];
    assert idx == front + [n] + back;
    PickAppend(s, front + [n], back);
    PickAppend(s, front, [n]);
    PickAppend(s, front, back);
    PickPrefix(s, front + back, n);
  }

  /** Picking at two runs of positions is picking at each run in turn. */
  lemma PickAppend<T>(s: seq<T>, a: seq<nat>, b: seq<nat>)
    requires forall k :: 0 <= k < |a| ==> a[k] < |s|
    requires forall k :: 0 <= k < |b| ==> b[k] < |s|
    ensures Pick(s, a + b) == Pick(s, a) + Pick(s, b)
  {
  }

  /** Positions below `n` pick the same items from `s` and from its first `n` items. */
  lemma PickPrefix<T>(s: seq<T>, idx: seq<nat>, n: nat)
    requires n <= |s| && forall k :: 0 <= k < |idx| ==> idx[k] < n
    ensures Pick(s[..n], idx) == Pick(s, idx)
  {
  }

  /**
   * Appending is associative. Dafny knows this; stating it as a lemma hands the
   * one instance `CompleteNext` needs to the solver, which keeps that proof small.
   */
  lemma AppendAssoc<T>(a: seq<T>, b: seq<T>, c: seq<T>)
    ensures a + b + c == a + (b + c)
  {
  }

  /**
   * Adding one key to a key set that is the union of `a` and `b` is adding it to
   * `b`. Like `AppendAssoc`, it is stated separately to keep `CompleteNext` small.
   */
  lemma UnionStep<K>(x: set<K>, y: set<K>, a: set<K>, b: set<K>, b': set<K>, k: K)
    requires x == y + {k} && y == a + b && b' == b + {k}
    ensures x == a + b'
  {
  }

  /** Every item occurs in `a` at most as often as in `b`. */
  ghost predicate SubBag<T>(a: seq<T>, b: seq<T>)
  {
    multiset(a) <= multiset(b)
  }

  /** Appending `c` to the larger list (and possibly to the smaller one) keeps one a sub-multiset of the other. */
  lemma SubBagSnoc<T>(a: seq<T>, b: seq<T>, c: T)
    requires SubBag(a, b)
    ensures SubBag(a, b + [c]) && SubBag(a + [c], b + [c])
  {
  }

  /** A sub-multiset is no longer and holds nothing else. */
  lemma SubBagMembers<T>(a: seq<T>, b: seq<T>)
    requires SubBag(a, b)
    ensures |a| <= |b| && forall c :: c in a ==> c in b
  {
    assert |multiset(a)| <= |multiset(b)| by {
      var d := multiset(b) - multiset(a);
      assert multiset(b) == multiset(a) + d;
    }
    forall c | c in a ensures c in b {
      assert c in multiset(a);
    }
  }

  /** Results stored by index in a completion order that is a permutation fill every slot. */
  lemma PlacedByIndex<T>(schedule: seq<nat>, results: seq<T>, expected: seq<T>)
    requires IsSchedule(schedule, |expected|) && |results| == |expected|
    requires PlacedSoFar(results, expected, schedule, |schedule|)
    ensures results == expected
  {
    forall i | 0 <= i < |expected| ensures results[i] == expected[i] {
      assert i in schedule;
      var j :| 0 <= j < |schedule| && schedule[j] == i;
    }
  }

  /** The first `k` positions of `idx` already hold their expected item in `results`. */
  ghost predicate PlacedSoFar<T>(results: seq<T>, expected: seq<T>, idx: seq<nat>, k: nat)
  {
    && k <= |idx|
    && forall j :: 0 <= j < k ==> idx[j] < |results| && idx[j] < |expected| && results[idx[j]] == expected[idx[j]]
  }

  /** Storing the expected item at the next position of a schedule keeps the earlier ones. */
  lemma PlacedSnoc<T>(results: seq<T>, expected: seq<T>, idx: seq<nat>, k: nat, v: T)
    requires IsSchedule(idx, |results|) && |results| == |expected| && k < |idx|
    requires PlacedSoFar(results, expected, idx, k) && v == expected[idx[k]]
    ensures PlacedSoFar(results[idx[k] := v], expected, idx, k + 1)
  {
  }

  /** `done` holds the items of `s` at the first |done| positions of `idx`. */
  ghost predicate PickedSoFar<T>(done: seq<T>, s: seq<T>, idx: seq<nat>)
  {
    && |done| <= |idx|
    && forall j :: 0 <= j < |done| ==> idx[j] < |s| && done[j] == s[idx[j]]
  }

  lemma PickedSnoc<T>(done: seq<T>, s: seq<T>, idx: seq<nat>)
    requires PickedSoFar(done, s, idx) && |done| < |idx| && idx[|done|] < |s|
    ensures PickedSoFar(done + [s[idx[|done|]]], s, idx)
  {
  }

  lemma PickedAll<T>(done: seq<T>, s: seq<T>, idx: seq<nat>)
    requires PickedSoFar(done, s, idx) && |done| == |idx|
    ensures forall k :: 0 <= k < |idx| ==> idx[k] < |s|
    ensures done == Pick(s, idx)
  {
  }

  class TextEncoder {
    const batchSize: int
    const modelName: string
    /** The hash used for cache keys. */
    const hash: HashInput -> string
    /** `_encode`: the backend that turns a list of texts into vectors. */
    const backend: seq<Text> -> seq<Vector>
    /** The cache directory; `null` when no `cache_path` is configured. */
    const store: H5Store?
    /** Every list of texts passed to the backend so far, in call order. */
    ghost var backendCalls: seq<seq<Text>>

    constructor (batchSize: int, modelName: string, hash: HashInput -> string,
                 backend: seq<Text> -> seq<Vector>, store: H5Store?)
      ensures this.batchSize == batchSize && this.modelName == modelName
      ensures this.hash == hash && this.backend == backend && this.store == store
      ensures backendCalls == []
    {
      this.batchSize := batchSize;
      this.modelName := modelName;
      this.hash := hash;
      this.backend := backend;
      this.store := store;
      backendCalls := [];
    }

    /** The contents of the cache directory (empty when there is none). */
    ghost function Files(): map<string, seq<Vector>>
      reads store
    {
      if store == null then map[] else store.files
    }

    /** `_get_cache_key`: the hash of "<hash of the model name>-<hash of the text list>". */
    function CacheKey(texts: seq<Text>): string
    {
      hash(Str(hash(Str(modelName)) + "-" + hash(StrList(texts))))
    }

    /** The key depends on the model name, the hash and the ordered texts, and on nothing else. */
    lemma CacheKeyDeterministic(other: TextEncoder, texts: seq<Text>, texts': seq<Text>)
      requires other.hash == hash && other.modelName == modelName && texts' == texts
      ensures other.CacheKey(texts') == CacheKey(texts)
    {
    }

    /**
     * The model name acts as a cache namespace. When the two model-name digests
     * have the same width (md5 hex digests always have 32 characters) and the
     * hash separates the three pairs of inputs involved, two keys are equal
     * exactly when the model names and the ordered text lists are.
     */
    lemma CacheKeyInjective(other: TextEncoder, texts: seq<Text>, texts': seq<Text>)
      requires other.hash == hash
      requires |hash(Str(modelName))| == |hash(Str(other.modelName))|
      requires hash(Str(modelName)) == hash(Str(other.modelName)) ==> modelName == other.modelName
      requires hash(StrList(texts)) == hash(StrList(texts')) ==> texts == texts'
      requires CacheKey(texts) == other.CacheKey(texts') ==>
        hash(Str(modelName)) + "-" + hash(StrList(texts)) == hash(Str(other.modelName)) + "-" + hash(StrList(texts'))
      ensures other.CacheKey(texts') == CacheKey(texts) <==> other.modelName == modelName && texts' == texts
    {
      if other.CacheKey(texts') == CacheKey(texts) {
        var m, m' := hash(Str(modelName)), hash(Str(other.modelName));
        var t, t' := hash(StrList(texts)), hash(StrList(texts'));
        var s, s' := m + "-" + t, m' + "-" + t';
        assert m == s[..|m|] == s'[..|m|] == m';
        assert t == s[|m| + 1..] == s'[|m| + 1..] == t';
      }
    }

    /** No two of the given batches share a cache key (only the batches of one call need to be told apart). */
    ghost predicate KeysDistinctOn(chunks: seq<seq<Text>>)
    {
      forall a, b :: a in chunks && b in chunks && CacheKey(a) == CacheKey(b) ==> a == b
    }

    /** Every cache entry under the key of one of the given batches holds what the backend returns for it. */
    ghost predicate ConsistentOn(files: map<string, seq<Vector>>, chunks: seq<seq<Text>>)
    {
      forall c :: c in chunks && CacheKey(c) in files ==> files[CacheKey(c)] == backend(c)
    }

    /** The backend returns one vector per text. */
    ghost predicate OneVectorPerText()
    {
      forall ts: seq<Text> :: |backend(ts)| == |ts|
    }

    /** The backend encodes each text on its own, as `embed` does. */
    ghost predicate PerTextEmbedding(embed: Text -> Vector)
    {
      forall ts: seq<Text> ::
        |backend(ts)| == |ts| && forall j :: 0 <= j < |ts| ==> backend(ts)[j] == embed(ts[j])
    }

    /** What `encode(texts)` does against a cache holding `files`. */
    function EncodeStep(files: map<string, seq<Vector>>, texts: seq<Text>): (r: Step)
      ensures r.called <==> store == null || CacheKey(texts) !in files
      ensures r.called ==> r.vectors == backend(texts)
      ensures !r.called ==> r.vectors == files[CacheKey(texts)] && r.files == files
      ensures r.files.Keys == files.Keys + (if store == null then {} else {CacheKey(texts)})
    {
      var key := CacheKey(texts);
      if store == null then Step(backend(texts), files, true)
      else if key in files then Step(files[key], files, false)
      else Step(backend(texts), files[key := backend(texts)], true)
    }

    /**
     * `encode`: with a cache, a stored batch is returned as it is and the backend
     * is not called; otherwise the backend result is stored under the batch's key
     * and returned. Without a cache the backend is always called.
     */
    method Encode(texts: seq<Text>) returns (vectors: seq<Vector>)
      modifies this, store
      ensures store == null ==> vectors == backend(texts) && backendCalls == old(backendCalls) + [texts]
      ensures store != null && CacheKey(texts) in old(store.files) ==>
        && vectors == old(store.files)[CacheKey(texts)]
        && store.files == old(store.files)
        && backendCalls == old(backendCalls)
      ensures store != null && CacheKey(texts) !in old(store.files) ==>
        && vectors == backend(texts)
        && store.files == old(store.files)[CacheKey(texts) := vectors]
        && backendCalls == old(backendCalls) + [texts]
    {
      var key := "";
      if store != null {
        key := CacheKey(texts);
        var loaded := store.Load(key);
        if loaded.Some? {
          return loaded.value;
        }
      }
      vectors := backend(texts);
      backendCalls := backendCalls + [texts];
      if store != null {
        store.Save(key, vectors);
      }
    }

    /** `encode` applied to `chunks` one after the other, starting from a cache holding `files`. */
    function Run(files: map<string, seq<Vector>>, chunks: seq<seq<Text>>): (t: Trace)
      ensures |t.outputs| == |chunks|
      decreases |chunks|
    {
      if chunks == [] then Trace([], files, [])
      else
        var prev := Run(files, chunks[..|chunks| - 1]);
        var last := chunks[|chunks| - 1];
        var s := EncodeStep(prev.files, last);
        Trace(prev.outputs + [s.vectors], s.files, prev.calls + if s.called then [last] else [])
    }

    /** Running one more chunk is one more `EncodeStep` on the cache the earlier chunks left. */
    lemma RunSnoc(files: map<string, seq<Vector>>, chunks: seq<seq<Text>>, i: nat)
      requires i < |chunks|
      ensures
        var prev := Run(files, chunks[..i]);
        var s := EncodeStep(prev.files, chunks[i]);
        Run(files, chunks[..i + 1]) == Trace(prev.outputs + [s.vectors], s.files, prev.calls + if s.called then [chunks[i]] else [])
    {
      assert chunks[..i + 1][..i] == chunks[..i];
    }

    /**
     * `batch_encode`: a non-positive batch size raises; otherwise the chunks of
     * `texts` are encoded in chunk order and their results flattened.
     */
    method BatchEncode(texts: seq<Text>) returns (r: Result<seq<Vector>, BatchError>)
      modifies this, store
      ensures batchSize <= 0 ==>
        && r == Failure(if batchSize == 0 then ZeroBatchSize else NegativeBatchSize)
        && Files() == old(Files()) && backendCalls == old(backendCalls)
      ensures batchSize > 0 ==>
        var t := Run(old(Files()), Chunked(texts, batchSize));
        && r == Success(Flatten(t.outputs))
        && Files() == t.files
        && backendCalls == old(backendCalls) + t.calls
    {
      if batchSize == 0 {
        return Failure(ZeroBatchSize);
      } else if batchSize < 0 {
        return Failure(NegativeBatchSize);
      }
      var chunks := Chunked(texts, batchSize);
      ghost var files0, calls0 := Files(), backendCalls;
      var outputs: seq<seq<Vector>> := [];
      for i := 0 to |chunks|
        invariant outputs == Run(files0, chunks[..i]).outputs
        invariant Files() == Run(files0, chunks[..i]).files
        invariant backendCalls == calls0 + Run(files0, chunks[..i]).calls
      {
        RunSnoc(files0, chunks, i);
        var vectors := Encode(chunks[i]);
        outputs := outputs + [vectors];
      }
      assert chunks[..|chunks|] == chunks;
      r := Success(Flatten(outputs));
    }

    /** What one chunk yields when the cache held `files` beforehand. */
    function Expected(files: map<string, seq<Vector>>, texts: seq<Text>): seq<Vector>
    {
      if store != null && CacheKey(texts) in files then files[CacheKey(texts)] else backend(texts)
    }

    /** `Expected` for every chunk, in chunk order. */
    function ExpectedAll(files: map<string, seq<Vector>>, chunks: seq<seq<Text>>): (r: seq<seq<Vector>>)
      ensures |r| == |chunks|
      ensures forall i :: 0 <= i < |chunks| ==> r[i] == Expected(files, chunks[i])
    {
      seq(|chunks|, i requires 0 <= i < |chunks| => Expected(files, chunks[i]))
    }

    /** What the backend returns for every chunk, in chunk order. */
    function Encoded(chunks: seq<seq<Text>>): (r: seq<seq<Vector>>)
      ensures |r| == |chunks|
      ensures forall i :: 0 <= i < |chunks| ==> r[i] == backend(chunks[i])
    {
      seq(|chunks|, i requires 0 <= i < |chunks| => backend(chunks[i]))
    }

    /** `files` keeps every entry of `files0` unchanged. */
    ghost predicate Extends(files0: map<string, seq<Vector>>, files: map<string, seq<Vector>>)
    {
      forall k :: k in files0 ==> k in files && files[k] == files0[k]
    }

    /** Every entry of `files` that `files0` lacks, under the key of one of `chunks`, holds the backend result for that batch. */
    ghost predicate FreshEntriesGenuine(files0: map<string, seq<Vector>>, files: map<string, seq<Vector>>, chunks: seq<seq<Text>>)
    {
      forall c :: c in chunks && CacheKey(c) in files && CacheKey(c) !in files0 ==> files[CacheKey(c)] == backend(c)
    }

    /** The keys `encode` looks up for `chunks` (none without a cache). */
    ghost function ChunkKeys(chunks: seq<seq<Text>>): set<string>
    {
      if store == null then {} else set c | c in chunks :: CacheKey(c)
    }

    /**
     * Take `texts` among batches `all` whose keys are distinct (or no cache). An
     * `encode` of `texts` against a cache that grew from `files0` only by genuine
     * entries for `all` returns what it would have returned against `files0`,
     * and the cache keeps growing that way.
     */
    lemma StepAgainstGrownCache(files0: map<string, seq<Vector>>, files: map<string, seq<Vector>>,
                                texts: seq<Text>, all: seq<seq<Text>>)
      requires texts in all && (store == null || KeysDistinctOn(all))
      requires Extends(files0, files) && FreshEntriesGenuine(files0, files, all)
      ensures EncodeStep(files, texts).vectors == Expected(files0, texts)
      ensures Extends(files0, EncodeStep(files, texts).files)
      ensures FreshEntriesGenuine(files0, EncodeStep(files, texts).files, all)
    {
    }

    /** A sequence of `encode` calls never changes an entry that is already cached. */
    lemma {:induction false} RunKeepsEntries(files: map<string, seq<Vector>>, chunks: seq<seq<Text>>)
      ensures Extends(files, Run(files, chunks).files)
      decreases |chunks|
    {
      if chunks != [] {
        RunKeepsEntries(files, chunks[..|chunks| - 1]);
      }
    }

    /**
     * With a cache, what chunk `i` yielded is what the cache holds under its key
     * at the end: entries written later never replace it.
     */
    lemma {:induction false} RunOutputsCached(files: map<string, seq<Vector>>, chunks: seq<seq<Text>>)
      requires store != null
      ensures forall i :: 0 <= i < |chunks| ==>
        && CacheKey(chunks[i]) in Run(files, chunks).files
        && Run(files, chunks).outputs[i] == Run(files, chunks).files[CacheKey(chunks[i])]
      decreases |chunks|
    {
      if chunks != [] {
        var init := chunks[..|chunks| - 1];
        var prev := Run(files, init);
        RunOutputsCached(files, init);
        var t := Run(files, chunks);
        forall i | 0 <= i < |chunks|
          ensures CacheKey(chunks[i]) in t.files && t.outputs[i] == t.files[CacheKey(chunks[i])]
        {
          if i < |chunks| - 1 {
            assert chunks[i] == init[i];
          }
        }
      }
    }

    /** Against a cache that already holds every chunk's key, nothing is computed and nothing changes. */
    lemma {:induction false} RunAllHits(files: map<string, seq<Vector>>, chunks: seq<seq<Text>>)
      requires store != null
      requires forall i :: 0 <= i < |chunks| ==> CacheKey(chunks[i]) in files
      ensures Run(files, chunks).files == files
      ensures Run(files, chunks).calls == []
      ensures forall i :: 0 <= i < |chunks| ==> Run(files, chunks).outputs[i] == files[CacheKey(chunks[i])]
      decreases |chunks|
    {
      if chunks != [] {
        var init := chunks[..|chunks| - 1];
        RunAllHits(files, init);
        forall i | 0 <= i < |chunks|
          ensures Run(files, chunks).outputs[i] == files[CacheKey(chunks[i])]
        {
          if i < |chunks| - 1 {
            assert chunks[i] == init[i];
          }
        }
      }
    }

    /**
     * Idempotent caching: with a cache, encoding the same chunks a second time
     * returns the same vectors, calls the backend zero times and changes nothing.
     */
    lemma RunTwice(files: map<string, seq<Vector>>, chunks: seq<seq<Text>>)
      requires store != null
      ensures Run(Run(files, chunks).files, chunks).outputs == Run(files, chunks).outputs
      ensures Run(Run(files, chunks).files, chunks).files == Run(files, chunks).files
      ensures Run(Run(files, chunks).files, chunks).calls == []
    {
      var t := Run(files, chunks);
      RunOutputsCached(files, chunks);
      RunAllHits(t.files, chunks);
    }

    /** Idempotent caching for a single `encode`: the second call is a hit returning the same vectors. */
    lemma EncodeTwice(files: map<string, seq<Vector>>, texts: seq<Text>)
      requires store != null
      ensures !EncodeStep(EncodeStep(files, texts).files, texts).called
      ensures EncodeStep(EncodeStep(files, texts).files, texts).vectors == EncodeStep(files, texts).vectors
      ensures EncodeStep(EncodeStep(files, texts).files, texts).files == EncodeStep(files, texts).files
    {
    }

    /** Without a cache every chunk goes to the backend, in chunk order. */
    lemma {:induction false} RunWithoutCache(files: map<string, seq<Vector>>, chunks: seq<seq<Text>>)
      requires store == null
      ensures Run(files, chunks).outputs == Encoded(chunks)
      ensures Run(files, chunks).calls == chunks
      ensures Run(files, chunks).files == files
      decreases |chunks|
    {
      if chunks != [] {
        var init := chunks[..|chunks| - 1];
        RunWithoutCache(files, init);
        assert init + [chunks[|chunks| - 1]] == chunks;
      }
    }

    /**
     * With a cache, the backend is only called for chunks whose key was missing
     * at the start, and never twice for the same key.
     */
    lemma {:induction false} RunCallsAreMisses(files: map<string, seq<Vector>>, chunks: seq<seq<Text>>)
      requires store != null
      ensures forall c :: c in Run(files, chunks).calls ==> c in chunks && CacheKey(c) !in files
      ensures forall c :: c in Run(files, chunks).calls ==> CacheKey(c) in Run(files, chunks).files
      ensures forall k, l :: 0 <= k < l < |Run(files, chunks).calls| ==>
        CacheKey(Run(files, chunks).calls[k]) != CacheKey(Run(files, chunks).calls[l])
      decreases |chunks|
    {
      if chunks != [] {
        var init := chunks[..|chunks| - 1];
        var last := chunks[|chunks| - 1];
        RunCallsAreMisses(files, init);
        RunKeepsEntries(files, init);
        var prev := Run(files, init);
        forall c | c in prev.calls ensures c in chunks {
          assert c in init;
        }
      }
    }

    /**
     * Without a cache, or when no two chunks share a key, chunk `i` yields what
     * the cache held for it at the start, or the backend result if it held
     * nothing: results do not depend on which chunks were encoded earlier.
     */
    lemma RunYieldsExpected(files: map<string, seq<Vector>>, chunks: seq<seq<Text>>)
      requires store == null || KeysDistinctOn(chunks)
      ensures Run(files, chunks).outputs == ExpectedAll(files, chunks)
      ensures Extends(files, Run(files, chunks).files)
      ensures FreshEntriesGenuine(files, Run(files, chunks).files, chunks)
    {
      RunYieldsExpectedWithin(files, chunks, chunks);
    }

    /** `RunYieldsExpected` for the first chunks of a longer list `all` whose keys are distinct. */
    lemma {:induction false} RunYieldsExpectedWithin(files: map<string, seq<Vector>>, chunks: seq<seq<Text>>, all: seq<seq<Text>>)
      requires forall c :: c in chunks ==> c in all
      requires store == null || KeysDistinctOn(all)
      ensures Run(files, chunks).outputs == ExpectedAll(files, chunks)
      ensures Extends(files, Run(files, chunks).files)
      ensures FreshEntriesGenuine(files, Run(files, chunks).files, all)
      decreases |chunks|
    {
      if chunks != [] {
        var init := chunks[..|chunks| - 1];
        var last := chunks[|chunks| - 1];
        forall c | c in init ensures c in all {
          assert c in chunks;
        }
        RunYieldsExpectedWithin(files, init, all);
        var prev := Run(files, init);
        StepAgainstGrownCache(files, prev.files, last, all);
        var step := EncodeStep(prev.files, last);
        assert Run(files, chunks).outputs == prev.outputs + [step.vectors];
        assert Run(files, chunks).files == step.files;
        assert ExpectedAll(files, chunks) == ExpectedAll(files, init) + [Expected(files, last)];
      }
    }

    /**
     * From a cache that is consistent for the chunks, with no two chunks sharing
     * a key, every chunk yields the backend result for it and the cache stays
     * consistent for the chunks.
     */
    lemma ConsistentRun(files: map<string, seq<Vector>>, chunks: seq<seq<Text>>)
      requires KeysDistinctOn(chunks) && ConsistentOn(files, chunks)
      ensures Run(files, chunks).outputs == Encoded(chunks)
      ensures ConsistentOn(Run(files, chunks).files, chunks)
    {
      RunYieldsExpected(files, chunks);
      forall i | 0 <= i < |chunks| ensures ExpectedAll(files, chunks)[i] == Encoded(chunks)[i] {
        assert chunks[i] in chunks;
      }
    }

    /** Afterwards the cache holds exactly its earlier keys and the keys of all the chunks. */
    lemma {:induction false} RunKeys(files: map<string, seq<Vector>>, chunks: seq<seq<Text>>)
      ensures Run(files, chunks).files.Keys == files.Keys + ChunkKeys(chunks)
      decreases |chunks|
    {
      if chunks != [] {
        var init, last := chunks[..|chunks| - 1], chunks[|chunks| - 1];
        RunKeys(files, init);
        assert chunks == init + [last];
        ChunkKeysSnoc(init, last);
      }
    }

    /**
     * A cache grown from `files0` by genuine entries for exactly the keys of
     * `chunks` is determined by `files0` and `chunks` alone.
     */
    lemma CacheDetermined(files0: map<string, seq<Vector>>, chunks: seq<seq<Text>>,
                          f1: map<string, seq<Vector>>, f2: map<string, seq<Vector>>)
      requires Extends(files0, f1) && FreshEntriesGenuine(files0, f1, chunks) && f1.Keys == files0.Keys + ChunkKeys(chunks)
      requires Extends(files0, f2) && FreshEntriesGenuine(files0, f2, chunks) && f2.Keys == files0.Keys + ChunkKeys(chunks)
      ensures f1 == f2
    {
      forall k | k in f1 ensures f1[k] == f2[k] {
        if k !in files0 {
          var c :| c in chunks && CacheKey(c) == k;
        }
      }
    }

    /**
     * Without a cache, or when no two chunks share a key, a run in any
     * completion order that leaves the cache grown by genuine entries for
     * exactly the chunk keys ends where `batch_encode` ends: the same flattened
     * vectors and the same cache.
     */
    lemma AsyncMatchesBatch(files0: map<string, seq<Vector>>, chunks: seq<seq<Text>>, files: map<string, seq<Vector>>)
      requires store == null || KeysDistinctOn(chunks)
      requires Extends(files0, files) && FreshEntriesGenuine(files0, files, chunks)
      requires files.Keys == files0.Keys + ChunkKeys(chunks)
      ensures Flatten(ExpectedAll(files0, chunks)) == Flatten(Run(files0, chunks).outputs)
      ensures store != null ==> files == Run(files0, chunks).files
    {
      RunYieldsExpected(files0, chunks);
      RunKeys(files0, chunks);
      CacheDetermined(files0, chunks, files, Run(files0, chunks).files);
    }

    /** One vector per text in, one vector per text out, across any list of chunks. */
    lemma {:induction false} EncodedLength(chunks: seq<seq<Text>>)
      requires OneVectorPerText()
      ensures |Flatten(Encoded(chunks))| == |Flatten(chunks)|
      decreases |chunks|
    {
      if chunks != [] {
        EncodedLength(chunks[1..]);
        assert Encoded(chunks)[1..] == Encoded(chunks[1..]);
        assert |backend(chunks[0])| == |chunks[0]|;
      }
    }

    /**
     * Position `i` of the flattened backend results for the chunks of `texts` is
     * the vector the backend gave for `texts[i]`: item `i % n` of the result
     * for chunk `i / n`, which holds `texts[i]` at that place.
     */
    lemma EncodedChunkedAt(texts: seq<Text>, n: nat, i: nat)
      requires OneVectorPerText() && n > 0 && i < |texts|
      ensures |Flatten(Encoded(Chunked(texts, n)))| == |texts|
      ensures i / n < |Chunked(texts, n)| && i % n < |Chunked(texts, n)[i / n]|
      ensures Chunked(texts, n)[i / n][i % n] == texts[i]
      ensures Flatten(Encoded(Chunked(texts, n)))[i] == backend(Chunked(texts, n)[i / n])[i % n]
    {
      var chunks := Chunked(texts, n);
      EncodedLength(chunks);
      ChunkedAt(texts, n, i);
      var encoded := Encoded(chunks);
      forall k | 0 <= k < |encoded| ensures |encoded[k]| == |chunks[k]| {
        assert |backend(chunks[k])| == |chunks[k]|;
      }
      FlattenUniformAt(encoded, n, i);
    }

    /** A per-text backend applied chunk by chunk gives the per-text encoding of the whole input. */
    lemma {:induction false} EncodedPointwise(chunks: seq<seq<Text>>, embed: Text -> Vector)
      requires PerTextEmbedding(embed)
      ensures Flatten(Encoded(chunks)) == EmbedEach(embed, Flatten(chunks))
      decreases |chunks|
    {
      if chunks != [] {
        var head, rest := chunks[0], chunks[1..];
        EncodedPointwise(rest, embed);
        assert Encoded(chunks)[0] == backend(head);
        assert Encoded(chunks)[1..] == Encoded(rest);
        assert |backend(head)| == |head|;
        assert backend(head) == EmbedEach(embed, head);
        EmbedEachAppend(embed, head, Flatten(rest));
      }
    }

    /**
     * Order preservation of `batch_encode`: with a backend returning one vector
     * per text, and either no cache or a cache consistent for the chunks with no
     * two chunks sharing a key, the result has one vector per input text and
     * position `i` holds the backend's vector for `texts[i]`.
     */
    lemma BatchEncodeOrder(files: map<string, seq<Vector>>, texts: seq<Text>, i: nat)
      requires batchSize > 0 && OneVectorPerText()
      requires store != null ==> KeysDistinctOn(Chunked(texts, batchSize)) && ConsistentOn(files, Chunked(texts, batchSize))
      requires i < |texts|
      ensures |Flatten(Run(files, Chunked(texts, batchSize)).outputs)| == |texts|
      ensures i / batchSize < |Chunked(texts, batchSize)|
      ensures i % batchSize < |Chunked(texts, batchSize)[i / batchSize]|
      ensures Flatten(Run(files, Chunked(texts, batchSize)).outputs)[i]
           == backend(Chunked(texts, batchSize)[i / batchSize])[i % batchSize]
      ensures Chunked(texts, batchSize)[i / batchSize][i % batchSize] == texts[i]
    {
      if store == null {
        RunWithoutCache(files, Chunked(texts, batchSize));
      } else {
        ConsistentRun(files, Chunked(texts, batchSize));
      }
      EncodedChunkedAt(texts, batchSize, i);
    }

    /**
     * With a per-text backend, `batch_encode` without a cache, or from a cache
     * consistent for the chunks with no two chunks sharing a key, returns
     * exactly the per-text encoding of the input, whatever the batch size.
     */
    lemma BatchEncodePointwise(files: map<string, seq<Vector>>, texts: seq<Text>, embed: Text -> Vector)
      requires batchSize > 0 && PerTextEmbedding(embed)
      requires store != null ==> KeysDistinctOn(Chunked(texts, batchSize)) && ConsistentOn(files, Chunked(texts, batchSize))
      ensures Flatten(Run(files, Chunked(texts, batchSize)).outputs) == EmbedEach(embed, texts)
    {
      if store == null {
        RunWithoutCache(files, Chunked(texts, batchSize));
      } else {
        ConsistentRun(files, Chunked(texts, batchSize));
      }
      EncodedPointwise(Chunked(texts, batchSize), embed);
    }

    lemma ChunkKeysSnoc(done: seq<seq<Text>>, c: seq<Text>)
      ensures ChunkKeys(done + [c]) == ChunkKeys(done) + (if store == null then {} else {CacheKey(c)})
    {
    }

    /** A completion order runs every chunk: each chunk index is completed at some step. */
    lemma ScheduleCovers(schedule: seq<nat>, chunks: seq<seq<Text>>, done: seq<seq<Text>>)
      requires IsSchedule(schedule, |chunks|) && |done| == |schedule|
      requires forall j :: 0 <= j < |schedule| ==> done[j] == chunks[schedule[j]]
      ensures ChunkKeys(done) == ChunkKeys(chunks)
    {
      forall c | c in chunks ensures c in done {
        var i :| 0 <= i < |chunks| && chunks[i] == c;
        assert i in schedule;
        var j :| 0 <= j < |schedule| && schedule[j] == i;
        assert done[j] == c;
      }
    }

    /** Without a cache nothing is ever found, so every chunk is expected to yield the backend's result. */
    lemma ExpectedWithoutCache(files: map<string, seq<Vector>>, chunks: seq<seq<Text>>)
      requires store == null
      ensures ExpectedAll(files, chunks) == Encoded(chunks)
    {
    }

    /**
     * The `gather` of one `encode` task per chunk: the tasks complete in the
     * order `schedule` and each result is stored at its chunk's index. Without a
     * cache, or when no two chunks share a key, every slot holds what its chunk yields
     * against the starting cache, whatever the completion order.
     */
    method Gather(chunks: seq<seq<Text>>, schedule: seq<nat>) returns (results: seq<seq<Vector>>)
      requires IsSchedule(schedule, |chunks|)
      modifies this, store
      ensures |results| == |chunks|
      ensures (store == null || KeysDistinctOn(chunks)) ==>
        && results == ExpectedAll(old(Files()), chunks)
        && Extends(old(Files()), Files())
        && FreshEntriesGenuine(old(Files()), Files(), chunks)
      ensures store != null ==> Files().Keys == old(Files()).Keys + ChunkKeys(chunks)
      ensures |old(backendCalls)| <= |backendCalls| <= |old(backendCalls)| + |chunks|
      ensures backendCalls[..|old(backendCalls)|] == old(backendCalls)
      ensures forall c :: c in backendCalls[|old(backendCalls)|..] ==> c in chunks
      ensures multiset(backendCalls[|old(backendCalls)|..]) <= multiset(chunks)
    {
      ghost var files0, calls0 := Files(), backendCalls;
      ghost var done: seq<seq<Text>> := [];
      ghost var newCalls: seq<seq<Text>> := [];
      results := seq(|chunks|, _ => []);
      for k := 0 to |schedule|
        invariant GatherProgress(files0, calls0, chunks, schedule, k, results, done, newCalls)
      {
        results, done, newCalls := CompleteNext(files0, calls0, chunks, schedule, k, results, done, newCalls);
      }
      ghost var determined := store == null || KeysDistinctOn(chunks);
      PickedAll(done, chunks, schedule);
      ScheduleCovers(schedule, chunks, done);
      PickPermutation(chunks, schedule);
      SubBagMembers(newCalls, chunks);
      if determined {
        PlacedByIndex(schedule, results, ExpectedAll(files0, chunks));
      }
      assert backendCalls[..|calls0|] == calls0 && backendCalls[|calls0|..] == newCalls;
    }

    /**
     * Where `Gather` stands after the first `k` completions, starting from the
     * cache `files0` and the call log `calls0`: `done` lists the chunks completed
     * so far and `newCalls` the backend calls they made.
     */
    ghost predicate GatherProgress(files0: map<string, seq<Vector>>, calls0: seq<seq<Text>>,
                                   chunks: seq<seq<Text>>, schedule: seq<nat>, k: nat,
                                   results: seq<seq<Vector>>, done: seq<seq<Text>>, newCalls: seq<seq<Text>>)
      reads this, store
    {
      && |results| == |chunks| && |done| == k
      && ((store == null || KeysDistinctOn(chunks)) ==>
            && Extends(files0, Files()) && FreshEntriesGenuine(files0, Files(), chunks)
            && PlacedSoFar(results, ExpectedAll(files0, chunks), schedule, k))
      && (store != null ==> Files().Keys == files0.Keys + ChunkKeys(done))
      && backendCalls == calls0 + newCalls
      && PickedSoFar(done, chunks, schedule)
      && SubBag(newCalls, done)
    }

    /** The next task in `schedule` completes and its result is stored at its chunk's index. */
    method CompleteNext(ghost files0: map<string, seq<Vector>>, ghost calls0: seq<seq<Text>>,
                        chunks: seq<seq<Text>>, schedule: seq<nat>, k: nat, results: seq<seq<Vector>>,
                        ghost done: seq<seq<Text>>, ghost newCalls: seq<seq<Text>>)
      returns (results': seq<seq<Vector>>, ghost done': seq<seq<Text>>, ghost newCalls': seq<seq<Text>>)
      requires IsSchedule(schedule, |chunks|) && k < |schedule|
      requires GatherProgress(files0, calls0, chunks, schedule, k, results, done, newCalls)
      modifies this, store
      ensures GatherProgress(files0, calls0, chunks, schedule, k + 1, results', done', newCalls')
      ensures results' == results[schedule[k] := EncodeStep(old(Files()), chunks[schedule[k]]).vectors]
    {
      var i := schedule[k];
      ghost var before := Files();
      ghost var called := EncodeStep(before, chunks[i]).called;
      var vectors := AsyncEncode(chunks[i]);
      if store == null || KeysDistinctOn(chunks) {
        StepAgainstGrownCache(files0, before, chunks[i], chunks);
        PlacedSnoc(results, ExpectedAll(files0, chunks), schedule, k, vectors);
      }
      PickedSnoc(done, chunks, schedule);
      SubBagSnoc(newCalls, done, chunks[i]);
      AppendAssoc(calls0, newCalls, if called then [chunks[i]] else []);
      newCalls' := newCalls + if called then [chunks[i]] else [];
      ChunkKeysSnoc(done, chunks[i]);
      if store != null {
        UnionStep(Files().Keys, before.Keys, files0.Keys, ChunkKeys(done), ChunkKeys(done + [chunks[i]]), CacheKey(chunks[i]));
      }
      done' := done + [chunks[i]];
      results' := results[i := vectors];
    }

    /**
     * `async_encode`: one task running `encode` on a chunk. The task is taken to
     * run atomically; the concurrency limit and the progress update are not
     * modelled.
     */
    method AsyncEncode(texts: seq<Text>) returns (vectors: seq<Vector>)
      modifies this, store
      ensures vectors == EncodeStep(old(Files()), texts).vectors
      ensures Files() == EncodeStep(old(Files()), texts).files
      ensures backendCalls == old(backendCalls) + if EncodeStep(old(Files()), texts).called then [texts] else []
      ensures Files().Keys == old(Files()).Keys + (if store == null then {} else {CacheKey(texts)})
    {
      vectors := Encode(texts);
    }

    /**
     * `async_batch_encode`: the chunks are encoded concurrently and completed in
     * the order `schedule`, and the results are flattened in chunk order. Without
     * a cache, or when no two chunks share a key, the outcome does not depend on the
     * completion order: it is what `batch_encode` returns (`RunYieldsExpected`).
     */
    method AsyncBatchEncode(texts: seq<Text>, schedule: seq<nat>) returns (r: Result<seq<Vector>, BatchError>)
      requires batchSize > 0 ==> IsSchedule(schedule, |Chunked(texts, batchSize)|)
      modifies this, store
      ensures batchSize <= 0 ==>
        && r == Failure(if batchSize == 0 then ZeroBatchSize else NegativeBatchSize)
        && Files() == old(Files()) && backendCalls == old(backendCalls)
      ensures batchSize > 0 ==> r.Success?
      ensures batchSize > 0 && store == null ==> r == Success(Flatten(Encoded(Chunked(texts, batchSize))))
      ensures batchSize > 0 && (store == null || KeysDistinctOn(Chunked(texts, batchSize))) ==>
        && r == Success(Flatten(ExpectedAll(old(Files()), Chunked(texts, batchSize))))
        && Extends(old(Files()), Files())
        && FreshEntriesGenuine(old(Files()), Files(), Chunked(texts, batchSize))
      ensures batchSize > 0 && store != null ==> Files().Keys == old(Files()).Keys + ChunkKeys(Chunked(texts, batchSize))
      ensures batchSize > 0 ==>
        && |old(backendCalls)| <= |backendCalls| <= |old(backendCalls)| + |Chunked(texts, batchSize)|
        && backendCalls[..|old(backendCalls)|] == old(backendCalls)
        && (forall c :: c in backendCalls[|old(backendCalls)|..] ==> c in Chunked(texts, batchSize))
        && multiset(backendCalls[|old(backendCalls)|..]) <= multiset(Chunked(texts, batchSize))
    {
      if batchSize == 0 {
        return Failure(ZeroBatchSize);
      } else if batchSize < 0 {
        return Failure(NegativeBatchSize);
      }
      var chunks := Chunked(texts, batchSize);
      ghost var files0 := Files();
      var results := Gather(chunks, schedule);
      if store == null {
        ExpectedWithoutCache(files0, chunks);
      }
      r := Success(Flatten(results));
    }
  }
}
