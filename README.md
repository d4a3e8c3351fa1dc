# Text encoders: batching and caching, modelled in Dafny

This project models the encoding layer of the `text_encoders` package. That layer turns lists of texts into embedding vectors and avoids repeated backend calls by caching. Two components are modelled.

- **`TextEncoder`** (`text_encoder.dfy`, module `TextEncoders`) is the abstract base class shared by every encoder.
  - `encode` is a cache-aside step keyed on the whole batch. It derives a cache key from the model name and the ordered texts. On a hit it returns the stored vectors and does not call `_encode`. On a miss it calls the backend `_encode`, saves the result under the key and returns it. Without a `cache_path` it always calls the backend.
  - `batch_encode` cuts the input into consecutive chunks of at most `batch_size` texts. It encodes the chunks in order and flattens the results.
  - `async_batch_encode` does the same with one task per chunk. The results are assembled in task order, which is chunk order, whatever order the tasks finish in.
  - The backend, the hash and the cache directory are abstract:
    - `backend` (`_encode`) and `hash` (`joblib.hash`) are arbitrary functions fixed when the encoder is built.
    - The h5 cache directory is an `H5Store` (`h5_files.dfy`, module `H5Files`): a map from cache key to saved vectors. A missing key loads as `None`, and a save overwrites.
    - A ghost log `backendCalls` records every list of texts sent to the backend, so the number of backend calls can be stated.
- **`WeaviateCache`** (`weaviate_cache.dfy`, module `WeaviateCaches`) is a per-text store in one collection of a vector database.
  - The database state is the set of collection names plus the records of this cache's collection. Records are keyed by `generate_uuid5(text)`, which is modelled as an arbitrary function `uuid5`.
  - `save` checks that the lengths match, builds one record per text and inserts them.
  - `load` returns one optional vector per text, in input order.
  - `_crate_collection` creates the collection only when it is missing. `_clear_cache` deletes it.

Shared pieces:
- `chunking.dfy` (module `Chunking`) holds `chunked` and `flatten` from `more_itertools` as pure functions, with their laws.
- `wrappers.dfy` holds `Option` and `Result`.
- `embeddings.dfy` holds the `Text` and `Vector` types. A vector is an opaque `seq<real>`; no arithmetic is done on it.

How the state-changing methods are stated:
- `Encode`, `BatchEncode` and `AsyncBatchEncode` are methods of the class. Their `ensures` tie the returned vectors, the new cache contents and the new backend-call log to pure functions of the old state:
  - `EncodeStep` is one `encode` call;
  - `Run` is a series of `encode` calls in chunk order;
  - `ExpectedAll` is what each chunk yields against the starting cache.
- The lemmas about those functions carry the properties: chunk partition laws, length and order preservation, hit versus miss, idempotent caching, and independence from completion order.
- Some properties need an assumption about the abstract pieces. Each one is stated as a precondition or as the left side of an implication:
  - `KeysDistinctOn(chunks)`: no two of the chunks of one call share a cache key. Only the chunks of that call are concerned; the hash is not assumed collision-free in general.
  - `ConsistentOn(files, chunks)`: every cache entry under the key of one of those chunks is what the backend returns for that chunk.
  - `OneVectorPerText()`: the backend returns one vector per text.
  - `PerTextEmbedding(embed)`: the backend encodes each text on its own.

Notes on what the code does:
- `encode` keys its cache on the whole batch, so a batch is either found entirely or not at all. `WeaviateCache` keys per text, but nothing in the code connects it to `TextEncoder`, so no merge of per-text hits with backend results is modelled.
- `text_encoder.py` imports `save_h5`/`load_h5` from `common.utils.h5_data`, which is not part of this model. The h5 store follows `src/text_encoders/text_encoders/utils/h5_files.py`, which defines functions of the same names.

## Model

| member | source | states |
|---|---|---|
| `Chunking.Flatten` | text_encoders/meta/interfaces/text_encoder.py:76 | the flattened list holds an item exactly when some chunk result holds it |
| `Chunking.Chunked` | text_encoders/meta/interfaces/text_encoder.py:65 | every chunk has between 1 and `n` texts; every chunk except the last has exactly `n`; concatenating the chunks gives back the input; there are no chunks exactly when the input is empty |
| `Chunking.ChunkCount` | text_encoders/meta/interfaces/text_encoder.py:65 | there are `ceil(len(texts) / n)` chunks |
| `Chunking.ChunkedAt` | text_encoders/meta/interfaces/text_encoder.py:65 | text `i` of the input is item `i % n` of chunk `i / n` |
| `Chunking.FlattenUniformAt` | text_encoders/meta/interfaces/text_encoder.py:76 | if pieces have at most `n` items and all but the last have exactly `n`, position `i` of the flattened list is item `i % n` of piece `i / n` |
| `H5Files.H5Store.constructor` | text_encoders/meta/interfaces/text_encoder.py:32-33 | opening the cache directory keeps the files already in it |
| `H5Files.H5Store.Load` | src/text_encoders/text_encoders/utils/h5_files.py:15-22 | `None` exactly when no file exists for the key; otherwise the saved vectors |
| `H5Files.H5Store.Save` | src/text_encoders/text_encoders/utils/h5_files.py:9-12 | the file for the key now holds the vectors and replaces any earlier file; no other file changes |
| `TextEncoders.TextEncoder.constructor` | text_encoders/meta/interfaces/text_encoder.py:22-33 | the encoder keeps its batch size, model name, hash, backend and cache directory (`null` when no `cache_path`), and has made no backend call yet |
| `TextEncoders.TextEncoder.CacheKeyDeterministic` | text_encoders/meta/interfaces/text_encoder.py:43-48 | two encoders with the same model name and hash give the same key for the same ordered texts, whatever their batch size, backend or cache state |
| `TextEncoders.TextEncoder.CacheKeyInjective` | text_encoders/meta/interfaces/text_encoder.py:43-48 | `_get_cache_key` hashes `"<hash(model_name)>-<hash(texts)>"`; when the two model-name digests have the same width and the hash tells apart the two model names, the two text lists and the two composed strings, two keys are equal exactly when the model names and the ordered text lists are |
| `TextEncoders.TextEncoder.EncodeStep` | text_encoders/meta/interfaces/text_encoder.py:50-61 | the backend is called exactly when there is no cache or the key is missing, and then its result is returned; otherwise the stored vectors are returned and the cache is unchanged; the key set grows by the batch key only when there is a cache |
| `TextEncoders.TextEncoder.Encode` | text_encoders/meta/interfaces/text_encoder.py:50-61 | without a cache: returns `_encode(texts)` and logs one backend call; on a hit: returns the stored vectors, changes no file and makes no backend call; on a miss: returns `_encode(texts)`, logs exactly one backend call, and the cache gains that key with that result while every other key stays the same |
| `TextEncoders.TextEncoder.EncodeTwice` | text_encoders/meta/interfaces/text_encoder.py:50-61 | with a cache, a second `encode` of the same texts makes no backend call, returns the same vectors as the first and changes nothing |
| `TextEncoders.TextEncoder.Run` | text_encoders/meta/interfaces/text_encoder.py:66-76 | mapping `encode` over the chunks gives one result per chunk |
| `TextEncoders.TextEncoder.BatchEncode` | text_encoders/meta/interfaces/text_encoder.py:63-77 | a batch size of 0 fails (division by zero in the progress total) and a negative one fails (rejected chunk size), with no effect; otherwise the result is the flattened chunk results of `Run` over `Chunked(texts, batch_size)`, in chunk order, and the cache and backend log are what that run leaves |
| `TextEncoders.TextEncoder.StepAgainstGrownCache` | text_encoders/meta/interfaces/text_encoder.py:50-61 | for a batch among chunks that share no key (or without a cache), an `encode` against a cache that grew from `files0` only by genuine backend results for those chunks returns what it would have returned against `files0`, and the cache keeps growing that way |
| `TextEncoders.TextEncoder.RunKeepsEntries` | text_encoders/meta/interfaces/text_encoder.py:51-59 | a series of `encode` calls never changes or removes an entry that is already cached |
| `TextEncoders.TextEncoder.RunOutputsCached` | text_encoders/meta/interfaces/text_encoder.py:51-76 | with a cache, every chunk's key is cached at the end, and what chunk `i` returned is exactly what the cache holds under its key |
| `TextEncoders.TextEncoder.RunAllHits` | text_encoders/meta/interfaces/text_encoder.py:51-55 | when every chunk key is already cached, the run makes no backend call, changes nothing and returns the cached vectors |
| `TextEncoders.TextEncoder.RunTwice` | text_encoders/meta/interfaces/text_encoder.py:50-77 | idempotent caching: with a cache, repeating `batch_encode` over the same chunks returns the same results, makes zero backend calls and leaves the cache as it was |
| `TextEncoders.TextEncoder.RunWithoutCache` | text_encoders/meta/interfaces/text_encoder.py:50-61 | with no `cache_path`, every chunk goes to the backend, in chunk order, and the results are the backend's |
| `TextEncoders.TextEncoder.RunCallsAreMisses` | text_encoders/meta/interfaces/text_encoder.py:51-61 | with a cache, the backend is called only for chunks whose key was missing at the start; each called chunk's key is cached afterwards; no two backend calls share a key |
| `TextEncoders.TextEncoder.RunYieldsExpected` | text_encoders/meta/interfaces/text_encoder.py:63-77 | without a cache, or when no two chunks share a key, chunk `i` yields what the cache held for it at the start, or the backend result if nothing was cached; the cache keeps its old entries and gains only genuine backend results for the chunks |
| `TextEncoders.TextEncoder.ConsistentRun` | text_encoders/meta/interfaces/text_encoder.py:50-77 | from a cache consistent for the chunks, with no two chunks sharing a key, every chunk yields the backend result for it and the cache stays consistent for the chunks |
| `TextEncoders.TextEncoder.RunKeys` | text_encoders/meta/interfaces/text_encoder.py:51-59 | afterwards the cache holds exactly its earlier keys plus the keys of all chunks (none without a cache) |
| `TextEncoders.TextEncoder.CacheDetermined` | text_encoders/meta/interfaces/text_encoder.py:51-59 | a cache that grew from `files0` by genuine entries for exactly the chunk keys is fully determined by `files0` and the chunks |
| `TextEncoders.TextEncoder.EncodedLength` | text_encoders/meta/interfaces/text_encoder.py:66-76 | with one vector per text from the backend, the flattened results are as long as the flattened chunks |
| `TextEncoders.TextEncoder.EncodedChunkedAt` | text_encoders/meta/interfaces/text_encoder.py:63-77 | with one vector per text from the backend, the flattened results have `len(texts)` vectors; position `i` is the backend's vector at place `i % n` of chunk `i / n`, which is the place of `texts[i]` |
| `TextEncoders.TextEncoder.EncodedPointwise` | text_encoders/meta/interfaces/text_encoder.py:66-76 | with a backend that encodes each text on its own, the flattened results are that encoding of the flattened texts, position by position |
| `TextEncoders.TextEncoder.BatchEncodeOrder` | text_encoders/meta/interfaces/text_encoder.py:63-77 | with one vector per text, and either no cache or a cache consistent for the chunks with no two chunks sharing a key, `batch_encode` returns `len(texts)` vectors, and vector `i` is the backend's vector for `texts[i]` in its chunk |
| `TextEncoders.TextEncoder.BatchEncodePointwise` | text_encoders/meta/interfaces/text_encoder.py:63-77 | with a per-text backend, and either no cache or a cache consistent for the chunks with no two chunks sharing a key, `batch_encode` returns exactly `[embed(t) for t in texts]`, whatever the batch size |
| `TextEncoders.TextEncoder.ScheduleCovers` | text_encoders/meta/interfaces/text_encoder.py:100-104 | a completion order runs every chunk, so the tasks together look up every chunk key |
| `TextEncoders.TextEncoder.Gather` | text_encoders/meta/interfaces/text_encoder.py:100-104 | one `encode` per chunk, completed in any order and stored by chunk index: without a cache, or when no two chunks share a key, slot `i` holds what chunk `i` yields against the starting cache and the cache gains only genuine entries; with a cache the key set grows by exactly the chunk keys; the backend calls made form a sub-multiset of the chunks, so no chunk is sent more often than it occurs among them, and earlier log entries are kept |
| `TextEncoders.TextEncoder.CompleteNext` | text_encoders/meta/interfaces/text_encoder.py:100-104 | the next task in the completion order runs and what `encode` yields for its chunk against the current cache lands at that chunk's index, every other slot kept, whether or not chunk keys collide; the progress of the gather (slots filled so far, cache entries kept, keys added, calls logged) carries over to one more completed task |
| `TextEncoders.TextEncoder.AsyncEncode` | text_encoders/meta/interfaces/text_encoder.py:79-88 | one task yields what `encode` yields for its chunk, leaves the cache as `encode` leaves it, and logs a backend call exactly when `encode` calls the backend; the key set gains the chunk's key when there is a cache |
| `TextEncoders.PickPermutation` | text_encoders/meta/interfaces/text_encoder.py:100-104 | the chunks in completion order are a permutation of the chunks |
| `TextEncoders.TextEncoder.AsyncBatchEncode` | text_encoders/meta/interfaces/text_encoder.py:90-107 | a non-positive batch size fails as in `batch_encode`; otherwise it succeeds; without a cache the result is the flattened backend results of the chunks; for any completion order, without a cache or when no two chunks share a key, the result is what each chunk yields against the starting cache, flattened in chunk order, and the cache gains only genuine entries; with a cache the key set grows by exactly the chunk keys; the backend calls made form a sub-multiset of the chunks, so no chunk is sent more often than it occurs among them |
| `TextEncoders.TextEncoder.AsyncMatchesBatch` | text_encoders/meta/interfaces/text_encoder.py:100-107 | without a cache, or when no two chunks share a key, whatever the completion order, `async_batch_encode` returns the same vectors as `batch_encode` and leaves the same cache |
| `WeaviateCaches.Upsert` | text_encoders/weaviate_cache/weaviate_cache.py:80-81 | after the batch insert the collection holds its earlier ids plus the ids of the new records |
| `WeaviateCaches.UpsertOutside` | text_encoders/weaviate_cache/weaviate_cache.py:80-81 | a record whose id is not among the inserted ones is unchanged, and an absent one stays absent |
| `WeaviateCaches.UpsertLastWins` | text_encoders/weaviate_cache/weaviate_cache.py:71-81 | an inserted record that no later record in the batch replaces is what the collection holds under its id |
| `WeaviateCaches.WeaviateCache.constructor` | text_encoders/weaviate_cache/weaviate_cache.py:19-31 | the collection exists afterwards; one already on the server keeps its records, and one created here starts empty |
| `WeaviateCaches.WeaviateCache.CreateCollection` | text_encoders/weaviate_cache/weaviate_cache.py:40-55 | if the collection exists nothing changes; otherwise its name is added and it starts with no records; either way it exists afterwards |
| `WeaviateCaches.WeaviateCache.ClearCache` | text_encoders/weaviate_cache/weaviate_cache.py:57-62 | the collection name is removed from the database and all its records with it |
| `WeaviateCaches.WeaviateCache.DataObjects` | text_encoders/weaviate_cache/weaviate_cache.py:71-78 | one record per text, whose ids are exactly the ids derived from the texts |
| `WeaviateCaches.WeaviateCache.InsertMany` | text_encoders/weaviate_cache/weaviate_cache.py:80-82 | the records are written in order, a record replaces an earlier one with the same id, and one id is reported per record |
| `WeaviateCaches.WeaviateCache.Save` | text_encoders/weaviate_cache/weaviate_cache.py:64-82 | fails exactly when the numbers of texts and vectors differ, and then changes nothing; otherwise writes record i holding `vectors[i]` under the id of `texts[i]` alone, and the insert count equals the number of vectors (the assertion there always holds) |
| `WeaviateCaches.WeaviateCache.Fetch` | text_encoders/weaviate_cache/weaviate_cache.py:86-95 | `None` exactly when no record exists under the text's id; otherwise that record's vector |
| `WeaviateCaches.WeaviateCache.Load` | text_encoders/weaviate_cache/weaviate_cache.py:84-98 | one slot per text, in input order; slot `i` is `None` exactly when no record exists under the id of `texts[i]`, and otherwise holds that record's vector; it only reads |
| `WeaviateCaches.WeaviateCache.LoadAfterSave` | text_encoders/weaviate_cache/weaviate_cache.py:64-98 | after a successful `save` of texts with distinct ids, `load` of the same texts returns the saved vectors, position by position (exactly, in the model's store; see "Left out" on precision) |
| `WeaviateCaches.WeaviateCache.SaveKeepsOthers` | text_encoders/weaviate_cache/weaviate_cache.py:64-82 | a `save` leaves every record whose id is not among the saved texts' ids as it was |

## Left out

- The concurrency machinery of `async_batch_encode` is not modelled: the `asyncio.Semaphore` ceiling, `asyncio.to_thread`, and the progress update in `async_encode`. Only the ordering guarantee of `gather` is modelled. The model runs each chunk's `encode` atomically, in a given completion order.
- TextEncoders.TextEncoder.AsyncBatchEncode: two limits, both because the outcome of overlapping tasks depends on timing that the model does not represent.
  - With a cache, its result and cache contents are stated only when no two chunks of the call share a cache key. When two different chunks collide, the result can depend on completion order.
  - Interleavings of one task's cache read and write with another task's are not modelled.
- Progress reporting with tqdm is not modelled, since it is cosmetic. This includes the total `len(texts) // batch_size`, which undercounts a final partial chunk. The one effect kept is that a batch size of 0 makes the computation of this total raise.
- The OpenAI encoder, network calls and backend errors are not modelled. `_encode` is an arbitrary function, and `model_name` is a plain field. An exception from the backend or from file I/O simply propagates in the source, so no error path is modelled for it.
- The file I/O of the h5 store is not modelled: file paths `<cache_path>/<key>.h5`, h5py, and directory creation in the constructor. The store is taken to be the contents of one cache directory.
- TextEncoders.TextEncoder.Gather: the same limit as `AsyncBatchEncode`, for the same reason. With a cache and two different chunks sharing a key, the contract gives only the number of slots, the key set and the call log, not the slots' contents.
- The internals of `joblib.hash` and `generate_uuid5` are not modelled. Both are arbitrary deterministic functions. The hash is never assumed collision-free in general. Properties that need distinct keys require them only among the chunks of the call (`KeysDistinctOn`) or among the saved texts' ids, and say so.
- The database's storage precision is not modelled. `save` sends the float64 rows of the numpy array, and the database keeps vectors in single precision, so `load` returns float32-rounded values. A vector is an exact `seq<real>` here, so the round trip of `LoadAfterSave` is exact only in the model.
- numpy arrays are not modelled. A vector is an opaque `seq<real>`, and the array of vectors is a sequence of them. `np.array` of an empty list is the empty sequence.
- The Weaviate client lifecycle is not modelled: `connect_to_local` and `close`. Neither are the internals of `_list_collections` (it is the `collections` set), the collection's property schema, or the empty `search_by_vector` stub.
- WeaviateCaches.WeaviateCache.Save: requires the collection to exist. What the database does with an insert into a deleted collection is server behaviour and is not modelled.
- WeaviateCaches.WeaviateCache.InsertMany: the model assumes that every object is inserted and that a later object with the same id replaces an earlier one. Per-object insert errors reported by the database are not modelled, so the insert-count assertion of `save` always holds in the model.
- A partial-hit merge of `WeaviateCache` hits with backend results for the misses is not modelled, because no such code exists.
- Logging (`logger.info` and `logger.warning` in `text_encoder.py` and `weaviate_cache.py`) is not modelled; it has no effect on results. The constructor defaults (`batch_size=1024`, `max_concurrency=10`, `collection_name="WeaviateCache"`, the Weaviate host and port) are not modelled either: the constructors take every value as a parameter.
