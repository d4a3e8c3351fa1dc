/**
 * The flat-file cache used by `TextEncoder.encode`: one h5 file per cache key
 * inside the cache directory, each holding the vectors of one batch.
 * The directory is modelled as a map from cache key to the saved vectors.
 */
module H5Files {
  import opened Wrappers
  import opened Embeddings

  class H5Store {
    /** Cache key -> the "vectors" dataset of the file `<dir>/<key>.h5`. */
    var files: map<string, seq<Vector>>

    /** A directory holding the given files (an empty one for a fresh cache path). */
    constructor (initial: map<string, seq<Vector>>)
      ensures files == initial
    {
      files := initial;
    }

    /** `load_h5`: `None` when the file does not exist, its vectors otherwise. */
    method Load(key: string) returns (r: Option<seq<Vector>>)
      ensures r.None? <==> key !in files
      ensures r.Some? ==> r.value == files[key]
    {
      if key in files {
        r := Some(files[key]);
      } else {
        r := None;
      }
    }

    /** `save_h5`: writes the file, replacing any earlier one under the same key. */
    method Save(key: string, vectors: seq<Vector>)
      modifies this
      ensures files == old(files)[key := vectors]
    {
      files := files[key := vectors];
    }
  }
}
