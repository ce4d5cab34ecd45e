/** The JSON file cache: parsed documents by path, each with the modification time of the
    file it was read from or written to. The file system is a map from path to file
    state; parsing, serialising and cloning are the identity on documents. */
module JsonCache {
  import opened Common

  /** A parsed JSON document: its text and whether JavaScript treats the parsed value as
      true (every object is; `null`, `false`, `0` and `""` are not). */
  datatype Json = Json(text: string, truthy: bool)

  datatype FileState = FileState(mtime: int, content: Json)

  /** The files on disk. */
  class Disk {
    var files: map<string, FileState>

    constructor (files: map<string, FileState>)
      ensures this.files == files
    {
      this.files := files;
    }
  }

  datatype ReadResult = FileNotFound(path: string) | Data(value: Json)

  /** The cached document may be returned: there is one, it is truthy, and it was stored
      with the file's current modification time. */
  predicate CacheHit(cache: map<string, Json>, mtimes: map<string, int>, path: string, file: FileState) {
    && path in cache && cache[path].truthy
    && path in mtimes && mtimes[path] == file.mtime
  }

  /** What a read of an existing file returns. */
  function ReadValue(cache: map<string, Json>, mtimes: map<string, int>, path: string, file: FileState): Json {
    if CacheHit(cache, mtimes, path, file) then cache[path] else file.content
  }

  /** No cached document is stale while its file still has the stored modification time. */
  ghost predicate Coherent(cache: map<string, Json>, mtimes: map<string, int>, files: map<string, FileState>) {
    forall p :: p in cache && p in mtimes && p in files && files[p].mtime == mtimes[p] ==> cache[p] == files[p].content
  }

  /** A coherent cache returns what is on disk. */
  lemma ReadServesDisk(cache: map<string, Json>, mtimes: map<string, int>, files: map<string, FileState>, path: string)
    requires Coherent(cache, mtimes, files) && path in files
    ensures ReadValue(cache, mtimes, path, files[path]) == files[path].content
  {
  }

  /** Refreshing one path keeps the cache coherent with an unchanged disk. */
  lemma RefreshKeepsCoherent(cache: map<string, Json>, mtimes: map<string, int>, files: map<string, FileState>,
                             path: string)
    requires Coherent(cache, mtimes, files) && path in files
    ensures Coherent(cache[path := files[path].content], mtimes[path := files[path].mtime], files)
  {
  }

  /** A write that stores the document with the file's new time keeps the cache coherent. */
  lemma WriteKeepsCoherent(cache: map<string, Json>, mtimes: map<string, int>, files: map<string, FileState>,
                           path: string, data: Json, mtime: int)
    requires Coherent(cache, mtimes, files)
    ensures Coherent(cache[path := data], mtimes[path := mtime], files[path := FileState(mtime, data)])
  {
  }

  /** A write whose time could not be read, followed by invalidating the path, keeps the
      cache coherent whatever was written. */
  lemma FailedWriteKeepsCoherent(cache: map<string, Json>, mtimes: map<string, int>, files: map<string, FileState>,
                                 path: string, written: FileState)
    requires Coherent(cache, mtimes, files)
    ensures Coherent(cache - {path}, mtimes - {path}, files[path := written])
  {
  }

  /** A change by another writer that also changes the file's time keeps the cache coherent. */
  lemma ExternalChangeKeepsCoherent(cache: map<string, Json>, mtimes: map<string, int>,
                                    files: map<string, FileState>, path: string, changed: FileState)
    requires Coherent(cache, mtimes, files)
    requires path in mtimes ==> changed.mtime != mtimes[path]
    ensures Coherent(cache, mtimes, files[path := changed])
  {
  }

  /** After a read that missed, a second read of the unchanged file hits exactly when the
      document is truthy, and returns the same document either way. */
  lemma ReadTwice(cache: map<string, Json>, mtimes: map<string, int>, path: string, file: FileState)
    requires !CacheHit(cache, mtimes, path, file)
    ensures var cache', mtimes' := cache[path := file.content], mtimes[path := file.mtime];
            && (CacheHit(cache', mtimes', path, file) <==> file.content.truthy)
            && ReadValue(cache', mtimes', path, file) == ReadValue(cache, mtimes, path, file)
  {
  }

  /** After invalidating a path, the next read of it goes to disk. */
  lemma InvalidatedMisses(cache: map<string, Json>, mtimes: map<string, int>, path: string, file: FileState)
    ensures !CacheHit(cache - {path}, mtimes - {path}, path, file)
    ensures ReadValue(cache - {path}, mtimes - {path}, path, file) == file.content
  {
  }

  class JsonFileCache {
    var cache: map<string, Json>
    var mtimes: map<string, int>

    /** `_cache` and `_mtimes` have the same keys. */
    ghost predicate Valid()
      reads this
    {
      cache.Keys == mtimes.Keys
    }

    constructor ()
      ensures Valid() && cache == map[] && mtimes == map[]
    {
      cache, mtimes := map[], map[];
    }

    /** `readJson(filePath)`: a missing file is an error; a hit returns the cached
        document, a miss reads the file and stores it with its time. */
    method ReadJson(disk: Disk, path: string) returns (r: ReadResult)
      requires Valid()
      modifies this
      ensures Valid()
      ensures path !in disk.files ==> r == FileNotFound(path) && cache == old(cache) && mtimes == old(mtimes)
      ensures path in disk.files ==>
        var file := disk.files[path];
        && r == Data(ReadValue(old(cache), old(mtimes), path, file))
        && (CacheHit(old(cache), old(mtimes), path, file) ==> cache == old(cache) && mtimes == old(mtimes))
        && (!CacheHit(old(cache), old(mtimes), path, file) ==>
              cache == old(cache)[path := file.content] && mtimes == old(mtimes)[path := file.mtime])
    {
      if path !in disk.files {
        return FileNotFound(path);
      }
      var stat := disk.files[path];
      if path in cache && cache[path].truthy && path in mtimes && mtimes[path] == stat.mtime {
        return Data(cache[path]);
      }
      var data := stat.content;
      cache := cache[path := data];
      mtimes := mtimes[path := stat.mtime];
      r := Data(data);
    }

    /** `writeJson(filePath, data)`: `written` says whether writing the file succeeded,
        `newMtime` is the time the file then has, or `None` when reading it fails, in which
        case the path is invalidated. The result says whether the call returned normally. */
    method WriteJson(disk: Disk, path: string, data: Json, written: bool, newMtime: Option<int>) returns (ok: bool)
      requires Valid()
      modifies this, disk
      ensures Valid()
      ensures ok <==> written && newMtime.Some?
      ensures !written ==> disk.files == old(disk.files) && cache == old(cache) && mtimes == old(mtimes)
      ensures written && newMtime.Some? ==>
        && disk.files == old(disk.files)[path := FileState(newMtime.value, data)]
        && cache == old(cache)[path := data] && mtimes == old(mtimes)[path := newMtime.value]
      ensures written && newMtime.None? ==>
        && path in disk.files && disk.files[path].content == data
        && (forall p :: p != path ==> (p in disk.files <==> p in old(disk.files)))
        && (forall p :: p != path && p in disk.files ==> disk.files[p] == old(disk.files)[p])
        && cache == old(cache) - {path} && mtimes == old(mtimes) - {path}
    {
      if !written {
        return false;
      }
      var mtime := if newMtime.Some? then newMtime.value
                   else if path in disk.files then disk.files[path].mtime else 0;
      disk.files := disk.files[path := FileState(mtime, data)];
      if newMtime.None? {
        Invalidate(path);
        return false;
      }
      cache := cache[path := data];
      mtimes := mtimes[path := newMtime.value];
      ok := true;
    }

    /** `invalidate(filePath)`: forget the path in both maps. */
    method Invalidate(path: string)
      requires Valid()
      modifies this
      ensures Valid()
      ensures cache == old(cache) - {path} && mtimes == old(mtimes) - {path}
    {
      cache := cache - {path};
      mtimes := mtimes - {path};
    }
  }
}
