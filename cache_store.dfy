/**
 * The cache directory as the resolve hook sees it (src/index.ts:21-46), held
 * in memory: whether the directory exists, the names `fs.readdir` lists, in
 * listing order, and the files `fs.stat` and `fs.writeFile` reach, each with
 * its content and modification time in milliseconds. A listed name that has no
 * file is one whose `fs.stat` fails (the file vanished or cannot be read after
 * the listing was taken).
 */
module CacheStore {
  import opened Wrappers

  /** A cache entry on disk: its text and its modification time. */
  datatype CacheFile = CacheFile(content: string, mtime: int)

  /** A directory lists each name once. */
  predicate NoDuplicates(names: seq<string>) {
    forall i, j :: 0 <= i < j < |names| ==> names[i] != names[j]
  }

  /** The listing after `name` is written: unchanged if it was there, otherwise with `name` at the end. */
  function Listed(names: seq<string>, name: string): (r: seq<string>)
    ensures name in r
    ensures forall n :: n in r <==> n in names || n == name
    ensures NoDuplicates(names) ==> NoDuplicates(r)
  {
    if name in names then names else names + [name]
  }

  /**
   * The modification time the hook works with for `name`: the file's mtime,
   * or 0 when `fs.stat` fails (`?.mtime?.getTime() ?? 0`).
   */
  function StatMtime(files: map<string, CacheFile>, name: string): int {
    if name in files then files[name].mtime else 0
  }

  /**
   * `isCacheExpired` as the hook leaves it after scanning `list` for `key`:
   * false exactly when the key is listed and its age is strictly below the
   * freshness window.
   */
  predicate IsExpired(list: seq<string>, files: map<string, CacheFile>, key: string, now: int, cacheDuration: int) {
    !(key in list && now - StatMtime(files, key) < cacheDuration)
  }

  class CacheDirectory {
    var present: bool
    var listing: seq<string>
    var files: map<string, CacheFile>

    /** A missing directory is empty; a present one lists every file, each name once. */
    ghost predicate Valid()
      reads this
    {
      && (!present ==> listing == [] && files == map[])
      && NoDuplicates(listing)
      && (forall n :: n in files ==> n in listing)
    }

    /** A cache directory that does not exist yet. */
    constructor Missing()
      ensures Valid() && !present && listing == [] && files == map[]
    {
      present, listing, files := false, [], map[];
    }

    /**
     * Listing the cache directory, with creation as the fallback: an existing
     * directory gives its names; a missing one makes the listing fail, is
     * then created empty, and gives no names.
     */
    method ReadDirOrCreate() returns (list: seq<string>, created: bool)
      requires Valid()
      modifies this
      ensures Valid() && present
      ensures created == !old(present)
      ensures list == (if created then [] else old(listing))
      ensures listing == old(listing) && files == old(files)
    {
      created := !present;
      if created {
        present := true;
        list := [];
      } else {
        list := listing;
      }
    }

    /** `fs.stat` of an entry: its modification time, or nothing when it cannot be read. */
    method Stat(name: string) returns (mtime: Option<int>)
      ensures mtime.Some? <==> name in files
      ensures mtime.Some? ==> mtime.value == files[name].mtime
    {
      mtime := if name in files then Some(files[name].mtime) else None;
    }

    /** `fs.writeFile` of an entry: its content is replaced, its mtime set, and nothing else changes. */
    method WriteFile(name: string, content: string, now: int)
      requires Valid() && present
      modifies this
      ensures Valid() && present
      ensures files == old(files)[name := CacheFile(content, now)]
      ensures listing == Listed(old(listing), name)
    {
      files := files[name := CacheFile(content, now)];
      listing := Listed(listing, name);
    }

    /**
     * The freshness scan (src/index.ts:21-42): walk the listing, skip every
     * name but the key, and at the first name equal to the key stat it and
     * stop, clearing `isCacheExpired` only when the entry is younger than the
     * window. `stats` is the number of `fs.stat` calls made.
     */
    method ScanListing(list: seq<string>, key: string, now: int, cacheDuration: int)
      returns (isCacheExpired: bool, stats: nat)
      ensures isCacheExpired == IsExpired(list, files, key, now, cacheDuration)
      ensures stats == (if key in list then 1 else 0)
    {
      isCacheExpired := true;
      stats := 0;
      var i := 0;
      while i < |list|
        invariant 0 <= i <= |list|
        invariant key !in list[..i]
        invariant isCacheExpired && stats == 0
        decreases |list| - i
      {
        var filename := list[i];
        if filename != key {
          i := i + 1;
          continue;
        }
        var stat := Stat(filename);
        stats := stats + 1;
        var mtime := stat.GetOr(0);
        if now - mtime < cacheDuration {
          isCacheExpired := false;
          break;
        } else {
          break;
        }
      }
      assert i == |list| ==> list[..i] == list;
    }
  }

  // ---------------------------------------------------------------------
  // The freshness policy.
  // ---------------------------------------------------------------------

  /** A key the listing does not hold is a cache miss. */
  lemma MissIsExpired(list: seq<string>, files: map<string, CacheFile>, key: string, now: int, cacheDuration: int)
    requires key !in list
    ensures IsExpired(list, files, key, now, cacheDuration)
  {
  }

  /**
   * An entry written at `t0` is fresh one millisecond before the window
   * closes, and expired when it closes and after: the comparison is strict.
   */
  lemma FreshnessBoundary(list: seq<string>, files: map<string, CacheFile>, key: string, t0: int, cacheDuration: int)
    requires key in list && key in files && files[key].mtime == t0
    ensures !IsExpired(list, files, key, t0 + cacheDuration - 1, cacheDuration)
    ensures IsExpired(list, files, key, t0 + cacheDuration, cacheDuration)
    ensures IsExpired(list, files, key, t0 + cacheDuration + 1, cacheDuration)
  {
  }

  /** A listed entry whose stat fails counts as written at time 0: expired once the clock has passed the window. */
  lemma FailedStatIsEpoch(list: seq<string>, files: map<string, CacheFile>, key: string, now: int, cacheDuration: int)
    requires key in list && key !in files
    ensures IsExpired(list, files, key, now, cacheDuration) <==> now >= cacheDuration
  {
  }

  /** Right after the entry is written at `t`, it stays fresh for the whole window. */
  lemma FreshAfterWrite(list: seq<string>, files: map<string, CacheFile>, key: string, content: string, t: int, now: int, cacheDuration: int)
    requires now - t < cacheDuration
    ensures !IsExpired(Listed(list, key), files[key := CacheFile(content, t)], key, now, cacheDuration)
  {
  }

  /** The verdict depends on the key's entry alone: other entries, and the order of the listing, do not matter. */
  lemma ExpiryIsLocal(list1: seq<string>, files1: map<string, CacheFile>, list2: seq<string>, files2: map<string, CacheFile>,
                      key: string, now: int, cacheDuration: int)
    requires (key in list1 <==> key in list2) && StatMtime(files1, key) == StatMtime(files2, key)
    ensures IsExpired(list1, files1, key, now, cacheDuration) == IsExpired(list2, files2, key, now, cacheDuration)
  {
  }
}
