/**
 * `ImportURLPlugin` (src/index.ts:9-65): an esbuild plugin whose resolve hook,
 * for a specifier the URL filter accepts, derives the cache key, scans the
 * cache directory for a fresh entry and, only when there is none, fetches the
 * URL, writes the text to the entry and has esbuild rebuild the entry in place.
 * Either way the import resolves to the entry's absolute path.
 *
 * The foreign pieces are parameters of the hook: `serialize` is
 * `new URL(specifier).toString()`, `fetch` the body text the network returns
 * for a URL, `bundle` the output esbuild writes for an entry with the given
 * text, `now` the value of `Date.now()` and `cwd` the working directory that
 * `path.resolve` uses.
 */
module ImportUrl {
  import opened Wrappers
  import opened UrlMatcher
  import opened CacheKey
  import opened CacheStore

  /** Three days in milliseconds, the default freshness window. */
  const DefaultCacheDuration: int := 1000 * 60 * 60 * 24 * 3

  /** An outside call the hook makes, in the order it makes them. */
  datatype IoCall =
    | ReadDir(dir: string)
    | MakeDir(dir: string)
    | StatFile(path: string)
    | Fetch(url: string)
    | WriteText(path: string, text: string)
    | Build(entry: string, outfile: string)

  /**
   * The calls of one resolution of a matched specifier: list the directory,
   * create it if it was missing, stat the entry if it is listed, and on
   * expiry fetch, write the text and build the entry onto itself.
   */
  function ResolveCalls(cacheDir: string, entry: string, url: string, text: string,
                        created: bool, listed: bool, expired: bool): (r: seq<IoCall>)
    ensures |r| == 1 + (if created then 1 else 0) + (if listed then 1 else 0) + (if expired then 3 else 0)
  {
    [ReadDir(cacheDir)]
    + (if created then [MakeDir(cacheDir)] else [])
    + (if listed then [StatFile(entry)] else [])
    + (if expired then [Fetch(url), WriteText(entry, text), Build(entry, entry)] else [])
  }

  /**
   * What a resolution's calls reveal: a fresh hit makes no fetch, write or
   * build; an expired entry is fetched, written and built exactly once, in
   * that order, as the last three calls; the directory is created only when
   * it was missing.
   */
  lemma ResolveCallsEffects(cacheDir: string, entry: string, url: string, text: string,
                            created: bool, listed: bool, expired: bool)
    ensures var r := ResolveCalls(cacheDir, entry, url, text, created, listed, expired);
            && r[0] == ReadDir(cacheDir)
            && (MakeDir(cacheDir) in r <==> created)
            && (!expired ==> forall i :: 0 <= i < |r| ==> !r[i].Fetch? && !r[i].WriteText? && !r[i].Build?)
            && (expired ==> |r| >= 4 && r[|r| - 3..] == [Fetch(url), WriteText(entry, text), Build(entry, entry)]
                            && forall i :: 0 <= i < |r| - 3 ==> !r[i].Fetch? && !r[i].WriteText? && !r[i].Build?)
  {
    var head := [ReadDir(cacheDir)]
      + (if created then [MakeDir(cacheDir)] else [])
      + (if listed then [StatFile(entry)] else []);
    var tail: seq<IoCall> := if expired then [Fetch(url), WriteText(entry, text), Build(entry, entry)] else [];
    PreludeCalls(cacheDir, entry, created, listed);
    assert ResolveCalls(cacheDir, entry, url, text, created, listed, expired) == head + tail;
    assert MakeDir(cacheDir) !in tail;
  }

  /** The calls before the fetch: a listing first, a creation exactly when the directory was missing, no fetch, write or build. */
  lemma PreludeCalls(cacheDir: string, entry: string, created: bool, listed: bool)
    ensures var head := [ReadDir(cacheDir)]
              + (if created then [MakeDir(cacheDir)] else [])
              + (if listed then [StatFile(entry)] else []);
            && head[0] == ReadDir(cacheDir)
            && (MakeDir(cacheDir) in head <==> created)
            && forall i :: 0 <= i < |head| ==> !head[i].Fetch? && !head[i].WriteText? && !head[i].Build?
  {
    if created {
      if listed {
        assert [ReadDir(cacheDir)] + [MakeDir(cacheDir)] + [StatFile(entry)] == [ReadDir(cacheDir), MakeDir(cacheDir), StatFile(entry)];
      } else {
        assert [ReadDir(cacheDir)] + [MakeDir(cacheDir)] + [] == [ReadDir(cacheDir), MakeDir(cacheDir)];
      }
    } else {
      if listed {
        assert [ReadDir(cacheDir)] + [] + [StatFile(entry)] == [ReadDir(cacheDir), StatFile(entry)];
      } else {
        assert [ReadDir(cacheDir)] + [] + [] == [ReadDir(cacheDir)];
      }
    }
  }

  class ImportUrlPlugin {
    const name: string
    const cacheDir: string
    const cacheDuration: int
    /** The cache directory on disk. */
    const store: CacheDirectory

    ghost predicate Valid()
      reads this, store
    {
      store.Valid()
    }

    constructor (cacheDir: string, store: CacheDirectory, cacheDuration: int := DefaultCacheDuration)
      requires store.Valid()
      ensures Valid()
      ensures name == "ImportURLPlugin"
      ensures this.cacheDir == cacheDir && this.store == store && this.cacheDuration == cacheDuration
    {
      this.name := "ImportURLPlugin";
      this.cacheDir := cacheDir;
      this.store := store;
      this.cacheDuration := cacheDuration;
    }

    /**
     * The `onResolve` hook with its `urlRegexp` filter (src/index.ts:17-18).
     * A specifier the filter rejects is left to other resolvers: nothing is
     * called and nothing changes. A matched one is serialised and resolved.
     */
    method OnResolve(specifier: string, now: int, cwd: string,
                     serialize: string -> string, fetch: string -> string, bundle: string -> string)
      returns (resolved: Option<string>, calls: seq<IoCall>)
      requires Valid()
      modifies store
      ensures Valid()
      ensures resolved.Some? <==> IsRemoteUrl(specifier)
      ensures !IsRemoteUrl(specifier) ==>
        calls == [] &&
        store.present == old(store.present) && store.listing == old(store.listing) && store.files == old(store.files)
      ensures IsRemoteUrl(specifier) ==>
        var url := serialize(specifier);
        var key := Key(url);
        var expired := IsExpired(old(store.listing), old(store.files), key, now, cacheDuration);
        && resolved == Some(AbsolutePath(cwd, Join(cacheDir, key)))
        && store.present
        && (!expired ==> store.listing == old(store.listing) && store.files == old(store.files))
        && (expired ==> store.listing == Listed(old(store.listing), key) &&
                        store.files == old(store.files)[key := CacheFile(bundle(fetch(url)), now)])
        && calls == ResolveCalls(cacheDir, Join(cacheDir, key), url, fetch(url), !old(store.present), key in old(store.listing), expired)
    {
      if !IsRemoteUrl(specifier) {
        return None, [];
      }
      var url := serialize(specifier);
      var path;
      path, calls := Resolve(url, now, cwd, fetch, bundle);
      resolved := Some(path);
    }

    /**
     * The body of the hook for the serialised URL `url` (src/index.ts:19-61):
     * the directory is listed (and created if missing), the key's entry is
     * stat'ed if listed, and on expiry the fetched text and then the build
     * output replace the entry; the entry's absolute path is returned in both
     * branches.
     */
    method Resolve(url: string, now: int, cwd: string, fetch: string -> string, bundle: string -> string)
      returns (path: string, calls: seq<IoCall>)
      requires Valid()
      modifies store
      ensures Valid() && store.present
      ensures
        var key := Key(url);
        var expired := IsExpired(old(store.listing), old(store.files), key, now, cacheDuration);
        && path == AbsolutePath(cwd, Join(cacheDir, key))
        && (!expired ==> store.listing == old(store.listing) && store.files == old(store.files))
        && (expired ==> store.listing == Listed(old(store.listing), key) &&
                        store.files == old(store.files)[key := CacheFile(bundle(fetch(url)), now)])
        && calls == ResolveCalls(cacheDir, Join(cacheDir, key), url, fetch(url), !old(store.present), key in old(store.listing), expired)
    {
      var encodedUrl := Key(url);
      var entry := Join(cacheDir, encodedUrl);

      var list, created := store.ReadDirOrCreate();
      var isCacheExpired, stats := store.ScanListing(list, encodedUrl, now, cacheDuration);
      var rebuilt: seq<IoCall> := [];
      if isCacheExpired {
        rebuilt := Refresh(url, encodedUrl, entry, now, fetch, bundle);
      }

      calls := [ReadDir(cacheDir)]
        + (if created then [MakeDir(cacheDir)] else [])
        + (if stats > 0 then [StatFile(entry)] else [])
        + rebuilt;
      path := AbsolutePath(cwd, entry);
    }

    /**
     * The expired branch (src/index.ts:44-57): fetch the URL, write its text
     * to the entry, then build the entry onto itself, so the entry ends up
     * holding the build output; no other entry changes.
     */
    method Refresh(url: string, encodedUrl: string, entry: string, now: int,
                   fetch: string -> string, bundle: string -> string)
      returns (calls: seq<IoCall>)
      requires Valid() && store.present
      modifies store
      ensures Valid() && store.present
      ensures store.files == old(store.files)[encodedUrl := CacheFile(bundle(fetch(url)), now)]
      ensures store.listing == Listed(old(store.listing), encodedUrl)
      ensures calls == [Fetch(url), WriteText(entry, fetch(url)), Build(entry, entry)]
    {
      var res := fetch(url);
      calls := [Fetch(url)];
      store.WriteFile(encodedUrl, res, now);
      calls := calls + [WriteText(entry, res)];
      var output := bundle(res);
      store.WriteFile(encodedUrl, output, now);
      calls := calls + [Build(entry, entry)];
    }
  }

  /**
   * A resolution of a matched specifier with a cache directory that does not
   * exist: the directory is created, the URL fetched and built, and the
   * directory then lists only the key, whose file holds the build output.
   */
  method ResolveIntoMissing(plugin: ImportUrlPlugin, specifier: string, now: int, cwd: string,
                            serialize: string -> string, fetch: string -> string, bundle: string -> string)
    returns (resolved: Option<string>, calls: seq<IoCall>)
    requires plugin.Valid() && !plugin.store.present && IsRemoteUrl(specifier)
    modifies plugin.store
    ensures var url := serialize(specifier);
            var key := Key(url);
            && plugin.Valid() && plugin.store.present
            && plugin.store.listing == [key]
            && plugin.store.files == map[key := CacheFile(bundle(fetch(url)), now)]
            && resolved == Some(AbsolutePath(cwd, Join(plugin.cacheDir, key)))
            && calls == ResolveCalls(plugin.cacheDir, Join(plugin.cacheDir, key), url, fetch(url), true, false, true)
  {
    var key := Key(serialize(specifier));
    resolved, calls := plugin.OnResolve(specifier, now, cwd, serialize, fetch, bundle);
    assert Listed([], key) == [key];
  }

  /**
   * A resolution of a matched specifier whose entry is the only one in the
   * cache directory, written at `t0`: the entry is only listed and stat'ed
   * while it is younger than the window, and fetched and rebuilt, stamped
   * `now`, once it is not.
   */
  method ResolveWithEntry(plugin: ImportUrlPlugin, specifier: string, t0: int, content: string, now: int, cwd: string,
                          serialize: string -> string, fetch: string -> string, bundle: string -> string)
    returns (resolved: Option<string>, calls: seq<IoCall>)
    requires var key := Key(serialize(specifier));
             && plugin.Valid() && plugin.store.present && IsRemoteUrl(specifier)
             && plugin.store.listing == [key] && plugin.store.files == map[key := CacheFile(content, t0)]
    modifies plugin.store
    ensures var url := serialize(specifier);
            var key := Key(url);
            var expired := now - t0 >= plugin.cacheDuration;
            && plugin.Valid() && plugin.store.present
            && plugin.store.listing == [key]
            && plugin.store.files == map[key := if expired then CacheFile(bundle(fetch(url)), now) else CacheFile(content, t0)]
            && resolved == Some(AbsolutePath(cwd, Join(plugin.cacheDir, key)))
            && calls == ResolveCalls(plugin.cacheDir, Join(plugin.cacheDir, key), url, fetch(url), false, true, expired)
  {
    var key := Key(serialize(specifier));
    var before := plugin.store.files;
    resolved, calls := plugin.OnResolve(specifier, now, cwd, serialize, fetch, bundle);
    assert Listed([key], key) == [key];
    assert before[key := CacheFile(bundle(fetch(serialize(specifier))), now)]
        == map[key := CacheFile(bundle(fetch(serialize(specifier))), now)];
  }

  /**
   * Three resolutions of one matched specifier, with a window of 1000 ms and
   * a cache directory that does not exist yet: the first creates the
   * directory, fetches and builds once; an immediate second one only lists
   * and stats; one 1100 ms later fetches and builds again. All three resolve
   * to the same path, and the directory ends up holding that one entry, with
   * the build output of the third resolution.
   */
  method ResolveTwiceThenAgainLater(store: CacheDirectory, specifier: string, cacheDir: string, cwd: string, t: int,
                                    serialize: string -> string, fetch: string -> string, bundle: string -> string)
    returns (first: Option<string>, second: Option<string>, third: Option<string>,
             calls1: seq<IoCall>, calls2: seq<IoCall>, calls3: seq<IoCall>)
    requires store.Valid() && !store.present
    requires IsRemoteUrl(specifier)
    modifies store
    ensures var url := serialize(specifier);
            var entry := Join(cacheDir, Key(url));
            && first == Some(AbsolutePath(cwd, entry)) && second == first && third == first
            && calls1 == ResolveCalls(cacheDir, entry, url, fetch(url), true, false, true)
            && calls2 == ResolveCalls(cacheDir, entry, url, fetch(url), false, true, false)
            && calls3 == ResolveCalls(cacheDir, entry, url, fetch(url), false, true, true)
            && store.present && store.listing == [Key(url)]
            && store.files == map[Key(url) := CacheFile(bundle(fetch(url)), t + 1100)]
  {
    var plugin := new ImportUrlPlugin(cacheDir, store, 1000);
    var output := bundle(fetch(serialize(specifier)));
    first, calls1 := ResolveIntoMissing(plugin, specifier, t, cwd, serialize, fetch, bundle);
    second, calls2 := ResolveWithEntry(plugin, specifier, t, output, t, cwd, serialize, fetch, bundle);
    third, calls3 := ResolveWithEntry(plugin, specifier, t, output, t + 1100, cwd, serialize, fetch, bundle);
  }
}
