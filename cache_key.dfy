/**
 * The cache key and the cache entry's path (src/index.ts:19 and the
 * `path.join(cacheDir, encodedUrl)` calls). The key of a URL is the base64url
 * text of the UTF-8 bytes of its serialised form; it doubles as the entry's
 * file name inside the flat cache directory.
 */
module CacheKey {
  import Utf8
  import Base64Url

  /** `Buffer.from(url.toString()).toString("base64url")`, with `url.toString()` given as `url`. */
  function Key(url: string): (k: string)
    ensures forall i :: 0 <= i < |k| ==> Base64Url.IsUrlSafeChar(k[i])
    ensures url != "" <==> k != ""
  {
    Base64Url.Encode(Utf8.EncodeString(url))
  }

  /** Distinct serialised URLs never share a key. */
  lemma KeyInjective(u1: string, u2: string)
    requires Key(u1) == Key(u2)
    ensures u1 == u2
  {
    Base64Url.EncodeInjective(Utf8.EncodeString(u1), Utf8.EncodeString(u2));
    Utf8.EncodeInjective(u1, u2);
  }

  /** A key holds no path separator and no `=` padding, so it is a single path component. */
  lemma KeyIsFilenameSafe(url: string)
    ensures '/' !in Key(url) && '\\' !in Key(url) && '=' !in Key(url)
  {
    Base64Url.EncodeIsFilenameSafe(Utf8.EncodeString(url));
  }

  /** What `path.join(dir, name)` puts in front of `name`: the directory and one separator, if needed. */
  function DirPrefix(dir: string): (p: string)
    ensures p == "" || p[|p| - 1] == '/'
  {
    if dir == "" then ""
    else if dir[|dir| - 1] == '/' then dir
    else dir + "/"
  }

  /** `path.join(dir, name)` for a directory path in normal form and a plain file name. */
  function Join(dir: string, name: string): (r: string)
    ensures |r| == |DirPrefix(dir)| + |name|
    ensures dir != "" ==> |r| > |name| && r[|r| - |name| - 1] == '/'
  {
    DirPrefix(dir) + name
  }

  /** Within one directory, distinct file names give distinct paths. */
  lemma JoinInjective(dir: string, n1: string, n2: string)
    requires Join(dir, n1) == Join(dir, n2)
    ensures n1 == n2
  {
    var p := DirPrefix(dir);
    assert n1 == (p + n1)[|p|..];
    assert n2 == (p + n2)[|p|..];
  }

  /** The entry path of a URL: `path.join(cacheDir, encodedUrl)`. */
  function EntryPath(cacheDir: string, url: string): string {
    Join(cacheDir, Key(url))
  }

  /** For a given cache directory, each serialised URL has its own entry path. */
  lemma EntryPathUnique(cacheDir: string, u1: string, u2: string)
    requires EntryPath(cacheDir, u1) == EntryPath(cacheDir, u2)
    ensures u1 == u2
  {
    JoinInjective(cacheDir, Key(u1), Key(u2));
    KeyInjective(u1, u2);
  }

  /** The entry sits directly in the cache directory: after the directory's prefix its path has no separator. */
  lemma EntryIsDirectChild(cacheDir: string, url: string)
    ensures var p := EntryPath(cacheDir, url);
            var d := DirPrefix(cacheDir);
            |d| <= |p| && p[..|d|] == d &&
            forall i :: |d| <= i < |p| ==> p[i] != '/'
  {
    SafeNameIsChild(DirPrefix(cacheDir), Key(url));
  }

  /** After a prefix `d`, a name in the base64url alphabet contributes no separator. */
  lemma SafeNameIsChild(d: string, k: string)
    requires forall i :: 0 <= i < |k| ==> Base64Url.IsUrlSafeChar(k[i])
    ensures (d + k)[..|d|] == d && forall i :: |d| <= i < |d + k| ==> (d + k)[i] != '/'
  {
    forall i | |d| <= i < |d + k| ensures (d + k)[i] != '/' {
      assert (d + k)[i] == k[i - |d|];
    }
  }

  /**
   * `path.resolve(p)` for a path in normal form: an absolute path is kept,
   * a relative one is joined to the working directory `cwd`.
   */
  function AbsolutePath(cwd: string, p: string): (r: string)
    ensures |p| > 0 && p[0] == '/' ==> r == p
    ensures |cwd| > 0 && cwd[0] == '/' ==> |r| > 0 && r[0] == '/'
  {
    if |p| > 0 && p[0] == '/' then p else Join(cwd, p)
  }

  /** The path the hook hands back differs for distinct serialised URLs. */
  lemma ResolvedPathUnique(cwd: string, cacheDir: string, u1: string, u2: string)
    requires AbsolutePath(cwd, EntryPath(cacheDir, u1)) == AbsolutePath(cwd, EntryPath(cacheDir, u2))
    ensures u1 == u2
  {
    var d := DirPrefix(cacheDir);
    var p1, p2 := EntryPath(cacheDir, u1), EntryPath(cacheDir, u2);
    var k1, k2 := Key(u1), Key(u2);
    assert p1 == d + k1 && p2 == d + k2;
    var abs1 := |p1| > 0 && p1[0] == '/';
    var abs2 := |p2| > 0 && p2[0] == '/';
    if d != "" {
      assert p1[0] == d[0] == p2[0];
    } else {
      assert p1 == k1 && p2 == k2;
    }
    assert abs1 == abs2;
    if !abs1 {
      JoinInjective(cwd, p1, p2);
    }
    EntryPathUnique(cacheDir, u1, u2);
  }
}
