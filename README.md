# esbuild-plugin-import-url, modelled in Dafny

`ImportURLPlugin(cacheDir, cacheDuration)` is an esbuild plugin. It lets a
bundle import modules straight from `http://` and `https://` URLs. Its resolve
hook handles every import specifier that matches a fixed URL pattern:

1. It serialises the URL and derives a cache key: the unpadded base64url text
   of the URL's UTF-8 bytes.
2. It lists the cache directory, creating the directory if listing fails.
3. It scans the listing for the key. If it finds the key, it stats that entry
   and decides freshness from the entry's modification time.
4. If the entry is missing or stale, it fetches the URL, writes the text to the
   entry, and has esbuild bundle the entry onto itself.
5. Either way, it resolves the import to the entry's absolute path.

The project models all of this:

- `common.dfy`: `Wrappers.Option` and the `Bytes.byte` type.
- `url_matcher.dfy`: the `urlRegexp` filter.
  - `Matches` is a ghost predicate. It says there is a split of the specifier
    into scheme, optional `www.`, domain, dot, top-level label and tail, each in
    its character class, with the word boundary `\b` after the label.
  - `IsRemoteUrl` is an executable search over the cut points. It is proved
    equal to `Matches`.
  - The domain class contains `.`, so the top-level label need not start at
    the first dot. Both definitions quantify over every dot.
- `utf8.dfy`: the UTF-8 encoding that `Buffer.from(string)` applies, with a
  decoder that undoes it.
- `base64url.dfy`: the "URL and Filename safe" alphabet of section 5 of
  RFC 4648, without `=` padding, as Node's `"base64url"` writes it. It comes
  with a decoder that undoes it.
- `cache_key.dfy`: the cache key, `path.join` of the cache directory and a file
  name, and `path.resolve` against a working directory.
- `cache_store.dfy`: the cache directory as a class.
  - Its fields are a "directory exists" flag, the listing in `readdir` order,
    and a map from file name to content and modification time.
  - Its methods are list-or-create, stat, write, and the freshness scan. The
    scan is the source's loop with `continue` and `break`, proved against the
    `IsExpired` predicate.
- `plugin.dfy`: the plugin as a class over that store, with the resolve hook as
  methods. The hook returns the resolved path and the sequence of outside calls
  it makes: list, mkdir, stat, fetch, write and build.

Parameters stand in for the outside world:

- `serialize` is `new URL(specifier).toString()`.
- `fetch` is the body text the network returns for a URL.
- `bundle` is the output esbuild writes for an entry with a given text.
- `now` is `Date.now()`.
- `cwd` is the working directory `path.resolve` uses.

A listed entry whose stat fails is not treated as absent. The code
(src/index.ts:31-36) falls back to an mtime of 0, so the entry is fresh while
`now < cacheDuration` and expired after; `CacheStore.FailedStatIsEpoch` states
this.

## Model

| member | source | states |
|---|---|---|
| UrlMatcher.IsRemoteUrl | src/index.ts:6-7 | the executable filter accepts a specifier exactly when it matches the pattern: scheme `http://`/`https://`, optional `www.`, 1-256 domain characters, a dot, 1-6 label characters, a word boundary, then tail characters |
| UrlMatcher.Matches | src/index.ts:7 | the language of `urlRegexp`: some split of the specifier into `http://` or `https://`, an optional `www.`, 1-256 domain characters, a dot, 1-6 label characters followed by a word boundary, and a tail of tail characters |
| UrlMatcher.SchemeLength | src/index.ts:7 | the scheme prefix is 8 exactly when the specifier starts with `https://`, 7 exactly when it starts with `http://`, and 0 otherwise |
| UrlMatcher.DomainSearch | src/index.ts:7 | the search succeeds exactly when some dot position within the domain bound, and some label end, give a valid domain, label, word boundary and tail |
| UrlMatcher.TldSearch | src/index.ts:7 | the search succeeds exactly when some label end up to the bound gives a 1-6 character label, a word boundary and a valid tail |
| UrlMatcher.MatchesIffCandidate | src/index.ts:7 | a pattern split exists exactly when a scheme, an optional `www.`, a dot and a label end cut the specifier into valid pieces |
| UrlMatcher.MatchHasScheme | src/index.ts:7 | every match starts with `http://` or `https://` |
| UrlMatcher.RejectsOtherSchemes | src/index.ts:7 | a specifier with neither prefix, such as `./foo` or `ftp://...`, is rejected |
| UrlMatcher.MatchedCharsAreTailChars | src/index.ts:7 | every character of a match lies in the union of the pattern's classes |
| UrlMatcher.RejectsForeignChar | src/index.ts:7 | a specifier holding any character outside those classes, such as a space, is rejected |
| UrlMatcher.MatchLengthBound | src/index.ts:7 | a match is at least 10 characters long |
| UrlMatcher.ExampleIsRemote | src/index.ts:7 | `https://example.com/mod.js` is accepted |
| UrlMatcher.ExamplesAreLocal | src/index.ts:7 | `./foo`, `ftp://example.com/mod.js` and `https://example.com/my mod.js` are rejected |
| Utf8.EncodeChar | src/index.ts:19 | a character becomes 1-4 bytes as its code point requires, every byte after the first a continuation byte |
| Utf8.EncodeString | src/index.ts:19 | a string's UTF-8 encoding is between one and four times its length in bytes |
| Utf8.DecodeEncodeChar | src/index.ts:19 | the first character decoded from a character's encoding, whatever follows, is that character, with the right byte count |
| Utf8.DecodeEncode | src/index.ts:19 | decoding the UTF-8 encoding of any string gives the string back |
| Utf8.EncodeInjective | src/index.ts:19 | distinct strings have distinct UTF-8 bytes |
| Base64Url.Encode | src/index.ts:19 | the unpadded text of n bytes has (4n+2)/3 characters, all in `A-Z a-z 0-9 - _` |
| Base64Url.DecodeEncodeGroup | src/index.ts:19 | a group of 1-3 bytes is recovered from its 2-4 characters |
| Base64Url.DecodeEncode | src/index.ts:19 | decoding the base64url text of any bytes gives the bytes back |
| Base64Url.EncodeInjective | src/index.ts:19 | distinct byte sequences have distinct base64url texts |
| Base64Url.EncodeIsFilenameSafe | src/index.ts:19 | the text never holds `/`, `\`, `=` or `+` |
| Base64Url.VectorF | src/index.ts:19 | "f" encodes to `Zg` (test vector "Zg==" of section 10 of RFC 4648, unpadded) |
| Base64Url.VectorFo | src/index.ts:19 | "fo" encodes to `Zm8` |
| Base64Url.VectorFoo | src/index.ts:19 | "foo" encodes to `Zm9v` |
| Base64Url.UrlSafeVector | src/index.ts:19 | bytes FB FF encode to `-_8`, where the standard alphabet would use `+` and `/` |
| CacheKey.Key | src/index.ts:19 | the key uses only the url-safe alphabet and is empty exactly when the serialised URL is |
| CacheKey.KeyInjective | src/index.ts:19 | distinct serialised URLs get distinct keys |
| CacheKey.KeyIsFilenameSafe | src/index.ts:19 | a key holds no `/`, `\` or `=`, so it is a single path component |
| CacheKey.DirPrefix | src/index.ts:33 | what `path.join` puts before the file name is empty or ends in `/` |
| CacheKey.Join | src/index.ts:33 | `path.join(dir, name)` is the directory prefix followed by `name`; for a non-empty directory, a `/` stands just before the name |
| CacheKey.EntryPath | src/index.ts:46 | the entry of a URL is `path.join(cacheDir, encodedUrl)`, the joined path of the cache directory and the URL's key |
| CacheKey.AbsolutePath | src/index.ts:60 | `path.resolve(p)` keeps an absolute `p` and joins a relative one onto the working directory, so it is absolute whenever the working directory is |
| CacheKey.JoinInjective | src/index.ts:46 | within one directory, distinct file names give distinct joined paths |
| CacheKey.EntryPathUnique | src/index.ts:50-51 | for one cache directory, distinct serialised URLs have distinct entry paths |
| CacheKey.EntryIsDirectChild | src/index.ts:46 | the entry path is the directory prefix followed by a name with no separator |
| CacheKey.ResolvedPathUnique | src/index.ts:59-61 | the absolute paths the hook returns for distinct serialised URLs differ |
| CacheStore.Listed | src/index.ts:46 | after a write, the listing holds exactly the old names plus the written one, still without duplicates |
| CacheStore.StatMtime | src/index.ts:31-34 | the mtime the hook uses: the entry's modification time when its stat succeeds, 0 when it fails |
| CacheStore.IsExpired | src/index.ts:21-42 | the value `isCacheExpired` ends with: false exactly when the key is listed and now minus its mtime is below the window |
| CacheStore.CacheDirectory.ReadDirOrCreate | src/index.ts:23-26 | an existing directory yields its listing unchanged; a missing one is created and yields the empty listing; files are untouched |
| CacheStore.CacheDirectory.Stat | src/index.ts:31-34 | the stat succeeds exactly for names that have a file, and then gives that file's mtime |
| CacheStore.CacheDirectory.WriteFile | src/index.ts:46 | the written entry gets the new content and mtime, the name is listed, and every other entry is unchanged |
| CacheStore.CacheDirectory.ScanListing | src/index.ts:21-42 | the loop leaves `isCacheExpired` false exactly when the key is listed and now - mtime < cacheDuration, with mtime 0 on a failed stat; it stats once if the key is listed, otherwise never |
| CacheStore.MissIsExpired | src/index.ts:21-29 | a key missing from the listing, including the empty listing of a just-created directory, is expired |
| CacheStore.FreshnessBoundary | src/index.ts:36 | an entry written at t0 is fresh at t0+W-1 and expired at t0+W and t0+W+1: the comparison is strict |
| CacheStore.FailedStatIsEpoch | src/index.ts:31-36 | a listed entry whose stat fails is expired exactly when now >= cacheDuration |
| CacheStore.FreshAfterWrite | src/index.ts:44-46 | just after the entry is written at t, it is fresh for any now with now - t < cacheDuration |
| CacheStore.ExpiryIsLocal | src/index.ts:28-36 | the verdict depends only on whether the key is listed and on the key's mtime, not on other entries or the listing order |
| ImportUrl.ResolveCalls | src/index.ts:23-56 | the outside calls of one resolution: a listing, a mkdir when the directory was missing, a stat when the key is listed, and a fetch, write and build when the entry is expired; 1 to 6 calls in all |
| ImportUrl.ResolveCallsEffects | src/index.ts:44-57 | a resolution begins with the listing and makes mkdir exactly when the directory was missing; a fresh hit makes no fetch, write or build; an expired one makes them last, in that order, each once |
| ImportUrl.ImportUrlPlugin.constructor | src/index.ts:9-16 | the plugin is named `ImportURLPlugin` and keeps its cache directory and duration; the duration defaults to three days in milliseconds |
| ImportUrl.ImportUrlPlugin.OnResolve | src/index.ts:17-18 | a specifier is resolved exactly when the filter matches it; a rejected one leaves the store unchanged and makes no call |
| ImportUrl.ImportUrlPlugin.Resolve | src/index.ts:19-61 | the result is the absolute entry path in both branches; a fresh hit leaves the store unchanged; on expiry only the key's entry changes, to the build output stamped now; the calls are as `ResolveCalls` lists them |
| ImportUrl.ImportUrlPlugin.Refresh | src/index.ts:44-57 | the expired branch fetches, writes the text, then builds onto the entry, so the entry ends up holding the build output, and no other entry changes |
| ImportUrl.ResolveIntoMissing | src/index.ts:21-57 | with no cache directory, a matched specifier is always expired: the directory is created, the entry fetched and built, and the directory then lists only the key, whose file holds the build output stamped now |
| ImportUrl.ResolveWithEntry | src/index.ts:28-57 | with the key's entry written at t0 as the only file, the entry is kept and only listed and stat'ed when now - t0 < cacheDuration, and otherwise fetched and rebuilt, stamped now; the path is the same in both branches |
| ImportUrl.ResolveTwiceThenAgainLater | src/index.ts:17-61 | with a 1000 ms window and no cache directory, the first resolution creates the directory, fetches and builds; an immediate second one only lists and stats; a third one 1100 ms later fetches and builds again; all three give the same path, and the directory ends up listing only the key, whose file holds the third build's output stamped t+1100 |

## Left out

- `new URL(...)` and its serialisation (src/index.ts:18) belong to the WHATWG URL parser, a foreign library. The hook takes the serialisation as the `serialize` function, so a specifier the parser rejects (the hook's exception) is not modelled.
- The network fetch through `node-fetch` (src/index.ts:45) is the `fetch` function from URL to text. Network failures are not modelled, and neither are error statuses, whose bodies the code caches as they come.
- The real file system is replaced by the in-memory `CacheDirectory`:
  - The only failures modelled are the two the code recovers from: a failed listing leads to mkdir, and a failed stat leads to mtime 0.
  - A failing `mkdir`, for example when a parent directory is missing, is not modelled.
  - `fs.writeFile` always writes text with UTF-8 encoding, so content is kept as a string.
- `build.esbuild.build` with `plugins: [self]` (src/index.ts:48-56) is the `bundle` function on the entry's text. It does not model the nested resolution of URL imports inside the fetched module, their recursion (unbounded on cyclic imports), or the other build options. The nested resolutions write entries of their own, so the "no other entry changes" of `ImportUrl.ImportUrlPlugin.Resolve` and `ImportUrl.ImportUrlPlugin.Refresh` holds only for a fetched module without remote imports.
- A failing `build.esbuild.build` (src/index.ts:48-56) is not modelled: `bundle` is a total function. The build fails when the fetched text is not a module esbuild can bundle, such as a cached error page, or when a nested import fails. In the source, the raw fetched text has then already been written to the entry at src/index.ts:46. The hook rejects and returns no path, and the build writes no output. The entry keeps the raw text with a fresh mtime, so later resolutions within the window return it unbundled, without a rebuild.
- File-name length limits are not modelled: `CacheStore.CacheDirectory.WriteFile` always succeeds. A key of n UTF-8 bytes has (4n+2)/3 characters, so URLs from 192 bytes on give keys of at least 256 characters. That is over the 255-byte name limit of common file systems (ext4, APFS, NTFS). For such URLs the write at src/index.ts:46 fails, the build then finds no entry, and the resolution fails.
- The write at src/index.ts:46 is not awaited, so the build may read the entry before the write finishes. Concurrent resolutions can also race on one key. The model runs every step in sequence.
- `Date.now()` is the `now` parameter, read once per resolution. Both writes of a refresh stamp the entry with that same `now`.
- `CacheKey.Join` and `CacheKey.AbsolutePath` model the POSIX `path.join` and `path.resolve`: the separator is `/` and a path is absolute when it starts with `/`. They assume a cache directory already in normal form (no `.` or `..` segments and no repeated separators) and do not normalise such paths. The Windows forms of `path` (separator `\`, drive-letter absolute paths) are not modelled.
- `CacheStore.CacheDirectory` compares file names exactly; case-insensitive file systems (the macOS and Windows defaults) are not modelled. Keys of distinct URLs can differ only in letter case: `https://a.com/aaaH` and `https://a.com/aaab` have keys ending in `I` and `i` with everything before equal. On such a file system both name one file, so the second URL can resolve to the first URL's bundle. `CacheKey.KeyInjective` promises distinct key strings, not distinct files.
- `Utf8.EncodeString`: a Dafny `char` is a Unicode scalar value. The lone surrogates a JavaScript string may hold, which `Buffer.from` replaces with U+FFFD, cannot occur.
- The longer test vectors of section 10 of RFC 4648 ("foob", "fooba", "foobar") are not stated. `Base64Url.DecodeEncode` and `Base64Url.Encode` cover every length.
- `Base64Url.Decode` ignores the leftover bits of a short final group and does not reject non-canonical text. It serves only as the inverse for the round-trip proofs.
