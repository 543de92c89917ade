/**
 * The filter that decides whether an import specifier is a remote URL
 * (`urlRegexp` in src/index.ts):
 *
 *   ^https?://(?:www\.)?[-a-zA-Z0-9@:%._+~#=]{1,256}\.[a-zA-Z0-9()]{1,6}\b[-a-zA-Z0-9()@:%_+.~#?&/=]*$
 *
 * `Matches` states the language of the pattern declaratively: some way of
 * cutting the specifier into scheme, optional `www.`, domain, dot, top-level
 * label and tail satisfies every piece. Because the domain class contains `.`,
 * a specifier may be cut in several ways and the top-level label need not
 * start at the first dot. `IsRemoteUrl` is the executable check: it searches
 * the finitely many cut points and is proved equivalent to `Matches`.
 *
 * The pattern has no `u` flag, so `\b` uses the ASCII word characters
 * `[A-Za-z0-9_]`, and the start and end of the input count as non-word.
 */
module UrlMatcher {

  predicate IsAsciiLetter(c: char) {
    'a' <= c <= 'z' || 'A' <= c <= 'Z'
  }

  predicate IsAsciiDigit(c: char) {
    '0' <= c <= '9'
  }

  predicate IsAsciiAlnum(c: char) {
    IsAsciiLetter(c) || IsAsciiDigit(c)
  }

  /** `\w` of a regular expression without the `u` flag. */
  predicate IsWordChar(c: char) {
    IsAsciiAlnum(c) || c == '_'
  }

  /** `[-a-zA-Z0-9@:%._\+~#=]`, the domain class. */
  predicate IsDomainChar(c: char) {
    || IsAsciiAlnum(c)
    || c == '-' || c == '@' || c == ':' || c == '%' || c == '.' || c == '_'
    || c == '+' || c == '~' || c == '#' || c == '='
  }

  /** `[a-zA-Z0-9()]`, the top-level label class. */
  predicate IsTldChar(c: char) {
    IsAsciiAlnum(c) || c == '(' || c == ')'
  }

  /** `[-a-zA-Z0-9()@:%_\+.~#?&\/=]`, the path, query and fragment class. */
  predicate IsTailChar(c: char) {
    || IsAsciiAlnum(c)
    || c == '-' || c == '(' || c == ')' || c == '@' || c == ':' || c == '%' || c == '_'
    || c == '+' || c == '.' || c == '~' || c == '#' || c == '?' || c == '&' || c == '/' || c == '='
  }

  predicate AllDomainChars(s: string) {
    forall i :: 0 <= i < |s| ==> IsDomainChar(s[i])
  }

  predicate AllTldChars(s: string) {
    forall i :: 0 <= i < |s| ==> IsTldChar(s[i])
  }

  predicate AllTailChars(s: string) {
    forall i :: 0 <= i < |s| ==> IsTailChar(s[i])
  }

  /** `\b` holds between positions `p - 1` and `p` of `s`. */
  predicate WordBoundaryAt(s: string, p: int)
    requires 0 <= p <= |s|
  {
    (p > 0 && IsWordChar(s[p - 1])) != (p < |s| && IsWordChar(s[p]))
  }

  /** `https?://` */
  predicate IsScheme(x: string) {
    x == "http://" || x == "https://"
  }

  /** `(?:www\.)?` */
  predicate IsWww(x: string) {
    x == "" || x == "www."
  }

  /** `[-a-zA-Z0-9@:%._\+~#=]{1,256}` */
  predicate IsDomain(x: string) {
    1 <= |x| <= 256 && AllDomainChars(x)
  }

  /** `[a-zA-Z0-9()]{1,6}` */
  predicate IsTld(x: string) {
    1 <= |x| <= 6 && AllTldChars(x)
  }

  /** One way of reading `s` as the pattern, piece by piece. */
  ghost predicate IsSplit(s: string, scheme: string, www: string, domain: string, tld: string, tail: string) {
    && s == scheme + www + domain + "." + tld + tail
    && IsScheme(scheme)
    && IsWww(www)
    && IsDomain(domain)
    && IsTld(tld)
    && WordBoundaryAt(s, |s| - |tail|)
    && AllTailChars(tail)
  }

  /** The specifier is in the language of `urlRegexp`. */
  ghost predicate Matches(s: string) {
    exists scheme, www, domain, tld, tail :: IsSplit(s, scheme, www, domain, tld, tail)
  }

  // ---------------------------------------------------------------------
  // The executable check, over cut positions.
  // ---------------------------------------------------------------------

  function Min(x: int, y: int): int {
    if x <= y then x else y
  }

  /** The length of the scheme `s` starts with: 8 for `https://`, 7 for `http://`, 0 for neither. */
  function SchemeLength(s: string): (k: nat)
    ensures k == 0 || k == 7 || k == 8
    ensures k <= |s|
    ensures k == 8 <==> |s| >= 8 && s[..8] == "https://"
    ensures k == 7 <==> |s| >= 7 && s[..7] == "http://"
  {
    if |s| >= 8 && s[..8] == "https://" then
      assert s[..7][4] != "http://"[4];
      8
    else if |s| >= 7 && s[..7] == "http://" then 7
    else 0
  }

  /** The domain may start at `a`: right after the scheme, or after a `www.` that follows it. */
  predicate DomainStart(s: string, a: int) {
    var k := SchemeLength(s);
    k != 0 && (a == k || (a == k + 4 && a <= |s| && s[k..a] == "www."))
  }

  /**
   * With the domain at `s[a..b]`, the dot at `s[b]` and the top-level label at
   * `s[b + 1..c]`, every remaining piece of the pattern is satisfied.
   */
  predicate Candidate(s: string, a: int, b: int, c: int) {
    && 0 <= a <= b < |s| && b + 1 <= c <= |s|
    && s[b] == '.'
    && IsDomain(s[a..b])
    && IsTld(s[b + 1..c])
    && WordBoundaryAt(s, c)
    && AllTailChars(s[c..])
  }

  /** Some end `c'` of the top-level label, at most `c`, completes a match. */
  function TldSearch(s: string, a: int, b: int, c: int): (r: bool)
    decreases c - b
    ensures r <==> exists c' :: b + 1 < c' <= c && Candidate(s, a, b, c')
  {
    if c <= b + 1 then false
    else Candidate(s, a, b, c) || TldSearch(s, a, b, c - 1)
  }

  /** Some position `b'` of the dot, at most `b`, completes a match with the domain starting at `a`. */
  function DomainSearch(s: string, a: int, b: int): (r: bool)
    decreases b - a
    ensures r <==> exists b', c :: a < b' <= b && Candidate(s, a, b', c)
  {
    if b <= a then false
    else
      var found := TldSearch(s, a, b, Min(b + 7, |s|));
      assert found <== exists c :: Candidate(s, a, b, c) by {
        if c :| Candidate(s, a, b, c) {
          assert b + 1 < c <= Min(b + 7, |s|);
        }
      }
      found || DomainSearch(s, a, b - 1)
  }

  /** The remote-URL filter, computed. */
  function IsRemoteUrl(s: string): (r: bool)
    ensures r <==> Matches(s)
  {
    var k := SchemeLength(s);
    var r := k != 0 &&
      (DomainSearch(s, k, Min(k + 256, |s| - 1)) ||
       (k + 4 <= |s| && s[k..k + 4] == "www." && DomainSearch(s, k + 4, Min(k + 260, |s| - 1))));
    assert r <==> exists a, b, c :: DomainStart(s, a) && Candidate(s, a, b, c) by {
      if a, b, c :| DomainStart(s, a) && Candidate(s, a, b, c) {
        assert a == k ==> a < b <= Min(k + 256, |s| - 1);
        assert a != k ==> a < b <= Min(k + 260, |s| - 1);
      }
    }
    MatchesIffCandidate(s);
    r
  }

  /** The declarative language and the cut-position form agree. */
  lemma MatchesIffCandidate(s: string)
    ensures Matches(s) <==> exists a, b, c :: DomainStart(s, a) && Candidate(s, a, b, c)
  {
    if Matches(s) {
      var scheme, www, domain, tld, tail :| IsSplit(s, scheme, www, domain, tld, tail);
      SplitGivesCandidate(s, scheme, www, domain, tld, tail);
    }
    if a, b, c :| DomainStart(s, a) && Candidate(s, a, b, c) {
      CandidateGivesSplit(s, a, b, c);
    }
  }

  lemma SplitGivesCandidate(s: string, scheme: string, www: string, domain: string, tld: string, tail: string)
    requires IsSplit(s, scheme, www, domain, tld, tail)
    ensures var a := |scheme| + |www|;
            var b := a + |domain|;
            DomainStart(s, a) && Candidate(s, a, b, b + 1 + |tld|)
  {
    var a := |scheme| + |www|;
    var b := a + |domain|;
    var c := b + 1 + |tld|;
    SliceSix(scheme, www, domain, ".", tld, tail);
    assert s[..|scheme|] == scheme;
    if scheme == "http://" {
      assert s[4] == ':';
    }
    assert SchemeLength(s) == |scheme|;
    assert s[b..b + 1] == ".";
  }

  lemma CandidateGivesSplit(s: string, a: int, b: int, c: int)
    requires DomainStart(s, a) && Candidate(s, a, b, c)
    ensures Matches(s)
  {
    var k := SchemeLength(s);
    var scheme, www, domain, tld, tail := s[..k], s[k..a], s[a..b], s[b + 1..c], s[c..];
    SchemeAndWww(s, a);
    Reassemble(s, k, a, b, c);
    SplitMatches(s, scheme, www, domain, tld, tail);
  }

  lemma SchemeAndWww(s: string, a: int)
    requires DomainStart(s, a)
    ensures var k := SchemeLength(s);
            k <= a <= |s| && IsScheme(s[..k]) && IsWww(s[k..a])
  {
  }

  lemma SplitMatches(s: string, scheme: string, www: string, domain: string, tld: string, tail: string)
    requires IsSplit(s, scheme, www, domain, tld, tail)
    ensures Matches(s)
  {
  }

  /** The six pieces of a concatenation are its slices at the running lengths. */
  lemma SliceSix(p1: string, p2: string, p3: string, p4: string, p5: string, p6: string)
    ensures var s := p1 + p2 + p3 + p4 + p5 + p6;
            var i1 := |p1|;
            var i2 := i1 + |p2|;
            var i3 := i2 + |p3|;
            var i4 := i3 + |p4|;
            var i5 := i4 + |p5|;
            && s[..i1] == p1 && s[i1..i2] == p2 && s[i2..i3] == p3
            && s[i3..i4] == p4 && s[i4..i5] == p5 && s[i5..] == p6
  {
    var q2 := p1 + p2;
    var q3 := q2 + p3;
    var q4 := q3 + p4;
    var q5 := q4 + p5;
    var s := q5 + p6;
    assert s[..|q5|] == q5 && s[|q5|..] == p6;
    assert q5[..|q4|] == q4 && q5[|q4|..] == p5;
    assert q4[..|q3|] == q3 && q4[|q3|..] == p4;
    assert q3[..|q2|] == q2 && q3[|q2|..] == p3;
    assert q2[..|p1|] == p1 && q2[|p1|..] == p2;
  }

  /** A string with a dot at `i3` is the concatenation of its slices around that dot and three more cut points. */
  lemma Reassemble(s: string, i1: int, i2: int, i3: int, i4: int)
    requires 0 <= i1 <= i2 <= i3 < i4 <= |s| && s[i3] == '.'
    ensures s == s[..i1] + s[i1..i2] + s[i2..i3] + "." + s[i3 + 1..i4] + s[i4..]
  {
    assert s[..i2] == s[..i1] + s[i1..i2];
    assert s[..i3] == s[..i2] + s[i2..i3];
    assert s[..i3 + 1] == s[..i3] + ".";
    assert s[..i4] == s[..i3 + 1] + s[i3 + 1..i4];
    assert s == s[..i4] + s[i4..];
  }

  // ---------------------------------------------------------------------
  // What the filter lets through and what it turns away.
  // ---------------------------------------------------------------------

  /** A matching specifier starts with `http://` or `https://`. */
  lemma MatchHasScheme(s: string)
    requires Matches(s)
    ensures (|s| >= 7 && s[..7] == "http://") || (|s| >= 8 && s[..8] == "https://")
  {
    var scheme, www, domain, tld, tail :| IsSplit(s, scheme, www, domain, tld, tail);
    assert s[..|scheme|] == scheme;
  }

  /** A specifier that does not start with `http://` or `https://` is left to other resolvers. */
  lemma RejectsOtherSchemes(s: string)
    requires !(|s| >= 7 && s[..7] == "http://") && !(|s| >= 8 && s[..8] == "https://")
    ensures !IsRemoteUrl(s)
  {
    if Matches(s) {
      MatchHasScheme(s);
    }
  }

  /** Every character of a matching specifier lies in the tail class, the union of all classes. */
  lemma MatchedCharsAreTailChars(s: string)
    requires Matches(s)
    ensures AllTailChars(s)
  {
    var scheme, www, domain, tld, tail :| IsSplit(s, scheme, www, domain, tld, tail);
    assert AllTailChars(scheme) && AllTailChars(www) && AllTailChars(".");
    DomainCharsAreTailChars(domain);
    TldCharsAreTailChars(tld);
    TailCharsConcat(scheme, www);
    TailCharsConcat(scheme + www, domain);
    TailCharsConcat(scheme + www + domain, ".");
    TailCharsConcat(scheme + www + domain + ".", tld);
    TailCharsConcat(scheme + www + domain + "." + tld, tail);
  }

  lemma DomainCharsAreTailChars(x: string)
    requires AllDomainChars(x)
    ensures AllTailChars(x)
  {
    forall i | 0 <= i < |x| ensures IsTailChar(x[i]) {
      assert IsDomainChar(x[i]);
    }
  }

  lemma TldCharsAreTailChars(x: string)
    requires AllTldChars(x)
    ensures AllTailChars(x)
  {
    forall i | 0 <= i < |x| ensures IsTailChar(x[i]) {
      assert IsTldChar(x[i]);
    }
  }

  lemma TailCharsConcat(x: string, y: string)
    requires AllTailChars(x) && AllTailChars(y)
    ensures AllTailChars(x + y)
  {
    forall i | 0 <= i < |x + y| ensures IsTailChar((x + y)[i]) {
      if i < |x| {
        assert (x + y)[i] == x[i];
      } else {
        assert (x + y)[i] == y[i - |x|];
      }
    }
  }

  /** Any character outside the allowed classes, such as a space, rules the specifier out. */
  lemma RejectsForeignChar(s: string, i: int)
    requires 0 <= i < |s| && !IsTailChar(s[i])
    ensures !IsRemoteUrl(s)
  {
    if Matches(s) {
      MatchedCharsAreTailChars(s);
    }
  }

  /** The shortest matching specifier is `http://` plus one domain character, a dot and one label character. */
  lemma MatchLengthBound(s: string)
    requires Matches(s)
    ensures |s| >= 10
  {
    var scheme, www, domain, tld, tail :| IsSplit(s, scheme, www, domain, tld, tail);
  }

  /**
   * `https://example.com/mod.js` is a remote import. The specifier is a
   * parameter fixed by the precondition: applied to a literal, `IsRemoteUrl`
   * would be unfolded eagerly through its whole search.
   */
  lemma ExampleIsRemote(s: string)
    requires s == "https://example.com/mod.js"
    ensures IsRemoteUrl(s)
  {
    ExamplePieces();
    assert s == "https://" + "" + "example" + "." + "com" + "/mod.js";
    assert s[18] == 'm' && s[19] == '/';
    SplitMatches(s, "https://", "", "example", "com", "/mod.js");
  }

  /** The pieces of `https://example.com/mod.js` each match their part of the pattern. */
  lemma ExamplePieces()
    ensures IsScheme("https://") && IsWww("")
    ensures IsDomain("example") && IsTld("com") && AllTailChars("/mod.js")
  {
    var d, t := "example", "/mod.js";
    assert forall i :: 0 <= i < |d| ==> IsAsciiLetter(d[i]);
    assert t[0] == '/' && forall i :: 1 <= i < |t| ==> IsAsciiAlnum(t[i]) || t[i] == '.';
  }

  /** Relative paths and other schemes are not. */
  lemma ExamplesAreLocal()
    ensures !IsRemoteUrl("./foo")
    ensures !IsRemoteUrl("ftp://example.com/mod.js")
    ensures !IsRemoteUrl("https://example.com/my mod.js")
  {
    var local, ftp := "./foo", "ftp://example.com/mod.js";
    assert ftp[..7][0] != "http://"[0] && ftp[..8][0] != "https://"[0];
    RejectsOtherSchemes(local);
    RejectsOtherSchemes(ftp);
    RejectsForeignChar("https://example.com/my mod.js", 22);
  }
}
