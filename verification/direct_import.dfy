/** Turning a discovered submodule path into an import specifier
    (lib/modules/moduleDirectImport.js). Unless direct imports are requested, the
    path is cut down to the part matched by the regular expression `^.[^/]*`:
    its first character and every following character up to the next `/`. */
module DirectImport {
  import opened Callback
  import opened Options

  /** The characters that `.` in a JavaScript regular expression (without the `s`
      flag) refuses to match. `[^/]` matches all of them. */
  predicate IsLineTerminator(c: char) {
    c == '\n' || c == '\r' || c == '\U{2028}' || c == '\U{2029}'
  }

  /** Index of the first `/` in `s` at or after `i`, or `|s|` if there is none. */
  function SlashFrom(s: string, i: nat): (e: nat)
    requires i <= |s|
    ensures i <= e <= |s|
    ensures forall k :: i <= k < e ==> s[k] != '/'
    ensures e == |s| || s[e] == '/'
    decreases |s| - i
  {
    if i == |s| || s[i] == '/' then i else SlashFrom(s, i + 1)
  }

  /** `r` is what the pattern `^.[^/]*` matches in `s`: a non-empty prefix of `s`
      whose first character is not a line terminator, with no `/` after its first
      character, and which cannot be extended (the rest of `s` is empty or starts
      with `/`). */
  ghost predicate IsFirstSegment(s: string, r: string) {
    1 <= |r| <= |s| && r == s[..|r|] && !IsLineTerminator(r[0])
    && (forall k :: 1 <= k < |r| ==> r[k] != '/')
    && (|r| == |s| || s[|r|] == '/')
  }

  /** `s.match` with the pattern `^.[^/]*`, reduced to the whole match `m[0]`; None when the
      pattern does not match. `[^/]*` is greedy, so the match runs to the next `/`. */
  function MatchFirstSegment(s: string): (m: Option<string>)
    ensures m.None? <==> (s == [] || IsLineTerminator(s[0]))
    ensures m.Some? ==> IsFirstSegment(s, m.value)
  {
    if s == [] || IsLineTerminator(s[0]) then None else Some(s[..SlashFrom(s, 1)])
  }

  /** `m && m[0] || filePath`: the match when there is a non-empty one, otherwise
      the whole input. */
  function Truncate(filePath: string): (r: string)
    ensures r <= filePath
    ensures filePath == [] || IsLineTerminator(filePath[0]) ==> r == filePath
    ensures filePath != [] && !IsLineTerminator(filePath[0]) ==> IsFirstSegment(filePath, r)
  {
    match MatchFirstSegment(filePath)
    case Some(m) => if m != [] then m else filePath
    case None => filePath
  }

  /** The stage itself: it always calls `next` once, with a null error, and passes
      the path through untouched when `directImport` is set. */
  function ModuleDirectImport(config: Config, filePath: string): (c: Call)
    ensures c.err == None && c.result.Some?
    ensures c.result.value <= filePath
    ensures config.directImport ==> c.result.value == filePath
    ensures !config.directImport ==> c.result.value == Truncate(filePath)
  {
    if config.directImport then Call(None, Some(filePath))
    else Call(None, Some(Truncate(filePath)))
  }

  /** The first segment is determined uniquely: any prefix with the shape the
      pattern describes is the one `Truncate` returns. */
  lemma FirstSegmentUnique(s: string, r: string)
    requires IsFirstSegment(s, r)
    ensures Truncate(s) == r
  {
  }

  /** Truncation is idempotent. */
  lemma TruncateIdempotent(s: string)
    ensures Truncate(Truncate(s)) == Truncate(s)
  {
  }

  /** A truncated path has no `/` after its first character, so truncation leaves
      it alone; and a path with that shape is its own first segment. */
  lemma TruncateFixedPoints(s: string)
    requires s != [] && !IsLineTerminator(s[0])
    ensures Truncate(s) == s <==> forall k :: 1 <= k < |s| ==> s[k] != '/'
  {
  }

  /** For a path starting with `/` whose second `/` is at index `j`: everything
      from that `/` on is dropped. (A path with no second `/` is kept whole, by
      TruncateFixedPoints.) */
  lemma TruncateRootedPath(s: string, j: nat)
    requires s != [] && s[0] == '/'
    requires 1 <= j < |s| && s[j] == '/'
    requires forall k :: 1 <= k < j ==> s[k] != '/'
    ensures Truncate(s) == s[..j]
  {
  }

  /** The example in the comment of moduleDirectImport.js: `/foo/bar` becomes
      `/foo`; so does `/foo/bar/baz`. */
  lemma TruncateExamples()
    ensures Truncate("/foo/bar") == "/foo"
    ensures Truncate("/foo/bar/baz") == "/foo"
  {
  }

  /** With direct imports on, nothing is removed, not even a trailing `/`. */
  lemma DirectImportKeepsTrailingSlash(config: Config)
    requires config.directImport
    ensures ModuleDirectImport(config, "/foo/bar/baz/").result == Some("/foo/bar/baz/")
  {
  }

  /** Only `directImport` is read from the configuration. */
  lemma OnlyDirectImportRead(c1: Config, c2: Config, filePath: string)
    requires c1.directImport == c2.directImport
    ensures ModuleDirectImport(c1, filePath) == ModuleDirectImport(c2, filePath)
  {
  }
}
