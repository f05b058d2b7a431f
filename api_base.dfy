/** The base-URL normaliser of the REST bridge (`normalizeApiBase_`): it turns
    whatever the deployment configured as the platform's API base into a root
    that ends in a versioned API path, to which the handler appends the
    private-notes resource. */
module ApiBase {
  import opened JsString

  /** The fallback root used when the configured base is empty. */
  const DefaultBase: string := "https://api.mcw.cxgenie.app/api/v1"

  /** The start of the run of `/` that ends `s[..j]`. */
  function SlashRunStart(s: string, j: nat): (k: nat)
    requires j <= |s|
    ensures k <= j
    ensures k == 0 || s[k - 1] != '/'
    decreases j
  {
    if j > 0 && s[j - 1] == '/' then SlashRunStart(s, j - 1) else j
  }

  /** Everything `SlashRunStart` passes over is a `/`. */
  lemma {:induction false} SlashRunIsSlashes(s: string, j: nat)
    requires j <= |s|
    ensures forall k :: SlashRunStart(s, j) <= k < j ==> s[k] == '/'
    decreases j
  {
    if j > 0 && s[j - 1] == '/' {
      SlashRunIsSlashes(s, j - 1);
    }
  }

  /** The regular-expression replace that deletes the run of `/` at the end:
      what is left is a prefix of `s` that does not end in `/`, and what goes
      is all slashes. */
  function StripTrailingSlashes(s: string): (r: string)
    ensures |r| <= |s| && r == s[..|r|]
    ensures r == [] || r[|r| - 1] != '/'
    ensures forall k :: |r| <= k < |s| ==> s[k] == '/'
  {
    SlashRunIsSlashes(s, |s|);
    s[..SlashRunStart(s, |s|)]
  }

  /** `s` holds `/api` at position `i`, letters in either case. */
  predicate ApiAt(s: string, i: int) {
    && 0 <= i
    && i + 4 <= |s|
    && s[i] == '/'
    && (s[i + 1] == 'a' || s[i + 1] == 'A')
    && (s[i + 2] == 'p' || s[i + 2] == 'P')
    && (s[i + 3] == 'i' || s[i + 3] == 'I')
  }

  /** `s` holds `/api/v<digit>` at position `i`, letters in either case. */
  predicate VersionAt(s: string, i: int) {
    && ApiAt(s, i)
    && i + 7 <= |s|
    && s[i + 4] == '/'
    && (s[i + 5] == 'v' || s[i + 5] == 'V')
    && IsDigit(s[i + 6])
  }

  /** The test `/\/api$/i`. */
  predicate EndsWithApi(s: string) {
    |s| >= 4 && ApiAt(s, |s| - 4)
  }

  /** The test `/\/api\/v\d$/i`. */
  predicate EndsWithVersion(s: string) {
    |s| >= 7 && VersionAt(s, |s| - 7)
  }

  /** `s` holds `/api/v<digit>/` at position `i`, letters in either case. */
  predicate VersionDirAt(s: string, i: int) {
    VersionAt(s, i) && i + 8 <= |s| && s[i + 7] == '/'
  }

  /** `/api/v<digit>/` occurs in `s` at `i` or later. */
  predicate VersionDirFrom(s: string, i: nat)
    decreases |s| - i
  {
    i + 8 <= |s| && (VersionDirAt(s, i) || VersionDirFrom(s, i + 1))
  }

  /** The recursive search finds exactly the positions at or after `i` where
      the version directory stands. */
  lemma {:induction false} VersionDirFromIff(s: string, i: nat)
    ensures VersionDirFrom(s, i) <==> exists j :: i <= j && VersionDirAt(s, j)
    decreases |s| - i
  {
    if i + 8 <= |s| {
      VersionDirFromIff(s, i + 1);
      if exists j :: i <= j && VersionDirAt(s, j) {
        var j :| i <= j && VersionDirAt(s, j);
        assert j == i || (i + 1 <= j && VersionDirAt(s, j));
      }
    } else {
      assert forall j :: i <= j ==> !VersionDirAt(s, j);
    }
  }

  /** The test `/\/api\/v\d\//i`, which is not anchored: the version
      directory may stand anywhere in the string. */
  predicate ContainsVersionDir(s: string) {
    VersionDirFrom(s, 0)
  }

  /** The test `/\/api\/v2$/i`. */
  predicate EndsWithV2(s: string) {
    EndsWithVersion(s) && s[|s| - 1] == '2'
  }

  /** A root the normaliser treats as already carrying an API version. */
  predicate IsVersioned(s: string) {
    EndsWithVersion(s) || ContainsVersionDir(s)
  }

  /** The string the normaliser classifies: the trimmed input with its
      trailing slashes removed. */
  function Stripped(base: string): (b: string)
    ensures b == [] || b[|b| - 1] != '/'
    ensures |b| <= |Trim(base)| && b == Trim(base)[..|b|]
  {
    StripTrailingSlashes(Trim(base))
  }

  /** `normalizeApiBase_`. Total: every input yields a root that carries an
      API version and does not end in `/`; an input that is empty after
      trimming yields the default root. */
  function Normalize(base: string): (r: string)
    ensures r != [] && r[|r| - 1] != '/'
    ensures IsVersioned(r)
    ensures Trim(base) == [] ==> r == DefaultBase
  {
    if Trim(base) == [] then
      DefaultIsVersioned();
      DefaultBase
    else
      Versioned(Stripped(base))
  }

  /** The version rules of `normalizeApiBase_`, applied to the trimmed,
      slash-stripped root `b`. */
  function Versioned(b: string): (r: string)
    requires b == [] || b[|b| - 1] != '/'
    ensures r != [] && r[|r| - 1] != '/'
    ensures IsVersioned(r)
  {
    if !EndsWithVersion(b) && !ContainsVersionDir(b) then
      if EndsWithApi(b) then
        AppendVersionToApi(b);
        b + "/v1"
      else
        AppendApiVersion(b);
        b + "/api/v1"
    else if EndsWithV2(b) then
      AppendApiVersion(b[..|b| - 7]);
      b[..|b| - 7] + "/api/v1"
    else
      b
  }

  /** The default root starts with `h` and ends with `1`. */
  lemma DefaultBaseEnds()
    ensures DefaultBase[0] == 'h' && DefaultBase[|DefaultBase| - 1] == '1'
  {
  }

  /** The default root ends in a version segment. */
  lemma DefaultIsVersioned()
    ensures EndsWithVersion(DefaultBase)
  {
  }

  /** `/v1` after a trailing `/api` forms a version segment. */
  lemma AppendVersionToApi(b: string)
    requires EndsWithApi(b)
    ensures EndsWithVersion(b + "/v1")
  {
    var r := b + "/v1";
    assert r[|r| - 7..|r| - 3] == b[|b| - 4..];
  }

  /** `/api/v1` after any root forms a version segment. */
  lemma AppendApiVersion(p: string)
    ensures EndsWithVersion(p + "/api/v1")
  {
  }

  /** A root with neither a trailing nor an inner version segment, but ending
      in `/api`, gets `/v1` appended. */
  lemma NormalizeAppendsVersion(base: string)
    requires !IsVersioned(Stripped(base)) && EndsWithApi(Stripped(base))
    ensures Normalize(base) == Stripped(base) + "/v1"
  {
  }

  /** A root with no API segment at its end and no version anywhere gets the
      whole `/api/v1` appended. */
  lemma NormalizeAppendsApiVersion(base: string)
    requires Trim(base) != []
    requires !IsVersioned(Stripped(base)) && !EndsWithApi(Stripped(base))
    ensures Normalize(base) == Stripped(base) + "/api/v1"
  {
  }

  /** A root ending in `/api/v2` (either case) has exactly that segment
      replaced by `/api/v1`; everything before it is kept. */
  lemma NormalizeRewritesV2(base: string)
    requires EndsWithV2(Stripped(base))
    ensures |Stripped(base)| >= 7
    ensures Normalize(base) == Stripped(base)[..|Stripped(base)| - 7] + "/api/v1"
  {
    var b := Stripped(base);
    assert Trim(base) != [];
    assert Normalize(base) == Versioned(b);
  }

  /** A root that carries any other version, at its end or as an inner
      directory, is returned as stripped: no other version is rewritten. */
  lemma NormalizeKeepsOtherVersions(base: string)
    requires IsVersioned(Stripped(base)) && !EndsWithV2(Stripped(base))
    ensures Normalize(base) == Stripped(base)
  {
  }

  /** The version rules never leave a root ending in `/api/v2`, and what they
      return either is their input or ends in `1`. */
  lemma VersionedEnding(b: string)
    requires b == [] || b[|b| - 1] != '/'
    ensures !EndsWithV2(Versioned(b))
    ensures Versioned(b) == b || Versioned(b)[|Versioned(b)| - 1] == '1'
  {
  }

  /** The version rules keep the first character of a non-empty root, and
      start an empty one with `/`. */
  lemma VersionedStart(b: string)
    requires b == [] || b[|b| - 1] != '/'
    ensures b == [] ==> Versioned(b)[0] == '/'
    ensures b != [] ==> Versioned(b)[0] == b[0]
  {
    if b != [] && EndsWithV2(b) {
      if |b| > 7 {
        assert Versioned(b)[0] == b[..|b| - 7][0];
      } else {
        assert b[0] == '/';
      }
    }
  }

  /** What a first pass returns starts with no whitespace, never ends in
      `/api/v2`, and is either the stripped input or ends in `1`. */
  lemma NormalizeEnds(base: string)
    ensures !IsWhitespace(Normalize(base)[0])
    ensures !EndsWithV2(Normalize(base))
    ensures Normalize(base) == Stripped(base) || Normalize(base)[|Normalize(base)| - 1] == '1'
  {
    var t := Trim(base);
    var r := Normalize(base);
    if t == [] {
      DefaultBaseEnds();
    } else {
      var b := StripTrailingSlashes(t);
      assert r == Versioned(b) && Stripped(base) == b;
      VersionedEnding(b);
      VersionedStart(b);
      if b != [] {
        assert b[0] == t[0];
      }
    }
  }

  /** A versioned root that does not end in `/api/v2` passes the version
      rules unchanged. */
  lemma VersionedFixesVersioned(b: string)
    requires b == [] || b[|b| - 1] != '/'
    requires IsVersioned(b) && !EndsWithV2(b)
    ensures Versioned(b) == b
  {
  }

  /** A root with no whitespace at its ends and no trailing slash reaches the
      version rules as it is. */
  lemma NormalizeOfStripped(s: string)
    requires s != [] && !IsWhitespace(s[0]) && !IsWhitespace(s[|s| - 1]) && s[|s| - 1] != '/'
    ensures Normalize(s) == Versioned(s)
  {
    TrimIdentity(s);
  }

  /** A root with no whitespace at its ends and no trailing slash is its own
      stripped form. */
  lemma StrippedIdentity(s: string)
    requires s != [] && !IsWhitespace(s[0]) && !IsWhitespace(s[|s| - 1]) && s[|s| - 1] != '/'
    ensures Stripped(s) == s
  {
    TrimIdentity(s);
  }

  /** Appending a slash to a root not ending in one is undone by stripping. */
  lemma StrippedOfSlashed(r: string)
    requires r != [] && !IsWhitespace(r[0]) && r[|r| - 1] != '/'
    ensures Stripped(r + "/") == r
  {
    var s := r + "/";
    assert s[0] == r[0] && s[|s| - 1] == '/';
    TrimIdentity(s);
    assert SlashRunStart(s, |s|) == SlashRunStart(s, |r|) == |r|;
    assert s[..|r|] == r;
  }

  /** A root ending in whitespace is never a fixed point. */
  lemma NormalizeMovesTrailingWhitespace(s: string)
    requires EndsWithWhitespace(s)
    ensures Normalize(s) != s
  {
    TrimShortens(s);
    NormalizeEnds(s);
    assert !IsWhitespace('1');
  }

  /** The normaliser's output is a fixed point of a second application
      exactly when it does not end in whitespace. It can end in whitespace
      only when the input had whitespace just before its trailing slashes,
      since trailing slashes are stripped after trimming. */
  lemma {:induction false} NormalizeIdempotentIff(base: string)
    ensures Normalize(Normalize(base)) == Normalize(base) <==> !EndsWithWhitespace(Normalize(base))
  {
    var r := Normalize(base);
    NormalizeEnds(base);
    if EndsWithWhitespace(r) {
      NormalizeMovesTrailingWhitespace(r);
    } else {
      NormalizeOfStripped(r);
      VersionedFixesVersioned(r);
    }
  }

  /** Hence the normaliser is idempotent on every input whose trimmed form
      contains no whitespace. */
  lemma {:induction false} NormalizeIdempotent(base: string)
    requires NoWhitespace(Trim(base))
    ensures Normalize(Normalize(base)) == Normalize(base)
  {
    var r := Normalize(base);
    NormalizeEnds(base);
    if r == Stripped(base) {
      assert r[|r| - 1] == Trim(base)[|r| - 1];
    }
    NormalizeIdempotentIff(base);
  }

  /** The default root is its own normal form. */
  lemma NormalizeDefaultFixed()
    ensures Normalize(DefaultBase) == DefaultBase
  {
    TrimEmptyIff("");
    NormalizeIdempotent("");
  }

  /** A whitespace-only base falls back to the default root. */
  lemma NormalizeBlank(base: string)
    requires forall k :: 0 <= k < |base| ==> IsWhitespace(base[k])
    ensures Normalize(base) == DefaultBase
  {
    TrimEmptyIff(base);
  }
}
