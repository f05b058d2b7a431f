/** The input shapes of a configured root, worked through the normaliser for
    an arbitrary host name (a non-empty string with no `/` and no
    whitespace, such as `host.com`). */
module ApiBaseExamples {
  import opened JsString
  import opened ApiBase

  predicate IsHost(h: string) {
    h != [] && forall k :: 0 <= k < |h| ==> h[k] != '/' && !IsWhitespace(h[k])
  }

  /** A host followed by `tail` holds no version directory inside the host. */
  lemma NoVersionDirInHost(h: string, tail: string, j: int)
    requires IsHost(h) && 0 <= j < |h|
    ensures !VersionDirAt(h + tail, j)
  {
    assert (h + tail)[j] == h[j];
  }

  /** The bare host gets `/api/v1`: `host.com` becomes `host.com/api/v1`. */
  lemma NormalizeBareHostExample(h: string)
    requires IsHost(h)
    ensures Normalize(h) == h + "/api/v1"
  {
    StrippedIdentity(h);
    forall j | 0 <= j
      ensures !VersionDirAt(h, j)
    {
      if j < |h| {
        NoVersionDirInHost(h, [], j);
        assert h + [] == h;
      }
    }
    VersionDirFromIff(h, 0);
    assert !EndsWithVersion(h) && !EndsWithApi(h) by {
      assert |h| >= 4 ==> h[|h| - 4] != '/';
      assert |h| >= 7 ==> h[|h| - 7] != '/';
    }
    NormalizeAppendsApiVersion(h);
  }

  /** The `/api` shape gets `/v1`: `host.com/api` becomes `host.com/api/v1`. */
  lemma NormalizeApiRootExample(h: string)
    requires IsHost(h)
    ensures Normalize(h + "/api") == h + "/api/v1"
  {
    var s := h + "/api";
    assert s[0] == h[0] && s[|s| - 1] == 'i';
    StrippedIdentity(s);
    forall j | 0 <= j
      ensures !VersionDirAt(s, j)
    {
      if j < |h| {
        NoVersionDirInHost(h, "/api", j);
      }
    }
    VersionDirFromIff(s, 0);
    assert |s| >= 7 ==> s[|s| - 7] != '/' by {
      if |s| >= 7 {
        assert s[|s| - 7] == h[|h| - 3];
      }
    }
    assert ApiAt(s, |h|);
    NormalizeAppendsVersion(s);
    assert s + "/v1" == h + "/api/v1";
  }

  /** The `/api/v2` shape becomes `/api/v1`: `host.com/api/v2` becomes
      `host.com/api/v1`. */
  lemma NormalizeV2Example(h: string)
    requires IsHost(h)
    ensures Normalize(h + "/api/v2") == h + "/api/v1"
  {
    var s := h + "/api/v2";
    assert s[0] == h[0] && s[|s| - 1] == '2';
    StrippedIdentity(s);
    assert VersionAt(s, |h|);
    NormalizeRewritesV2(s);
    assert s[..|s| - 7] == h;
  }

  /** The same, with the segment in upper case and a trailing slash:
      `host.com/API/V2/` becomes `host.com/api/v1`. */
  lemma NormalizeV2UpperSlashExample(h: string)
    requires IsHost(h)
    ensures Normalize(h + "/API/V2/") == h + "/api/v1"
  {
    var b := h + "/API/V2";
    assert h + "/API/V2/" == b + "/";
    assert b[0] == h[0] && b[|b| - 1] == '2';
    StrippedOfSlashed(b);
    assert VersionAt(b, |h|);
    NormalizeRewritesV2(b + "/");
    assert b[..|b| - 7] == h;
  }

  /** The canonical shape loses only its trailing slash: `host.com/api/v1/`
      becomes `host.com/api/v1`. */
  lemma NormalizeV1Example(h: string)
    requires IsHost(h)
    ensures Normalize(h + "/api/v1/") == h + "/api/v1"
  {
    var b := h + "/api/v1";
    assert h + "/api/v1/" == b + "/";
    assert b[0] == h[0] && b[|b| - 1] == '1';
    StrippedOfSlashed(b);
    assert VersionAt(b, |h|);
    NormalizeKeepsOtherVersions(b + "/");
  }

  /** Other versions are not rewritten: `host.com/api/v3` stays. */
  lemma NormalizeV3Example(h: string)
    requires IsHost(h)
    ensures Normalize(h + "/api/v3") == h + "/api/v3"
  {
    var s := h + "/api/v3";
    assert s[0] == h[0] && s[|s| - 1] == '3';
    StrippedIdentity(s);
    assert VersionAt(s, |h|);
    NormalizeKeepsOtherVersions(s);
  }

  /** An inner version directory keeps the whole root:
      `host.com/api/v1/foo` stays. */
  lemma NormalizeInnerVersionExample(h: string)
    requires IsHost(h)
    ensures Normalize(h + "/api/v1/foo") == h + "/api/v1/foo"
  {
    var s := h + "/api/v1/foo";
    assert s[0] == h[0] && s[|s| - 1] == 'o';
    StrippedIdentity(s);
    assert VersionDirAt(s, |h|);
    VersionDirFromIff(s, 0);
    NormalizeKeepsOtherVersions(s);
  }

  /** A two-digit version is no version segment, so `/api/v1` is appended:
      `host.com/api/v12` becomes `host.com/api/v12/api/v1`. */
  lemma NormalizeTwoDigitVersionExample(h: string)
    requires IsHost(h)
    ensures Normalize(h + "/api/v12") == h + "/api/v12/api/v1"
  {
    var s := h + "/api/v12";
    assert s[0] == h[0] && s[|s| - 1] == '2';
    StrippedIdentity(s);
    forall j | 0 <= j
      ensures !VersionDirAt(s, j)
    {
      if j < |h| {
        NoVersionDirInHost(h, "/api/v12", j);
      } else if j == |h| {
        assert s[j + 7] == '2';
      }
    }
    VersionDirFromIff(s, 0);
    assert s[|s| - 7] == 'a' && s[|s| - 3] == 'v';
    NormalizeAppendsApiVersion(s);
    assert s + "/api/v1" == h + "/api/v12/api/v1";
  }

  /** Idempotence fails when whitespace precedes the trailing slashes:
      `host.com/api/v1/x /` normalises to `host.com/api/v1/x ` (the slash is
      stripped after trimming), which a second pass trims to
      `host.com/api/v1/x`. */
  lemma NormalizeNotIdempotentExample(h: string)
    requires IsHost(h)
    ensures Normalize(h + "/api/v1/x /") == h + "/api/v1/x "
    ensures Normalize(h + "/api/v1/x ") == h + "/api/v1/x"
  {
    var q := h + "/api/v1/x";
    assert h + "/api/v1/x /" == (q + " ") + "/" && h + "/api/v1/x " == q + " ";
    SpaceSurvivesFirstPass(h, q);
    SpaceTrimmedBySecondPass(h, q);
  }

  /** First pass: the trim sees no trailing whitespace, the slash goes, the
      space stays. */
  lemma SpaceSurvivesFirstPass(h: string, q: string)
    requires IsHost(h) && q == h + "/api/v1/x"
    ensures Normalize((q + " ") + "/") == q + " "
  {
    var r := q + " ";
    assert r[0] == h[0] && r[|r| - 1] == ' ';
    StrippedOfSlashed(r);
    assert VersionDirAt(r, |h|);
    VersionDirFromIff(r, 0);
    NormalizeKeepsOtherVersions(r + "/");
  }

  /** Second pass: the now-trailing space is trimmed. */
  lemma SpaceTrimmedBySecondPass(h: string, q: string)
    requires IsHost(h) && q == h + "/api/v1/x"
    ensures Normalize(q + " ") == q
  {
    var r := q + " ";
    assert q[0] == h[0] && q[|q| - 1] == 'x';
    TrimOfPadded(q, ' ');
    assert Stripped(r) == q;
    assert VersionDirAt(q, |h|);
    VersionDirFromIff(q, 0);
    NormalizeKeepsOtherVersions(r);
  }
}
