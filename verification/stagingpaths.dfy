/** Where the two handlers look for an uploaded file. The checker tests that
    the file exists and the transform tells workbench where it is; both turn
    backslashes into slashes, keep paths under /home/ and place other paths
    under /mnt/islandora_staging/, but they test the path's length and its
    "mnt" prefix at different moments, so the two are kept side by side. */
module StagingPaths {
  import opened Wrappers
  import opened GoStrings

  /** The staging area files are uploaded to. */
  const StagingDir := "/mnt/islandora_staging/"

  /** A path with its backslashes turned into slashes. */
  function Slashed(token: string): (s: string)
    ensures '\\' !in s
    ensures s == ReplaceAll(token, "\\", "/")
  {
    assert "\\"[0] == '\\' && '\\' !in "/";
    ReplaceAll(token, "\\", "/")
  }

  /** A path not under /home/, with its leading slashes dropped, placed under
      the staging area unless it is short or starts with "mnt". */
  function Unrooted(t: string): (r: string)
    requires '\\' !in t && (|t| > 0 ==> t[0] != '/')
    ensures '\\' !in r
    ensures |r| > 0 && r[0] == '/' ==> HasPrefix(r, StagingDir)
    ensures HasPrefix(r, StagingDir) ==> |r| == |StagingDir| || r[|StagingDir|] != '/'
  {
    if Utf8Len(t) > 3 && !HasPrefix(t, "mnt") then
      var r := StagingDir + t;
      assert r[|StagingDir|..] == t;
      r
    else t
  }

  /** A staging path as the transform writes it: backslashes become slashes; a
      path under /home/ is kept; otherwise leading slashes are dropped and,
      unless it then starts with "mnt", the path is placed under
      /mnt/islandora_staging/. Lengths are UTF-8 byte counts. */
  function StagingPath(token: string): (r: string)
    ensures '\\' !in r
    ensures |r| > 0 && r[0] == '/' ==> HasPrefix(r, "/home/") || HasPrefix(r, StagingDir)
    ensures HasPrefix(r, StagingDir) ==> |r| == |StagingDir| || r[|StagingDir|] != '/'
  {
    var s := Slashed(token);
    if Utf8Len(s) > 7 && HasPrefix(s, "/home/") then
      assert !HasPrefix(s, StagingDir) by { assert s[1] == "/home/"[1] != StagingDir[1]; }
      s
    else
      var t := TrimLeftChar(s, '/');
      assert '\\' !in t by { assert t == s[|s| - |t|..]; }
      Unrooted(t)
  }

  /** The staging path of a file cell before the mount is substituted, or None
      for a path under /home/, which is not checked. Backslashes become
      slashes; a path longer than three bytes that does not start with "mnt"
      loses its leading slashes and is placed under /mnt/islandora_staging/. */
  function CheckStagedPath(cell: string): (r: Option<string>)
    ensures r.None? <==> Utf8Len(Slashed(cell)) > 7 && HasPrefix(Slashed(cell), "/home/")
    ensures r.Some? ==> '\\' !in r.value
    ensures r.Some? && Utf8Len(Slashed(cell)) <= 3 ==> r.value == Slashed(cell)
    ensures r.Some? && Utf8Len(Slashed(cell)) > 3 && |r.value| > 0 && r.value[0] == '/' ==>
      && HasPrefix(r.value, StagingDir)
      && (|r.value| == |StagingDir| || r.value[|StagingDir|] != '/')
  {
    var f := Slashed(cell);
    if Utf8Len(f) > 7 && HasPrefix(f, "/home/") then None
    else if Utf8Len(f) > 3 && !HasPrefix(f, "mnt") then Some(UnderStaging(f))
    else Some(f)
  }

  /** A path with its leading slashes dropped, placed under the staging area. */
  function UnderStaging(f: string): (p: string)
    requires '\\' !in f
    ensures '\\' !in p
    ensures HasPrefix(p, StagingDir)
    ensures |p| == |StagingDir| || p[|StagingDir|] != '/'
  {
    var t := TrimLeftChar(f, '/');
    assert '\\' !in t by { assert t == f[|f| - |t|..]; }
    var p := StagingDir + t;
    assert p[|StagingDir|..] == t;
    p
  }

  // ---------------------------------------------------------------------------
  // Lemmas

  /** For a path that does not start with a slash the checker looks where the
      transform points workbench. */
  lemma RelativePathsAgree(cell: string)
    requires |Slashed(cell)| > 0 && Slashed(cell)[0] != '/'
    ensures CheckStagedPath(cell) == Some(StagingPath(cell))
  {
    var f := ReplaceAll(cell, "\\", "/");
    assert TrimLeftChar(f, '/') == f;
  }

  /** For a path that starts with a slash the two sides differ: the checker
      tests the length and the "mnt" prefix before dropping the slash, the
      transform after. A path under /mnt/ is checked under the staging area
      but given to workbench as it is. */
  lemma AbsolutePathsDiverge()
    ensures CheckStagedPath("/mnt/a") == Some("/mnt/islandora_staging/" + "mnt/a")
    ensures StagingPath("/mnt/a") == "mnt/a"
  {
    AbsolutePathChecked();
    AbsolutePathStaged();
  }

  lemma AbsolutePathChecked()
    ensures CheckStagedPath("/mnt/a") == Some("/mnt/islandora_staging/" + "mnt/a")
  {
    assert "\\" == ['\\'];
    ReplaceAbsentChar("/mnt/a", '\\', "/");
    assert !HasPrefix("/mnt/a", "/home/") && !HasPrefix("/mnt/a", "mnt");
    assert TrimLeftChar("/mnt/a", '/') == "mnt/a" by {
      assert "/mnt/a"[1..] == "mnt/a";
    }
  }

  lemma AbsolutePathStaged()
    ensures StagingPath("/mnt/a") == "mnt/a"
  {
    SlashedAbsent("/mnt/a");
    assert !HasPrefix("/mnt/a", "/home/") by { assert "/mnt/a"[1] != "/home/"[1]; }
    var t := TrimLeftChar("/mnt/a", '/');
    assert t == "mnt/a" by {
      assert "/mnt/a"[1..] == "mnt/a";
    }
    assert HasPrefix(t, "mnt") by { assert t[..3] == "mnt"; }
    assert Unrooted(t) == t;
  }

  /** A path without backslashes is left as it is by the slash conversion. */
  lemma SlashedAbsent(p: string)
    requires '\\' !in p
    ensures Slashed(p) == p
  {
    assert "\\" == ['\\'];
    ReplaceAbsentChar(p, '\\', "/");
  }

  /** A short absolute path keeps its slash for the checker and loses it for
      the transform. */
  lemma ShortPathsDiverge()
    ensures CheckStagedPath("/ab") == Some("/ab")
    ensures StagingPath("/ab") == "ab"
  {
    ShortPathChecked();
    ShortPathStaged();
  }

  lemma ShortPathChecked()
    ensures CheckStagedPath("/ab") == Some("/ab")
  {
    assert "\\" == ['\\'];
    ReplaceAbsentChar("/ab", '\\', "/");
    assert Utf8Len("/ab") == 3;
  }

  lemma ShortPathStaged()
    ensures StagingPath("/ab") == "ab"
  {
    var s := ReplaceAll("/ab", "\\", "/");
    assert s == "/ab" by {
      assert "\\" == ['\\'];
      ReplaceAbsentChar("/ab", '\\', "/");
    }
    var t := TrimLeftChar(s, '/');
    assert t == "ab" by {
      assert s[1..] == "ab";
    }
    assert Utf8Len(s) == 3 && Utf8Len(t) == 2;
  }
}
