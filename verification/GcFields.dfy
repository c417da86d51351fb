/** Which candidates of garbage collection are well-formed, on their fields alone
    (crates/solver-worker/src/artifact_gc.rs). */
module GcFields {
  import opened Wrappers
  import opened GcModel

  /** The code points with the Unicode White_Space property. */
  const WHITE_SPACE: set<int> := {
    9, 10, 11, 12, 13, 32, 0x85, 0xA0, 0x1680, 0x2000, 0x2001, 0x2002, 0x2003, 0x2004, 0x2005, 0x2006, 0x2007,
    0x2008, 0x2009, 0x200A, 0x2028, 0x2029, 0x202F, 0x205F, 0x3000}

  lemma WhitespaceIsWhiteSpace(c: char)
    ensures IsWhitespace(c) <==> c as int in WHITE_SPACE
  {
  }

  ghost predicate NonBlank(s: string) {
    exists i :: 0 <= i < |s| && !IsWhitespace(s[i])
  }

  /** Trimming `s` leaves what lies between `i` and `j`. */
  ghost predicate TrimsAt(s: string, i: int, j: int) {
    && 0 <= i <= j <= |s|
    && (forall k :: 0 <= k < i ==> IsWhitespace(s[k])) && (forall k :: j <= k < |s| ==> IsWhitespace(s[k]))
    && (i < j ==> !IsWhitespace(s[i]) && !IsWhitespace(s[j - 1]))
  }

  /** A maximal piece of `s` without a slash. */
  ghost predicate IsPiece(s: string, i: int, j: int) {
    && 0 <= i <= j <= |s| && (forall k :: i <= k < j ==> s[k] != '/')
    && (i == 0 || s[i - 1] == '/') && (j == |s| || s[j] == '/')
  }

  ghost predicate CleanPieces(s: string) {
    forall i, j :: IsPiece(s, i, j) ==> s[i..j] != "" && s[i..j] != "." && s[i..j] != ".."
  }

  /** The trimmed path has no backslash and no empty, "." or ".." piece. */
  ghost predicate SafePath(path: string) {
    exists i, j :: TrimsAt(path, i, j) && '\\' !in path[i..j] && CleanPieces(path[i..j])
  }

  ghost predicate HexDigit(c: char) {
    var u := c as int;
    48 <= u <= 57 || 65 <= u <= 70 || 97 <= u <= 102
  }

  /** What every candidate must state. */
  ghost predicate Described(c: Candidate) {
    && NonBlank(c.role) && NonBlank(c.expiresAt)
    && |c.checksum| == 64 && (forall i :: 0 <= i < 64 ==> HexDigit(c.checksum[i]))
  }

  /** An expired artifact whose object lies at a safe path of `bucket`. */
  ghost predicate IsExpiredObject(c: Candidate, bucket: string) {
    && c.phase == ObjectDelete && c.objectDeleteRequired && c.lifecycle == "expired"
    && c.bucket == Some(bucket) && NonBlank(bucket) && c.path.Some? && SafePath(c.path.value)
    && Described(c)
  }

  /** A deleted artifact of which only details are left: it has no locator. */
  ghost predicate IsRemnant(c: Candidate) {
    && c.phase == DetailCleanup && !c.objectDeleteRequired && c.lifecycle == "deleted"
    && c.bucket == None && c.path == None
    && Described(c)
  }

  // ---------------------------------------------------------------------
  // Trimming
  // ---------------------------------------------------------------------

  lemma TrimsLeft(s: string, i: int, j: int)
    requires s != "" && IsWhitespace(s[0]) && TrimsAt(s[1..], i, j)
    ensures TrimsAt(s, i + 1, j + 1) && s[i + 1..j + 1] == s[1..][i..j]
  {
    assert forall k :: 1 <= k < |s| ==> s[k] == s[1..][k - 1];
  }

  lemma {:induction false} TrimIsSlice(s: string) returns (i: int, j: int)
    ensures TrimsAt(s, i, j) && Trim(s) == s[i..j]
  {
    if s != "" && IsWhitespace(s[0]) {
      i, j := TrimIsSlice(s[1..]);
      TrimsLeft(s, i, j);
      i, j := i + 1, j + 1;
    } else if s != "" && IsWhitespace(s[|s| - 1]) {
      i, j := TrimIsSlice(s[..|s| - 1]);
      assert s[..|s| - 1][i..j] == s[i..j];
    } else {
      i, j := 0, |s|;
    }
  }

  lemma TrimIsUnique(s: string, i: int, j: int, a: int, b: int)
    requires TrimsAt(s, i, j) && TrimsAt(s, a, b)
    ensures s[i..j] == s[a..b]
  {
    if i < j && a < b {
      assert i == a && j == b;
    }
  }

  lemma BlankTrims(s: string)
    ensures Trim(s) != "" <==> NonBlank(s)
  {
    var i, j := TrimIsSlice(s);
    if k :| 0 <= k < |s| && !IsWhitespace(s[k]) {
      assert i <= k < j;
    }
  }

  // ---------------------------------------------------------------------
  // Paths
  // ---------------------------------------------------------------------

  /** Reading on with `segment` begun checks exactly the pieces of the whole. */
  lemma {:induction false} SegmentsArePieces(s: string, segment: string)
    requires '/' !in segment
    ensures CleanSegments(s, segment) <==> CleanPieces(segment + s)
    decreases |s|
  {
    var whole := segment + s;
    if s == "" {
      assert IsPiece(whole, 0, |whole|) && whole[0..|whole|] == segment;
    } else if s[0] == '/' {
      SegmentsArePieces(s[1..], "");
      SplitAtSlash(segment, s);
    } else {
      assert segment + [s[0]] + s[1..] == whole;
      SegmentsArePieces(s[1..], segment + [s[0]]);
    }
  }

  /** The pieces of a path are what precedes its first slash and the pieces of what follows. */
  lemma SplitAtSlash(segment: string, s: string)
    requires '/' !in segment && s != "" && s[0] == '/'
    ensures CleanPieces(segment + s) <==> segment !in ["", ".", ".."] && CleanPieces("" + s[1..])
  {
    var whole, rest, n := segment + s, "" + s[1..], |segment| + 1;
    assert forall k :: 0 <= k < |rest| ==> rest[k] == whole[k + n];
    assert forall k :: n <= k < |whole| ==> whole[k] == rest[k - n];
    assert IsPiece(whole, 0, |segment|) && whole[0..|segment|] == segment;
    forall i, j | IsPiece(rest, i, j) ensures IsPiece(whole, i + n, j + n) && whole[i + n..j + n] == rest[i..j] {
    }
    forall i, j | IsPiece(whole, i, j)
      ensures (i == 0 && j == |segment|) || (IsPiece(rest, i - n, j - n) && whole[i..j] == rest[i - n..j - n])
    {
      if i < n {
        assert i == 0;
      }
    }
  }

  lemma ValidPathIsSafe(path: string)
    ensures ValidStoragePath(path) <==> SafePath(path)
  {
    var i, j := TrimIsSlice(path);
    var s := path[i..j];
    assert "" + s == s;
    SegmentsArePieces(s, "");
    if CleanPieces(s) {
      assert IsPiece(s, 0, 0) || s == "" || s[0] != '/';
      assert s == "" ==> IsPiece(s, 0, 0);
    }
    if SafePath(path) {
      var a, b :| TrimsAt(path, a, b) && '\\' !in path[a..b] && CleanPieces(path[a..b]);
      TrimIsUnique(path, i, j, a, b);
    }
  }

  // ---------------------------------------------------------------------
  // Validity
  // ---------------------------------------------------------------------

  lemma HexDigitsAgree(c: char)
    ensures IsHexDigit(c) <==> HexDigit(c)
  {
  }

  /** A candidate is valid exactly when its fields describe an expired object or a remnant. */
  lemma ValidMeans(c: Candidate)
    ensures ValidCandidate(c) <==> (c.bucket.Some? && IsExpiredObject(c, c.bucket.value)) || IsRemnant(c)
  {
    BlankTrims(OrEmpty(c.bucket));
    BlankTrims(c.role);
    BlankTrims(c.expiresAt);
    ValidPathIsSafe(OrEmpty(c.path));
    ValidPathIsSafe("");
    forall d: char ensures IsHexDigit(d) <==> HexDigit(d) {
      HexDigitsAgree(d);
    }
  }
}
