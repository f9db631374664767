/** Archive entry paths: which ones are safe, and the order they are listed in. */
module ArchivePath {
  import opened Prelude

  const SLASH: Byte := 47
  const BACKSLASH: Byte := 92
  const DOT: Byte := 46
  const COLON: Byte := 58

  predicate IsAlpha(b: Byte) { 65 <= b <= 90 || 97 <= b <= 122 }

  predicate IsWindowsDrivePrefix(path: Bytes) {
    |path| >= 2 && IsAlpha(path[0]) && path[1] == COLON
  }

  /** The first `b` at or after `start`, or the length. */
  function Find(s: Bytes, b: Byte, start: nat): (k: nat)
    requires start <= |s|
    ensures start <= k <= |s|
    ensures forall i :: start <= i < k ==> s[i] != b
    ensures k < |s| ==> s[k] == b
    decreases |s| - start
  {
    if start == |s| || s[start] == b then start else Find(s, b, start + 1)
  }

  /** The pieces between slashes, from `start` on. */
  function Components(s: Bytes, start: nat): (r: seq<Bytes>)
    requires start <= |s|
    ensures r != []
    decreases |s| - start
  {
    var end := Find(s, SLASH, start);
    if end == |s| then [s[start..]] else [s[start..end]] + Components(s, end + 1)
  }

  predicate PlainName(part: Bytes) {
    part != [] && part != [DOT] && part != [DOT, DOT]
  }

  /** A relative path of plain names: nothing empty, no `.` or `..`, no
      backslash and no drive letter. */
  predicate Safe(path: Bytes) {
    && BACKSLASH !in path
    && !IsWindowsDrivePrefix(path)
    && forall part :: part in Components(path, 0) ==> PlainName(part)
  }

  lemma {:induction false} TrailingSlash(s: Bytes, start: nat)
    requires start < |s| && s[|s| - 1] == SLASH
    ensures [] in Components(s, start)
    decreases |s| - start
  {
    var end := Find(s, SLASH, start);
    var rest := Components(s, end + 1);
    assert forall part :: part in rest ==> part in Components(s, start);
    if end + 1 < |s| {
      TrailingSlash(s, end + 1);
    } else {
      assert s[|s|..] == [] && rest[0] == [];
    }
  }

  lemma SlashAtEnd(s: Bytes)
    requires s == [] || s[0] == SLASH || s[|s| - 1] == SLASH
    ensures !Safe(s)
  {
    if s == [] || s[0] == SLASH {
      assert Components(s, 0)[0] == [];
      assert [] in Components(s, 0);
    } else {
      TrailingSlash(s, 0);
    }
  }

  /** A piece of a path between two slashes, or between one and an end. */
  ghost predicate Segment(s: Bytes, i: int, j: int) {
    && 0 <= i <= j <= |s|
    && (i == 0 || s[i - 1] == 47) && (j == |s| || s[j] == 47) && (forall k :: i <= k < j ==> s[k] != 47)
  }

  lemma {:induction false} SegmentsAreComponents(s: Bytes, start: nat, i: int, j: int)
    requires start <= |s| && (start == 0 || s[start - 1] == SLASH)
    requires start <= i && Segment(s, i, j)
    ensures s[i..j] in Components(s, start)
    decreases |s| - start
  {
    var end := Find(s, SLASH, start);
    if i <= end {
      assert i == start && j == end;
      assert Components(s, start)[0] == s[start..end];
    } else {
      SegmentsAreComponents(s, end + 1, i, j);
      assert Components(s, start) == [s[start..end]] + Components(s, end + 1);
    }
  }

  lemma {:induction false} ComponentsAreSegments(s: Bytes, start: nat, part: Bytes)
    requires start <= |s| && (start == 0 || s[start - 1] == SLASH)
    requires part in Components(s, start)
    ensures exists i, j :: Segment(s, i, j) && part == s[i..j]
    decreases |s| - start
  {
    var end := Find(s, SLASH, start);
    assert Segment(s, start, end) && (end == |s| ==> s[start..end] == s[start..]);
    if part != s[start..end] {
      ComponentsAreSegments(s, end + 1, part);
    }
  }

  /** A path is safe exactly if it has no backslash, does not begin with a drive
      letter and a colon, and none of its segments is empty, `.` or `..`; so it
      is not empty and neither begins nor ends with a slash. */
  lemma SafeMeans(path: Bytes)
    ensures Safe(path) <==>
      && 92 !in path
      && !(|path| >= 2 && (65 <= path[0] <= 90 || 97 <= path[0] <= 122) && path[1] == 58)
      && forall i, j :: Segment(path, i, j) ==> path[i..j] != [] && path[i..j] != [46] && path[i..j] != [46, 46]
  {
    hide Components;
    forall i, j | Segment(path, i, j) ensures path[i..j] in Components(path, 0) {
      SegmentsAreComponents(path, 0, i, j);
    }
    forall part | part in Components(path, 0) ensures exists i, j :: Segment(path, i, j) && part == path[i..j] {
      ComponentsAreSegments(path, 0, part);
    }
  }

  ghost predicate PlainFrom(s: Bytes, start: nat)
    requires start <= |s|
  {
    forall part :: part in Components(s, start) ==> PlainName(part)
  }

  lemma SafeIsPlain(path: Bytes)
    ensures Safe(path) <==> BACKSLASH !in path && !IsWindowsDrivePrefix(path) && PlainFrom(path, 0)
  {
  }

  lemma PlainStep(s: Bytes, start: nat)
    requires start <= |s|
    ensures var end := Find(s, SLASH, start);
      PlainFrom(s, start) <==> PlainName(s[start..end]) && (end < |s| ==> PlainFrom(s, end + 1))
  {
    var end := Find(s, SLASH, start);
    assert Components(s, start)[0] == s[start..end];
    assert end < |s| ==> Components(s, start) == [s[start..end]] + Components(s, end + 1);
    hide PlainName;
  }

  method IsSafeRelativeArchivePath(value: Bytes) returns (safe: bool)
    ensures safe <==> Safe(value)
  {
    hide IsWindowsDrivePrefix, IsAlpha, Components, PlainFrom;
    assert Safe(value) <==> BACKSLASH !in value && !IsWindowsDrivePrefix(value) && PlainFrom(value, 0) by {
      SafeIsPlain(value);
    }
    hide Safe;
    if value == [] {
      SlashAtEnd(value);
      return false;
    }
    if value[0] == SLASH || value[0] == BACKSLASH || value[|value| - 1] == SLASH
       || value[|value| - 1] == BACKSLASH || BACKSLASH in value {
      if value[0] == SLASH || value[|value| - 1] == SLASH {
        SlashAtEnd(value);
      }
      return false;
    }
    if IsWindowsDrivePrefix(value) {
      return false;
    }
    var start := 0;
    while start <= |value|
      invariant start <= |value|
      invariant PlainFrom(value, 0) <==> PlainFrom(value, start)
      decreases |value| - start
    {
      var end := Find(value, SLASH, start);
      var part := value[start..end];
      PlainStep(value, start);
      if part == [] || part == [DOT] || part == [DOT, DOT] {
        return false;
      }
      if end == |value| {
        break;
      }
      start := end + 1;
    }
    safe := true;
  }

  // ------------------------------------------------------- the order of entries

  /** Byte-wise lexicographic order, as `std::string` compares. */
  predicate Before(a: Bytes, b: Bytes) {
    if b == [] then false
    else if a == [] then true
    else if a[0] != b[0] then a[0] < b[0]
    else Before(a[1..], b[1..])
  }

  lemma SameFront(a: Bytes, b: Bytes, k: nat)
    requires k <= |a| && k <= |b| && a[..k] == b[..k]
    ensures k > 0 ==> a[0] == b[0]
  {
    assert k > 0 ==> a[..k][0] == a[0] && b[..k][0] == b[0];
  }

  /** `a` comes first exactly if it is a proper prefix of `b`, or is smaller at
      the first byte in which they differ. */
  lemma {:induction false} BeforeMeans(a: Bytes, b: Bytes)
    ensures Before(a, b) <==>
      exists k :: 0 <= k <= |a| && k < |b| && a[..k] == b[..k] && (k == |a| || a[k] < b[k])
  {
    if a != [] && b != [] && a[0] == b[0] {
      BeforeMeans(a[1..], b[1..]);
      assert a == [a[0]] + a[1..] && b == [b[0]] + b[1..];
      if Before(a, b) {
        var k :| 0 <= k <= |a[1..]| && k < |b[1..]| && a[1..][..k] == b[1..][..k]
          && (k == |a[1..]| || a[1..][k] < b[1..][k]);
        assert a[..k + 1] == [a[0]] + a[1..][..k] && b[..k + 1] == [b[0]] + b[1..][..k];
      }
      if k :| 0 <= k <= |a| && k < |b| && a[..k] == b[..k] && (k == |a| || a[k] < b[k]) {
        assert k > 0;
        assert a[1..][..k - 1] == a[..k][1..] && b[1..][..k - 1] == b[..k][1..];
        assert k < |a| ==> a[1..][k - 1] == a[k];
        assert b[1..][k - 1] == b[k];
      }
    } else if b != [] {
      assert a[..0] == b[..0];
      if k :| 0 <= k <= |a| && k < |b| && a[..k] == b[..k] && (k == |a| || a[k] < b[k]) {
        SameFront(a, b, k);
      }
    }
  }

  lemma {:induction false} BeforeTotal(a: Bytes, b: Bytes)
    ensures (Before(a, b) || Before(b, a)) <==> a != b
    ensures !(Before(a, b) && Before(b, a))
  {
    if a != [] && b != [] {
      BeforeTotal(a[1..], b[1..]);
      assert a == [a[0]] + a[1..] && b == [b[0]] + b[1..];
    }
  }

  lemma {:induction false} BeforeTransitive(a: Bytes, b: Bytes, c: Bytes)
    requires Before(a, b) && Before(b, c)
    ensures Before(a, c)
  {
    if a != [] && a[0] == b[0] == c[0] {
      BeforeTransitive(a[1..], b[1..], c[1..]);
    }
  }
}
