/** The manifest of a package: the order of its paths, and the directories that they imply. */
module PackageManifest {
  import opened Ordering
  import opened PackageFraming
  import opened Sorting

  // ---------- path order ----------

  function CompareByte(a: byte, b: byte): Order {
    CompareInt(a as int, b as int)
  }

  /** Paths are ordered by their encoded bytes. */
  function ComparePaths(a: Bytes, b: Bytes): Order {
    CompareSeq(a, b, CompareByte)
  }

  predicate PathLeq(a: Bytes, b: Bytes) {
    !ComparePaths(a, b).Greater?
  }

  lemma ComparePathsFacts(a: Bytes, b: Bytes)
    ensures ComparePaths(a, b).Equal? <==> a == b
    ensures ComparePaths(b, a) == Flip(ComparePaths(a, b))
  {
    CompareSeqEqual(a, b, CompareByte);
  }

  /** A path comes before another exactly when it is a proper prefix of it or has the smaller byte where they first
      differ. */
  lemma {:induction false} LessExactly(a: Bytes, b: Bytes)
    ensures ComparePaths(a, b).Less? <==> LessAt(a, b, Agreed(a, b))
    decreases |a|
  {
    if a != [] && b != [] && a[0] == b[0] {
      LessExactly(a[1..], b[1..]);
    }
  }

  /** How many leading bytes two paths share. */
  function Agreed(a: Bytes, b: Bytes): (n: nat)
    ensures n <= |a| && n <= |b| && a[..n] == b[..n]
    ensures n < |a| && n < |b| ==> a[n] != b[n]
    decreases |a|
  {
    if a == [] || b == [] || a[0] != b[0] then 0
    else
      assert a == [a[0]] + a[1..] && b == [b[0]] + b[1..];
      1 + Agreed(a[1..], b[1..])
  }

  predicate LessAt(a: Bytes, b: Bytes, n: nat)
    requires n <= |a| && n <= |b|
  {
    n < |b| && (n == |a| || a[n] < b[n])
  }

  lemma PathLeqTransitive(a: Bytes, b: Bytes, c: Bytes)
    requires PathLeq(a, b) && PathLeq(b, c)
    ensures PathLeq(a, c)
  {
    ComparePathsFacts(a, b);
    ComparePathsFacts(b, c);
    if a != b && b != c {
      CompareSeqTransitive(a, b, c, CompareByte);
    }
  }

  lemma PathOrderLinear()
    ensures LinearOrder(PathLeq)
  {
    forall a: Bytes, b: Bytes
      ensures PathLeq(a, b) || PathLeq(b, a)
      ensures PathLeq(a, b) && PathLeq(b, a) ==> a == b
    {
      ComparePathsFacts(a, b);
    }
    forall a: Bytes, b: Bytes, c: Bytes | PathLeq(a, b) && PathLeq(b, c)
      ensures PathLeq(a, c)
    {
      PathLeqTransitive(a, b, c);
    }
  }

  predicate Distinct(paths: seq<Bytes>) {
    forall i, j :: 0 <= i < j < |paths| ==> paths[i] != paths[j]
  }

  predicate Increasing(paths: seq<Bytes>) {
    forall i, j :: 0 <= i < j < |paths| ==> ComparePaths(paths[i], paths[j]).Less?
  }

  /** The loader's test: nothing moves when the paths are sorted, and no path repeats. */
  predicate InManifestOrder(paths: seq<Bytes>) {
    paths == Sort(paths, PathLeq) && Distinct(paths)
  }

  lemma {:induction false} IncreasingSorted(paths: seq<Bytes>)
    requires Increasing(paths)
    ensures Sorted(paths, PathLeq)
  {
    if paths != [] {
      IncreasingSorted(paths[1..]);
    }
  }

  /** The test accepts exactly the strictly increasing lists. */
  lemma ManifestOrderExactly(paths: seq<Bytes>)
    ensures InManifestOrder(paths) <==> Increasing(paths)
  {
    PathOrderLinear();
    SortSorts(paths, PathLeq);
    if InManifestOrder(paths) {
      forall i, j | 0 <= i < j < |paths|
        ensures ComparePaths(paths[i], paths[j]).Less?
      {
        SortedAt(paths, PathLeq, i, j);
        ComparePathsFacts(paths[i], paths[j]);
      }
    }
    if Increasing(paths) {
      IncreasingSorted(paths);
      SortedUnique(paths, Sort(paths, PathLeq), PathLeq);
      forall i, j | 0 <= i < j < |paths|
        ensures paths[i] != paths[j]
      {
        ComparePathsFacts(paths[i], paths[j]);
      }
    }
  }

  // ---------- one arrangement for each set of files ----------

  function PathsOf(files: seq<File>): (paths: seq<Bytes>)
    ensures |paths| == |files| && forall i :: 0 <= i < |files| ==> paths[i] == files[i].path
  {
    seq(|files|, i requires 0 <= i < |files| => files[i].path)
  }

  lemma TailIncreasing(files: seq<File>)
    requires files != [] && Increasing(PathsOf(files))
    ensures Increasing(PathsOf(files[1..]))
    ensures forall f :: f in files[1..] <==> f in files && f != files[0]
  {
    var paths := PathsOf(files);
    forall i | 1 <= i < |files|
      ensures files[i] != files[0]
    {
      assert ComparePaths(paths[0], paths[i]).Less?;
      ComparePathsFacts(paths[0], paths[i]);
    }
    assert files == [files[0]] + files[1..];
  }

  lemma HeadFirst(files: seq<File>, f: File)
    requires Increasing(PathsOf(files)) && f in files
    ensures files[0] == f || ComparePaths(files[0].path, f.path).Less?
  {
    var i :| 0 <= i < |files| && files[i] == f;
    if i > 0 {
      assert ComparePaths(PathsOf(files)[0], PathsOf(files)[i]).Less?;
    }
  }

  /** A set of files has only one arrangement in manifest order. */
  lemma {:induction false} ArrangementUnique(a: seq<File>, b: seq<File>)
    requires Increasing(PathsOf(a)) && Increasing(PathsOf(b))
    requires forall f :: f in a <==> f in b
    ensures a == b
  {
    assert a != [] ==> a[0] in b;
    assert b != [] ==> b[0] in a;
    if a != [] {
      HeadFirst(a, b[0]);
      HeadFirst(b, a[0]);
      ComparePathsFacts(a[0].path, b[0].path);
      TailIncreasing(a);
      TailIncreasing(b);
      ArrangementUnique(a[1..], b[1..]);
      assert a == [a[0]] + a[1..] && b == [b[0]] + b[1..];
    }
  }

  /** What is hashed identifies the set of files: accepted packages have equal streams exactly when they hold the same
      files. */
  lemma StreamIdentifiesFiles(a: seq<File>, b: seq<File>)
    requires Fits(a) && Fits(b) && InManifestOrder(PathsOf(a)) && InManifestOrder(PathsOf(b))
    ensures Frame(a) == Frame(b) <==> forall f :: f in a <==> f in b
  {
    ManifestOrderExactly(PathsOf(a));
    ManifestOrderExactly(PathsOf(b));
    if Frame(a) == Frame(b) {
      FrameInjective(a, b);
    }
    if forall f :: f in a <==> f in b {
      ArrangementUnique(a, b);
    }
  }

  // ---------- directories ----------

  const SLASH: byte := 47

  function FirstSlash(path: Bytes): (i: nat)
    requires SLASH in path
    ensures i < |path| && path[i] == SLASH && forall k :: 0 <= k < i ==> path[k] != SLASH
  {
    if path[0] == SLASH then 0
    else
      assert path == [path[0]] + path[1..];
      1 + FirstSlash(path[1..])
  }

  function SplitPath(path: Bytes): (parts: seq<Bytes>)
    ensures parts != []
    decreases |path|
  {
    if SLASH !in path then [path]
    else
      var i := FirstSlash(path);
      [path[..i]] + SplitPath(path[i + 1..])
  }

  function JoinPath(parts: seq<Bytes>): Bytes
    requires parts != []
  {
    if |parts| == 1 then parts[0] else parts[0] + [SLASH] + JoinPath(parts[1..])
  }

  /** `d` is what precedes some slash of `path`. */
  ghost predicate Above(d: Bytes, path: Bytes) {
    exists i :: 0 <= i < |path| && path[i] == SLASH && d == path[..i]
  }

  predicate NoSlash(parts: seq<Bytes>) {
    forall k :: 0 <= k < |parts| ==> SLASH !in parts[k]
  }

  /** Joining the parts gives the path back, and no part holds a slash. */
  lemma {:induction false} SplitInverse(path: Bytes)
    ensures JoinPath(SplitPath(path)) == path && NoSlash(SplitPath(path))
    decreases |path|
  {
    if SLASH in path {
      var i := FirstSlash(path);
      var rest := SplitPath(path[i + 1..]);
      SplitInverse(path[i + 1..]);
      assert ([path[..i]] + rest)[1..] == rest;
      assert path == path[..i] + [SLASH] + path[i + 1..];
    }
  }

  lemma Shift(head: Bytes, tail: Bytes, j: nat)
    requires j < |tail|
    ensures
      var path, i := head + [SLASH] + tail, |head| + 1 + j;
      path[i] == tail[j] && path[..i] == head + [SLASH] + tail[..j]
  {
  }

  lemma JoinTail(parts: seq<Bytes>, count: nat)
    requires 2 <= count <= |parts|
    ensures JoinPath(parts[..count]) == parts[0] + [SLASH] + JoinPath(parts[1..][..count - 1])
  {
    assert parts[..count][1..] == parts[1..][..count - 1];
  }

  /** Joining the first parts gives what precedes a slash of the whole. */
  lemma {:induction false} JoinedIsAbove(parts: seq<Bytes>, count: nat) returns (i: nat)
    requires 1 <= count < |parts|
    ensures i < |JoinPath(parts)| && JoinPath(parts)[i] == SLASH && JoinPath(parts[..count]) == JoinPath(parts)[..i]
    decreases count
  {
    var tail := JoinPath(parts[1..]);
    assert JoinPath(parts) == parts[0] + [SLASH] + tail;
    if count == 1 {
      i := |parts[0]|;
      assert parts[..1] == [parts[0]];
    } else {
      var j := JoinedIsAbove(parts[1..], count - 1);
      i := |parts[0]| + 1 + j;
      Shift(parts[0], tail, j);
      JoinTail(parts, count);
    }
  }

  /** What precedes a slash of the whole is the joining of some first parts. */
  lemma {:induction false} AboveIsJoined(parts: seq<Bytes>, i: nat) returns (count: nat)
    requires parts != [] && NoSlash(parts) && i < |JoinPath(parts)| && JoinPath(parts)[i] == SLASH
    ensures 1 <= count < |parts| && JoinPath(parts[..count]) == JoinPath(parts)[..i]
    decreases |parts|
  {
    var head := parts[0];
    assert |parts| > 1;
    var tail := JoinPath(parts[1..]);
    assert JoinPath(parts) == head + [SLASH] + tail;
    if i <= |head| {
      count := 1;
      assert i == |head|;
      assert parts[..1] == [head];
    } else {
      var j := i - |head| - 1;
      var inner := AboveIsJoined(parts[1..], j);
      count := inner + 1;
      Shift(head, tail, j);
      JoinTail(parts, count);
    }
  }

  /** `d` joins fewer than `bound` of the first parts. */
  ghost predicate Leading(d: Bytes, parts: seq<Bytes>, bound: nat)
    requires bound <= |parts|
  {
    exists k :: 1 <= k < bound && d == JoinPath(parts[..k])
  }

  /** Joining the first parts, for each number of parts, gives exactly what precedes the slashes of the path. */
  lemma JoinedExactly(path: Bytes, d: Bytes)
    ensures Leading(d, SplitPath(path), |SplitPath(path)|) <==> Above(d, path)
  {
    var parts := SplitPath(path);
    SplitInverse(path);
    if Leading(d, parts, |parts|) {
      var k :| 1 <= k < |parts| && d == JoinPath(parts[..k]);
      var i := JoinedIsAbove(parts, k);
    }
    if Above(d, path) {
      var i :| 0 <= i < |path| && path[i] == SLASH && d == path[..i];
      var k := AboveIsJoined(parts, i);
      assert d == JoinPath(parts[..k]);
    }
  }

  /** The directories of one path. */
  method DirectoriesOf(path: Bytes) returns (values: set<Bytes>)
    ensures forall d :: d in values <==> Above(d, path)
  {
    var parts := SplitPath(path);
    values := {};
    var count := 1;
    while count < |parts|
      invariant 1 <= count <= |parts|
      invariant forall d :: d in values <==> Leading(d, parts, count)
    {
      values := values + {JoinPath(parts[..count])};
      count := count + 1;
    }
    forall d
      ensures d in values <==> Above(d, path)
    {
      JoinedExactly(path, d);
    }
  }

  /** The sorted list of a set. */
  method SortedSet(values: set<Bytes>) returns (list: seq<Bytes>)
    ensures Increasing(list)
    ensures forall d :: d in list <==> d in values
  {
    PathOrderLinear();
    var rest := values;
    list := [];
    while rest != {}
      invariant rest <= values
      invariant Sorted(list, PathLeq) && Distinct(list)
      invariant forall d :: d in list <==> d in values && d !in rest
      decreases |rest|
    {
      var d :| d in rest;
      InsertSorts(d, list, PathLeq);
      InsertKeeps(d, list, PathLeq);
      InsertDistinct(d, list);
      list := Insert(d, list, PathLeq);
      rest := rest - {d};
    }
    forall i, j | 0 <= i < j < |list|
      ensures ComparePaths(list[i], list[j]).Less?
    {
      SortedAt(list, PathLeq, i, j);
      ComparePathsFacts(list[i], list[j]);
    }
  }

  lemma {:induction false} InsertDistinct(x: Bytes, s: seq<Bytes>)
    requires Distinct(s) && x !in s
    ensures Distinct(Insert(x, s, PathLeq))
  {
    if s != [] && !PathLeq(x, s[0]) {
      InsertDistinct(x, s[1..]);
      InsertKeeps(x, s[1..], PathLeq);
      var rest := Insert(x, s[1..], PathLeq);
      assert s[0] !in s[1..];
      assert s[0] !in rest;
    }
  }

  /** The directory closure of the paths: exactly what precedes a slash of some path, each once, in order. */
  method ExpectedDirectories(paths: seq<Bytes>) returns (directories: seq<Bytes>)
    ensures forall d :: d in directories <==> exists p :: p in paths && Above(d, p)
    ensures Increasing(directories)
  {
    var values: set<Bytes> := {};
    var n := 0;
    while n < |paths|
      invariant 0 <= n <= |paths|
      invariant forall d :: d in values <==> exists p :: p in paths[..n] && Above(d, p)
    {
      var more := DirectoriesOf(paths[n]);
      assert paths[..n + 1] == paths[..n] + [paths[n]];
      values := values + more;
      n := n + 1;
    }
    assert paths[..n] == paths;
    directories := SortedSet(values);
  }

  /** What is above a directory of a path is above the path: the closure holds the parents of all its members. */
  lemma AboveTransitive(d: Bytes, e: Bytes, path: Bytes)
    requires Above(d, e) && Above(e, path)
    ensures Above(d, path)
  {
    var i :| 0 <= i < |e| && e[i] == SLASH && d == e[..i];
    var j :| 0 <= j < |path| && path[j] == SLASH && e == path[..j];
    assert path[i] == SLASH && d == path[..i];
  }
}
