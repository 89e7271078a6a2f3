/** The list of files of a corpus manifest: which lists are accepted, and what an accepted list determines. */
module CorpusManifest {
  import opened Options
  import opened Ordering
  import opened Text

  datatype CorpusFile = CorpusFile(path: string, sha256: string, size: nat)

  datatype Limits = Limits(maxFiles: int, maxTotal: int, maxFile: int, maxDepth: int)

  /** The ceilings no limits may exceed. */
  const HARD: Limits := Limits(10_000, 1_073_741_824, 268_435_456, 32)

  predicate Within(l: Limits, ceiling: Limits) {
    && l.maxFiles <= ceiling.maxFiles && l.maxTotal <= ceiling.maxTotal
    && l.maxFile <= ceiling.maxFile && l.maxDepth <= ceiling.maxDepth
  }

  /** `AdapterLimits.validate`. */
  predicate LimitsValid(l: Limits) {
    Within(l, HARD) && 1 <= l.maxFiles && 1 <= l.maxTotal && 1 <= l.maxFile && 1 <= l.maxDepth
  }

  /** Case folding and the length of a text in UTF-8. */
  datatype Unicode = Unicode(fold: string -> string, length: string -> nat)

  predicate IsForbiddenPart(part: string) {
    part in [".git", ".hg", ".svn", "grader", "graders", "held-control", "held_control", "oracle", "oracles"]
  }

  predicate IsForbiddenName(name: string) {
    name in ["grader.json", "grader.py", "oracle.json"]
  }

  predicate IsDrivePath(path: string) {
    |path| >= 2 && path[1] == ':' && ('A' <= path[0] <= 'Z' || 'a' <= path[0] <= 'z')
  }

  /** A relative path below `payload` in normal form, with no part that could climb or hide. */
  predicate SafePath(path: string) {
    var parts := Split(path);
    && '\0' !in path && '\\' !in path && !IsDrivePath(path)
    && (forall part | part in parts :: part != "" && part != "." && part != "..")
    && |parts| >= 2 && parts[0] == "payload"
  }

  predicate Forbidden(path: string, u: Unicode) {
    var parts := Split(path);
    || (exists part | part in parts[1..] :: IsForbiddenPart(u.fold(part)))
    || IsForbiddenName(u.fold(parts[|parts| - 1]))
  }

  /** Everything asked of a path but that it is not repeated. */
  predicate PathOk(path: string, maxDepth: int, u: Unicode) {
    SafePath(path) && !Forbidden(path, u) && u.length(path) <= 1_000 && |Split(path)| - 1 <= maxDepth
  }

  /** No part of the path climbs, hides or is empty, and no part below the first is, case folded, a control directory. */
  ghost predicate Harmless(p: seq<string>, u: Unicode) {
    && (forall part | part in p :: part != "" && part != "." && part != ".." && '\\' !in part && '\0' !in part)
    && forall i | 0 < i < |p| ::
         u.fold(p[i]) !in {".git", ".hg", ".svn", "grader", "graders", "held-control", "held_control", "oracle", "oracles"}
  }

  /** A harmless path below `payload` whose last part is, case folded, no control file. */
  ghost predicate HarmlessFile(p: seq<string>, u: Unicode) {
    && Harmless(p, u) && |p| >= 2 && p[0] == "payload"
    && u.fold(p[|p| - 1]) !in {"grader.json", "grader.py", "oracle.json"}
  }

  /** The paths a manifest may list. */
  ghost predicate Admissible(path: string, maxDepth: int, u: Unicode) {
    HarmlessFile(Split(path), u) && u.length(path) <= 1_000 && |Split(path)| <= maxDepth + 1
  }

  /** A path below `payload` names no drive. */
  lemma NoDrive(path: string)
    requires Split(path)[0] == "payload"
    ensures |path| >= 2 && path[1] == 'a' && !IsDrivePath(path)
  {
    SplitJoin(path);
    var parts := Split(path);
    assert path[..2] == "pa" by {
      if |parts| == 1 {
        assert path == "payload";
      } else {
        assert path == "payload" + ['/'] + Join(parts[1..]);
      }
    }
    assert path[1] == path[..2][1];
  }

  /** The tests of the source accept exactly the admissible paths. */
  lemma PathOkMeans(path: string, maxDepth: int, u: Unicode)
    ensures PathOk(path, maxDepth, u) <==> Admissible(path, maxDepth, u)
  {
    hide Split, IsDrivePath;
    var parts := Split(path);
    SplitKeeps(path, '\0');
    SplitKeeps(path, '\\');
    if parts[0] == "payload" {
      NoDrive(path);
    }
    if |parts| >= 2 {
      assert (exists part | part in parts[1..] :: IsForbiddenPart(u.fold(part))) <==>
             exists i :: 0 < i < |parts| && IsForbiddenPart(u.fold(parts[i])) by {
        forall i | 0 < i < |parts|
          ensures parts[i] in parts[1..]
        {
          assert parts[1..][i - 1] == parts[i];
        }
      }
    }
  }

  function Total(files: seq<CorpusFile>): nat {
    if files == [] then 0 else Total(files[..|files| - 1]) + files[|files| - 1].size
  }

  /** In code-point order of the paths, none twice. */
  ghost predicate StrictlySorted(files: seq<CorpusFile>) {
    forall i, j | 0 <= i < j < |files| :: StrLe(files[i].path, files[j].path) && files[i].path != files[j].path
  }

  /** What must be decided of a list of files. */
  ghost predicate FilesOk(files: seq<CorpusFile>, l: Limits, u: Unicode) {
    && |files| <= l.maxFiles && Total(files) <= l.maxTotal && StrictlySorted(files)
    && forall f | f in files :: Admissible(f.path, l.maxDepth, u) && f.size <= l.maxFile
  }

  /** The ceilings: ten thousand files, a gibibyte in all, a quarter of it in one file, thirty-two levels. */
  lemma LimitsMean(l: Limits)
    ensures LimitsValid(l) <==>
      1 <= l.maxFiles <= 10_000 && 1 <= l.maxTotal <= 1024 * 1024 * 1024
      && 1 <= l.maxFile <= 256 * 1024 * 1024 && 1 <= l.maxDepth <= 32
  {
  }

  lemma {:induction false} TotalGrows(files: seq<CorpusFile>, n: nat)
    requires n <= |files|
    ensures Total(files[..n]) <= Total(files)
    decreases |files|
  {
    if n < |files| {
      TotalGrows(files[..|files| - 1], n);
      assert files[..|files| - 1][..n] == files[..n];
    } else {
      assert files[..n] == files;
    }
  }

  lemma TotalNext(files: seq<CorpusFile>, i: nat)
    requires i < |files|
    ensures Total(files[..i + 1]) == Total(files[..i]) + files[i].size
  {
    assert files[..i + 1][..i] == files[..i];
  }

  /** The order is checked last, on the whole list. */
  method IsSorted(files: seq<CorpusFile>) returns (sorted: bool)
    ensures sorted <==> forall i, j | 0 <= i < j < |files| :: StrLe(files[i].path, files[j].path)
  {
    for i := 0 to |files|
      invariant forall j, k | 0 <= j < k < i :: StrLe(files[j].path, files[k].path)
    {
      if i > 0 && !StrLe(files[i - 1].path, files[i].path) {
        return false;
      }
      forall j | 0 <= j < i
        ensures StrLe(files[j].path, files[i].path)
      {
        if j < i - 1 {
          StrLeTransitive(files[j].path, files[i - 1].path, files[i].path);
        }
      }
    }
    sorted := true;
  }

  /** The loop of `_manifest_files`, and with the hard limits that of `verify_canonical_corpus`. */
  method CheckRecords(files: seq<CorpusFile>, l: Limits, u: Unicode) returns (ok: bool)
    requires LimitsValid(l)
    ensures ok <==> FilesOk(files, l, u)
  {
    hide PathOk, Admissible;
    if |files| > l.maxFiles {
      return false;
    }
    var observed: set<string>, total := {}, 0;
    for i := 0 to |files|
      invariant observed == set j | 0 <= j < i :: files[j].path
      invariant total == Total(files[..i]) <= l.maxTotal
      invariant forall j, k | 0 <= j < k < i :: files[j].path != files[k].path
      invariant forall j | 0 <= j < i :: Admissible(files[j].path, l.maxDepth, u) && files[j].size <= l.maxFile
    {
      var f := files[i];
      TotalNext(files, i);
      TotalGrows(files, i + 1);
      PathOkMeans(f.path, l.maxDepth, u);
      if !PathOk(f.path, l.maxDepth, u) || f.size > l.maxFile {
        assert f in files;
        return false;
      }
      if f.path in observed {
        var j :| 0 <= j < i && files[j].path == f.path;
        assert !StrictlySorted(files);
        return false;
      }
      observed := observed + {f.path};
      total := total + f.size;
      if total > l.maxTotal {
        return false;
      }
    }
    assert files[..|files|] == files;
    ok := IsSorted(files);
  }

  /** `_manifest_files`. */
  method ManifestFiles(files: seq<CorpusFile>, declared: Limits, operator: Limits, u: Unicode) returns (ok: bool)
    ensures ok <==> LimitsValid(declared) && LimitsValid(operator) && Within(declared, operator) && FilesOk(files, declared, u)
    ensures ok ==> forall f | f in files :: HarmlessFile(Split(f.path), u)
  {
    if !LimitsValid(declared) || !LimitsValid(operator) || !Within(declared, operator) {
      return false;
    }
    ok := CheckRecords(files, declared, u);
  }

  /** What a manifest may list, a verifier with the hard limits accepts. */
  lemma WithinHard(files: seq<CorpusFile>, declared: Limits, u: Unicode)
    requires LimitsValid(declared) && FilesOk(files, declared, u)
    ensures FilesOk(files, HARD, u)
  {
  }

  /** Accepted lists of the same files are the same list. */
  lemma SameFilesSameList(a: seq<CorpusFile>, b: seq<CorpusFile>)
    requires StrictlySorted(a) && StrictlySorted(b) && (forall f :: f in a <==> f in b)
    ensures a == b
  {
    SortedLists(a, b);
  }

  lemma {:induction false} SortedLists(a: seq<CorpusFile>, b: seq<CorpusFile>)
    requires StrictlySorted(a) && StrictlySorted(b) && (forall f :: f in a <==> f in b)
    ensures a == b
    decreases |a|
  {
    if a == [] {
      HasMember(b);
    } else {
      assert a[0] in b;
      SameFirst(a, b);
      forall f
        ensures f in a[1..] <==> f in b[1..]
      {
        InRest(a, f);
        InRest(b, f);
      }
      SortedLists(a[1..], b[1..]);
      assert a == [a[0]] + a[1..] && b == [b[0]] + b[1..];
    }
  }

  lemma HasMember(a: seq<CorpusFile>)
    ensures a == [] || exists f :: f in a
  {
    if a != [] {
      assert a[0] in a;
    }
  }

  lemma InRest(a: seq<CorpusFile>, f: CorpusFile)
    requires a != [] && StrictlySorted(a)
    ensures f in a[1..] <==> f in a && f != a[0]
  {
    assert a == [a[0]] + a[1..];
    if f in a[1..] {
      var k :| 0 <= k < |a| - 1 && a[1..][k] == f;
      assert a[k + 1] == f;
    }
  }

  lemma SameFirst(a: seq<CorpusFile>, b: seq<CorpusFile>)
    requires StrictlySorted(a) && StrictlySorted(b) && (forall f :: f in a <==> f in b) && a != [] && b != []
    ensures a[0] == b[0]
  {
    assert a[0] in b && b[0] in a;
    var i :| 0 <= i < |b| && b[i] == a[0];
    var j :| 0 <= j < |a| && a[j] == b[0];
    StrLeTotal(a[0].path, b[0].path);
  }
}
