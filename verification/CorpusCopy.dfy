/** The canonical root as the copier changes it: temporaries, links, tracked names, and the cleanup. */
module CorpusCopy {
  import opened Options
  import opened Text
  import opened CorpusInventory
  import opened CorpusManifest
  import opened CanonicalCorpus

  /** A name in the root: a destination, or a randomly named temporary beside one (no destination is named like a
      temporary). */
  datatype Place = Final(path: Path) | Temporary(path: Path, token: nat)

  /** Each directory was tracked once, after the directory it is in. */
  ghost predicate ParentsFirst(directories: seq<Path>) {
    && (forall i, j | 0 <= i < j < |directories| :: directories[i] != directories[j])
    && forall i | 0 <= i < |directories| :: directories[i] != [] && (|directories[i]| == 1 || Parent(directories[i]) in directories[..i])
  }

  lemma ParentsFirstNext(directories: seq<Path>, d: Path)
    requires ParentsFirst(directories) && d !in directories && d != []
    requires |d| == 1 || Parent(d) in directories
    ensures ParentsFirst(directories + [d])
  {
    var longer := directories + [d];
    forall i | 0 <= i < |longer|
      ensures longer[i] != [] && (|longer[i]| == 1 || Parent(longer[i]) in longer[..i])
    {
      assert longer[..i] == directories[..i];
    }
  }

  /** No directory tracked up to `k` is inside the one tracked at `k`. */
  lemma NothingInside(directories: seq<Path>, k: nat, d: Path)
    requires ParentsFirst(directories) && k < |directories| && d in directories[..k + 1] && |d| > 1
    ensures Parent(d) != directories[k]
  {
    var j :| 0 <= j <= k && directories[j] == d;
    assert Parent(d) in directories[..j];
  }

  /** The directories on the way to `p`, as far as its first `n` parts. */
  ghost function Above(p: Path, n: nat): set<Path>
    requires n <= |p|
  {
    set m | 0 < m <= n :: p[..m]
  }

  lemma AboveNext(p: Path, n: nat)
    requires n < |p|
    ensures Above(p, n + 1) == Above(p, n) + {p[..n + 1]} && p[..n + 1] !in Above(p, n)
    ensures forall m | n + 1 < m <= |p| :: p[..m] != p[..n + 1]
  {
  }

  /** What is still to come after so many operations. */
  function Later(faults: seq<bool>, operations: nat): seq<bool> {
    if operations < |faults| then faults[operations..] else []
  }

  lemma LaterNone(faults: seq<bool>)
    ensures Later(faults, 0) == faults
  {
  }

  lemma LaterStill(faults: seq<bool>, n: nat, m: nat)
    ensures Later(Later(faults, n), m) == Later(faults, n + m)
  {
  }

  class CanonicalRoot {
    var names: map<Place, nat>
    var inodes: seq<string>
    var directories: set<Path>
    /** The lists of `canonicalize_corpus`, for the cleanup. */
    var trackedFiles: seq<Place>
    var trackedDirectories: seq<Path>
    /** Which of the coming operations fail, none beyond these, and how many have failed so far. */
    var faults: seq<bool>
    ghost var failures: nat
    /** Files and directories have lost their write permission. */
    var readOnly: bool

    constructor ()
      ensures names == map[] && directories == {} && trackedFiles == [] && trackedDirectories == [] && inodes == []
    {
      names, inodes, directories, trackedFiles, trackedDirectories := map[], [], {}, [], [];
      faults, failures, readOnly := [], 0, false;
    }

    predicate IsDirectory(d: Path)
      reads `directories
    {
      d == [] || d in directories
    }

    /** Everything in the root is tracked, and is in a directory of the root. */
    ghost predicate Tracked()
      reads `names, `directories, `trackedFiles, `trackedDirectories
    {
      && (forall q | q in names :: q in trackedFiles && q.path != [] && IsDirectory(Parent(q.path)))
      && (forall d | d in directories :: d in trackedDirectories && d != [] && IsDirectory(Parent(d)))
      && ParentsFirst(trackedDirectories)
    }

    /** Whatever is seen under a destination is whole. */
    ghost predicate Whole(want: map<Path, string>)
      reads `names, `inodes
    {
      forall q | q in names :: names[q] < |inodes| && (q.Final? ==> q.path in want && inodes[names[q]] == want[q.path])
    }

    ghost predicate Inv(want: map<Path, string>)
      reads `names, `inodes, `directories, `trackedFiles, `trackedDirectories
    {
      Tracked() && Whole(want)
    }

    /** No failure so far: what was tracked exists, no temporary is left, and no two names share a file. */
    ghost predicate Settled()
      reads `names, `directories, `trackedDirectories
    {
      && (forall d | d in trackedDirectories :: d in directories)
      && (forall q | q in names :: q.Final?)
      && (forall q, r | q in names && r in names && names[q] == names[r] :: q == r)
    }

    /** Every operating-system call passes here first. */
    method Attempt() returns (ok: bool)
      modifies `faults, `failures
      ensures ok <==> old(faults) == [] || !old(faults)[0]
      ensures faults == Later(old(faults), 1)
      ensures failures == old(failures) + if ok then 0 else 1
    {
      ok := faults == [] || !faults[0];
      if faults != [] {
        faults := faults[1..];
      }
      if !ok {
        failures := failures + 1;
      }
    }

    method MakeDirectory(d: Path, ghost want: map<Path, string>) returns (ok: bool)
      requires Inv(want) && Settled() && d != [] && IsDirectory(Parent(d)) && d !in directories
      modifies `directories, `trackedDirectories, `faults, `failures
      ensures Inv(want) && (ok ==> Settled())
      ensures directories == if ok then old(directories) + {d} else old(directories)
      ensures ok ==> Final(d) !in names
      ensures ok || failures > old(failures) || Final(d) in names
      ensures if ok then failures == old(failures) else old(failures) <= failures <= old(failures) + 1
    {
      hide ParentsFirst, Whole;
      Track(d, want);
      ok := Attempt();
      ok := ok && Final(d) !in names;
      if ok {
        directories := directories + {d};
      }
    }

    /** A directory is tracked before it is made. */
    method Track(d: Path, ghost want: map<Path, string>)
      requires Inv(want) && Settled() && d != [] && IsDirectory(Parent(d)) && d !in directories
      modifies `trackedDirectories
      ensures Inv(want) && trackedDirectories == old(trackedDirectories) + [d]
    {
      hide ParentsFirst, Whole;
      ParentsFirstNext(trackedDirectories, d);
      trackedDirectories := trackedDirectories + [d];
    }

    /** How far down the directories above a destination exist. */
    method ExistingAbove(p: Path) returns (n: nat)
      requires p != []
      ensures n < |p| && (IsDirectory(p[..n]) || Final(p[..n]) in names)
      ensures forall m | n < m < |p| :: p[..m] !in directories && Final(p[..m]) !in names
    {
      n := |p| - 1;
      while n > 0 && p[..n] !in directories && Final(p[..n]) !in names
        invariant 0 <= n < |p| && forall m | n < m < |p| :: p[..m] !in directories && Final(p[..m]) !in names
      {
        n := n - 1;
      }
    }

    /** The missing directories above a destination, from the top. */
    method MakeParents(p: Path, ghost want: map<Path, string>) returns (ok: bool)
      requires Inv(want) && Settled() && p != []
      modifies `directories, `trackedDirectories, `faults, `failures
      ensures Inv(want) && (ok ==> Settled())
      ensures ok ==> directories == old(directories) + Above(p, |p| - 1)
      ensures ok || failures > old(failures) || exists n | 0 < n < |p| :: Final(p[..n]) in names
      ensures if ok then failures == old(failures) else old(failures) <= failures <= old(failures) + 1
    {
      hide Inv, Settled, Above;
      var n := ExistingAbove(p);
      if !IsDirectory(p[..n]) {
        return false;
      }
      AboveExist(p, n, want);
      while n < |p| - 1
        invariant n < |p| && IsDirectory(p[..n])
        invariant Inv(want) && Settled()
        invariant directories == old(directories) + Above(p, n) && failures == old(failures)
        invariant forall m | n < m < |p| :: p[..m] !in directories
      {
        AboveNext(p, n);
        assert Parent(p[..n + 1]) == p[..n];
        ok := MakeDirectory(p[..n + 1], want);
        if !ok {
          return;
        }
        n := n + 1;
      }
      ok := true;
    }

    /** Directories above an existing directory exist. */
    lemma AboveExist(p: Path, n: nat, want: map<Path, string>)
      requires Inv(want) && n < |p| && IsDirectory(p[..n])
      ensures Above(p, n) <= directories
    {
      if n > 0 {
        AboveNext(p, n - 1);
        assert Parent(p[..n]) == p[..n - 1];
        AboveExist(p, n - 1, want);
      }
    }

    // ---- Publishing one file -------------------------------------------------------------------

    /** The temporary is created, and only if nothing has its name. */
    method CreateTemporary(p: Path, ghost want: map<Path, string>) returns (ok: bool, q: Place)
      requires Inv(want) && Settled() && p != [] && IsDirectory(Parent(p))
      modifies `names, `inodes, `trackedFiles, `faults, `failures
      ensures Inv(want) && q.Temporary? && q.path == p
      ensures ok ==> q !in old(names) && names == old(names)[q := |old(inodes)|] && inodes == old(inodes) + [""]
      ensures ok ==> forall r | r in old(names) :: old(names)[r] < |old(inodes)|
      ensures ok || failures > old(failures)
      ensures forall x | x in old(trackedFiles) :: x in trackedFiles
      ensures Final(p) in trackedFiles
      ensures if ok then failures == old(failures) else old(failures) <= failures <= old(failures) + 1
    {
      hide ParentsFirst;
      var token: nat := *;
      q := Temporary(p, token);
      trackedFiles := trackedFiles + [Final(p), q];
      ok := Attempt();
      ok := ok && q !in names;
      if ok {
        names, inodes := names[q := |inodes|], inodes + [""];
      }
    }

    /** The content is written in pieces of any size, none of them empty. */
    method WriteContent(q: Place, content: string, ghost want: map<Path, string>) returns (ok: bool)
      requires Inv(want) && q in names && q.Temporary? && inodes[names[q]] == ""
      requires forall r | r in names && names[r] == names[q] :: r == q
      modifies `inodes, `faults, `failures
      ensures Inv(want)
      ensures |inodes| == |old(inodes)| && (ok ==> inodes[names[q]] == content)
      ensures ok || failures > old(failures)
      ensures if ok then failures == old(failures) else old(failures) <= failures <= old(failures) + 1
    {
      hide Tracked;
      var i, done := names[q], 0;
      while done < |content|
        invariant done <= |content| && |inodes| == |old(inodes)| && inodes[i] == content[..done]
        invariant failures == old(failures)
        invariant Inv(want)
      {
        ok := Attempt();
        if !ok {
          return;
        }
        var written: nat :| 1 <= written <= |content| - done;
        done := done + written;
        inodes := inodes[i := content[..done]];
      }
      assert content[..|content|] == content;
      ok := true;
    }

    /** The complete file gets its destination name, unless that is taken. */
    method Link(q: Place, p: Path, ghost want: map<Path, string>) returns (ok: bool)
      requires Inv(want) && q in names && p in want && inodes[names[q]] == want[p]
      requires Final(p) in trackedFiles && p != [] && IsDirectory(Parent(p))
      modifies `names, `faults, `failures
      ensures Inv(want)
      ensures names == if ok then old(names)[Final(p) := old(names)[q]] else old(names)
      ensures ok ==> Final(p) !in old(names)
      ensures ok || failures > old(failures) || Final(p) in old(names)
      ensures if ok then failures == old(failures) else old(failures) <= failures <= old(failures) + 1
    {
      ok := Attempt();
      ok := ok && Final(p) !in names;
      if ok {
        names := names[Final(p) := names[q]];
      }
    }

    method Unlink(q: Place, ghost want: map<Path, string>) returns (ok: bool)
      requires Inv(want)
      modifies `names, `faults, `failures
      ensures Inv(want) && names == if ok then old(names) - {q} else old(names)
      ensures ok || failures > old(failures)
      ensures if ok then failures == old(failures) else old(failures) <= failures <= old(failures) + 1
      ensures faults == Later(old(faults), 1)
    {
      ok := Attempt();
      if ok {
        names := names - {q};
      }
    }

    /** `_write_atomic`. */
    method WriteAtomic(p: Path, content: string, ghost want: map<Path, string>) returns (ok: bool)
      requires Inv(want) && Settled() && p != [] && IsDirectory(Parent(p)) && p in want && want[p] == content
      modifies `names, `inodes, `trackedFiles, `faults, `failures
      ensures Inv(want)
      ensures ok ==> Settled() && names.Keys == old(names).Keys + {Final(p)} && Final(p) !in old(names)
      ensures ok || failures > old(failures) || Final(p) in old(names)
      ensures if ok then failures == old(failures) else old(failures) <= failures <= old(failures) + 1
    {
      hide Inv;
      var q;
      ok, q := CreateTemporary(p, want);
      if !ok {
        return;
      }
      ok := WriteContent(q, content, want);
      if ok {
        ok := Attempt();
      }
      if !ok {
        return;
      }
      ok := Link(q, p, want);
      if !ok {
        return;
      }
      ok := Unlink(q, want);
      if ok {
        ok := Attempt();
      }
    }

    // ---- Cleaning up ---------------------------------------------------------------------------

    predicate NothingIn(d: Path)
      reads `names, `directories
    {
      && (forall q | q in names :: q.path == [] || Parent(q.path) != d)
      && forall e | e in directories :: e == [] || Parent(e) != d
    }

    /** A directory is removed only when it is empty; one that is not there is no failure. */
    method RemoveDirectory(d: Path, ghost want: map<Path, string>) returns (ok: bool)
      requires Inv(want)
      modifies `directories, `faults, `failures
      ensures Inv(want)
      ensures directories == if ok then old(directories) - {d} else old(directories)
      ensures failures > old(failures) || ok || !old(NothingIn(d))
      ensures if ok then failures == old(failures) else old(failures) <= failures <= old(failures) + 1
      ensures faults == Later(old(faults), 1)
    {
      hide ParentsFirst;
      ok := Attempt();
      ok := ok && NothingIn(d);
      if ok {
        directories := directories - {d};
      }
    }

    lemma InsideGone(n: nat, want: map<Path, string>)
      requires Inv(want) && names == map[] && n < |trackedDirectories|
      requires forall d | d in directories :: d in trackedDirectories[..n + 1]
      ensures NothingIn(trackedDirectories[n])
    {
      forall e | e in directories
        ensures e != [] && Parent(e) != trackedDirectories[n]
      {
        if |e| > 1 {
          NothingInside(trackedDirectories, n, e);
        }
      }
    }

    /** `_cleanup_canonical_output`: the tracked files, then the tracked directories from the last. */
    method Cleanup(ghost want: map<Path, string>) returns (clean: bool)
      requires Inv(want)
      modifies `names, `directories, `faults, `failures
      ensures clean ==> names == map[] && directories == {}
      ensures failures >= old(failures) && (clean <==> failures == old(failures))
      ensures faults == Later(old(faults), 2 * |trackedDirectories| + |trackedFiles| + 2)
    {
      hide Later, NothingIn;
      clean := MakeWritable();
      clean := UnlinkTracked(clean, want);
      LaterStill(old(faults), |trackedDirectories| + 1, |trackedFiles|);
      clean := RemoveTracked(clean, want);
      LaterStill(old(faults), |trackedDirectories| + 1 + |trackedFiles|, |trackedDirectories|);
      var listed := Attempt();
      LaterStill(old(faults), |trackedFiles| + 2 * |trackedDirectories| + 1, 1);
      clean := clean && listed && names == map[] && directories == {};
    }

    /** The tracked directories and the root get their write permission back. */
    method MakeWritable() returns (clean: bool)
      modifies `faults, `failures
      ensures failures >= old(failures) && (clean <==> failures == old(failures))
      ensures faults == Later(old(faults), |trackedDirectories| + 1)
    {
      clean := true;
      for i := 0 to |trackedDirectories| + 1
        invariant failures >= old(failures) && (clean <==> failures == old(failures))
        invariant faults == Later(old(faults), i)
      {
        LaterStill(old(faults), i, 1);
        var writable := Attempt();
        clean := clean && writable;
      }
    }

    /** The tracked directories, from the last. */
    method RemoveTracked(soFar: bool, ghost want: map<Path, string>) returns (clean: bool)
      requires Inv(want) && (soFar ==> names == map[])
      modifies `directories, `faults, `failures
      ensures Inv(want) && failures >= old(failures) && (clean <==> soFar && failures == old(failures))
      ensures clean ==> directories == {}
      ensures faults == Later(old(faults), |trackedDirectories|)
    {
      hide Inv, NothingIn, Later;
      clean := soFar;
      var n := |trackedDirectories|;
      DirectoriesTracked(want);
      LaterNone(old(faults));
      while n > 0
        invariant 0 <= n <= |trackedDirectories| && Inv(want) && failures >= old(failures)
        invariant faults == Later(old(faults), |trackedDirectories| - n)
        invariant clean <==> soFar && failures == old(failures)
        invariant clean ==> names == map[] && forall d | d in directories :: d in trackedDirectories[..n]
      {
        LaterStill(old(faults), |trackedDirectories| - n, 1);
        n := n - 1;
        var d := trackedDirectories[n];
        assert trackedDirectories[..n + 1] == trackedDirectories[..n] + [d];
        if clean {
          InsideGone(n, want);
        }
        var removed := RemoveDirectory(d, want);
        clean := clean && removed;
      }
    }

    lemma DirectoriesTracked(want: map<Path, string>)
      requires Inv(want)
      ensures forall d | d in directories :: d in trackedDirectories[..|trackedDirectories|]
    {
      assert trackedDirectories[..|trackedDirectories|] == trackedDirectories;
    }

    lemma NamesTracked(want: map<Path, string>)
      requires Inv(want)
      ensures forall q | q in names :: q in trackedFiles
    {
    }

    /** The tracked files, from the last. */
    method UnlinkTracked(soFar: bool, ghost want: map<Path, string>) returns (clean: bool)
      requires Inv(want)
      modifies `names, `faults, `failures
      ensures Inv(want) && failures >= old(failures) && (clean <==> soFar && failures == old(failures))
      ensures failures == old(failures) ==> names == map[]
      ensures faults == Later(old(faults), |trackedFiles|)
    {
      hide Inv;
      clean := soFar;
      var n := |trackedFiles|;
      NamesTracked(want);
      assert trackedFiles[..n] == trackedFiles;
      while n > 0
        invariant 0 <= n <= |trackedFiles| && Inv(want) && failures >= old(failures)
        invariant faults == Later(old(faults), |trackedFiles| - n)
        invariant clean <==> soFar && failures == old(failures)
        invariant failures == old(failures) ==> forall q | q in names :: q in trackedFiles[..n]
      {
        assert trackedFiles[..n] == trackedFiles[..n - 1] + [trackedFiles[n - 1]];
        LaterStill(old(faults), |trackedFiles| - n, 1);
        n := n - 1;
        var gone := Unlink(trackedFiles[n], want);
        clean := clean && gone;
      }
    }

    // ---- Copying -------------------------------------------------------------------------------

    /** The loop of `canonicalize_corpus` over the listed files. */
    method CopyFiles(raw: Tree, files: seq<CorpusFile>, t: Tools, ghost want: map<Path, string>) returns (ok: bool)
      requires Inv(want) && Settled() && names == map[] && directories == {}
      requires PathsProper(files) && forall f | f in files :: Location(f) in want && want[Location(f)] == Content(raw, Location(f))
      modifies `names, `inodes, `directories, `trackedFiles, `trackedDirectories, `faults, `failures
      ensures Inv(want)
      ensures ok ==> Settled() && names.Keys == Finals(files) && directories == Parents(files)
      ensures ok ==> forall f | f in files :: ContentOk(raw, f, t)
      ensures ok || failures > old(failures) || Overlapping(files) || exists f | f in files :: !ContentOk(raw, f, t)
      ensures if ok then failures == old(failures) else old(failures) <= failures <= old(failures) + 1
    {
      hide Inv, ContentOk, Settled, Finals, Parents, PathsProper, Overlapping, Location;
      NoFiles();
      for i := 0 to |files|
        invariant Inv(want) && Settled() && names.Keys == Finals(files[..i]) && directories == Parents(files[..i])
        invariant forall f | f in files[..i] :: ContentOk(raw, f, t)
        invariant failures == old(failures)
      {
        var f := files[i];
        assert f in files;
        FilesNext(files, i);
        if !ContentOk(raw, f, t) {
          return false;
        }
        ghost var taken := names.Keys;
        ok := CopyFile(raw, f, t, want);
        if !ok {
          if failures == old(failures) {
            TakenOverlaps(files, i, taken);
          }
          return;
        }
      }
      assert files[..|files|] == files;
      ok := true;
    }

    /** One file whose content was checked: the directories above it, then the file. */
    method CopyFile(raw: Tree, f: CorpusFile, t: Tools, ghost want: map<Path, string>) returns (ok: bool)
      requires Inv(want) && Settled() && ContentOk(raw, f, t)
      requires Location(f) in want && want[Location(f)] == Content(raw, Location(f))
      modifies `names, `inodes, `directories, `trackedFiles, `trackedDirectories, `faults, `failures
      ensures Inv(want)
      ensures ok ==> Settled() && names.Keys == old(names).Keys + {Final(Location(f))}
      ensures ok ==> directories == old(directories) + Above(Location(f), |Location(f)| - 1)
      ensures ok || failures > old(failures) || exists n | 0 < n <= |Location(f)| :: Final(Location(f)[..n]) in old(names)
      ensures if ok then failures == old(failures) else old(failures) <= failures <= old(failures) + 1
    {
      hide Inv, Settled, Above;
      var p := Location(f);
      ok := MakeParents(p, want);
      if !ok {
        return;
      }
      ParentMade(p, want);
      assert p[..|p|] == p;
      ok := WriteAtomic(p, ReadRegular(raw, p, f.size).value, want);
    }

    lemma ParentMade(p: Path, want: map<Path, string>)
      requires p != [] && Above(p, |p| - 1) <= directories
      ensures IsDirectory(Parent(p))
    {
    }

    /** Every file, every directory and the root lose their write permission. */
    method Restrict() returns (ok: bool)
      modifies `readOnly, `faults, `failures
      ensures ok || failures > old(failures)
      ensures readOnly == (old(readOnly) || ok)
      ensures if ok then failures == old(failures) else old(failures) <= failures <= old(failures) + 1
      ensures ok ==> faults == Later(old(faults), |trackedFiles| + |trackedDirectories| + 1)
    {
      ok := true;
      for i := 0 to |trackedFiles| + |trackedDirectories| + 1
        invariant ok && failures == old(failures) && readOnly == old(readOnly) && faults == Later(old(faults), i)
      {
        LaterStill(old(faults), i, 1);
        ok := Attempt();
        if !ok {
          return;
        }
      }
      readOnly := true;
    }

    /** Everything `canonicalize_corpus` does to the canonical root once the input is accepted. */
    method Fill(raw: Tree, files: seq<CorpusFile>, text: string, t: Tools, ghost want: map<Path, string>) returns (ok: bool)
      requires Inv(want) && Settled() && names == map[] && directories == {}
      requires PathsProper(files) && forall f | f in files :: Location(f) in want && want[Location(f)] == Content(raw, Location(f))
      requires CANONICAL in want && want[CANONICAL] == text && Final(CANONICAL) !in Finals(files)
      modifies `names, `inodes, `directories, `trackedFiles, `trackedDirectories, `readOnly, `faults, `failures
      ensures Inv(want)
      ensures ok ==> Settled() && names.Keys == Finals(files) + {Final(CANONICAL)} && directories == Parents(files)
      ensures ok ==> forall f | f in files :: ContentOk(raw, f, t)
      ensures ok || failures > old(failures) || Overlapping(files) || exists f | f in files :: !ContentOk(raw, f, t)
      ensures ok ==> readOnly
      ensures if ok then failures == old(failures) else old(failures) <= failures <= old(failures) + 1
    {
      hide Inv, ContentOk, Settled, Finals, Parents, PathsProper, Overlapping, Location;
      ok := CopyFiles(raw, files, t, want);
      if !ok {
        return;
      }
      ok := WriteAtomic(CANONICAL, text, want);
      if ok {
        ok := Restrict();
      }
    }

    /** The root is, as a tree, `tree`. */
    ghost predicate Shows(tree: Tree)
      reads `names, `inodes, `directories
    {
      && (forall q | q in names :: q.Final? && names[q] < |inodes| && q.path !in directories)
      && (forall p :: p in tree <==> p in directories || Final(p) in names)
      && (forall p | p in directories :: p in tree && tree[p] == Directory)
      && forall p | Final(p) in names :: tree[p] == File(inodes[names[Final(p)]], forall r | r in names :: names[r] == names[Final(p)] ==> r == Final(p))
    }
  }

  function Content(raw: Tree, p: Path): string {
    if p in raw && raw[p].File? then raw[p].content else ""
  }

  ghost function Finals(files: seq<CorpusFile>): set<Place> {
    set p | p in Locations(files) :: Final(p)
  }

  /** The directories above the files. */
  ghost function Parents(files: seq<CorpusFile>): set<Path> {
    set f, n | f in Locations(files) && 0 < n < |f| :: f[..n]
  }

  /** Every path is below `payload`, and no path is repeated. */
  ghost predicate PathsProper(files: seq<CorpusFile>) {
    && (forall f | f in files :: |Location(f)| >= 2 && Location(f)[0] == "payload")
    && forall i, j | 0 <= i < j < |files| :: Location(files[i]) != Location(files[j])
  }

  /** One file lies below another. */
  ghost predicate Overlapping(files: seq<CorpusFile>) {
    exists f, g | f in files && g in files :: Location(f) < Location(g)
  }

  lemma NoFiles()
    ensures Finals([]) == {} && Parents([]) == {}
  {
  }

  lemma LocationsNext(files: seq<CorpusFile>, i: nat)
    requires i < |files|
    ensures Locations(files[..i + 1]) == Locations(files[..i]) + {Location(files[i])}
  {
    assert files[..i + 1] == files[..i] + [files[i]];
  }

  lemma FilesNext(files: seq<CorpusFile>, i: nat)
    requires i < |files|
    ensures Finals(files[..i + 1]) == Finals(files[..i]) + {Final(Location(files[i]))}
    ensures |Location(files[i])| > 0
    ensures Parents(files[..i + 1]) == Parents(files[..i]) + Above(Location(files[i]), |Location(files[i])| - 1)
    ensures files[..i + 1] == files[..i] + [files[i]]
  {
    hide Split, Locations;
    LocationsNext(files, i);
  }

  /** A name that is taken while a proper list is copied is that of a file above the new one. */
  lemma TakenOverlaps(files: seq<CorpusFile>, i: nat, taken: set<Place>)
    requires PathsProper(files) && i < |files| && taken == Finals(files[..i])
    requires exists n | 0 < n <= |Location(files[i])| :: Final(Location(files[i])[..n]) in taken
    ensures Overlapping(files)
  {
    hide Location;
    var p := Location(files[i]);
    var n :| 0 < n <= |p| && Final(p[..n]) in taken;
    var f :| f in files[..i] && Location(f) == p[..n];
    var j :| 0 <= j < i && files[j] == f;
    assert p[..|p|] == p;
    assert files[i] in files && Location(files[j]) < p;
  }
}
