/** The inventory walk over a corpus root: a stack of directories, each scanned once in whatever order the system
    lists its entries. */
module CorpusInventory {
  import opened Options

  /** A path below the root, as its parts. */
  type Path = seq<string>

  /** What a name in the tree is; a regular file with its content and whether it has this one link only. */
  datatype Entry = Directory | File(content: string, single: bool) | Other

  type Tree = map<Path, Entry>

  predicate IsDirectory(tree: Tree, p: Path) {
    p == [] || (p in tree && tree[p].Directory?)
  }

  /** Every entry is in a directory of the tree. */
  ghost predicate WellFormed(tree: Tree) {
    forall p | p in tree :: p != [] && IsDirectory(tree, p[..|p| - 1])
  }

  function Files(tree: Tree): set<Path> {
    set p | p in tree && tree[p].File?
  }

  /** The directories the listed files are in, and always `payload`. */
  function Directories(files: set<Path>): set<Path> {
    (set f, n | f in files && 0 < n < |f| :: f[..n]) + {["payload"]}
  }

  const INVENTORY_LIMIT := 20_000

  ghost predicate EntryOk(tree: Tree, p: Path, expected: set<Path>, directories: set<Path>)
    requires p in tree
  {
    match tree[p]
    case Directory => p in directories
    case File(_, single) => single && p in expected
    case Other => false
  }

  /** What the walk must decide: nothing unlisted, nothing missing, nothing but directories and singly linked files,
      and the bounds. */
  ghost predicate InventoryOk(tree: Tree, manifest: Path, files: set<Path>, maxData: Option<nat>) {
    && (forall p | p in tree :: EntryOk(tree, p, files + {manifest}, Directories(files)))
    && Files(tree) == files + {manifest}
    && |tree| <= 20_000
    && (maxData.Some? ==> |Files(tree) - {manifest}| <= maxData.value)
  }

  /** The entries of a directory. */
  ghost function Children(tree: Tree, directory: Path): set<Path> {
    set p | p in tree && p != [] && p[..|p| - 1] == directory
  }

  /** The system lists a directory in some order. */
  method Scan(tree: Tree, directory: Path) returns (entries: seq<Path>)
    ensures forall p :: p in entries <==> p in Children(tree, directory)
    ensures forall i, j | 0 <= i < j < |entries| :: entries[i] != entries[j]
  {
    entries := [];
    var left := set p | p in tree && p != [] && p[..|p| - 1] == directory;
    while left != {}
      invariant left <= Children(tree, directory)
      invariant forall p :: p in entries <==> p in Children(tree, directory) && p !in left
      invariant forall i, j | 0 <= i < j < |entries| :: entries[i] != entries[j]
      decreases |left|
    {
      var p :| p in left;
      left := left - {p};
      entries := entries + [p];
    }
  }

  function Parent(p: Path): Path
    requires p != []
  {
    p[..|p| - 1]
  }

  /** What the loop variables of the walk hold. */
  datatype Walking = Walking(pending: seq<Path>, files: set<Path>, data: nat, entries: nat)

  /** Every entry seen was counted once, within the bounds, and was acceptable. */
  ghost predicate Counted(w: Walking, seen: set<Path>, tree: Tree, manifest: Path, files: set<Path>, maxData: Option<nat>) {
    && seen <= tree.Keys && w.entries == |seen| <= INVENTORY_LIMIT
    && w.files == (set p | p in seen && tree[p].File?)
    && w.data == |w.files - {manifest}| && (maxData.Some? ==> w.data <= maxData.value)
    && forall p | p in seen :: EntryOk(tree, p, files + {manifest}, Directories(files))
  }

  /** Every directory met is on the stack or was popped, and on the stack only once. */
  ghost predicate Stacked(pending: seq<Path>, popped: set<Path>, seen: set<Path>, tree: Tree)
    requires seen <= tree.Keys
  {
    && (forall i, j | 0 <= i < j < |pending| :: pending[i] != pending[j])
    && (forall d | d in pending :: d !in popped)
    && forall d :: (d in popped || d in pending <==> d == [] || (d in seen && tree[d].Directory?))
  }

  /** The entries seen are those of the directories scanned. */
  ghost predicate Scanned(seen: set<Path>, scanned: set<Path>, tree: Tree) {
    forall p :: p in seen <==> p in tree && p != [] && Parent(p) in scanned
  }

  lemma SubsetSize<T>(a: set<T>, b: set<T>)
    requires a <= b
    ensures |a| <= |b|
  {
    if a != {} {
      var x :| x in a;
      SubsetSize(a - {x}, b - {x});
    }
  }

  /** One entry of a directory. */
  method Observe(w: Walking, entry: Path, tree: Tree, manifest: Path, files: set<Path>, directories: set<Path>,
                 maxData: Option<nat>, ghost seen: set<Path>)
    returns (ok: bool, after: Walking)
    requires Counted(w, seen, tree, manifest, files, maxData) && directories == Directories(files)
    requires entry in tree && entry !in seen
    ensures ok ==> Counted(after, seen + {entry}, tree, manifest, files, maxData)
    ensures ok ==> after.pending == if tree[entry].Directory? then w.pending + [entry] else w.pending
    ensures !ok ==> !InventoryOk(tree, manifest, files, maxData)
  {
    hide InventoryOk, Directories;
    ghost var more := seen + {entry};
    after := w.(entries := w.entries + 1);
    if after.entries > INVENTORY_LIMIT {
      TooManyEntries(tree, more, manifest, files, maxData);
      return false, after;
    }
    match tree[entry] {
      case Other =>
        BadEntry(tree, entry, manifest, files, maxData);
        return false, after;
      case Directory =>
        if entry !in directories {
          BadEntry(tree, entry, manifest, files, maxData);
          return false, after;
        }
        after := after.(pending := w.pending + [entry]);
        assert w.files == set p | p in more && tree[p].File?;
      case File(_, single) =>
        if !single {
          BadEntry(tree, entry, manifest, files, maxData);
          return false, after;
        }
        DataCount(w.files, entry, manifest);
        assert w.files + {entry} == set p | p in more && tree[p].File?;
        if entry != manifest {
          after := after.(data := w.data + 1);
          if maxData.Some? && after.data > maxData.value {
            TooMuchData(tree, w.files + {entry}, manifest, files, maxData);
            return false, after;
          }
        }
        if entry !in files + {manifest} {
          BadEntry(tree, entry, manifest, files, maxData);
          return false, after;
        }
        after := after.(files := w.files + {entry});
    }
    ok := true;
  }

  lemma BadEntry(tree: Tree, entry: Path, manifest: Path, files: set<Path>, maxData: Option<nat>)
    requires entry in tree && !EntryOk(tree, entry, files + {manifest}, Directories(files))
    ensures !InventoryOk(tree, manifest, files, maxData)
  {
  }

  lemma TooManyEntries(tree: Tree, seen: set<Path>, manifest: Path, files: set<Path>, maxData: Option<nat>)
    requires seen <= tree.Keys && |seen| > INVENTORY_LIMIT
    ensures !InventoryOk(tree, manifest, files, maxData)
  {
    SubsetSize(seen, tree.Keys);
  }

  lemma TooMuchData(tree: Tree, observed: set<Path>, manifest: Path, files: set<Path>, maxData: Option<nat>)
    requires observed <= Files(tree) && maxData.Some? && |observed - {manifest}| > maxData.value
    ensures !InventoryOk(tree, manifest, files, maxData)
  {
    SubsetSize(observed - {manifest}, Files(tree) - {manifest});
  }

  lemma DataCount(observed: set<Path>, entry: Path, manifest: Path)
    requires entry !in observed
    ensures |observed + {entry} - {manifest}| == |observed - {manifest}| + if entry == manifest then 0 else 1
  {
    if entry == manifest {
      assert observed + {entry} - {manifest} == observed - {manifest};
    } else {
      assert observed + {entry} - {manifest} == (observed - {manifest}) + {entry};
    }
  }

  /** Every directory met was scanned, so every entry has been seen. */
  lemma {:induction false} AllSeen(tree: Tree, seen: set<Path>, scanned: set<Path>, p: Path)
    requires WellFormed(tree) && seen <= tree.Keys && Stacked([], scanned, seen, tree) && Scanned(seen, scanned, tree)
    requires p in tree
    ensures p in seen
    decreases |p|
  {
    var parent := Parent(p);
    if parent != [] {
      AllSeen(tree, seen, scanned, parent);
    }
    var none: seq<Path> := [];
    assert parent in scanned || parent in none;
  }

  /** The entries of one directory, in the order the system lists them. */
  method ScanDirectory(w: Walking, directory: Path, tree: Tree, manifest: Path, files: set<Path>,
                       directories: set<Path>, maxData: Option<nat>, ghost seen: set<Path>, ghost scanned: set<Path>)
    returns (ok: bool, after: Walking, ghost more: set<Path>)
    requires Counted(w, seen, tree, manifest, files, maxData) && directories == Directories(files)
    requires Scanned(seen, scanned, tree) && directory !in scanned
    requires Stacked(w.pending, scanned + {directory}, seen, tree)
    ensures ok ==> Counted(after, more, tree, manifest, files, maxData)
                   && Scanned(more, scanned + {directory}, tree)
                   && Stacked(after.pending, scanned + {directory}, more, tree)
    ensures !ok ==> !InventoryOk(tree, manifest, files, maxData)
  {
    hide InventoryOk, Counted;
    var entries := Scan(tree, directory);
    after, more := w, seen;
    CountedSeen(after, more, tree, manifest, files, maxData);
    for i := 0 to |entries|
      invariant Counted(after, more, tree, manifest, files, maxData) && more <= tree.Keys
      invariant forall p :: p in more <==> p in seen || p in entries[..i]
      invariant Stacked(after.pending, scanned + {directory}, more, tree)
    {
      var entry := entries[i];
      assert entry in Children(tree, directory) && entry !in more;
      ghost var met := after.pending;
      ok, after := Observe(after, entry, tree, manifest, files, directories, maxData, more);
      if !ok {
        return;
      }
      StackedNext(met, entry, scanned + {directory}, more, tree);
      more := more + {entry};
      assert entries[..i + 1] == entries[..i] + [entry];
    }
    assert entries[..|entries|] == entries;
    ok := true;
  }

  lemma CountedSeen(w: Walking, seen: set<Path>, tree: Tree, manifest: Path, files: set<Path>, maxData: Option<nat>)
    requires Counted(w, seen, tree, manifest, files, maxData)
    ensures seen <= tree.Keys
  {
  }

  lemma StackedNext(pending: seq<Path>, entry: Path, popped: set<Path>, seen: set<Path>, tree: Tree)
    requires seen <= tree.Keys && Stacked(pending, popped, seen, tree) && entry in tree && entry !in seen && entry != []
    ensures Stacked(if tree[entry].Directory? then pending + [entry] else pending, popped, seen + {entry}, tree)
  {
    var longer := pending + [entry];
    assert forall d :: d in longer <==> d in pending || d == entry;
    assert entry !in pending && entry !in popped;
  }

  lemma StackedPop(pending: seq<Path>, popped: set<Path>, seen: set<Path>, tree: Tree)
    requires seen <= tree.Keys && pending != [] && Stacked(pending, popped, seen, tree)
    ensures Stacked(pending[..|pending| - 1], popped + {pending[|pending| - 1]}, seen, tree)
    ensures pending[|pending| - 1] !in popped && pending[|pending| - 1] in tree.Keys + {[]}
  {
    var last, rest := pending[|pending| - 1], pending[..|pending| - 1];
    assert forall d :: d in pending <==> d in rest || d == last;
  }

  /** `_verify_raw_inventory`, and without a data limit `_verify_canonical_inventory`. */
  method Walk(tree: Tree, manifest: Path, files: set<Path>, maxData: Option<nat>) returns (ok: bool)
    requires WellFormed(tree)
    ensures ok <==> InventoryOk(tree, manifest, files, maxData)
  {
    hide InventoryOk, Counted, Stacked, Scanned, WellFormed, Directories;
    var directories := Directories(files);
    var w := Walking([[]], {}, 0, 0);
    ghost var seen: set<Path>, scanned: set<Path> := {}, {};
    AtStart(tree, manifest, files, maxData);
    while w.pending != []
      invariant seen <= tree.Keys && Counted(w, seen, tree, manifest, files, maxData)
      invariant Scanned(seen, scanned, tree) && Stacked(w.pending, scanned, seen, tree)
      decreases |tree.Keys + {[]} - scanned|
    {
      var directory := w.pending[|w.pending| - 1];
      StackedPop(w.pending, scanned, seen, tree);
      PendingIrrelevant(w, w.pending[..|w.pending| - 1], seen, tree, manifest, files, maxData);
      w := w.(pending := w.pending[..|w.pending| - 1]);
      ok, w, seen := ScanDirectory(w, directory, tree, manifest, files, directories, maxData, seen, scanned);
      if !ok {
        return;
      }
      CountedSeen(w, seen, tree, manifest, files, maxData);
      LessLeft(tree.Keys + {[]}, scanned, directory);
      scanned := scanned + {directory};
    }
    AtEnd(w, seen, scanned, tree, manifest, files, maxData);
    ok := w.files == files + {manifest};
  }

  lemma LessLeft(all: set<Path>, scanned: set<Path>, directory: Path)
    requires directory in all && directory !in scanned
    ensures |all - (scanned + {directory})| < |all - scanned|
  {
    assert all - (scanned + {directory}) == (all - scanned) - {directory};
  }

  lemma PendingIrrelevant(w: Walking, pending: seq<Path>, seen: set<Path>, tree: Tree, manifest: Path, files: set<Path>,
                          maxData: Option<nat>)
    requires Counted(w, seen, tree, manifest, files, maxData)
    ensures Counted(w.(pending := pending), seen, tree, manifest, files, maxData)
  {
  }

  lemma AtStart(tree: Tree, manifest: Path, files: set<Path>, maxData: Option<nat>)
    requires WellFormed(tree)
    ensures Counted(Walking([[]], {}, 0, 0), {}, tree, manifest, files, maxData)
    ensures Stacked([[]], {}, {}, tree) && Scanned({}, {}, tree)
  {
    var none: set<Path> := {};
    assert none - {manifest} == {};
  }

  lemma AtEnd(w: Walking, seen: set<Path>, scanned: set<Path>, tree: Tree, manifest: Path, files: set<Path>,
              maxData: Option<nat>)
    requires WellFormed(tree) && seen <= tree.Keys && Scanned(seen, scanned, tree)
    requires Stacked([], scanned, seen, tree) && Counted(w, seen, tree, manifest, files, maxData)
    ensures InventoryOk(tree, manifest, files, maxData) <==> w.files == files + {manifest}
  {
    forall p | p in tree
      ensures p in seen
    {
      AllSeen(tree, seen, scanned, p);
    }
    assert seen == tree.Keys;
    assert w.files == Files(tree);
  }

  // ---- What acceptance means -------------------------------------------------------------------

  /** Every directory above an entry is in the tree. */
  lemma {:induction false} AncestorsAreDirectories(tree: Tree, p: Path, n: nat)
    requires WellFormed(tree) && p in tree && n < |p|
    ensures IsDirectory(tree, p[..n])
    decreases |p|
  {
    if n < |p| - 1 {
      AncestorsAreDirectories(tree, Parent(p), n);
      assert Parent(p)[..n] == p[..n];
    }
  }

  /** No file of an accepted inventory lies below another. */
  lemma NoFileBelowAnother(tree: Tree, manifest: Path, files: set<Path>, maxData: Option<nat>, f: Path, g: Path)
    requires WellFormed(tree) && InventoryOk(tree, manifest, files, maxData)
    requires f in files && g in files
    ensures !(f < g)
  {
    assert f in Files(tree) && g in Files(tree);
    if f < g {
      assert g[..|f|] == f;
      AncestorsAreDirectories(tree, g, |f|);
    }
  }

  function DirectoriesOf(tree: Tree): set<Path> {
    set p | p in tree && tree[p].Directory?
  }

  /** The directories of an accepted tree are the expected ones, but that `payload` may be missing when no file is
      below it: the list determines the whole tree. */
  lemma InventoryDetermines(tree: Tree, manifest: Path, files: set<Path>, maxData: Option<nat>)
    requires WellFormed(tree) && InventoryOk(tree, manifest, files, maxData)
    ensures DirectoriesOf(tree) + {["payload"]} == Directories(files)
    ensures (exists f :: f in files && |f| > 1 && f[0] == "payload") ==> DirectoriesOf(tree) == Directories(files)
  {
    forall d | d in tree && tree[d].Directory?
      ensures d in Directories(files)
    {
      assert EntryOk(tree, d, files + {manifest}, Directories(files));
    }
    forall f, n | f in files && 0 < n < |f|
      ensures f[..n] in DirectoriesOf(tree)
    {
      assert f in Files(tree);
      AncestorsAreDirectories(tree, f, n);
    }
    if f :| f in files && |f| > 1 && f[0] == "payload" {
      assert f[..1] == ["payload"];
    }
  }
}
