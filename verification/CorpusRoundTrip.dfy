/** Canonicalising a corpus, and why the verifier accepts what was canonicalised. */
module CorpusRoundTrip {
  import opened Options
  import opened Text
  import opened CorpusInventory
  import opened CorpusManifest
  import opened CanonicalCorpus
  import opened CorpusCopy

  /** The input is the pinned one, its manifest is acceptable, and the raw root holds exactly what it lists. */
  ghost predicate Prepared(raw: Tree, pin: string, operator: Limits, m: InputManifest, t: Tools) {
    var text := ReadRegular(raw, ["acceptance-corpus.json"], 1_000_000);
    && t.isDigest(pin) && text.Some? && t.sha256(text.value) == pin && t.parseInput(text.value) == Some(m)
    && LimitsValid(m.limits) && LimitsValid(operator) && Within(m.limits, operator)
    && FilesOk(m.files, m.limits, t.unicode)
    && InventoryOk(raw, INPUT, Locations(m.files), Some(m.limits.maxFiles))
  }

  /** What every file of the canonical root must hold. */
  function Wanted(raw: Tree, m: InputManifest, pin: string, t: Tools): map<Path, string> {
    map p | p in Locations(m.files) + {CANONICAL} ::
      if p == CANONICAL then t.render(ManifestFor(m, pin, t)) else Content(raw, p)
  }

  /** The canonical root as a tree. */
  ghost function CanonicalTree(raw: Tree, m: InputManifest, pin: string, t: Tools): Tree {
    map p | p in Locations(m.files) + {CANONICAL} + Parents(m.files) ::
      if p in Parents(m.files) then Directory else File(Wanted(raw, m, pin, t)[p], true)
  }

  lemma ProperPaths(files: seq<CorpusFile>, l: Limits, u: Unicode)
    requires FilesOk(files, l, u)
    ensures PathsProper(files)
  {
    hide Harmless;
    forall i, j | 0 <= i < j < |files|
      ensures Location(files[i]) != Location(files[j])
    {
      SplitJoin(files[i].path);
      SplitJoin(files[j].path);
    }
    forall f | f in files
      ensures |Location(f)| >= 2 && Location(f)[0] == "payload"
    {
      assert Admissible(f.path, l.maxDepth, u);
    }
  }

  lemma NoOverlap(raw: Tree, files: seq<CorpusFile>, maxData: Option<nat>)
    requires WellFormed(raw) && InventoryOk(raw, INPUT, Locations(files), maxData)
    ensures !Overlapping(files)
  {
    hide InventoryOk, Location;
    forall f, g | f in files && g in files
      ensures !(Location(f) < Location(g))
    {
      NoFileBelowAnother(raw, INPUT, Locations(files), maxData, Location(f), Location(g));
    }
  }

  /** Files and directories of a proper list are different paths, and neither is a manifest. */
  lemma PathsApart(files: seq<CorpusFile>, p: Path)
    requires PathsProper(files) && !Overlapping(files)
    ensures p in Parents(files) ==> p !in Locations(files) && p != CANONICAL && p != INPUT && p[0] == "payload"
    ensures p in Locations(files) ==> p != CANONICAL && p != INPUT
  {
    hide Location;
    if p in Parents(files) {
      var g, n :| g in Locations(files) && 0 < n < |g| && g[..n] == p;
      assert p[0] == g[0] && p < g;
    }
  }

  lemma CanonicalNotListed(files: seq<CorpusFile>)
    requires PathsProper(files)
    ensures CANONICAL !in Locations(files) && Final(CANONICAL) !in Finals(files)
  {
  }

  lemma WantedListed(raw: Tree, m: InputManifest, pin: string, t: Tools)
    requires PathsProper(m.files)
    ensures var want := Wanted(raw, m, pin, t);
            CANONICAL in want && want[CANONICAL] == t.render(ManifestFor(m, pin, t))
            && forall f | f in m.files :: Location(f) in want && want[Location(f)] == Content(raw, Location(f))
  {
    hide Location;
    CanonicalNotListed(m.files);
  }

  /** A root that was filled shows the canonical tree. */
  lemma FilledShows(root: CanonicalRoot, raw: Tree, m: InputManifest, pin: string, t: Tools)
    requires PathsProper(m.files) && !Overlapping(m.files) && root.Whole(Wanted(raw, m, pin, t)) && root.Settled()
    requires root.names.Keys == Finals(m.files) + {Final(CANONICAL)} && root.directories == Parents(m.files)
    ensures root.Shows(CanonicalTree(raw, m, pin, t))
  {
    hide Locations, PathsProper, Overlapping, Parents, Wanted;
    var tree := CanonicalTree(raw, m, pin, t);
    forall p
      ensures p in Parents(m.files) ==> p !in Locations(m.files) && p != CANONICAL
    {
      PathsApart(m.files, p);
    }
    assert forall p :: Final(p) in root.names <==> p in Locations(m.files) + {CANONICAL};
    forall q | q in root.names
      ensures q.Final? && root.names[q] < |root.inodes| && q.path !in root.directories
    {
    }
    forall p | Final(p) in root.names
      ensures p in tree && tree[p] == File(root.inodes[root.names[Final(p)]], true)
    {
    }
  }

  datatype CopyOutcome = Copied(id: Identity) | Rejected | Failed(clean: bool)

  method Prepare(raw: Tree, pin: string, operator: Limits, t: Tools) returns (manifest: Option<InputManifest>)
    requires WellFormed(raw)
    ensures manifest.Some? ==> Prepared(raw, pin, operator, manifest.value, t)
    ensures manifest.None? ==> forall m :: !Prepared(raw, pin, operator, m, t)
  {
    hide InventoryOk, FilesOk;
    var text := ReadRegular(raw, INPUT, MANIFEST_LIMIT);
    if !t.isDigest(pin) || text.None? || t.sha256(text.value) != pin || t.parseInput(text.value).None? {
      return None;
    }
    var m := t.parseInput(text.value).value;
    var ok := ManifestFiles(m.files, m.limits, operator, t.unicode);
    if !ok {
      return None;
    }
    ok := Walk(raw, INPUT, Locations(m.files), Some(m.limits.maxFiles));
    manifest := if ok then Some(m) else None;
  }

  /** `canonicalize_corpus` into an empty root; `copying` is how many operations failed before the cleanup, at most one.
      Left alone it succeeds exactly when the input is acceptable; a failed copy leaves the root empty unless the cleanup
      failed as well, and it says which. */
  method CanonicalizeCorpus(root: CanonicalRoot, raw: Tree, pin: string, operator: Limits, t: Tools)
    returns (outcome: CopyOutcome, ghost m: Option<InputManifest>, ghost copying: nat)
    requires WellFormed(raw) && root.trackedFiles == [] && root.trackedDirectories == []
    modifies root
    ensures m.Some? ==> Prepared(raw, pin, operator, m.value, t)
    ensures m.None? ==> forall n :: !Prepared(raw, pin, operator, n, t)
    ensures outcome == Rejected <==> m.None? || old(root.names) != map[] || old(root.directories) != {}
    ensures outcome == Rejected ==> root.names == old(root.names) && root.directories == old(root.directories)
    ensures outcome.Copied? ==>
      m.Some? && (forall f | f in m.value.files :: ContentOk(raw, f, t))
      && root.Shows(CanonicalTree(raw, m.value, pin, t)) && HarmlessTree(CanonicalTree(raw, m.value, pin, t), CANONICAL, t.unicode)
      && outcome.id == IdentityOf(ManifestFor(m.value, pin, t), t.render(ManifestFor(m.value, pin, t)), t)
      && Identifies(outcome.id, m.value, pin, t)
    ensures outcome.Failed? ==> (outcome.clean ==> root.names == map[] && root.directories == {})
    ensures outcome.Copied? ==> root.readOnly && root.failures == old(root.failures)
    ensures outcome.Failed? ==> copying <= 1 && root.failures >= old(root.failures) + copying
    ensures outcome.Failed? ==> (outcome.clean <==> root.failures == old(root.failures) + copying)
    ensures outcome.Failed? && copying == 0 ==> m.Some? && exists f | f in m.value.files :: !ContentOk(raw, f, t)
  {
    hide Prepared, ContentOk, Wanted, CanonicalTree, Overlapping, PathsProper, Locations, Parents, Finals, HarmlessTree,
      Identifies;
    var manifest := Prepare(raw, pin, operator, t);
    m, copying := manifest, 0;
    if manifest.None? || root.names != map[] || root.directories != {} {
      return Rejected, m, copying;
    }
    var input := manifest.value;
    PreparedProper(raw, pin, operator, input, t);
    ghost var want := Wanted(raw, input, pin, t);
    WantedListed(raw, input, pin, t);
    var text := t.render(ManifestFor(input, pin, t));
    EmptyInv(root, want);
    var ok := root.Fill(raw, input.files, text, t, want);
    if !ok {
      copying := root.failures - old(root.failures);
      var clean := root.Cleanup(want);
      return Failed(clean), m, copying;
    }
    FilledShows(root, raw, input, pin, t);
    CanonicalHarmless(raw, pin, operator, input, t);
    CopiedIdentity(input, pin, t);
    outcome := Copied(IdentityOf(ManifestFor(input, pin, t), text, t));
  }

  lemma EmptyInv(root: CanonicalRoot, want: map<Path, string>)
    requires root.names == map[] && root.directories == {} && root.trackedFiles == [] && root.trackedDirectories == []
    ensures root.Inv(want) && root.Settled()
  {
  }

  lemma PreparedProper(raw: Tree, pin: string, operator: Limits, m: InputManifest, t: Tools)
    requires WellFormed(raw) && Prepared(raw, pin, operator, m, t)
    ensures PathsProper(m.files) && !Overlapping(m.files) && Final(CANONICAL) !in Finals(m.files)
  {
    hide InventoryOk, FilesOk;
    ProperPaths(m.files, m.limits, t.unicode);
    NoOverlap(raw, m.files, Some(m.limits.maxFiles));
    CanonicalNotListed(m.files);
  }

  /** What a copy answers: the pin of its input, the fingerprint of the listed files, and the digest of the manifest it
      wrote, which says the same of the corpus. */
  ghost predicate Identifies(id: Identity, m: InputManifest, pin: string, t: Tools) {
    var fingerprint := t.sha256(t.identityText(m.corpusId, m.sourceCommit, m.files));
    && id.corpusId == m.corpusId && id.manifestSha256 == pin && id.fingerprint == fingerprint
    && id.canonicalSha256 == t.sha256(t.render(Manifest(m.corpusId, m.generatedAt, m.sourceCommit, pin, fingerprint, m.files)))
    && id.fileCount == |m.files| && id.totalBytes == Total(m.files)
  }

  lemma CopiedIdentity(m: InputManifest, pin: string, t: Tools)
    ensures Identifies(IdentityOf(ManifestFor(m, pin, t), t.render(ManifestFor(m, pin, t)), t), m, pin, t)
  {
  }

  /** The canonical tree holds nothing that could climb, hide or control. */
  lemma CanonicalHarmless(raw: Tree, pin: string, operator: Limits, m: InputManifest, t: Tools)
    requires WellFormed(raw) && Prepared(raw, pin, operator, m, t)
    ensures HarmlessTree(CanonicalTree(raw, m, pin, t), CANONICAL, t.unicode)
  {
    hide InventoryOk, Split, Harmless, HarmlessFile, Wanted;
    var tree := CanonicalTree(raw, m, pin, t);
    forall p | p in Locations(m.files)
      ensures HarmlessFile(p, t.unicode)
    {
      var f :| f in m.files && p == Location(f);
      assert Admissible(f.path, m.limits.maxDepth, t.unicode);
    }
    PreparedProper(raw, pin, operator, m, t);
    forall p | p in tree && p != CANONICAL
      ensures Harmless(p, t.unicode) && (tree[p].File? ==> HarmlessFile(p, t.unicode))
    {
      DirectoryHarmless(Locations(m.files), p, t.unicode);
    }
  }

  /** The raw root holds `acceptance-corpus.json` with the pinned digest and exactly the files this lists, as far as
      they match their records, within the limits of the manifest and the operator. */
  lemma PreparedContents(raw: Tree, pin: string, operator: Limits, m: InputManifest, t: Tools)
    requires Prepared(raw, pin, operator, m, t) && forall f | f in m.files :: ContentOk(raw, f, t)
    ensures HoldsManifest(raw, "acceptance-corpus.json", pin, t)
    ensures t.parseInput(raw[["acceptance-corpus.json"]].content) == Some(m)
    ensures HoldsExactly(raw, "acceptance-corpus.json", m.files, t) && t.isDigest(pin)
    ensures |Files(raw) - {["acceptance-corpus.json"]}| <= m.limits.maxFiles
    ensures m.limits.maxFiles <= operator.maxFiles <= 10_000 && m.limits.maxTotal <= operator.maxTotal <= 1024 * 1024 * 1024
    ensures m.limits.maxFile <= operator.maxFile <= 256 * 1024 * 1024 && m.limits.maxDepth <= operator.maxDepth <= 32
  {
    LimitsMean(operator);
    assert |Files(raw) - {INPUT}| <= m.limits.maxFiles;
    hide FilesOk, InventoryOk, HoldsExactly, ContentOk, LimitsValid;
    ExactInventory(raw, "acceptance-corpus.json", m.files, Some(m.limits.maxFiles), t);
  }

  /** The canonical root holds its manifest, which names the corpus, the pin and the fingerprint, and each listed file
      with the content it had. */
  lemma CopiedContents(raw: Tree, pin: string, m: InputManifest, t: Tools)
    requires PathsProper(m.files) && !Overlapping(m.files)
    ensures var tree, n := CanonicalTree(raw, m, pin, t), "canonical-manifest.json";
            && [n] in tree && tree[[n]] == File(t.render(Manifest(m.corpusId, m.generatedAt, m.sourceCommit, pin,
                 t.sha256(t.identityText(m.corpusId, m.sourceCommit, m.files)), m.files)), true)
            && forall f | f in m.files && Split(f.path) in raw && raw[Split(f.path)].File? ::
              Split(f.path) in tree && tree[Split(f.path)] == File(raw[Split(f.path)].content, true)
  {
    hide Split;
    PathsApart(m.files, CANONICAL);
    forall f | f in m.files && Split(f.path) in raw && raw[Split(f.path)].File?
      ensures var tree := CanonicalTree(raw, m, pin, t);
              Split(f.path) in tree && tree[Split(f.path)] == File(raw[Split(f.path)].content, true)
    {
      assert Location(f) in Locations(m.files);
      PathsApart(m.files, Location(f));
    }
  }

  // ---- The round trip --------------------------------------------------------------------------

  /** With a file listed, the directories above the files are all the expected ones. */
  lemma ParentsAreDirectories(files: seq<CorpusFile>)
    requires PathsProper(files) && files != []
    ensures Parents(files) == Directories(Locations(files))
  {
    hide Location;
    var p := Location(files[0]);
    assert files[0] in files && p[..1] == ["payload"];
    assert ["payload"] in Parents(files);
  }

  lemma DirectoriesNest(files: seq<CorpusFile>, p: Path)
    requires PathsProper(files)
    ensures p in Parents(files) ==> p != [] && (p[..|p| - 1] == [] || p[..|p| - 1] in Parents(files))
    ensures p in Locations(files) ==> p != [] && p[..|p| - 1] in Parents(files)
  {
    hide Location;
    if p in Parents(files) {
      var g, n :| g in Locations(files) && 0 < n < |g| && g[..n] == p;
      assert p[..|p| - 1] == g[..n - 1];
    }
  }

  lemma CanonicalWellFormed(raw: Tree, m: InputManifest, pin: string, t: Tools)
    requires PathsProper(m.files) && !Overlapping(m.files)
    ensures WellFormed(CanonicalTree(raw, m, pin, t))
  {
    hide Overlapping, Wanted, Location, Locations, Parents, PathsProper;
    var tree := CanonicalTree(raw, m, pin, t);
    forall p | p in tree
      ensures p != [] && IsDirectory(tree, p[..|p| - 1])
    {
      DirectoriesNest(m.files, p);
    }
  }

  /** The raw and the canonical root have equally many entries. */
  lemma SameSize(raw: Tree, m: InputManifest, pin: string, t: Tools, maxData: Option<nat>)
    requires WellFormed(raw) && PathsProper(m.files) && !Overlapping(m.files) && m.files != []
    requires InventoryOk(raw, INPUT, Locations(m.files), maxData)
    ensures |CanonicalTree(raw, m, pin, t)| <= INVENTORY_LIMIT
  {
    hide Wanted, Location, Parents, Locations, Overlapping, PathsProper;
    var tree := CanonicalTree(raw, m, pin, t);
    var rest := tree.Keys - {CANONICAL};
    forall p | p in rest
      ensures p in raw.Keys - {INPUT}
    {
      PathsApart(m.files, p);
      ListedInRaw(raw, m.files, maxData, p);
    }
    SubsetSize(rest, raw.Keys - {INPUT});
    assert INPUT in Files(raw);
    assert |raw.Keys - {INPUT}| == |raw.Keys| - 1;
    assert CANONICAL in tree && |rest| == |tree.Keys| - 1;
  }

  lemma ListedInRaw(raw: Tree, files: seq<CorpusFile>, maxData: Option<nat>, p: Path)
    requires WellFormed(raw) && InventoryOk(raw, INPUT, Locations(files), maxData)
    requires p in Locations(files) || p in Parents(files)
    ensures p in raw
  {
    hide Location;
    if p in Locations(files) {
      assert p in Files(raw);
    } else {
      var g, n :| g in Locations(files) && 0 < n < |g| && g[..n] == p;
      assert g in Files(raw);
      AncestorsAreDirectories(raw, g, n);
    }
  }

  lemma CanonicalFiles(raw: Tree, m: InputManifest, pin: string, t: Tools)
    requires PathsProper(m.files) && !Overlapping(m.files)
    ensures Files(CanonicalTree(raw, m, pin, t)) == Locations(m.files) + {CANONICAL}
  {
    hide Location, Locations, Parents, Overlapping, PathsProper, Wanted;
    forall p
      ensures p in Parents(m.files) ==> p !in Locations(m.files) && p != CANONICAL
    {
      PathsApart(m.files, p);
    }
  }

  lemma CanonicalInventory(raw: Tree, pin: string, operator: Limits, m: InputManifest, t: Tools)
    requires WellFormed(raw) && Prepared(raw, pin, operator, m, t) && m.files != []
    ensures InventoryOk(CanonicalTree(raw, m, pin, t), CANONICAL, Locations(m.files), None)
  {
    hide FilesOk, Location, Locations, Parents, Overlapping, PathsProper, Wanted, Files, Directories;
    PreparedProper(raw, pin, operator, m, t);
    SameSize(raw, m, pin, t, Some(m.limits.maxFiles));
    ParentsAreDirectories(m.files);
    CanonicalFiles(raw, m, pin, t);
  }

  lemma CanonicalContents(raw: Tree, pin: string, operator: Limits, m: InputManifest, t: Tools, f: CorpusFile)
    requires WellFormed(raw) && Prepared(raw, pin, operator, m, t) && f in m.files && ContentOk(raw, f, t)
    ensures ContentOk(CanonicalTree(raw, m, pin, t), f, t)
  {
    hide FilesOk, Location, InventoryOk;
    PreparedProper(raw, pin, operator, m, t);
    PathsApart(m.files, Location(f));
  }

  /** The pins a copy hands on. */
  function PinsOf(id: Identity): Pins {
    Pins(id.manifestSha256, id.fingerprint, id.canonicalSha256)
  }

  /** What was canonicalised is verified, under its own identity and as the same corpus, exactly when its rendered
      manifest is within the read limit and its source commit is a commit and nothing more: the schema of the input
      accepts a commit followed by a newline, the verifier does not. */
  lemma CanonicalRoundTrip(raw: Tree, pin: string, operator: Limits, m: InputManifest, t: Tools)
    requires Faithful(t) && WellFormed(raw) && Prepared(raw, pin, operator, m, t)
    requires forall f | f in m.files :: ContentOk(raw, f, t)
    ensures var manifest := ManifestFor(m, pin, t);
            var id := IdentityOf(manifest, t.render(manifest), t);
            VerifiesAs(CanonicalTree(raw, m, pin, t), PinsOf(id), manifest, id, t) <==>
            |t.render(manifest)| <= 1_000_000 && t.isCommit(m.sourceCommit)
  {
    hide InventoryOk, ContentOk, PathsProper, Overlapping, Parents, FilesOk;
    var manifest := ManifestFor(m, pin, t);
    var tree := CanonicalTree(raw, m, pin, t);
    PreparedProper(raw, pin, operator, m, t);
    PathsApart(m.files, CANONICAL);
    WantedListed(raw, m, pin, t);
    assert tree[CANONICAL] == File(t.render(manifest), true);
    CanonicalInventory(raw, pin, operator, m, t);
    forall f | f in m.files
      ensures ContentOk(tree, f, t) && t.isDigest(f.sha256)
    {
      CanonicalContents(raw, pin, operator, m, t, f);
      ContentDigest(raw, f, t);
    }
    WithinHard(m.files, m.limits, t.unicode);
  }

  lemma ContentDigest(tree: Tree, f: CorpusFile, t: Tools)
    requires Faithful(t) && ContentOk(tree, f, t)
    ensures t.isDigest(f.sha256)
  {
  }

  /** The same as calls: a copy that succeeded, verified with the identities it returned. */
  method CopyThenVerify(root: CanonicalRoot, raw: Tree, pin: string, operator: Limits, t: Tools)
    returns (copied: CopyOutcome, verified: Option<Identity>, ghost m: Option<InputManifest>)
    requires Faithful(t) && WellFormed(raw) && root.trackedFiles == [] && root.trackedDirectories == []
    modifies root
    ensures copied.Copied? ==> m.Some?
    ensures copied.Copied? ==>
      verified == if |t.render(ManifestFor(m.value, pin, t))| <= 1_000_000 && t.isCommit(m.value.sourceCommit)
                  then Some(copied.id) else None
  {
    hide Prepared, ContentOk, VerifiesAs, CanonicalTree, WellFormed, Faithful;
    verified := None;
    ghost var copying;
    copied, m, copying := CanonicalizeCorpus(root, raw, pin, operator, t);
    if copied.Copied? {
      ghost var expected := CanonicalTree(raw, m.value, pin, t);
      CanonicalRoundTrip(raw, pin, operator, m.value, t);
      PreparedProper(raw, pin, operator, m.value, t);
      CanonicalWellFormed(raw, m.value, pin, t);
      var tree := Look(root, expected);
      ghost var n;
      verified, n := VerifyCanonical(tree, PinsOf(copied.id), t);
      if verified.Some? {
        OneIdentity(tree, PinsOf(copied.id), n.value, verified.value, ManifestFor(m.value, pin, t), copied.id, raw, m.value, pin, t);
      }
    }
  }

  lemma OneIdentity(tree: Tree, pins: Pins, n: Manifest, id: Identity, manifest: Manifest, copied: Identity, raw: Tree,
                    m: InputManifest, pin: string, t: Tools)
    requires VerifiesAs(tree, pins, n, id, t) && tree == CanonicalTree(raw, m, pin, t) && Faithful(t)
    requires PathsProper(m.files) && !Overlapping(m.files)
    requires manifest == ManifestFor(m, pin, t) && copied == IdentityOf(manifest, t.render(manifest), t)
    ensures n == manifest && id == copied
  {
    hide InventoryOk, ContentOk, PathsProper, Overlapping, Parents, FilesOk;
    PathsApart(m.files, CANONICAL);
    WantedListed(raw, m, pin, t);
  }

  /** Reading the root as a tree. */
  method Look(root: CanonicalRoot, ghost expected: Tree) returns (tree: Tree)
    requires root.Shows(expected)
    ensures tree == expected
  {
    tree := map p | p in root.directories + (set q | q in root.names :: q.path) ::
      if p in root.directories then Directory
      else File(root.inodes[root.names[Final(p)]],
                forall r | r in root.names :: root.names[r] == root.names[Final(p)] ==> r == Final(p));
    SameTree(root, tree, expected);
  }

  lemma SameTree(root: CanonicalRoot, tree: Tree, expected: Tree)
    requires root.Shows(expected) && root.Shows(tree)
    ensures tree == expected
  {
    forall p | p in expected
      ensures p in tree && tree[p] == expected[p]
    {
      assert p in root.directories || Final(p) in root.names;
    }
    forall p | p in tree
      ensures p in expected
    {
      assert p in root.directories || Final(p) in root.names;
    }
  }

  /** The text that a fingerprint is the digest of. */
  function IdentityText(m: Manifest, t: Tools): string {
    t.identityText(m.corpusId, m.sourceCommit, m.files)
  }

  ghost predicate SameCorpus(m: Manifest, n: Manifest) {
    m.corpusId == n.corpusId && m.sourceCommit == n.sourceCommit && forall f :: f in m.files <==> f in n.files
  }

  /** The fingerprint is a function of the corpus as a set of files, and decides it: corpora with the same fingerprint
      are the same, or their identity texts are different and collide. */
  lemma FingerprintDecides(m: Manifest, n: Manifest, t: Tools)
    requires StrictlySorted(m.files) && StrictlySorted(n.files)
    requires forall c, s, f, d, r, g | t.identityText(c, s, f) == t.identityText(d, r, g) :: c == d && s == r && f == g
    ensures SameCorpus(m, n) <==> IdentityText(m, t) == IdentityText(n, t)
    ensures Fingerprint(m.corpusId, m.sourceCommit, m.files, t) == Fingerprint(n.corpusId, n.sourceCommit, n.files, t) <==>
      SameCorpus(m, n)
      || (IdentityText(m, t) != IdentityText(n, t) && t.sha256(IdentityText(m, t)) == t.sha256(IdentityText(n, t)))
  {
    if SameCorpus(m, n) {
      SameFilesSameList(m.files, n.files);
    }
  }
}
