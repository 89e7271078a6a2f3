/** Copying a pinned corpus into a fresh canonical root, undoing a failed copy, and verifying a root again.

    Texts stand for byte strings, one character per byte. */
module CanonicalCorpus {
  import opened Options
  import opened Text
  import opened CorpusInventory
  import opened CorpusManifest

  const INPUT: Path := ["acceptance-corpus.json"]
  const CANONICAL: Path := ["canonical-manifest.json"]
  const MANIFEST_LIMIT := 1_000_000

  /** The pinned input manifest, once its schema is satisfied. */
  datatype InputManifest = InputManifest(corpusId: string, sourceCommit: string, generatedAt: string, limits: Limits,
                                         files: seq<CorpusFile>)

  datatype Manifest = Manifest(corpusId: string, generatedAt: string, sourceCommit: string, inputSha256: string,
                               fingerprint: string, files: seq<CorpusFile>)

  /** What copying and verifying answer. */
  datatype Identity = Identity(corpusId: string, manifestSha256: string, fingerprint: string, canonicalSha256: string,
                               fileCount: nat, totalBytes: nat)

  datatype Tools = Tools(sha256: string -> string, isDigest: string -> bool, isCommit: string -> bool, unicode: Unicode,
                         parseInput: string -> Option<InputManifest>, identityText: (string, string, seq<CorpusFile>) -> string,
                         render: Manifest -> string, parse: string -> Option<Manifest>)

  /** Digests look like digests, a rendered manifest parses back, and the schema of the input asks for a file. */
  ghost predicate Faithful(t: Tools) {
    && (forall x :: t.isDigest(t.sha256(x))) && (forall m :: t.parse(t.render(m)) == Some(m))
    && (forall x :: t.parseInput(x).Some? ==> t.parseInput(x).value.files != [])
  }

  /** `_source_fingerprint`. */
  function Fingerprint(corpusId: string, sourceCommit: string, files: seq<CorpusFile>, t: Tools): string {
    t.sha256(t.identityText(corpusId, sourceCommit, files))
  }

  function ManifestFor(m: InputManifest, inputSha256: string, t: Tools): Manifest {
    Manifest(m.corpusId, m.generatedAt, m.sourceCommit, inputSha256,
             Fingerprint(m.corpusId, m.sourceCommit, m.files, t), m.files)
  }

  function IdentityOf(m: Manifest, text: string, t: Tools): Identity {
    Identity(m.corpusId, m.inputSha256, m.fingerprint, t.sha256(text), |m.files|, Total(m.files))
  }

  function Location(f: CorpusFile): Path {
    Split(f.path)
  }

  function Locations(files: seq<CorpusFile>): set<Path> {
    set f | f in files :: Location(f)
  }

  /** `_read_regular_file`, on a tree that does not change meanwhile. */
  function ReadRegular(tree: Tree, p: Path, limit: nat): (content: Option<string>)
    ensures content.Some? ==> p in tree && tree[p] == File(content.value, true) && |content.value| <= limit
  {
    if p in tree && tree[p].File? && tree[p].single && |tree[p].content| <= limit then Some(tree[p].content) else None
  }

  /** The file is there with the listed size and digest. */
  predicate ContentOk(tree: Tree, f: CorpusFile, t: Tools) {
    var content := ReadRegular(tree, Location(f), f.size);
    content.Some? && |content.value| == f.size && t.sha256(content.value) == f.sha256
  }

  // ---- Verifying -------------------------------------------------------------------------------

  datatype Pins = Pins(manifestSha256: string, fingerprint: string, canonicalSha256: string)

  /** The manifest in the root is the pinned one, closed and internally consistent. */
  ghost predicate ManifestVerifies(text: string, pins: Pins, m: Manifest, t: Tools) {
    && t.sha256(text) == pins.canonicalSha256 && t.parse(text) == Some(m)
    && t.isCommit(m.sourceCommit) && t.isDigest(m.inputSha256) && t.isDigest(m.fingerprint)
    && m.files != [] && FilesOk(m.files, HARD, t.unicode) && (forall f | f in m.files :: t.isDigest(f.sha256))
    && m.inputSha256 == pins.manifestSha256 && m.fingerprint == pins.fingerprint
    && m.fingerprint == Fingerprint(m.corpusId, m.sourceCommit, m.files, t)
  }

  /** The root holds exactly what its manifest lists, and the answer is the identity of that manifest. */
  ghost predicate VerifiesAs(tree: Tree, pins: Pins, m: Manifest, id: Identity, t: Tools) {
    var text := ReadRegular(tree, ["canonical-manifest.json"], 1_000_000);
    && t.isDigest(pins.manifestSha256) && t.isDigest(pins.fingerprint) && t.isDigest(pins.canonicalSha256)
    && text.Some? && ManifestVerifies(text.value, pins, m, t)
    && InventoryOk(tree, CANONICAL, Locations(m.files), None)
    && (forall f | f in m.files :: ContentOk(tree, f, t))
    && id == IdentityOf(m, text.value, t)
  }

  /** Everything in the tree but the manifest is harmless, directories included, and no file has a control name. */
  ghost predicate HarmlessTree(tree: Tree, manifest: Path, u: Unicode) {
    forall p | p in tree && p != manifest :: Harmless(p, u) && (tree[p].File? ==> HarmlessFile(p, u))
  }

  lemma PrefixHarmless(p: Path, n: nat, u: Unicode)
    requires Harmless(p, u) && n <= |p|
    ensures Harmless(p[..n], u)
  {
  }

  /** A tree that holds exactly an accepted list is harmless. */
  lemma InventoryHarmless(tree: Tree, manifest: Path, files: seq<CorpusFile>, maxData: Option<nat>, l: Limits, u: Unicode)
    requires FilesOk(files, l, u) && InventoryOk(tree, manifest, Locations(files), maxData)
    ensures HarmlessTree(tree, manifest, u)
  {
    hide Split, Harmless, HarmlessFile;
    forall p | p in Locations(files)
      ensures HarmlessFile(p, u)
    {
      var f :| f in files && p == Location(f);
      assert Admissible(f.path, l.maxDepth, u);
    }
    forall p | p in tree && p != manifest
      ensures Harmless(p, u) && (tree[p].File? ==> HarmlessFile(p, u))
    {
      assert EntryOk(tree, p, Locations(files) + {manifest}, Directories(Locations(files)));
      DirectoryHarmless(Locations(files), p, u);
    }
  }

  lemma DirectoryHarmless(files: set<Path>, p: Path, u: Unicode)
    requires (forall f | f in files :: HarmlessFile(f, u)) && (p in files || p in Directories(files))
    ensures Harmless(p, u)
  {
    if p in Directories(files) && p != ["payload"] {
      var f, n :| f in files && 0 < n < |f| && f[..n] == p;
      PrefixHarmless(f, n, u);
    }
  }

  /** The identity is that of the pins, and its fingerprint that of the files the manifest lists. */
  ghost predicate Pinned(id: Identity, pins: Pins, m: Manifest, t: Tools) {
    && id.manifestSha256 == pins.manifestSha256 && id.fingerprint == pins.fingerprint
    && id.canonicalSha256 == pins.canonicalSha256
    && pins.fingerprint == t.sha256(t.identityText(m.corpusId, m.sourceCommit, m.files))
    && id.corpusId == m.corpusId && id.fileCount == |m.files| && id.totalBytes == Total(m.files)
  }

  lemma VerifiedIdentity(tree: Tree, pins: Pins, m: Manifest, id: Identity, t: Tools)
    requires VerifiesAs(tree, pins, m, id, t)
    ensures HarmlessTree(tree, CANONICAL, t.unicode) && Pinned(id, pins, m, t)
  {
    hide FilesOk, InventoryOk, HarmlessTree, ContentOk;
    InventoryHarmless(tree, CANONICAL, m.files, None, HARD, t.unicode);
  }

  /** The path names a singly linked file of the listed size and digest. */
  ghost predicate HoldsListed(tree: Tree, f: CorpusFile, t: Tools) {
    && Split(f.path) in tree && tree[Split(f.path)].File? && tree[Split(f.path)].single
    && |tree[Split(f.path)].content| == f.size && t.sha256(tree[Split(f.path)].content) == f.sha256
  }

  /** The path names a singly linked file of at most 1,000,000 bytes with this digest. */
  ghost predicate HoldsManifest(tree: Tree, name: string, digest: string, t: Tools) {
    && [name] in tree && tree[[name]].File? && tree[[name]].single
    && |tree[[name]].content| <= 1_000_000 && t.sha256(tree[[name]].content) == digest
  }

  /** Every file in the tree is the manifest or listed, and every listed file is in it with its size and digest. */
  ghost predicate HoldsExactly(tree: Tree, name: string, files: seq<CorpusFile>, t: Tools) {
    && (forall f | f in files :: HoldsListed(tree, f, t))
    && (forall p | p in tree && tree[p].File? :: p == [name] || exists f | f in files :: Split(f.path) == p)
    && (forall p | p in tree :: !tree[p].Other?) && |tree| <= 20_000
  }

  lemma ExactInventory(tree: Tree, name: string, files: seq<CorpusFile>, maxData: Option<nat>, t: Tools)
    requires InventoryOk(tree, [name], Locations(files), maxData) && forall f | f in files :: ContentOk(tree, f, t)
    ensures HoldsExactly(tree, name, files, t)
  {
    hide Split;
    forall f | f in files
      ensures HoldsListed(tree, f, t)
    {
      assert ContentOk(tree, f, t);
    }
    forall p | p in tree && tree[p].File?
      ensures p == [name] || exists f | f in files :: Split(f.path) == p
    {
      assert p in Files(tree);
    }
    forall p | p in tree
      ensures !tree[p].Other?
    {
      assert EntryOk(tree, p, Locations(files) + {[name]}, Directories(Locations(files)));
    }
  }

  /** An accepted root holds `canonical-manifest.json` with the pinned digest and exactly the files this lists. */
  lemma VerifiedContents(tree: Tree, pins: Pins, m: Manifest, id: Identity, t: Tools)
    requires VerifiesAs(tree, pins, m, id, t)
    ensures HoldsManifest(tree, "canonical-manifest.json", pins.canonicalSha256, t)
    ensures t.parse(tree[["canonical-manifest.json"]].content) == Some(m)
    ensures HoldsExactly(tree, "canonical-manifest.json", m.files, t)
    ensures m.inputSha256 == pins.manifestSha256 && t.isCommit(m.sourceCommit) && m.files != []
    ensures t.isDigest(pins.manifestSha256) && t.isDigest(pins.fingerprint) && t.isDigest(pins.canonicalSha256)
    ensures forall f | f in m.files :: t.isDigest(f.sha256)
  {
    hide FilesOk, InventoryOk, HoldsExactly, ContentOk;
    ExactInventory(tree, "canonical-manifest.json", m.files, None, t);
  }

  method CheckManifest(text: string, pins: Pins, t: Tools) returns (manifest: Option<Manifest>)
    ensures manifest.Some? ==> ManifestVerifies(text, pins, manifest.value, t)
    ensures manifest.None? ==> forall m :: !ManifestVerifies(text, pins, m, t)
  {
    hide FilesOk;
    if t.sha256(text) != pins.canonicalSha256 || t.parse(text).None? {
      return None;
    }
    var m := t.parse(text).value;
    if !t.isCommit(m.sourceCommit) || !t.isDigest(m.inputSha256) || !t.isDigest(m.fingerprint) || m.files == []
       || exists f | f in m.files :: !t.isDigest(f.sha256) {
      return None;
    }
    var ok := CheckRecords(m.files, HARD, t.unicode);
    if !ok || m.inputSha256 != pins.manifestSha256 || m.fingerprint != pins.fingerprint
       || m.fingerprint != Fingerprint(m.corpusId, m.sourceCommit, m.files, t) {
      return None;
    }
    manifest := Some(m);
  }

  method CheckContents(tree: Tree, files: seq<CorpusFile>, t: Tools) returns (ok: bool)
    ensures ok <==> forall f | f in files :: ContentOk(tree, f, t)
  {
    hide ContentOk;
    for i := 0 to |files|
      invariant forall j | 0 <= j < i :: ContentOk(tree, files[j], t)
    {
      if !ContentOk(tree, files[i], t) {
        assert files[i] in files;
        return false;
      }
    }
    ok := true;
  }

  /** `verify_canonical_corpus`. */
  method VerifyCanonical(tree: Tree, pins: Pins, t: Tools) returns (id: Option<Identity>, ghost m: Option<Manifest>)
    requires WellFormed(tree)
    ensures id.Some? ==> m.Some? && VerifiesAs(tree, pins, m.value, id.value, t)
    ensures id.None? ==> forall n, other :: !VerifiesAs(tree, pins, n, other, t)
    ensures id.Some? ==> HarmlessTree(tree, CANONICAL, t.unicode) && Pinned(id.value, pins, m.value, t)
  {
    hide HarmlessTree, Pinned, IdentityOf, ManifestVerifies, InventoryOk, ContentOk, FilesOk;
    m := None;
    if !t.isDigest(pins.manifestSha256) || !t.isDigest(pins.fingerprint) || !t.isDigest(pins.canonicalSha256) {
      return None, None;
    }
    var text := ReadRegular(tree, CANONICAL, MANIFEST_LIMIT);
    if text.None? {
      return None, None;
    }
    var manifest := CheckManifest(text.value, pins, t);
    if manifest.None? {
      return None, None;
    }
    forall n | ManifestVerifies(text.value, pins, n, t)
      ensures n == manifest.value
    {
      OneManifest(text.value, pins, n, manifest.value, t);
    }
    var ok := Walk(tree, CANONICAL, Locations(manifest.value.files), None);
    if !ok {
      return None, None;
    }
    ok := CheckContents(tree, manifest.value.files, t);
    if !ok {
      return None, None;
    }
    id, m := Some(IdentityOf(manifest.value, text.value, t)), manifest;
    VerifiedIdentity(tree, pins, manifest.value, id.value, t);
  }

  lemma OneManifest(text: string, pins: Pins, m: Manifest, n: Manifest, t: Tools)
    requires ManifestVerifies(text, pins, m, t) && ManifestVerifies(text, pins, n, t)
    ensures m == n
  {
  }
}
