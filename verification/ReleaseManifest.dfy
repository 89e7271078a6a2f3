/** The release manifest and its checksum file: building them, and verifying that they and the release directory are
    the same inventory. */
module ReleaseManifest {
  import opened Options
  import opened Ordering
  import opened Text

  const METADATA_LIMIT := 8_000_000
  const MANIFEST := "release-manifest.json"
  const SUMS := "SHA256SUMS"

  /** An entry of the flat release directory; anything but a regular file is `Other`. */
  datatype Entry = File(content: string) | Other

  type Directory = map<string, Entry>

  datatype ArtifactRecord = ArtifactRecord(path: string, size: int, sha256: string)

  /** The fields that are the same in every manifest of this version. */
  datatype Fixed = Fixed(schemaVersion: int, kind: string, publication: string, version: string, limitations: seq<string>)

  const CURRENT: Fixed := Fixed(2, "anva.generated-release-manifest", "generated_unpublished", "0.1.7", [
    "The recorded image ID identifies the locally verified OCI image.",
    "A registry digest and signed tag are recorded only by the publication step.",
    "External fresh-agent and human acceptance evidence is not generated here."
  ])

  const SUFFIXES: seq<string> := [
    ".whl", "install-0.1.7.tar.gz", "-codex-skills-1.0.0.tar.gz", "-claude-skills-1.0.0.tar.gz", "image.spdx.json",
    "image.cyclonedx.json", "image-vulnerabilities.json", "source-security.json", "vulnerability-risk-acceptance.json"
  ]

  datatype Manifest = Manifest(fixed: Fixed, sourceCommit: string, epoch: int, createdAt: string,
                               imageReference: string, imageId: string, artifacts: seq<ArtifactRecord>)

  datatype Candidate = Candidate(sourceCommit: string, imageReference: string, imageId: string)

  /** Hashing, patterns, dates and the JSON of a manifest, which is refused when a key is repeated or missing. */
  datatype Tools = Tools(sha256: string -> string, isCommit: string -> bool, isImageId: string -> bool,
                         isDigest: string -> bool, safeName: string -> bool, hasSpace: string -> bool,
                         timeOf: nat -> Option<string>,
                         render: Manifest -> string, parse: string -> Option<Manifest>)

  ghost predicate Faithful(t: Tools) {
    && (forall m :: t.parse(t.render(m)) == Some(m))
    && (forall x :: t.isDigest(t.sha256(x)) && |t.sha256(x)| == 64)
    && (forall name :: t.safeName(name) ==> |name| <= 255 && '\r' !in name && '\n' !in name)
    && (forall x :: t.isDigest(x) ==> '\r' !in x && '\n' !in x)
  }

  predicate EndsWith(name: string, suffix: string) {
    |name| >= |suffix| && name[|name| - |suffix|..] == suffix
  }

  /** Every required kind of artifact is there. */
  predicate HasSuffixes(names: seq<string>) {
    forall suffix | suffix in SUFFIXES :: SomeEnds(names, suffix)
  }

  predicate SomeEnds(names: seq<string>, suffix: string) {
    exists name | name in names :: EndsWith(name, suffix)
  }

  predicate IsGenerated(name: string) {
    name == MANIFEST || name == SUMS
  }

  /** A name that is published: not generated metadata, not temporary, and none of the tool's own files. */
  predicate IsPublishable(name: string) {
    && !IsGenerated(name) && !EndsWith(name, ".tmp")
    && name != ".gitkeep" && name != ".trivy-cache" && name != ".trivyignore"
  }

  function Publishable(d: Directory): set<string> {
    set name | name in d && IsPublishable(name)
  }

  /** The names of the artifacts, sorted; none when `_artifact_files` raises.  `listing` is the directory listing. */
  function ArtifactFiles(d: Directory, listing: seq<string>, t: Tools): Option<seq<string>> {
    var names := Sort(Filter(listing), StrLe);
    if names == [] || |names| > 100 || (exists name | name in names :: name !in d || !d[name].File?)
       || (exists name | name in names :: !t.safeName(name)) || !HasSuffixes(names)
    then None else Some(names)
  }

  function Filter(listing: seq<string>): seq<string> {
    if listing == [] then []
    else (if IsPublishable(listing[0]) then [listing[0]] else []) + Filter(listing[1..])
  }

  /** The directory listed in some order. */
  ghost predicate Lists(listing: seq<string>, d: Directory) {
    && (forall name :: name in listing <==> name in d)
    && forall i, j | 0 <= i < j < |listing| :: listing[i] != listing[j]
  }

  lemma {:induction false} FilterMembers(listing: seq<string>)
    ensures forall name :: name in Filter(listing) <==> name in listing && IsPublishable(name)
    ensures |Filter(listing)| <= |listing|
  {
    hide IsPublishable;
    if listing != [] {
      FilterMembers(listing[1..]);
      assert listing == [listing[0]] + listing[1..];
    }
  }

  lemma {:induction false} FilterDistinct(listing: seq<string>)
    requires forall i, j | 0 <= i < j < |listing| :: listing[i] != listing[j]
    ensures forall i, j | 0 <= i < j < |Filter(listing)| :: Filter(listing)[i] != Filter(listing)[j]
  {
    hide IsPublishable;
    if listing != [] {
      FilterDistinct(listing[1..]);
      FilterMembers(listing[1..]);
      var rest := Filter(listing[1..]);
      assert forall i | 0 <= i < |rest| :: rest[i] in rest;
    }
  }

  ghost predicate Distinct(names: seq<string>) {
    forall i, j | 0 <= i < j < |names| :: names[i] != names[j]
  }

  lemma {:induction false} DistinctMultiset(names: seq<string>, name: string)
    requires Distinct(names)
    ensures multiset(names)[name] == if name in names then 1 else 0
  {
    if names != [] {
      DistinctMultiset(names[1..], name);
      assert names == [names[0]] + names[1..];
      assert forall k | 0 <= k < |names| - 1 :: names[1..][k] == names[k + 1];
    }
  }

  lemma SameMultiset(a: seq<string>, b: seq<string>)
    requires Distinct(a) && Distinct(b) && forall name :: name in a <==> name in b
    ensures multiset(a) == multiset(b)
  {
    forall name
      ensures multiset(a)[name] == multiset(b)[name]
    {
      DistinctMultiset(a, name);
      DistinctMultiset(b, name);
    }
  }

  /** The sorted artifacts are the publishable names, whatever the listing, each once. */
  lemma ArtifactNames(d: Directory, listing: seq<string>, t: Tools)
    requires Lists(listing, d)
    ensures var names := Sort(Filter(listing), StrLe);
            Distinct(names) && forall name :: name in names <==> name in Publishable(d)
  {
    hide IsPublishable;
    FilterMembers(listing);
    FilterDistinct(listing);
    StrLeIsTotalOrder();
    var names := Filter(listing);
    SortSorts(names, StrLe);
    hide Sort, Sorted, TotalOrder, StrLe;
    var sorted := Sort(names, StrLe);
    forall name
      ensures name in sorted <==> name in names
    {
      assert name in multiset(sorted) <==> name in multiset(names);
    }
    StillDistinct(sorted, names);
  }

  lemma StillDistinct(a: seq<string>, b: seq<string>)
    requires multiset(a) == multiset(b) && Distinct(b)
    ensures Distinct(a)
  {
    forall i, j | 0 <= i < j < |a|
      ensures a[i] != a[j]
    {
      if a[i] == a[j] {
        DistinctMultiset(b, a[i]);
        TwiceIn(a, i, j);
      }
    }
  }

  lemma TwiceIn(a: seq<string>, i: nat, j: nat)
    requires i < j < |a| && a[i] == a[j]
    ensures multiset(a)[a[i]] >= 2
  {
    assert a == a[..j] + a[j..] && a[i] == a[..j][i] && a[j] == a[j..][0];
    assert multiset(a) == multiset(a[..j]) + multiset(a[j..]);
    assert a[i] in multiset(a[..j]) && a[i] in multiset(a[j..]);
  }

  // ---- Building --------------------------------------------------------------------------------

  function Content(d: Directory, name: string): string {
    if name in d && d[name].File? then d[name].content else ""
  }

  function RecordOf(d: Directory, name: string, t: Tools): ArtifactRecord {
    ArtifactRecord(name, |Content(d, name)|, t.sha256(Content(d, name)))
  }

  function RecordsOf(d: Directory, names: seq<string>, t: Tools): seq<ArtifactRecord> {
    seq(|names|, i requires 0 <= i < |names| => RecordOf(d, names[i], t))
  }

  /** The checksum lines of the records, in their order. */
  function Lines(records: seq<ArtifactRecord>): string {
    if records == [] then ""
    else Lines(records[..|records| - 1]) + (records[|records| - 1].sha256 + "  " + records[|records| - 1].path + "\n")
  }

  function SumsText(records: seq<ArtifactRecord>, manifest: string, t: Tools): string {
    Lines(records) + (t.sha256(manifest) + "  " + MANIFEST + "\n")
  }

  predicate CandidateOk(c: Candidate, t: Tools) {
    t.isCommit(c.sourceCommit) && t.isImageId(c.imageId)
  }

  function ManifestOf(c: Candidate, epoch: nat, createdAt: string, records: seq<ArtifactRecord>, t: Tools): Manifest {
    Manifest(CURRENT, c.sourceCommit, epoch, createdAt, c.imageReference, c.imageId, records)
  }

  /** `build_release_manifest`: the manifest, then the checksums of the artifacts and of the manifest.  What is built is
      accepted for this candidate, whatever lists it, exactly when the manifest is within the read limit. */
  method Build(d: Directory, listing: seq<string>, c: Candidate, epoch: int, t: Tools)
    returns (built: Option<Directory>, ghost m: Option<Manifest>)
    requires Lists(listing, d)
    ensures built.Some? <==>
      CandidateOk(c, t) && c.imageReference != "" && !t.hasSpace(c.imageReference)
      && epoch >= 0 && ArtifactFiles(d, listing, t).Some? && t.timeOf(epoch).Some?
    ensures built.Some? ==>
      m == Some(ManifestOf(c, epoch, t.timeOf(epoch).value, RecordsOf(d, ArtifactFiles(d, listing, t).value, t), t))
      && built.value == d[MANIFEST := File(t.render(m.value))]
                         [SUMS := File(SumsText(m.value.artifacts, t.render(m.value), t))]
    ensures built.Some? && Faithful(t) ==>
      forall after | Lists(after, built.value) ::
        ReleaseOk(built.value, after, c, m.value, t) <==> |t.render(m.value)| <= 8_000_000
  {
    hide ArtifactFiles, SumsText, Lists, ReleaseOk, Faithful, RecordsOf;
    m := None;
    if !CandidateOk(c, t) || c.imageReference == "" || t.hasSpace(c.imageReference) || epoch < 0 {
      return None, None;
    }
    var artifacts := ArtifactFiles(d, listing, t);
    if artifacts.None? || t.timeOf(epoch).None? {
      return None, None;
    }
    var manifest := ManifestOf(c, epoch, t.timeOf(epoch).value, RecordsOf(d, artifacts.value, t), t);
    var text := t.render(manifest);
    var withManifest := d[MANIFEST := File(text)];
    var sums := SumsText(manifest.artifacts, text, t);
    built, m := Some(withManifest[SUMS := File(sums)]), Some(manifest);
    if Faithful(t) {
      forall after | Lists(after, built.value)
        ensures ReleaseOk(built.value, after, c, manifest, t) <==> |text| <= METADATA_LIMIT
      {
        BuildVerifies(d, listing, after, c, epoch, t);
      }
    }
  }

  // ---- Verifying -------------------------------------------------------------------------------

  predicate RecordOk(d: Directory, r: ArtifactRecord, t: Tools) {
    && t.safeName(r.path) && !IsGenerated(r.path) && r.size >= 0 && t.isDigest(r.sha256)
    && r.path in d && d[r.path].File? && |d[r.path].content| == r.size && t.sha256(d[r.path].content) == r.sha256
  }

  ghost predicate RecordsOk(d: Directory, records: seq<ArtifactRecord>, t: Tools) {
    && (forall r | r in records :: RecordOk(d, r, t))
    && forall i, j | 0 <= i < j < |records| :: records[i].path != records[j].path
  }

  function PathsOf(records: seq<ArtifactRecord>): set<string> {
    set r | r in records :: r.path
  }

  function Readable(d: Directory, name: string): Option<string> {
    if name in d && d[name].File? && |d[name].content| <= METADATA_LIMIT then Some(d[name].content) else None
  }

  predicate ProvenanceOk(m: Manifest, c: Candidate, t: Tools) {
    && m.fixed == CURRENT && m.sourceCommit == c.sourceCommit
    && m.imageReference == c.imageReference && m.imageId == c.imageId
    && m.epoch >= 0 && t.timeOf(m.epoch) == Some(m.createdAt) && 1 <= |m.artifacts| <= 100
  }

  /** What must be decided of a release directory.  The checksum file is read in text mode. */
  ghost predicate ReleaseOk(d: Directory, listing: seq<string>, c: Candidate, m: Manifest, t: Tools) {
    && CandidateOk(c, t) && Readable(d, MANIFEST).Some? && Readable(d, SUMS).Some?
    && t.parse(Readable(d, MANIFEST).value) == Some(m) && ProvenanceOk(m, c, t)
    && RecordsOk(d, m.artifacts, t)
    && ArtifactFiles(d, listing, t).Some? && (set name | name in ArtifactFiles(d, listing, t).value) == PathsOf(m.artifacts)
    && Universal(Readable(d, SUMS).value) == SumsText(m.artifacts, Readable(d, MANIFEST).value, t)
  }

  /** The loop over the records: it grows the checksum lines and the names seen. */
  method CheckRecords(d: Directory, records: seq<ArtifactRecord>, t: Tools)
    returns (ok: bool, expected: string, seen: set<string>)
    ensures ok <==> RecordsOk(d, records, t)
    ensures ok ==> expected == Lines(records) && seen == PathsOf(records)
  {
    hide RecordOk;
    expected, seen := "", {};
    for i := 0 to |records|
      invariant expected == Lines(records[..i])
      invariant seen == set j | 0 <= j < i :: records[j].path
      invariant forall j | 0 <= j < i :: RecordOk(d, records[j], t)
      invariant forall j, k | 0 <= j < k < i :: records[j].path != records[k].path
    {
      var r := records[i];
      assert records[..i + 1][..i] == records[..i];
      if r.path in seen {
        var j :| 0 <= j < i && records[j].path == r.path;
        return false, expected, seen;
      }
      if !RecordOk(d, r, t) {
        assert r in records;
        return false, expected, seen;
      }
      expected := expected + (r.sha256 + "  " + r.path + "\n");
      seen := seen + {r.path};
    }
    assert records[..|records|] == records;
    ok := true;
  }

  /** `verify_release_manifest`. */
  method Verify(d: Directory, listing: seq<string>, c: Candidate, t: Tools) returns (manifest: Option<Manifest>)
    ensures manifest.Some? ==> ReleaseOk(d, listing, c, manifest.value, t)
    ensures manifest.None? ==> forall m :: !ReleaseOk(d, listing, c, m, t)
  {
    hide RecordsOk, ArtifactFiles, ProvenanceOk;
    if !CandidateOk(c, t) {
      return None;
    }
    var text, sums := Readable(d, MANIFEST), Readable(d, SUMS);
    if text.None? || sums.None? || t.parse(text.value).None? {
      return None;
    }
    var m := t.parse(text.value).value;
    if !ProvenanceOk(m, c, t) {
      return None;
    }
    var ok, expected, seen := CheckRecords(d, m.artifacts, t);
    if !ok {
      return None;
    }
    var artifacts := ArtifactFiles(d, listing, t);
    if artifacts.None? || (set name | name in artifacts.value) != seen {
      return None;
    }
    if Universal(sums.value) != expected + (t.sha256(text.value) + "  " + MANIFEST + "\n") {
      return None;
    }
    manifest := Some(m);
  }

  // ---- What acceptance means -------------------------------------------------------------------

  /** Acceptance is a bijection: every publishable file has exactly one record, every record is of a publishable file,
      with its size and its digest. */
  lemma AcceptedIsBijection(d: Directory, listing: seq<string>, c: Candidate, m: Manifest, t: Tools)
    requires Lists(listing, d) && ReleaseOk(d, listing, c, m, t)
    ensures forall name | name in Publishable(d) ::
      exists i :: 0 <= i < |m.artifacts| && m.artifacts[i] == RecordOf(d, name, t)
                  && forall j | 0 <= j < |m.artifacts| && m.artifacts[j].path == name :: j == i
    ensures forall r | r in m.artifacts :: r.path in Publishable(d) && r == RecordOf(d, r.path, t)
    ensures |m.artifacts| == |Publishable(d)|
  {
    hide IsPublishable, Sort, Filter, ProvenanceOk, SumsText;
    ArtifactNames(d, listing, t);
    forall name | name in Publishable(d)
      ensures exists i :: 0 <= i < |m.artifacts| && m.artifacts[i] == RecordOf(d, name, t)
                          && forall j | 0 <= j < |m.artifacts| && m.artifacts[j].path == name :: j == i
    {
      assert name in PathsOf(m.artifacts);
      var i :| 0 <= i < |m.artifacts| && m.artifacts[i].path == name;
      assert RecordOk(d, m.artifacts[i], t);
    }
    forall r | r in m.artifacts
      ensures r.path in Publishable(d) && r == RecordOf(d, r.path, t)
    {
      assert r.path in PathsOf(m.artifacts) && RecordOk(d, r, t);
    }
    assert PathsOf(m.artifacts) == Publishable(d);
    DistinctSize(m.artifacts);
  }

  lemma {:induction false} DistinctSize(records: seq<ArtifactRecord>)
    requires forall i, j | 0 <= i < j < |records| :: records[i].path != records[j].path
    ensures |PathsOf(records)| == |records|
  {
    if records != [] {
      var rest, last := records[..|records| - 1], records[|records| - 1];
      DistinctSize(rest);
      assert records == rest + [last];
      assert PathsOf(records) == PathsOf(rest) + {last.path};
      assert last.path !in PathsOf(rest);
    }
  }

  /** For one manifest file the accepted checksum files are read as the same text, and those without a carriage return
      are the same. */
  lemma ChecksumsDetermined(d: Directory, e: Directory, listing: seq<string>, other: seq<string>, c: Candidate,
                            m: Manifest, n: Manifest, t: Tools)
    requires ReleaseOk(d, listing, c, m, t) && ReleaseOk(e, other, c, n, t) && d[MANIFEST] == e[MANIFEST]
    ensures Universal(d[SUMS].content) == Universal(e[SUMS].content)
    ensures '\r' !in d[SUMS].content && '\r' !in e[SUMS].content ==> d[SUMS] == e[SUMS]
  {
    hide RecordsOk, ArtifactFiles, ProvenanceOk, SumsText, Universal;
    if '\r' !in d[SUMS].content && '\r' !in e[SUMS].content {
      UniversalPlain(d[SUMS].content);
      UniversalPlain(e[SUMS].content);
    }
  }

  lemma {:induction false} LinesPlain(records: seq<ArtifactRecord>)
    requires forall r | r in records :: '\r' !in r.sha256 && '\r' !in r.path
    ensures '\r' !in Lines(records)
  {
    if records != [] {
      LinesPlain(records[..|records| - 1]);
      var last := records[|records| - 1];
      assert last in records;
    }
  }

  /** The derived checksum file holds no carriage return. */
  lemma SumsPlain(d: Directory, records: seq<ArtifactRecord>, manifest: string, t: Tools)
    requires Faithful(t) && RecordsOk(d, records, t)
    ensures '\r' !in SumsText(records, manifest, t) && '\n' in SumsText(records, manifest, t)
  {
    forall r | r in records
      ensures '\r' !in r.sha256 && '\r' !in r.path
    {
      assert RecordOk(d, r, t);
    }
    LinesPlain(records);
    var tail := t.sha256(manifest) + "  " + MANIFEST + "\n";
    assert t.isDigest(t.sha256(manifest)) && tail[|tail| - 1] == '\n';
  }

  /** An accepted checksum file is the derived one exactly when it holds no carriage return. */
  lemma ChecksumsDerived(d: Directory, listing: seq<string>, c: Candidate, m: Manifest, t: Tools)
    requires Faithful(t) && ReleaseOk(d, listing, c, m, t)
    ensures d[SUMS].content == SumsText(m.artifacts, d[MANIFEST].content, t) <==> '\r' !in d[SUMS].content
  {
    hide Faithful, RecordsOk, ArtifactFiles, ProvenanceOk, SumsText, Universal;
    SumsPlain(d, m.artifacts, d[MANIFEST].content, t);
    if '\r' !in d[SUMS].content {
      UniversalPlain(d[SUMS].content);
    }
  }

  /** Every accepted directory is accepted as well with its checksum file rewritten with carriage returns, which then is
      another file. */
  lemma ReturnsAccepted(d: Directory, listing: seq<string>, c: Candidate, m: Manifest, t: Tools)
    requires Faithful(t) && Lists(listing, d) && ReleaseOk(d, listing, c, m, t)
    ensures var sums := SumsText(m.artifacts, d[MANIFEST].content, t);
            WithReturns(sums) != sums && ReleaseOk(d[SUMS := File(WithReturns(sums))], listing, c, m, t)
  {
    hide Faithful, ArtifactFiles, SumsText, Universal, WithReturns, RecordOk, Lists;
    var sums := SumsText(m.artifacts, d[MANIFEST].content, t);
    SumsPlain(d, m.artifacts, d[MANIFEST].content, t);
    ReturnsRead(sums);
    SumsFit(d, m.artifacts, d[MANIFEST].content, t);
    var e := d[SUMS := File(WithReturns(sums))];
    StillLists(d, listing, e);
    FilterSame(listing, listing, d, e, t);
    StillRecorded(d, e, m.artifacts, t);
  }

  lemma StillLists(d: Directory, listing: seq<string>, e: Directory)
    requires Lists(listing, d) && e.Keys == d.Keys
    ensures Lists(listing, e)
  {
  }

  lemma StillRecorded(d: Directory, e: Directory, records: seq<ArtifactRecord>, t: Tools)
    requires RecordsOk(d, records, t) && forall name | !IsGenerated(name) && name in d :: name in e && e[name] == d[name]
    ensures RecordsOk(e, records, t)
  {
    forall r | r in records
      ensures RecordOk(e, r, t)
    {
      assert RecordOk(d, r, t);
    }
  }

  lemma SumsFit(d: Directory, records: seq<ArtifactRecord>, manifest: string, t: Tools)
    requires Faithful(t) && RecordsOk(d, records, t) && |records| <= 100
    ensures 2 * |SumsText(records, manifest, t)| <= METADATA_LIMIT
  {
    forall r | r in records
      ensures |r.sha256| == 64 && |r.path| <= 255
    {
      assert RecordOk(d, r, t);
    }
    LinesLength(records);
  }

  // ---- What is built is accepted ---------------------------------------------------------------

  lemma RecordsPaths(d: Directory, names: seq<string>, t: Tools)
    ensures PathsOf(RecordsOf(d, names, t)) == set name | name in names
  {
    var records := RecordsOf(d, names, t);
    forall name | name in names
      ensures name in PathsOf(records)
    {
      var i :| 0 <= i < |names| && names[i] == name;
      assert records[i] in records && records[i].path == name;
    }
    forall r | r in records
      ensures r.path in names
    {
    }
  }

  /** The artifacts do not change when the generated metadata is written. */
  lemma {:induction false} FilterSame(listing: seq<string>, after: seq<string>, d: Directory, e: Directory, t: Tools)
    requires Faithful(t) && Lists(listing, d) && Lists(after, e)
    requires forall name | IsPublishable(name) :: (name in d <==> name in e) && (name in d ==> d[name] == e[name])
    ensures ArtifactFiles(e, after, t) == ArtifactFiles(d, listing, t)
  {
    hide IsPublishable, Faithful;
    FilterMembers(listing);
    FilterMembers(after);
    FilterDistinct(listing);
    FilterDistinct(after);
    SameMultiset(Filter(listing), Filter(after));
    StrLeIsTotalOrder();
    SortIsCanonical(Filter(listing), Filter(after), StrLe);
    ArtifactNames(d, listing, t);
  }

  lemma {:induction false} LinesLength(records: seq<ArtifactRecord>)
    requires forall r | r in records :: |r.sha256| == 64 && |r.path| <= 255
    ensures |Lines(records)| <= 322 * |records|
  {
    if records != [] {
      LinesLength(records[..|records| - 1]);
    }
  }

  lemma BuiltRecordsOk(d: Directory, e: Directory, names: seq<string>, t: Tools)
    requires Faithful(t) && Distinct(names)
    requires forall name | name in names :: t.safeName(name) && !IsGenerated(name)
    requires forall name | name in names :: name in e && e[name].File? && e[name].content == Content(d, name)
    ensures RecordsOk(e, RecordsOf(d, names, t), t)
  {
    var records := RecordsOf(d, names, t);
    forall r | r in records
      ensures RecordOk(e, r, t)
    {
      var i :| 0 <= i < |names| && records[i] == r;
      assert names[i] in names;
    }
  }

  /** A directory with just written metadata is accepted for the same candidate exactly when the manifest is within the
      read limit; the checksum file always is. */
  lemma BuildVerifies(d: Directory, listing: seq<string>, after: seq<string>, c: Candidate, epoch: nat, t: Tools)
    requires Faithful(t) && Lists(listing, d) && CandidateOk(c, t)
    requires ArtifactFiles(d, listing, t).Some? && t.timeOf(epoch).Some?
    requires var m := ManifestOf(c, epoch, t.timeOf(epoch).value, RecordsOf(d, ArtifactFiles(d, listing, t).value, t), t);
             Lists(after, d[MANIFEST := File(t.render(m))][SUMS := File(SumsText(m.artifacts, t.render(m), t))])
    ensures var m := ManifestOf(c, epoch, t.timeOf(epoch).value, RecordsOf(d, ArtifactFiles(d, listing, t).value, t), t);
            var built := d[MANIFEST := File(t.render(m))][SUMS := File(SumsText(m.artifacts, t.render(m), t))];
            ReleaseOk(built, after, c, m, t) <==> |t.render(m)| <= 8_000_000
  {
    hide Lists, RecordsOk, RecordsOf, Lines, ArtifactFiles, Faithful, CandidateOk, SumsText, PathsOf, Universal;
    var names := ArtifactFiles(d, listing, t).value;
    var m := ManifestOf(c, epoch, t.timeOf(epoch).value, RecordsOf(d, names, t), t);
    var built := d[MANIFEST := File(t.render(m))][SUMS := File(SumsText(m.artifacts, t.render(m), t))];
    ArtifactFacts(d, listing, t);
    FilterSame(listing, after, d, built, t);
    BuiltRecordsOk(d, built, names, t);
    RecordsPaths(d, names, t);
    BuiltSumsFit(d, names, t.render(m), t);
    SumsPlain(built, m.artifacts, t.render(m), t);
    UniversalPlain(SumsText(m.artifacts, t.render(m), t));
    ParsedBack(m, t);
  }

  const LONG_REFERENCE: string := seq(METADATA_LIMIT + 1, i => 'a')

  /** An image reference beyond the read limit is taken by the builder, and what is built is refused. */
  lemma LongReferenceRefused(d: Directory, listing: seq<string>, after: seq<string>, c: Candidate, epoch: nat, t: Tools)
    requires Faithful(t) && Lists(listing, d) && CandidateOk(c, t)
    requires ArtifactFiles(d, listing, t).Some? && t.timeOf(epoch).Some?
    requires c.imageReference == LONG_REFERENCE && forall m :: |t.render(m)| >= |m.imageReference|
    requires var m := ManifestOf(c, epoch, t.timeOf(epoch).value, RecordsOf(d, ArtifactFiles(d, listing, t).value, t), t);
             Lists(after, d[MANIFEST := File(t.render(m))][SUMS := File(SumsText(m.artifacts, t.render(m), t))])
    ensures c.imageReference != ""
    ensures var m := ManifestOf(c, epoch, t.timeOf(epoch).value, RecordsOf(d, ArtifactFiles(d, listing, t).value, t), t);
            var built := d[MANIFEST := File(t.render(m))][SUMS := File(SumsText(m.artifacts, t.render(m), t))];
            !ReleaseOk(built, after, c, m, t)
  {
    hide Lists, ArtifactFiles, Faithful, CandidateOk, SumsText, RecordsOf, ReleaseOk;
    var m := ManifestOf(c, epoch, t.timeOf(epoch).value, RecordsOf(d, ArtifactFiles(d, listing, t).value, t), t);
    BuildVerifies(d, listing, after, c, epoch, t);
    assert |t.render(m)| >= |LONG_REFERENCE| == METADATA_LIMIT + 1;
  }

  lemma ParsedBack(m: Manifest, t: Tools)
    requires Faithful(t)
    ensures t.parse(t.render(m)) == Some(m)
  {
  }

  lemma ArtifactFacts(d: Directory, listing: seq<string>, t: Tools)
    requires Lists(listing, d) && ArtifactFiles(d, listing, t).Some?
    ensures var names := ArtifactFiles(d, listing, t).value;
            Distinct(names) && 1 <= |names| <= 100
            && forall name | name in names :: t.safeName(name) && IsPublishable(name) && name in d && d[name].File?
  {
    hide IsPublishable, HasSuffixes, Lists, Sort, Filter;
    ArtifactNames(d, listing, t);
  }

  lemma BuiltSumsFit(d: Directory, names: seq<string>, manifest: string, t: Tools)
    requires Faithful(t) && |names| <= 100 && forall name | name in names :: t.safeName(name)
    ensures |RecordsOf(d, names, t)| == |names|
    ensures |SumsText(RecordsOf(d, names, t), manifest, t)| <= METADATA_LIMIT
  {
    var records := RecordsOf(d, names, t);
    forall r | r in records
      ensures |r.sha256| == 64 && |r.path| <= 255
    {
      var i :| 0 <= i < |names| && records[i] == r;
      assert names[i] in names;
    }
    LinesLength(records);
  }
}
