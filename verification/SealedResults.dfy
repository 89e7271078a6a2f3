/** Sealing the public results of a run, and verifying a sealed tree again.

    The two were written apart and must agree: the runner adopts a seal that a killed `finalize` left behind. */
module SealedResults {
  import opened Json
  import opened Options
  import opened Ordering

  const SEALED_LIMIT := 2_000_000

  /** The files of a sealed tree, in the order in which they are written. */
  datatype Name = Retrieval | Context | Canvas | Report | Findings | Metadata | Envelope | Sums

  const NAMES: seq<Name> := [Retrieval, Context, Canvas, Report, Findings, Metadata, Envelope, Sums]
  const ARTIFACTS: seq<Name> := [Retrieval, Context, Canvas, Report, Findings, Metadata]

  predicate IsArtifact(n: Name) {
    n != Envelope && n != Sums
  }

  function PathOf(n: Name): string {
    match n
    case Retrieval => "results/knowledge-retrieval-results.jsonl"
    case Context => "results/context-metadata.json"
    case Canvas => "results/canvas.json"
    case Report => "results/assurance-report.json"
    case Findings => "results/findings.json"
    case Metadata => "results/run-metadata.json"
    case Envelope => "acceptance-result.json"
    case Sums => "SHA256SUMS"
  }

  function KindOf(n: Name): string {
    match n
    case Retrieval => "knowledge_retrieval_results"
    case Context => "structured_agent_output"
    case Canvas => "browser_capture"
    case Report => "assurance_report"
    case Findings => "findings"
    case _ => "run_metadata"
  }

  lemma PathsDiffer(m: Name, n: Name)
    ensures PathOf(m) == PathOf(n) ==> m == n
  {
  }

  function Paths(): set<string> {
    set n: Name | n in NAMES :: PathOf(n)
  }

  lemma NamesAll(n: Name)
    ensures n in NAMES && PathOf(n) in Paths()
    ensures n in ARTIFACTS <==> IsArtifact(n)
  {
    hide PathOf;
    assert NAMES[0] == Retrieval && NAMES[1] == Context && NAMES[2] == Canvas && NAMES[3] == Report;
    assert NAMES[4] == Findings && NAMES[5] == Metadata && NAMES[6] == Envelope && NAMES[7] == Sums;
    assert ARTIFACTS[0] == Retrieval && ARTIFACTS[1] == Context && ARTIFACTS[2] == Canvas;
    assert ARTIFACTS[3] == Report && ARTIFACTS[4] == Findings && ARTIFACTS[5] == Metadata;
  }

  /** The regular files below the output, by path; directories and special files are invisible to the verifier. */
  type Output = map<string, string>

  function Value(tree: Output, n: Name): string {
    if PathOf(n) in tree then tree[PathOf(n)] else ""
  }

  /** Hashing, JSON text, and the checks that are not modelled; `equals` and `positive` compare a JSON number as
      Python does. */
  datatype Tools = Tools(sha256: string -> string, compact: Json -> string, parse: string -> Option<Json>,
                         public: string -> bool, isHash: string -> bool, isUuid: string -> bool,
                         envelopeSchema: Json -> bool, equals: (Json, nat) -> bool, positive: Json -> bool)

  ghost predicate Faithful(t: Tools) {
    && (forall v :: t.compact(v) == Print(v, "")) && (forall v :: t.parse(t.compact(v) + "\n") == Some(v))
    && (forall n: nat :: t.equals(Number(n), n)) && (forall n: nat :: n > 0 ==> t.positive(Number(n)))
  }

  function Number(n: nat): Json {
    Num(Decimal(n))
  }

  /** `canonical_bytes`. */
  function CanonicalText(v: Json, t: Tools): string {
    t.compact(v) + "\n"
  }

  // ---- What is sealed --------------------------------------------------------------------------

  datatype Provenance = Provenance(
    corpusId: string, manifest: string, fingerprint: string, runId: string, referenceTime: string, version: string,
    commit: string, image: string, imageReference: string, buildInput: string, package: string, launch: string,
    corpusCommit: string, canonicalManifest: string, canonicalInput: string, head: string, input: string,
    referenceTimeHash: string, review: string, reviewer: string, reviewerToken: string)

  /** What the normalisers make of the server's answers. */
  datatype Evidence = Evidence(retrieval: string, context: string, canvas: string, report: string, findings: string,
                               resultCount: nat)

  function Product(p: Provenance): Json {
    Obj(map["name" := Str("anva"), "version" := Str(p.version), "commit" := Str(p.commit),
            "engine_image_sha256" := Str(p.image), "image_reference" := Str(p.imageReference),
            "build_input_sha256" := Str(p.buildInput), "package_sha256" := Str(p.package),
            "launch_manifest_sha256" := Str(p.launch)])
  }

  function Corpus(p: Provenance): Json {
    Obj(map["id" := Str(p.corpusId), "commit" := Str(p.corpusCommit), "manifest_sha256" := Str(p.manifest),
            "source_fingerprint" := Str(p.fingerprint), "canonical_input_sha256" := Str(p.canonicalInput),
            "canonical_manifest_sha256" := Str(p.canonicalManifest)])
  }

  function Run(p: Provenance): Json {
    Obj(map["id" := Str(p.runId), "reference_time" := Str(p.referenceTime),
            "reference_time_sha256" := Str(p.referenceTimeHash), "assurance_input_sha256" := Str(p.input),
            "external_review_result_sha256" := Str(p.review)])
  }

  function Reviewer(p: Provenance): Json {
    Obj(map["service_identity_id" := Str(p.reviewer), "credential_id" := Str(p.reviewerToken)])
  }

  function MetadataJson(p: Provenance, resultCount: nat): Json {
    Obj(map["schema_version" := Num("1"), "product" := Product(p), "corpus" := Corpus(p),
            "assurance_head_commit" := Str(p.head), "run" := Run(p), "reviewer" := Reviewer(p),
            "ranking" := Obj(map["order" := Str("server-returned-rank"), "result_count" := Number(resultCount),
                                 "content_minimized" := Bool(true)])])
  }

  /** The content of an artifact. */
  function ArtifactText(n: Name, p: Provenance, e: Evidence, t: Tools): string {
    match n
    case Retrieval => e.retrieval
    case Context => e.context
    case Canvas => e.canvas
    case Report => e.report
    case Findings => e.findings
    case _ => CanonicalText(MetadataJson(p, e.resultCount), t)
  }

  function Artifact(n: Name, text: string, t: Tools): Json {
    Obj(map["kind" := Str(KindOf(n)), "path" := Str(PathOf(n)), "sha256" := Str(t.sha256(text)),
            "size_bytes" := Number(|text|)])
  }

  function ArtifactRecords(names: seq<Name>, p: Provenance, e: Evidence, t: Tools): seq<Json> {
    if names == [] then []
    else ArtifactRecords(names[..|names| - 1], p, e, t)
         + [Artifact(names[|names| - 1], ArtifactText(names[|names| - 1], p, e, t), t)]
  }

  function EnvelopeJson(p: Provenance, completedAt: string, artifacts: seq<Json>): Json {
    Obj(map["schema_version" := Str("1.0"), "corpus_id" := Str(p.corpusId), "manifest_sha256" := Str(p.manifest),
            "source_fingerprint" := Str(p.fingerprint), "run_id" := Str(p.runId), "status" := Str("COMPLETE"),
            "started_at" := Str(p.referenceTime), "completed_at" := Str(completedAt), "artifacts" := Arr(artifacts),
            "error" := Null])
  }

  /** The lines of `SHA256SUMS` for the paths in the given order. */
  function SumsText(paths: seq<string>, tree: Output, t: Tools): string
    requires forall x | x in paths :: x in tree
  {
    if paths == [] then ""
    else SumsText(paths[..|paths| - 1], tree, t)
         + (t.sha256(tree[paths[|paths| - 1]]) + "  " + paths[|paths| - 1] + "\n")
  }

  /** The paths that are summed, in the order in which their files are written. */
  function WrittenPaths(): (paths: seq<string>)
    ensures |paths| == |NAMES| - 1
  {
    seq(|NAMES| - 1, i requires 0 <= i < |NAMES| - 1 => PathOf(NAMES[i]))
  }

  /** The paths that are summed, in code-point order. */
  function SummedPaths(): seq<string> {
    Sort(WrittenPaths(), StrLe)
  }

  lemma SummedOrder(order: seq<string>)
    requires multiset(order) == multiset(WrittenPaths())
    ensures Sort(order, StrLe) == SummedPaths()
  {
    StrLeIsTotalOrder();
    SortIsCanonical(order, WrittenPaths(), StrLe);
  }

  /** The summed paths are those of every file but the sums. */
  lemma SummedMembers(x: string)
    ensures x in SummedPaths() <==> exists n: Name :: n != Sums && x == PathOf(n)
  {
    hide PathOf, NAMES;
    StrLeIsTotalOrder();
    SortSorts(WrittenPaths(), StrLe);
    hide Sort, TotalOrder, Sorted;
    assert x in SummedPaths() <==> x in multiset(WrittenPaths());
    if n: Name :| n != Sums && x == PathOf(n) {
      NameBeforeSums(n);
      var i :| 0 <= i < |NAMES| - 1 && NAMES[i] == n;
      assert WrittenPaths()[i] == x;
    }
    if x in WrittenPaths() {
      var i :| 0 <= i < |WrittenPaths()| && WrittenPaths()[i] == x;
      SumsIsLast(i);
      assert x == PathOf(NAMES[i]);
    }
  }

  lemma SumsIsLast(i: nat)
    requires i < |NAMES| - 1
    ensures NAMES[i] != Sums
  {
  }

  lemma NameBeforeSums(n: Name)
    requires n != Sums
    ensures exists i :: 0 <= i < |NAMES| - 1 && NAMES[i] == n
  {
    NamesAll(n);
  }

  function ArtifactFiles(names: seq<Name>, p: Provenance, e: Evidence, t: Tools): Output {
    if names == [] then map[]
    else
      var n := names[|names| - 1];
      ArtifactFiles(names[..|names| - 1], p, e, t)[PathOf(n) := ArtifactText(n, p, e, t)]
  }

  lemma {:induction false} ArtifactFilesAt(names: seq<Name>, p: Provenance, e: Evidence, t: Tools, n: Name)
    ensures PathOf(n) in ArtifactFiles(names, p, e, t) <==> n in names
    ensures n in names ==> ArtifactFiles(names, p, e, t)[PathOf(n)] == ArtifactText(n, p, e, t)
  {
    hide PathOf, ArtifactText;
    if names != [] {
      var last := names[|names| - 1];
      ArtifactFilesAt(names[..|names| - 1], p, e, t, n);
      PathsDiffer(n, last);
      assert names == names[..|names| - 1] + [last];
    }
  }

  function EnvelopeText(p: Provenance, completedAt: string, e: Evidence, t: Tools): string {
    CanonicalText(EnvelopeJson(p, completedAt, ArtifactRecords(ARTIFACTS, p, e, t)), t)
  }

  /** The tree before its sums. */
  function Unsummed(p: Provenance, completedAt: string, e: Evidence, t: Tools): Output {
    ArtifactFiles(ARTIFACTS, p, e, t)[PathOf(Envelope) := EnvelopeText(p, completedAt, e, t)]
  }

  lemma UnsummedAt(p: Provenance, completedAt: string, e: Evidence, t: Tools, n: Name)
    ensures PathOf(n) in Unsummed(p, completedAt, e, t) <==> n != Sums
    ensures Value(Unsummed(p, completedAt, e, t), n) ==
            if IsArtifact(n) then ArtifactText(n, p, e, t) else if n == Envelope then EnvelopeText(p, completedAt, e, t) else ""
  {
    hide PathOf, ArtifactText, EnvelopeText, ArtifactFiles;
    ArtifactFilesAt(ARTIFACTS, p, e, t, n);
    NamesAll(n);
    PathsDiffer(n, Envelope);
  }

  lemma SummedIn(p: Provenance, completedAt: string, e: Evidence, t: Tools)
    ensures forall x | x in SummedPaths() :: x in Unsummed(p, completedAt, e, t)
  {
    hide PathOf, ArtifactText, EnvelopeText, ArtifactFiles, Unsummed, SummedPaths;
    forall x | x in SummedPaths()
      ensures x in Unsummed(p, completedAt, e, t)
    {
      SummedMembers(x);
      var n: Name :| n != Sums && x == PathOf(n);
      UnsummedAt(p, completedAt, e, t, n);
    }
  }

  /** The tree that is published. */
  function SealedTree(p: Provenance, completedAt: string, e: Evidence, t: Tools): Output {
    SummedIn(p, completedAt, e, t);
    var tree := Unsummed(p, completedAt, e, t);
    tree[PathOf(Sums) := SumsText(SummedPaths(), tree, t)]
  }

  lemma SealedAt(p: Provenance, completedAt: string, e: Evidence, t: Tools, n: Name)
    ensures PathOf(n) in SealedTree(p, completedAt, e, t)
    ensures n != Sums ==> Value(SealedTree(p, completedAt, e, t), n) == Value(Unsummed(p, completedAt, e, t), n)
    ensures SealedTree(p, completedAt, e, t).Keys == Paths()
  {
    hide PathOf, ArtifactText, EnvelopeText, ArtifactFiles, SumsText, SummedPaths, Unsummed;
    UnsummedAt(p, completedAt, e, t, n);
    PathsDiffer(n, Sums);
    SealedKeys(p, completedAt, e, t);
  }

  lemma UnsummedKeys(p: Provenance, completedAt: string, e: Evidence, t: Tools, x: string)
    requires x in Unsummed(p, completedAt, e, t)
    ensures x in Paths()
  {
    hide PathOf, ArtifactText, EnvelopeText, NAMES, ARTIFACTS;
    NamesAll(Envelope);
    FilesNamed(ARTIFACTS, p, e, t, x);
  }

  lemma {:induction false} FilesNamed(names: seq<Name>, p: Provenance, e: Evidence, t: Tools, x: string)
    ensures x in ArtifactFiles(names, p, e, t) ==> x in Paths()
  {
    hide PathOf, ArtifactText, NAMES;
    if names != [] {
      FilesNamed(names[..|names| - 1], p, e, t, x);
      NamesAll(names[|names| - 1]);
    }
  }

  lemma SealedKeys(p: Provenance, completedAt: string, e: Evidence, t: Tools)
    ensures SealedTree(p, completedAt, e, t).Keys == Paths()
  {
    hide PathOf, ArtifactText, EnvelopeText, ArtifactFiles, SumsText, SummedPaths, Unsummed, NAMES;
    var tree := SealedTree(p, completedAt, e, t);
    forall x | x in Unsummed(p, completedAt, e, t)
      ensures x in Paths()
    {
      UnsummedKeys(p, completedAt, e, t, x);
    }
    NamesAll(Sums);
    forall n: Name
      ensures PathOf(n) in tree
    {
      UnsummedAt(p, completedAt, e, t, n);
    }
  }

  // ---- Sealing ---------------------------------------------------------------------------------

  predicate HashesOk(p: Provenance, t: Tools) {
    && t.isHash(p.manifest) && t.isHash(p.fingerprint) && t.isHash(p.commit) && t.isHash(p.image)
    && t.isHash(p.buildInput) && t.isHash(p.package) && t.isHash(p.launch) && t.isHash(p.corpusCommit)
    && t.isHash(p.canonicalManifest) && t.isHash(p.canonicalInput) && t.isHash(p.head) && t.isHash(p.input)
    && t.isHash(p.referenceTimeHash) && t.isHash(p.review)
  }

  predicate ProvenanceOk(p: Provenance, t: Tools) {
    HashesOk(p, t) && 0 < |p.imageReference| <= 255 && t.isUuid(p.reviewer) && t.isUuid(p.reviewerToken)
  }

  /** Nothing in sealing raises. */
  predicate SealOk(p: Provenance, completedAt: string, e: Evidence, t: Tools) {
    && ProvenanceOk(p, t)
    && t.envelopeSchema(EnvelopeJson(p, completedAt, ArtifactRecords(ARTIFACTS, p, e, t)))
    && forall x | x in SealedTree(p, completedAt, e, t) :: t.public(SealedTree(p, completedAt, e, t)[x])
  }

  datatype SealOutcome = Published(digest: string) | Refused | Killed

  class OutputDirectory {
    /** What is at the output name; it appears by a rename. */
    var output: Option<Output>
    /** The randomly named directory that is being filled. */
    var temporary: Option<Output>
    /** File operations left before the process is killed. */
    var budget: nat
    const t: Tools

    constructor (t: Tools)
      ensures output == None && temporary == None && this.t == t
    {
      output, temporary, budget, this.t := None, None, 0, t;
    }

    method Alive() returns (alive: bool)
      modifies `budget
      ensures alive <==> old(budget) > 0
      ensures budget == if alive then old(budget) - 1 else old(budget)
    {
      alive := budget > 0;
      if alive {
        budget := budget - 1;
      }
    }

    /** `_write_new`: a file with a private marker is refused before it is written. */
    method WriteNew(path: string, value: string) returns (outcome: SealOutcome)
      requires temporary.Some? && path !in temporary.value
      modifies `temporary, `budget
      ensures outcome.Published? <==> t.public(value) && old(budget) > 0
      ensures outcome == Refused <==> !t.public(value)
      ensures temporary == if outcome.Published? then Some(old(temporary).value[path := value]) else old(temporary)
      ensures budget == if outcome.Published? then old(budget) - 1 else old(budget)
    {
      if !t.public(value) {
        return Refused;
      }
      var alive := Alive();
      if !alive {
        return Killed;
      }
      temporary := Some(temporary.value[path := value]);
      outcome := Published("");
    }

    /** The loop over the artifacts: each is written and recorded. */
    method WriteArtifacts(p: Provenance, e: Evidence) returns (outcome: SealOutcome, artifacts: seq<Json>)
      requires temporary == Some(map[])
      modifies `temporary, `budget
      ensures output == old(output)
      ensures outcome.Published? ==> temporary == Some(ArtifactFiles(ARTIFACTS, p, e, t)) && artifacts == ArtifactRecords(ARTIFACTS, p, e, t)
      ensures outcome.Published? ==> forall n | n in ARTIFACTS :: t.public(ArtifactText(n, p, e, t))
      ensures outcome == Refused ==> exists n | n in ARTIFACTS :: !t.public(ArtifactText(n, p, e, t))
      ensures outcome == Killed ==> old(budget) < |ARTIFACTS|
      ensures outcome.Published? ==> budget == old(budget) - |ARTIFACTS|
    {
      hide PathOf, ArtifactText, ARTIFACTS;
      artifacts, outcome := [], Published("");
      assert ARTIFACTS[..0] == [];
      for i := 0 to |ARTIFACTS|
        invariant temporary == Some(ArtifactFiles(ARTIFACTS[..i], p, e, t)) && artifacts == ArtifactRecords(ARTIFACTS[..i], p, e, t)
        invariant forall j | 0 <= j < i :: t.public(ArtifactText(ARTIFACTS[j], p, e, t))
        invariant outcome.Published? && budget == old(budget) - i
      {
        var n := ARTIFACTS[i];
        assert ARTIFACTS[..i + 1][..i] == ARTIFACTS[..i];
        NotYet(i);
        ArtifactFilesAt(ARTIFACTS[..i], p, e, t, n);
        outcome := WriteNew(PathOf(n), ArtifactText(n, p, e, t));
        if !outcome.Published? {
          return;
        }
        artifacts := artifacts + [Artifact(n, ArtifactText(n, p, e, t), t)];
      }
      assert ARTIFACTS[..|ARTIFACTS|] == ARTIFACTS;
    }

    lemma NotYet(i: nat)
      requires i < |ARTIFACTS|
      ensures ARTIFACTS[i] !in ARTIFACTS[..i]
    {
    }

    /** The files of the tree after the artifacts. */
    method WriteEnvelope(p: Provenance, completedAt: string, e: Evidence, artifacts: seq<Json>) returns (outcome: SealOutcome)
      requires temporary == Some(ArtifactFiles(ARTIFACTS, p, e, t)) && artifacts == ArtifactRecords(ARTIFACTS, p, e, t)
      modifies `temporary, `budget
      ensures output == old(output)
      ensures outcome.Published? ==> temporary == Some(SealedTree(p, completedAt, e, t))
      ensures outcome.Published? ==> outcome.digest == t.sha256(EnvelopeText(p, completedAt, e, t))
      ensures outcome.Published? ==> budget == old(budget) - 2
      ensures outcome == Killed ==> old(budget) < 2
      ensures outcome.Published? ==> EnvelopePasses(p, completedAt, e)
      ensures outcome == Refused ==> !EnvelopePasses(p, completedAt, e)
    {
      hide PathOf, ArtifactText, ArtifactFiles, ArtifactRecords, EnvelopeJson, SumsText, ARTIFACTS;
      var envelope := EnvelopeJson(p, completedAt, artifacts);
      if !t.envelopeSchema(envelope) {
        return Refused;
      }
      ArtifactFilesAt(ARTIFACTS, p, e, t, Envelope);
      NamesAll(Envelope);
      outcome := WriteNew(PathOf(Envelope), CanonicalText(envelope, t));
      if !outcome.Published? {
        return;
      }
      SummedIn(p, completedAt, e, t);
      UnsummedAt(p, completedAt, e, t, Sums);
      outcome := WriteNew(PathOf(Sums), SumsText(SummedPaths(), temporary.value, t));
      if outcome.Published? {
        outcome := Published(t.sha256(CanonicalText(envelope, t)));
      }
    }

    /** The envelope satisfies its schema, and neither it nor the sums hold a private marker. */
    predicate EnvelopePasses(p: Provenance, completedAt: string, e: Evidence) {
      && t.envelopeSchema(EnvelopeJson(p, completedAt, ArtifactRecords(ARTIFACTS, p, e, t)))
      && t.public(EnvelopeText(p, completedAt, e, t)) && t.public(Value(SealedTree(p, completedAt, e, t), Sums))
    }

    lemma SealOkParts(p: Provenance, completedAt: string, e: Evidence)
      ensures SealOk(p, completedAt, e, t) <==>
              ProvenanceOk(p, t) && (forall n | n in ARTIFACTS :: t.public(ArtifactText(n, p, e, t)))
              && EnvelopePasses(p, completedAt, e)
    {
      hide PathOf, ArtifactText, EnvelopeJson, ArtifactRecords, ProvenanceOk, SealedTree, Unsummed, EnvelopeText, NAMES, ARTIFACTS;
      var tree := SealedTree(p, completedAt, e, t);
      SealedKeys(p, completedAt, e, t);
      forall n: Name
        ensures PathOf(n) in tree && tree[PathOf(n)] == Value(tree, n)
        ensures IsArtifact(n) ==> Value(tree, n) == ArtifactText(n, p, e, t)
        ensures n == Envelope ==> Value(tree, n) == EnvelopeText(p, completedAt, e, t)
        ensures n in ARTIFACTS <==> IsArtifact(n)
      {
        SealedAt(p, completedAt, e, t, n);
        UnsummedAt(p, completedAt, e, t, n);
        NamesAll(n);
      }
      if SealOk(p, completedAt, e, t) {
        forall n | n in ARTIFACTS
          ensures t.public(ArtifactText(n, p, e, t))
        {
          assert tree[PathOf(n)] == Value(tree, n);
        }
        assert tree[PathOf(Envelope)] == Value(tree, Envelope) && tree[PathOf(Sums)] == Value(tree, Sums);
      } else if ProvenanceOk(p, t) && EnvelopePasses(p, completedAt, e) {
        var x :| x in tree && !t.public(tree[x]);
        var n: Name :| n in NAMES && x == PathOf(n);
        assert tree[PathOf(n)] == Value(tree, n) && n in ARTIFACTS;
      }
    }

    /** `seal_results`; `evidence` is what the normalisers make of the answers, none if one raises.  Killed anywhere,
        the output is what it was or the complete tree. */
    method Seal(p: Provenance, completedAt: string, evidence: Option<Evidence>) returns (outcome: SealOutcome)
      modifies this
      ensures output == old(output) || (old(output).None? && evidence.Some? && SealOk(p, completedAt, evidence.value, t)
                                        && output == Some(SealedTree(p, completedAt, evidence.value, t)))
      ensures outcome.Published? ==> output.Some? && output != old(output)
                                     && outcome.digest == t.sha256(EnvelopeText(p, completedAt, evidence.value, t))
      ensures outcome == Refused ==> output == old(output)
      ensures outcome != Killed ==> temporary == None || temporary == old(temporary)
      ensures outcome.Published? <==>
        old(output).None? && evidence.Some? && SealOk(p, completedAt, evidence.value, t) && old(budget) >= 11
      ensures output != old(output) <==>
        old(output).None? && evidence.Some? && SealOk(p, completedAt, evidence.value, t) && old(budget) >= 10
      ensures outcome == Killed ==> old(budget) < 11
    {
      hide SealedTree, EnvelopeText, ArtifactFiles, SealOk, ProvenanceOk, ArtifactText;
      if output.Some? || !ProvenanceOk(p, t) {
        if evidence.Some? {
          SealOkParts(p, completedAt, evidence.value);
        }
        return Refused;
      }
      var alive := Alive();
      if !alive {
        return Killed;
      }
      temporary := Some(map[]);
      if evidence.None? {
        temporary := None;
        return Refused;
      }
      var e := evidence.value;
      SealOkParts(p, completedAt, e);
      var artifacts;
      outcome, artifacts := WriteArtifacts(p, e);
      if outcome.Published? {
        outcome := WriteEnvelope(p, completedAt, e, artifacts);
      }
      if outcome == Refused {
        temporary := None;
      }
      if !outcome.Published? {
        return;
      }
      alive := Alive();
      if !alive {
        return Killed;
      }
      output, temporary := temporary, None;
      alive := Alive();
      if !alive {
        return Killed;
      }
    }
  }
}
