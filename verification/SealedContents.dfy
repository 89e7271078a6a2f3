/** What is in a sealed tree: which content lies at which path, and what its metadata, envelope and sums name. */
module SealedContents {
  import opened Json
  import opened Options
  import opened Ordering
  import opened SealedResults
  import opened SealVerification
  import ScanReport

  const RESULT := "acceptance-result.json"
  const RETRIEVED := "results/knowledge-retrieval-results.jsonl"
  const CONTEXT := "results/context-metadata.json"
  const CANVAS := "results/canvas.json"
  const REPORT := "results/assurance-report.json"
  const FINDINGS := "results/findings.json"
  const METADATA := "results/run-metadata.json"
  const SUMS := "SHA256SUMS"

  /** The paths of the files. */
  lemma PathsNamed()
    ensures PathOf(Envelope) == RESULT && PathOf(Retrieval) == RETRIEVED && PathOf(Context) == CONTEXT
    ensures PathOf(Canvas) == CANVAS && PathOf(Report) == REPORT && PathOf(Findings) == FINDINGS
    ensures PathOf(Metadata) == METADATA && PathOf(Sums) == SUMS
  {
  }

  /** The eight files. */
  lemma EightPaths()
    ensures Paths() == {RESULT, RETRIEVED, CONTEXT, CANVAS, REPORT, FINDINGS, METADATA, SUMS}
  {
    PathsNamed();
    forall n: Name
      ensures n in NAMES
    {
      NamesAll(n);
    }
    hide PathOf, NAMES, RESULT, RETRIEVED, CONTEXT, CANVAS, REPORT, FINDINGS, METADATA, SUMS;
    assert PathOf(Envelope) in Paths() && PathOf(Report) in Paths() && PathOf(Canvas) in Paths() && PathOf(Context) in Paths();
    assert PathOf(Findings) in Paths() && PathOf(Retrieval) in Paths() && PathOf(Metadata) in Paths() && PathOf(Sums) in Paths();
  }

  // ---- Metadata --------------------------------------------------------------------------------

  /** A text member of a part of the metadata. */
  ghost predicate Says(v: Json, part: string, key: string, text: string) {
    && v.Obj? && part in v.fields && v.fields[part].Obj?
    && key in v.fields[part].fields && v.fields[part].fields[key] == Str(text)
  }

  /** The metadata names the product, the corpus, the run and the reviewer, each value under its own name. */
  ghost predicate NamesRun(v: Json, p: Provenance) {
    && Says(v, "product", "name", "anva") && Says(v, "product", "version", p.version)
    && Says(v, "product", "commit", p.commit) && Says(v, "product", "engine_image_sha256", p.image)
    && Says(v, "product", "image_reference", p.imageReference)
    && Says(v, "product", "build_input_sha256", p.buildInput)
    && Says(v, "product", "package_sha256", p.package) && Says(v, "product", "launch_manifest_sha256", p.launch)
    && Says(v, "corpus", "id", p.corpusId) && Says(v, "corpus", "commit", p.corpusCommit)
    && Says(v, "corpus", "manifest_sha256", p.manifest) && Says(v, "corpus", "source_fingerprint", p.fingerprint)
    && Says(v, "corpus", "canonical_input_sha256", p.canonicalInput)
    && Says(v, "corpus", "canonical_manifest_sha256", p.canonicalManifest)
    && Get(v, "assurance_head_commit") == Str(p.head)
    && Says(v, "run", "id", p.runId) && Says(v, "run", "reference_time", p.referenceTime)
    && Says(v, "run", "reference_time_sha256", p.referenceTimeHash)
    && Says(v, "run", "assurance_input_sha256", p.input) && Says(v, "run", "external_review_result_sha256", p.review)
    && Says(v, "reviewer", "service_identity_id", p.reviewer) && Says(v, "reviewer", "credential_id", p.reviewerToken)
  }

  lemma ProductSays(v: Json, p: Provenance)
    requires Get(v, "product") == Product(p)
    ensures Says(v, "product", "name", "anva") && Says(v, "product", "version", p.version)
    ensures Says(v, "product", "commit", p.commit) && Says(v, "product", "engine_image_sha256", p.image)
    ensures Says(v, "product", "image_reference", p.imageReference)
    ensures Says(v, "product", "build_input_sha256", p.buildInput)
    ensures Says(v, "product", "package_sha256", p.package) && Says(v, "product", "launch_manifest_sha256", p.launch)
  {
  }

  lemma CorpusSays(v: Json, p: Provenance)
    requires Get(v, "corpus") == Corpus(p)
    ensures Says(v, "corpus", "id", p.corpusId) && Says(v, "corpus", "commit", p.corpusCommit)
    ensures Says(v, "corpus", "manifest_sha256", p.manifest) && Says(v, "corpus", "source_fingerprint", p.fingerprint)
    ensures Says(v, "corpus", "canonical_input_sha256", p.canonicalInput)
    ensures Says(v, "corpus", "canonical_manifest_sha256", p.canonicalManifest)
  {
  }

  lemma RunSays(v: Json, p: Provenance)
    requires Get(v, "run") == Run(p) && Get(v, "reviewer") == Reviewer(p)
    ensures Says(v, "run", "id", p.runId) && Says(v, "run", "reference_time", p.referenceTime)
    ensures Says(v, "run", "reference_time_sha256", p.referenceTimeHash)
    ensures Says(v, "run", "assurance_input_sha256", p.input) && Says(v, "run", "external_review_result_sha256", p.review)
    ensures Says(v, "reviewer", "service_identity_id", p.reviewer) && Says(v, "reviewer", "credential_id", p.reviewerToken)
  {
  }

  /** Metadata the verifier accepts names the run. */
  lemma AcceptedMetadata(v: Json, p: Provenance, t: Tools)
    requires MetadataOk(v, p, t)
    ensures NamesRun(v, p) && t.equals(Get(v, "schema_version"), 1)
    ensures Get(v, "ranking").Obj? && t.positive(Get(Get(v, "ranking"), "result_count"))
  {
    ProductSays(v, p);
    CorpusSays(v, p);
    RunSays(v, p);
    hide Says, Product, Corpus, Run, Reviewer;
  }

  // ---- Envelope and sums -----------------------------------------------------------------------

  /** The envelope names the corpus and the run, which is complete, and when it started and ended. */
  ghost predicate NamesCompletion(v: Json, p: Provenance, completedAt: string) {
    && v.Obj? && Get(v, "corpus_id") == Str(p.corpusId) && Get(v, "manifest_sha256") == Str(p.manifest)
    && Get(v, "source_fingerprint") == Str(p.fingerprint) && Get(v, "run_id") == Str(p.runId)
    && Get(v, "status") == Str("COMPLETE") && Get(v, "started_at") == Str(p.referenceTime)
    && Get(v, "completed_at") == Str(completedAt) && Get(v, "error") == Null
  }

  /** The records hold one that gives the kind, digest and size of what lies at the path. */
  ghost predicate Recorded(items: seq<Json>, kind: string, path: string, text: string, t: Tools) {
    exists v | v in items ::
      && v.Obj? && v.fields.Keys == {"kind", "path", "sha256", "size_bytes"} && v.fields["kind"] == Str(kind)
      && v.fields["path"] == Str(path) && v.fields["sha256"] == Str(t.sha256(text))
      && t.equals(v.fields["size_bytes"], |text|)
  }

  function At(tree: Output, path: string): string {
    if path in tree then tree[path] else ""
  }

  const RETRIEVAL_KIND := "knowledge_retrieval_results"
  const CONTEXT_KIND := "structured_agent_output"
  const CANVAS_KIND := "browser_capture"
  const REPORT_KIND := "assurance_report"
  const FINDINGS_KIND := "findings"
  const METADATA_KIND := "run_metadata"

  /** The kinds of the artifacts. */
  lemma KindsNamed()
    ensures KindOf(Retrieval) == RETRIEVAL_KIND && KindOf(Context) == CONTEXT_KIND && KindOf(Canvas) == CANVAS_KIND
    ensures KindOf(Report) == REPORT_KIND && KindOf(Findings) == FINDINGS_KIND && KindOf(Metadata) == METADATA_KIND
  {
  }

  /** The envelope has a record for each of the six artifacts and no other. */
  ghost predicate RecordsArtifacts(v: Json, tree: Output, t: Tools) {
    && Get(v, "artifacts").Arr? && |Get(v, "artifacts").items| == 6
    && var items := Get(v, "artifacts").items;
    && Recorded(items, RETRIEVAL_KIND, RETRIEVED,
                At(tree, RETRIEVED), t)
    && Recorded(items, CONTEXT_KIND, CONTEXT,
                At(tree, CONTEXT), t)
    && Recorded(items, CANVAS_KIND, CANVAS, At(tree, CANVAS), t)
    && Recorded(items, REPORT_KIND, REPORT, At(tree, REPORT), t)
    && Recorded(items, FINDINGS_KIND, FINDINGS, At(tree, FINDINGS), t)
    && Recorded(items, METADATA_KIND, METADATA, At(tree, METADATA), t)
  }

  lemma {:induction false} ObservedFrom(items: seq<Json>, x: string)
    ensures x in Observed(items) ==> Observed(items)[x] in items && Observed(items)[x].Obj?
  {
    if items != [] {
      ObservedFrom(items[..|items| - 1], x);
      assert items == items[..|items| - 1] + [items[|items| - 1]];
    }
  }

  lemma RecordFound(items: seq<Json>, n: Name, tree: Output, t: Tools)
    requires ArtifactsOk(items, tree, t) && IsArtifact(n)
    ensures Recorded(items, KindOf(n), PathOf(n), At(tree, PathOf(n)), t)
  {
    hide PathOf, KindOf, Observed, ARTIFACTS;
    NamesAll(n);
    ObservedFrom(items, PathOf(n));
    assert SameRecord(Observed(items)[PathOf(n)], n, Value(tree, n), t);
  }

  /** Records the verifier accepts are those of the six artifacts. */
  lemma AcceptedArtifacts(v: Json, tree: Output, t: Tools)
    requires Get(v, "artifacts").Arr? && ArtifactsOk(Get(v, "artifacts").items, tree, t)
    ensures RecordsArtifacts(v, tree, t)
  {
    PathsNamed();
    KindsNamed();
    hide ArtifactsOk, Recorded, PathOf, KindOf, RESULT, RETRIEVED, CONTEXT, CANVAS, REPORT, FINDINGS, METADATA, SUMS,
      RETRIEVAL_KIND, CONTEXT_KIND, CANVAS_KIND, REPORT_KIND, FINDINGS_KIND, METADATA_KIND, Get;
    var items := Get(v, "artifacts").items;
    SixRecords(items, tree, t);
    RecordFound(items, Retrieval, tree, t);
    RecordFound(items, Context, tree, t);
    RecordFound(items, Canvas, tree, t);
    RecordFound(items, Report, tree, t);
    RecordFound(items, Findings, tree, t);
    RecordFound(items, Metadata, tree, t);
  }

  lemma SixRecords(items: seq<Json>, tree: Output, t: Tools)
    requires ArtifactsOk(items, tree, t)
    ensures |items| == 6
  {
    hide Observed, SameRecord, PathOf;
  }

  /** A line of the sums: the digest of the file, two blanks, its path. */
  function Line(tree: Output, path: string, t: Tools): string {
    t.sha256(At(tree, path)) + "  " + path + "\n"
  }

  const ORDER: seq<string> := [RESULT, REPORT, CANVAS, CONTEXT, FINDINGS, RETRIEVED, METADATA]

  lemma Follows(same: string, a: string, b: string, x: string, y: string)
    requires x == same + a && y == same + b && a != "" && b != "" && a[0] < b[0]
    ensures StrLe(x, y)
  {
    assert SmallerAt(x, y, |same|);
    StrLeMeans(x, y);
  }

  /** Two results are in the order of the first letter of their names. */
  lemma NextResult(x: string, y: string)
    requires |x| > 8 && |y| > 8 && x[8] < y[8] && forall i | 0 <= i < 8 :: x[i] == "results/"[i] == y[i]
    ensures StrLe(x, y)
  {
    assert x[..8] == y[..8];
    assert SmallerAt(x, y, 8);
    StrLeMeans(x, y);
  }

  lemma InOrderOfText()
    ensures Sorted(ORDER, StrLe)
  {
    hide StrLe, RESULT, RETRIEVED, CONTEXT, CANVAS, REPORT, FINDINGS, METADATA;
    Neighbours();
    var s := [RESULT, REPORT, CANVAS, CONTEXT, FINDINGS, RETRIEVED, METADATA];
    assert forall i | 0 < i < |s| :: StrLe(s[i - 1], s[i]);
    SortedByNeighbours(s);
  }

  lemma Neighbours()
    ensures StrLe(RESULT, REPORT) && StrLe(REPORT, CANVAS) && StrLe(CANVAS, CONTEXT) && StrLe(CONTEXT, FINDINGS)
    ensures StrLe(FINDINGS, RETRIEVED) && StrLe(RETRIEVED, METADATA)
  {
    hide StrLe, RESULT, RETRIEVED, CONTEXT, CANVAS, REPORT, FINDINGS, METADATA;
    ResultFirst();
    CanvasNext();
    ContextNext();
    FindingsNext();
    RetrievedNext();
  }

  lemma ResultFirst()
    ensures StrLe(RESULT, REPORT) && StrLe(REPORT, CANVAS)
  {
    hide StrLe;
    assert StrLe(RESULT, REPORT) by { Follows("", RESULT, REPORT, RESULT, REPORT); }
    assert StrLe(REPORT, CANVAS) by { NextResult(REPORT, CANVAS); }
  }

  lemma CanvasNext()
    ensures StrLe(CANVAS, CONTEXT)
  {
    hide StrLe;
    Follows("results/c", "anvas.json", "ontext-metadata.json", CANVAS, CONTEXT);
  }

  lemma ContextNext()
    ensures StrLe(CONTEXT, FINDINGS)
  {
    hide StrLe;
    NextResult(CONTEXT, FINDINGS);
  }

  lemma FindingsNext()
    ensures StrLe(FINDINGS, RETRIEVED)
  {
    hide StrLe;
    NextResult(FINDINGS, RETRIEVED);
  }

  lemma RetrievedNext()
    ensures StrLe(RETRIEVED, METADATA)
  {
    hide StrLe;
    NextResult(RETRIEVED, METADATA);
  }

  lemma {:induction false} SortedByNeighbours(s: seq<string>)
    requires forall i | 0 < i < |s| :: StrLe(s[i - 1], s[i])
    ensures Sorted(s, StrLe)
  {
    hide StrLe;
    if s != [] {
      var n, rest := |s| - 1, s[..|s| - 1];
      SortedByNeighbours(rest);
      forall i | 0 <= i < n
        ensures StrLe(s[i], s[n])
      {
        assert StrLe(s[n - 1], s[n]);
        if i < n - 1 {
          assert StrLe(rest[i], rest[n - 1]);
          StrLeTransitive(s[i], s[n - 1], s[n]);
        }
      }
      assert forall i, j | 0 <= i < j < n :: rest[i] == s[i] && rest[j] == s[j];
    }
  }

  /** The seven other files are summed in the order of their paths. */
  lemma SumsOrder()
    ensures SummedPaths() == ORDER
  {
    var w := Written();
    InOrderOfText();
    StrLeIsTotalOrder();
    SortSorts(w, StrLe);
    hide PathOf, RESULT, RETRIEVED, CONTEXT, CANVAS, REPORT, FINDINGS, METADATA, SUMS, StrLe, Sort, TotalOrder, Sorted;
    var o := ORDER;
    Rearranged(RETRIEVED, CONTEXT, CANVAS, REPORT, FINDINGS, METADATA, RESULT);
    SortedIsUnique(Sort(w, StrLe), o, StrLe);
  }

  lemma Rearranged(a: string, b: string, c: string, d: string, e: string, f: string, g: string)
    ensures multiset([a, b, c, d, e, f, g]) == multiset([g, d, c, b, e, a, f])
  {
    ScanReport.PermutedMultiset([a, b, c, d, e, f, g], [g, d, c, b, e, a, f], [5, 3, 2, 1, 4, 6, 0]);
  }

  lemma Written() returns (w: seq<string>)
    ensures w == WrittenPaths() == [RETRIEVED, CONTEXT, CANVAS, REPORT, FINDINGS, METADATA, RESULT]
  {
    w := WrittenPaths();
    PathsNamed();
    hide PathOf, RESULT, RETRIEVED, CONTEXT, CANVAS, REPORT, FINDINGS, METADATA, SUMS;
  }

  lemma {:induction false} SumsLines(paths: seq<string>, tree: Output, t: Tools)
    requires paths != [] && forall x | x in paths :: x in tree
    ensures SumsText(paths, tree, t) == SumsText(paths[..|paths| - 1], tree, t) + Line(tree, paths[|paths| - 1], t)
  {
  }

  /** The text of the sums: a line for each of the seven files. */
  lemma SumsSpelt(tree: Output, t: Tools)
    requires tree.Keys == Paths()
    ensures forall x | x in SummedPaths() :: x in tree
    ensures SumsText(SummedPaths(), tree, t) ==
            Line(tree, RESULT, t) + Line(tree, REPORT, t)
            + Line(tree, CANVAS, t) + Line(tree, CONTEXT, t)
            + Line(tree, FINDINGS, t) + Line(tree, RETRIEVED, t)
            + Line(tree, METADATA, t)
  {
    SummedWithin(tree);
    SumsOrder();
    hide Line, SummedPaths, Paths, PathOf, RESULT, RETRIEVED, CONTEXT, CANVAS, REPORT, FINDINGS, METADATA, SUMS;
    forall k | 0 < k <= |ORDER|
      ensures forall x | x in ORDER[..k] :: x in tree
      ensures SumsText(ORDER[..k], tree, t) == SumsText(ORDER[..k - 1], tree, t) + Line(tree, ORDER[k - 1], t)
    {
      SumsLines(ORDER[..k], tree, t);
      assert ORDER[..k][..k - 1] == ORDER[..k - 1];
    }
    assert ORDER[..|ORDER|] == ORDER && ORDER[..0] == [];
    hide SumsText;
    var s := ORDER;
    assert |ORDER| == 7;
    assert SumsText(s[..0], tree, t) == "" by { EmptySums(tree, t); }
    assert SumsText(s[..1], tree, t) == Line(tree, s[0], t);
    assert SumsText(s[..2], tree, t) == SumsText(s[..1], tree, t) + Line(tree, s[1], t);
    assert SumsText(s[..3], tree, t) == SumsText(s[..2], tree, t) + Line(tree, s[2], t);
    assert SumsText(s[..4], tree, t) == SumsText(s[..3], tree, t) + Line(tree, s[3], t);
    assert SumsText(s[..5], tree, t) == SumsText(s[..4], tree, t) + Line(tree, s[4], t);
    assert SumsText(s[..6], tree, t) == SumsText(s[..5], tree, t) + Line(tree, s[5], t);
    assert SumsText(s[..7], tree, t) == SumsText(s[..6], tree, t) + Line(tree, s[6], t);
  }

  lemma EmptySums(tree: Output, t: Tools)
    ensures SumsText(ORDER[..0], tree, t) == ""
  {
  }

  // ---- What is accepted and what is published ----------------------------------------------------

  /** An accepted tree holds the eight files and no other, each public and within the limit; its metadata names the run,
      its envelope the completion and the six artifacts, and its sums the seven files. */
  lemma AcceptedTree(tree: Output, p: Provenance, t: Tools)
    requires Verifies(tree, p, t)
    ensures tree.Keys == {RESULT, RETRIEVED, CONTEXT, CANVAS, REPORT, FINDINGS, METADATA, SUMS}
    ensures forall x | x in tree :: |tree[x]| <= 2_000_000 && t.public(tree[x])
    ensures t.parse(At(tree, METADATA)).Some? && t.parse(At(tree, RESULT)).Some?
    ensures var metadata, envelope := t.parse(At(tree, METADATA)).value, t.parse(At(tree, RESULT)).value;
            && NamesRun(metadata, p) && t.equals(Get(metadata, "schema_version"), 1)
            && Get(metadata, "ranking").Obj? && t.positive(Get(Get(metadata, "ranking"), "result_count"))
            && NamesCompletion(envelope, p, p.referenceTime) && RecordsArtifacts(envelope, tree, t)
            && t.envelopeSchema(envelope)
    ensures At(tree, SUMS) ==
            Line(tree, RESULT, t) + Line(tree, REPORT, t)
            + Line(tree, CANVAS, t) + Line(tree, CONTEXT, t)
            + Line(tree, FINDINGS, t) + Line(tree, RETRIEVED, t)
            + Line(tree, METADATA, t)
  {
    EightPaths();
    PathsNamed();
    hide PathOf, RESULT, RETRIEVED, CONTEXT, CANVAS, REPORT, FINDINGS, METADATA, SUMS;
    assert Value(tree, Envelope) == At(tree, RESULT);
    assert Value(tree, Metadata) == At(tree, METADATA);
    assert Value(tree, Sums) == At(tree, SUMS);
    hide Paths, MetadataOk, ArtifactsOk, RecordsArtifacts, NamesRun, Value, At, Line, PathOf, SumsText, SummedPaths;
    SumsSpelt(tree, t);
    var envelope := t.parse(Value(tree, Envelope)).value;
    AcceptedMetadata(t.parse(Value(tree, Metadata)).value, p, t);
    AcceptedArtifacts(envelope, tree, t);
  }

  /** Each normalised answer lies at its own path, and the two documents at theirs. */
  ghost predicate HoldsAnswers(tree: Output, e: Evidence, metadata: Json, envelope: Json) {
    && At(tree, RETRIEVED) == e.retrieval && At(tree, CONTEXT) == e.context && At(tree, CANVAS) == e.canvas
    && At(tree, REPORT) == e.report && At(tree, FINDINGS) == e.findings
    && At(tree, METADATA) == Print(metadata, "") + "\n" && At(tree, RESULT) == Print(envelope, "") + "\n"
  }

  ghost predicate SaysRanking(v: Json, n: nat) {
    && Get(v, "schema_version") == Num("1") && Get(Get(v, "ranking"), "result_count") == Number(n)
    && Get(Get(v, "ranking"), "order") == Str("server-returned-rank")
    && Get(Get(v, "ranking"), "content_minimized") == Bool(true)
  }

  /** A published tree holds the answers, and metadata and an envelope that say the same as those the verifier accepts. */
  lemma PublishedTree(p: Provenance, completedAt: string, e: Evidence, t: Tools) returns (metadata: Json, envelope: Json)
    requires Faithful(t)
    ensures HoldsAnswers(SealedTree(p, completedAt, e, t), e, metadata, envelope)
    ensures RecordsArtifacts(envelope, SealedTree(p, completedAt, e, t), t)
    ensures NamesRun(metadata, p) && NamesCompletion(envelope, p, completedAt)
    ensures SaysRanking(metadata, e.resultCount) && Get(envelope, "schema_version") == Str("1.0")
    ensures "error" in envelope.fields
  {
    var items := ArtifactRecords(ARTIFACTS, p, e, t);
    metadata, envelope := MetadataJson(p, e.resultCount), EnvelopeJson(p, completedAt, items);
    PublishedDocuments(p, completedAt, e.resultCount, items);
    AnswersLie(p, completedAt, e, t);
    hide MetadataJson, EnvelopeJson, ArtifactRecords, ARTIFACTS, HoldsAnswers, SaysRanking, NamesRun, SealedTree;
    EnvelopeMembers(p, completedAt, items);
    SealedArtifactsOk(p, completedAt, e, t);
    AcceptedArtifacts(envelope, SealedTree(p, completedAt, e, t), t);
  }

  lemma PublishedDocuments(p: Provenance, completedAt: string, n: nat, items: seq<Json>)
    ensures var metadata, envelope := MetadataJson(p, n), EnvelopeJson(p, completedAt, items);
            && SaysRanking(metadata, n) && Get(envelope, "schema_version") == Str("1.0")
            && NamesRun(metadata, p) && NamesCompletion(envelope, p, completedAt) && "error" in envelope.fields
  {
    var metadata := MetadataJson(p, n);
    RankingMembers(p, n);
    EnvelopeMembers(p, completedAt, items);
    EnvelopeVersion(p, completedAt, items);
    MetadataMembers(p, n);
    hide MetadataJson, EnvelopeJson, Product, Corpus, Run, Reviewer;
    ProductSays(metadata, p);
    CorpusSays(metadata, p);
    RunSays(metadata, p);
    hide Says;
  }

  lemma AnswersLie(p: Provenance, completedAt: string, e: Evidence, t: Tools)
    requires Faithful(t)
    ensures HoldsAnswers(SealedTree(p, completedAt, e, t), e, MetadataJson(p, e.resultCount),
                         EnvelopeJson(p, completedAt, ArtifactRecords(ARTIFACTS, p, e, t)))
  {
    DocumentTexts(p, completedAt, e, t);
    AnswerTexts(p, e, t);
    hide Faithful, Print, SealedTree, EnvelopeText, EnvelopeJson, MetadataJson, At, PathOf, ArtifactText, ArtifactRecords,
      ARTIFACTS, HoldsAnswers;
    Content(p, completedAt, e, t, Retrieval);
    Content(p, completedAt, e, t, Context);
    Content(p, completedAt, e, t, Canvas);
    Content(p, completedAt, e, t, Report);
    Content(p, completedAt, e, t, Findings);
    Content(p, completedAt, e, t, Metadata);
    Content(p, completedAt, e, t, Envelope);
    AnswersHeld(SealedTree(p, completedAt, e, t), e, MetadataJson(p, e.resultCount),
                EnvelopeJson(p, completedAt, ArtifactRecords(ARTIFACTS, p, e, t)));
  }

  lemma AnswersHeld(tree: Output, e: Evidence, metadata: Json, envelope: Json)
    requires At(tree, PathOf(Retrieval)) == e.retrieval && At(tree, PathOf(Context)) == e.context
    requires At(tree, PathOf(Canvas)) == e.canvas && At(tree, PathOf(Report)) == e.report
    requires At(tree, PathOf(Findings)) == e.findings && At(tree, PathOf(Metadata)) == Print(metadata, "") + "\n"
    requires At(tree, PathOf(Envelope)) == Print(envelope, "") + "\n"
    ensures HoldsAnswers(tree, e, metadata, envelope)
  {
    PathsNamed();
    hide Print, At, PathOf, RESULT, RETRIEVED, CONTEXT, CANVAS, REPORT, FINDINGS, METADATA, SUMS;
  }

  lemma AnswerTexts(p: Provenance, e: Evidence, t: Tools)
    ensures ArtifactText(Retrieval, p, e, t) == e.retrieval && ArtifactText(Context, p, e, t) == e.context
    ensures ArtifactText(Canvas, p, e, t) == e.canvas && ArtifactText(Report, p, e, t) == e.report
    ensures ArtifactText(Findings, p, e, t) == e.findings
  {
    hide CanonicalText, MetadataJson;
  }

  lemma DocumentTexts(p: Provenance, completedAt: string, e: Evidence, t: Tools)
    requires Faithful(t)
    ensures ArtifactText(Metadata, p, e, t) == Print(MetadataJson(p, e.resultCount), "") + "\n"
    ensures EnvelopeText(p, completedAt, e, t) ==
            Print(EnvelopeJson(p, completedAt, ArtifactRecords(ARTIFACTS, p, e, t)), "") + "\n"
  {
    hide Print, EnvelopeJson, MetadataJson, ArtifactRecords, ARTIFACTS;
  }

  lemma RankingMembers(p: Provenance, n: nat)
    ensures SaysRanking(MetadataJson(p, n), n)
  {
    hide Product, Corpus, Run, Reviewer, Decimal;
  }

  lemma EnvelopeVersion(p: Provenance, completedAt: string, items: seq<Json>)
    ensures EnvelopeJson(p, completedAt, items).Obj?
    ensures Get(EnvelopeJson(p, completedAt, items), "schema_version") == Str("1.0")
    ensures "error" in EnvelopeJson(p, completedAt, items).fields
  {
  }

  lemma Content(p: Provenance, completedAt: string, e: Evidence, t: Tools, n: Name)
    requires n != Sums
    ensures At(SealedTree(p, completedAt, e, t), PathOf(n)) ==
            if n == Envelope then EnvelopeText(p, completedAt, e, t) else ArtifactText(n, p, e, t)
  {
    hide SealedTree, Unsummed, EnvelopeText, ArtifactText, PathOf;
    SealedAt(p, completedAt, e, t, n);
    UnsummedAt(p, completedAt, e, t, n);
  }

  /** The fourteen digests of a provenance. */
  ghost predicate Digested(p: Provenance, t: Tools) {
    && t.isHash(p.commit) && t.isHash(p.image) && t.isHash(p.buildInput) && t.isHash(p.package) && t.isHash(p.launch)
    && t.isHash(p.manifest) && t.isHash(p.fingerprint) && t.isHash(p.corpusCommit) && t.isHash(p.canonicalInput)
    && t.isHash(p.canonicalManifest) && t.isHash(p.head) && t.isHash(p.input) && t.isHash(p.referenceTimeHash)
    && t.isHash(p.review)
  }

  /** Nothing in sealing raises exactly when the fourteen digests are digests, the image is named in at most 255
      characters, the reviewer's two ids are ids, the envelope fits its schema and no file holds a private marker. */
  lemma SealDemands(p: Provenance, completedAt: string, e: Evidence, t: Tools)
    ensures SealOk(p, completedAt, e, t) <==>
      && Digested(p, t) && p.imageReference != "" && |p.imageReference| <= 255
      && t.isUuid(p.reviewer) && t.isUuid(p.reviewerToken)
      && t.envelopeSchema(EnvelopeJson(p, completedAt, ArtifactRecords(ARTIFACTS, p, e, t)))
      && forall x | x in SealedTree(p, completedAt, e, t) :: t.public(SealedTree(p, completedAt, e, t)[x])
  {
    hide SealedTree, EnvelopeJson, ArtifactRecords;
  }
}
