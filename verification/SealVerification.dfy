/** Verifying a sealed tree: what was sealed is accepted with the same digest, and the digest binds the whole tree. */
module SealVerification {
  import opened Json
  import opened Options
  import opened Ordering
  import opened SealedResults

  // ---- What is checked -------------------------------------------------------------------------

  /** The path under which a record is filed; none of the expected paths when it is not a text. */
  function RecordPath(v: Json): string {
    if Get(v, "path").Str? then Get(v, "path").chars else ""
  }

  /** The records that are objects, by path; a later one replaces an earlier one. */
  function Observed(items: seq<Json>): map<string, Json> {
    if items == [] then map[]
    else
      var last := items[|items| - 1];
      var before := Observed(items[..|items| - 1]);
      if last.Obj? then before[RecordPath(last) := last] else before
  }

  const RECORD_FIELDS: set<string> := {"kind", "path", "sha256", "size_bytes"}

  /** The record equals the expected one for this content. */
  predicate SameRecord(v: Json, n: Name, text: string, t: Tools) {
    && v.Obj? && v.fields.Keys == RECORD_FIELDS && Get(v, "kind") == Str(KindOf(n)) && Get(v, "path") == Str(PathOf(n))
    && Get(v, "sha256") == Str(t.sha256(text)) && t.equals(Get(v, "size_bytes"), |text|)
  }

  function ArtifactPaths(): set<string> {
    set n: Name | n in ARTIFACTS :: PathOf(n)
  }

  predicate ArtifactsOk(items: seq<Json>, tree: Output, t: Tools) {
    && |items| == |ARTIFACTS| && Observed(items).Keys == ArtifactPaths()
    && forall n | n in ARTIFACTS :: PathOf(n) in Observed(items) && SameRecord(Observed(items)[PathOf(n)], n, Value(tree, n), t)
  }

  predicate EnvelopeOk(v: Json, p: Provenance, tree: Output, t: Tools) {
    && v.Obj? && t.envelopeSchema(v)
    && Get(v, "corpus_id") == Str(p.corpusId) && Get(v, "manifest_sha256") == Str(p.manifest)
    && Get(v, "source_fingerprint") == Str(p.fingerprint) && Get(v, "run_id") == Str(p.runId)
    && Get(v, "status") == Str("COMPLETE") && Get(v, "started_at") == Str(p.referenceTime)
    && Get(v, "completed_at") == Str(p.referenceTime) && Get(v, "error") == Null
    && Get(v, "artifacts").Arr? && ArtifactsOk(Get(v, "artifacts").items, tree, t)
  }

  predicate MetadataOk(v: Json, p: Provenance, t: Tools) {
    && v.Obj? && t.equals(Get(v, "schema_version"), 1) && Get(v, "product") == Product(p)
    && Get(v, "corpus") == Corpus(p) && Get(v, "assurance_head_commit") == Str(p.head) && Get(v, "run") == Run(p)
    && Get(v, "reviewer") == Reviewer(p)
    && Get(v, "ranking").Obj? && t.positive(Get(Get(v, "ranking"), "result_count"))
  }

  /** `_sealed_file` accepts every file. */
  predicate FilesReadable(tree: Output, t: Tools) {
    forall x | x in tree :: |tree[x]| <= SEALED_LIMIT && t.public(tree[x])
  }

  lemma SummedWithin(tree: Output)
    requires tree.Keys == Paths()
    ensures forall x | x in SummedPaths() :: x in tree
  {
    hide PathOf, SummedPaths, NAMES;
    forall x | x in SummedPaths()
      ensures x in tree
    {
      SummedMembers(x);
      var n: Name :| n != Sums && x == PathOf(n);
      NamesAll(n);
    }
  }

  predicate Verifies(tree: Output, p: Provenance, t: Tools) {
    && tree.Keys == Paths() && FilesReadable(tree, t)
    && (SummedWithin(tree); Value(tree, Sums) == SumsText(SummedPaths(), tree, t))
    && t.parse(Value(tree, Envelope)).Some? && t.parse(Value(tree, Metadata)).Some?
    && EnvelopeOk(t.parse(Value(tree, Envelope)).value, p, tree, t)
    && MetadataOk(t.parse(Value(tree, Metadata)).value, p, t)
  }

  /** Filing the records of the envelope. */
  method Observe(items: seq<Json>) returns (observed: map<string, Json>)
    ensures observed == Observed(items)
  {
    observed := map[];
    for i := 0 to |items|
      invariant observed == Observed(items[..i])
    {
      assert items[..i + 1][..i] == items[..i];
      if items[i].Obj? {
        observed := observed[RecordPath(items[i]) := items[i]];
      }
    }
    assert items[..|items|] == items;
  }

  /** `verify_sealed_results`; `order` is the order in which the set of summed paths is enumerated. */
  method VerifySealed(output: Option<Output>, p: Provenance, order: seq<string>, t: Tools) returns (digest: Option<string>)
    requires multiset(order) == multiset(WrittenPaths())
    ensures digest == if output.Some? && Verifies(output.value, p, t) then Some(t.sha256(Value(output.value, Envelope))) else None
  {
    hide MetadataOk, SumsText, PathOf, SameRecord, NAMES, Observed;
    if output.None? || output.value.Keys != Paths() || !FilesReadable(output.value, t) {
      return None;
    }
    var tree := output.value;
    SummedWithin(tree);
    SummedOrder(order);
    if Value(tree, Sums) != SumsText(Sort(order, StrLe), tree, t) {
      return None;
    }
    var envelope, metadata := t.parse(Value(tree, Envelope)), t.parse(Value(tree, Metadata));
    if envelope.None? || metadata.None? || !Get(envelope.value, "artifacts").Arr? {
      return None;
    }
    var observed := Observe(Get(envelope.value, "artifacts").items);
    var artifactsOk := |Get(envelope.value, "artifacts").items| == |ARTIFACTS| && observed.Keys == ArtifactPaths()
                       && forall n | n in ARTIFACTS :: PathOf(n) in observed && SameRecord(observed[PathOf(n)], n, Value(tree, n), t);
    assert artifactsOk <==> ArtifactsOk(Get(envelope.value, "artifacts").items, tree, t);
    if !artifactsOk || !EnvelopeOk(envelope.value, p, tree, t) || !MetadataOk(metadata.value, p, t) {
      return None;
    }
    digest := Some(t.sha256(Value(tree, Envelope)));
  }

  // ---- What was sealed is accepted --------------------------------------------------------------

  lemma ArtifactMembers(n: Name, text: string, t: Tools)
    requires Faithful(t)
    ensures SameRecord(Artifact(n, text, t), n, text, t) && RecordPath(Artifact(n, text, t)) == PathOf(n)
  {
    hide KindOf, PathOf, Decimal;
  }

  lemma {:induction false} RecordsObserved(names: seq<Name>, p: Provenance, e: Evidence, t: Tools, n: Name)
    requires Faithful(t)
    ensures |ArtifactRecords(names, p, e, t)| == |names|
    ensures PathOf(n) in Observed(ArtifactRecords(names, p, e, t)) <==> n in names
    ensures n in names ==>
      Observed(ArtifactRecords(names, p, e, t))[PathOf(n)] == Artifact(n, ArtifactText(n, p, e, t), t)
  {
    hide PathOf, ArtifactText, Faithful, Artifact, RecordPath;
    if names != [] {
      var last := names[|names| - 1];
      var rest := names[..|names| - 1];
      RecordsObserved(rest, p, e, t, n);
      PathsDiffer(n, last);
      ArtifactMembers(last, ArtifactText(last, p, e, t), t);
      assert names == rest + [last];
      var items := ArtifactRecords(names, p, e, t);
      assert items[..|items| - 1] == ArtifactRecords(rest, p, e, t);
    }
  }

  lemma {:induction false} RecordsNamed(names: seq<Name>, p: Provenance, e: Evidence, t: Tools, x: string)
    requires Faithful(t)
    ensures x in Observed(ArtifactRecords(names, p, e, t)) ==> exists n | n in names :: x == PathOf(n)
  {
    hide PathOf, ArtifactText, Faithful, Artifact, RecordPath;
    if names != [] {
      var last := names[|names| - 1];
      var rest := names[..|names| - 1];
      RecordsNamed(rest, p, e, t, x);
      ArtifactMembers(last, ArtifactText(last, p, e, t), t);
      var items := ArtifactRecords(names, p, e, t);
      assert items[..|items| - 1] == ArtifactRecords(rest, p, e, t);
      assert last in names && forall n | n in rest :: n in names;
    }
  }

  lemma SealedArtifactsOk(p: Provenance, completedAt: string, e: Evidence, t: Tools)
    requires Faithful(t)
    ensures ArtifactsOk(ArtifactRecords(ARTIFACTS, p, e, t), SealedTree(p, completedAt, e, t), t)
  {
    hide PathOf, ArtifactText, Faithful, Artifact, RecordPath, Observed, ArtifactRecords, ARTIFACTS, SealedTree, SameRecord, Value;
    var items := ArtifactRecords(ARTIFACTS, p, e, t);
    RecordsObserved(ARTIFACTS, p, e, t, Retrieval);
    forall x | x in Observed(items)
      ensures x in ArtifactPaths()
    {
      RecordsNamed(ARTIFACTS, p, e, t, x);
    }
    forall n | n in ARTIFACTS
      ensures PathOf(n) in Observed(items)
      ensures SameRecord(Observed(items)[PathOf(n)], n, Value(SealedTree(p, completedAt, e, t), n), t)
    {
      RecordsObserved(ARTIFACTS, p, e, t, n);
      ArtifactMembers(n, ArtifactText(n, p, e, t), t);
      NamesAll(n);
      SealedAt(p, completedAt, e, t, n);
      UnsummedAt(p, completedAt, e, t, n);
    }
    assert Observed(items).Keys == ArtifactPaths();
  }

  lemma EnvelopeMembers(p: Provenance, completedAt: string, items: seq<Json>)
    ensures var v := EnvelopeJson(p, completedAt, items);
            Get(v, "corpus_id") == Str(p.corpusId) && Get(v, "manifest_sha256") == Str(p.manifest)
            && Get(v, "source_fingerprint") == Str(p.fingerprint) && Get(v, "run_id") == Str(p.runId)
            && Get(v, "status") == Str("COMPLETE") && Get(v, "started_at") == Str(p.referenceTime)
            && Get(v, "completed_at") == Str(completedAt) && Get(v, "error") == Null
            && Get(v, "artifacts") == Arr(items)
  {
  }

  lemma MetadataMembers(p: Provenance, n: nat)
    ensures var v := MetadataJson(p, n);
            v.Obj? && Get(v, "schema_version") == Num("1") && Get(v, "product") == Product(p)
            && Get(v, "corpus") == Corpus(p) && Get(v, "assurance_head_commit") == Str(p.head)
            && Get(v, "run") == Run(p) && Get(v, "reviewer") == Reviewer(p)
            && Get(v, "ranking").Obj? && Get(Get(v, "ranking"), "result_count") == Number(n)
  {
    hide Product, Corpus, Run, Reviewer, Decimal;
  }

  lemma SealedMetadataOk(p: Provenance, e: Evidence, t: Tools)
    requires Faithful(t) && e.resultCount > 0
    ensures MetadataOk(MetadataJson(p, e.resultCount), p, t)
  {
    hide Product, Corpus, Run, Reviewer, MetadataJson;
    MetadataMembers(p, e.resultCount);
    assert Number(1) == Num("1");
  }

  lemma SealedSumsOk(p: Provenance, completedAt: string, e: Evidence, t: Tools)
    ensures forall x | x in SummedPaths() :: x in SealedTree(p, completedAt, e, t)
    ensures Value(SealedTree(p, completedAt, e, t), Sums) == SumsText(SummedPaths(), SealedTree(p, completedAt, e, t), t)
  {
    hide PathOf, SummedPaths, Unsummed, NAMES, SumsText;
    var tree, before := SealedTree(p, completedAt, e, t), Unsummed(p, completedAt, e, t);
    SummedIn(p, completedAt, e, t);
    forall x | x in SummedPaths()
      ensures x in before && x in tree && before[x] == tree[x]
    {
      SummedMembers(x);
      var n: Name :| n != Sums && x == PathOf(n);
      PathsDiffer(n, Sums);
    }
    SameSums(SummedPaths(), before, tree, t);
  }

  lemma {:induction false} SameSums(paths: seq<string>, a: Output, b: Output, t: Tools)
    requires forall x | x in paths :: x in a && x in b && a[x] == b[x]
    ensures SumsText(paths, a, t) == SumsText(paths, b, t)
  {
    if paths != [] {
      SameSums(paths[..|paths| - 1], a, b, t);
    }
  }

  /** What is published is accepted under the same provenance, with the digest that was saved, exactly when every file
      fits the verifier's limit and the run was completed at its reference time, as the runner always says. */
  lemma SealVerifies(p: Provenance, completedAt: string, e: Evidence, t: Tools)
    requires Faithful(t) && SealOk(p, completedAt, e, t) && e.resultCount > 0
    ensures var tree := SealedTree(p, completedAt, e, t);
            && (Verifies(tree, p, t) <==>
                completedAt == p.referenceTime && forall x | x in tree :: |tree[x]| <= 2_000_000)
            && t.sha256(Value(tree, Envelope)) == t.sha256(EnvelopeText(p, completedAt, e, t))
  {
    hide SealedTree, SumsText, SummedPaths, PathOf, ArtifactsOk, ArtifactRecords, EnvelopeJson, MetadataJson, MetadataOk,
      NAMES, ARTIFACTS, ProvenanceOk, Paths, Unsummed, Value;
    var tree := SealedTree(p, completedAt, e, t);
    var items := ArtifactRecords(ARTIFACTS, p, e, t);
    SealedKeys(p, completedAt, e, t);
    SealedSumsOk(p, completedAt, e, t);
    SealedAt(p, completedAt, e, t, Envelope);
    UnsummedAt(p, completedAt, e, t, Envelope);
    SealedAt(p, completedAt, e, t, Metadata);
    UnsummedAt(p, completedAt, e, t, Metadata);
    SealedArtifactsOk(p, completedAt, e, t);
    EnvelopeMembers(p, completedAt, items);
    SealedMetadataOk(p, e, t);
    assert t.parse(Value(tree, Envelope)) == Some(EnvelopeJson(p, completedAt, items));
    assert t.parse(Value(tree, Metadata)) == Some(MetadataJson(p, e.resultCount));
    assert EnvelopeJson(p, completedAt, items).Obj? by { EnvelopeIsObject(p, completedAt, items); }
  }

  const LONG_REPORT: Json := Obj(map["summary" := Str(seq(SEALED_LIMIT, i => 'a'))])

  /** A report with a summary of two million letters is published, and the output is not accepted again. */
  lemma LongReportRefused(p: Provenance, completedAt: string, e: Evidence, t: Tools)
    requires Faithful(t) && SealOk(p, completedAt, e, t) && e.resultCount > 0
    requires e.report == CanonicalText(LONG_REPORT, t)
    ensures !Verifies(SealedTree(p, completedAt, e, t), p, t)
  {
    hide SealedTree, SealOk, Verifies, PathOf, Print, NAMES;
    SealVerifies(p, completedAt, e, t);
    SealedAt(p, completedAt, e, t, Report);
    UnsummedAt(p, completedAt, e, t, Report);
    LongReportLength();
    assert ArtifactText(Report, p, e, t) == Print(LONG_REPORT, "") + "\n";
    assert |Value(SealedTree(p, completedAt, e, t), Report)| > SEALED_LIMIT;
  }

  lemma LongReportLength()
    ensures |Print(LONG_REPORT, "")| >= SEALED_LIMIT
  {
    var summary := seq(SEALED_LIMIT, i => 'a');
    EscapeLength(summary);
    assert |Print(Str(summary), "")| >= |Escape(summary)|;
    hide Print;
    MemberLength(LONG_REPORT, "summary", "");
  }

  lemma EnvelopeIsObject(p: Provenance, completedAt: string, items: seq<Json>)
    ensures EnvelopeJson(p, completedAt, items).Obj?
  {
  }

  /** A finalize that was killed anywhere while sealing leaves nothing, or a tree that is later adopted with the digest
      it would have saved. */
  method SealThenAdopt(d: OutputDirectory, p: Provenance, e: Evidence, order: seq<string>)
    returns (outcome: SealOutcome, adopted: Option<string>)
    requires Faithful(d.t) && d.output.None? && e.resultCount > 0
    requires multiset(order) == multiset(WrittenPaths())
    modifies d
    ensures d.output.None? ==> adopted.None? && !outcome.Published?
    ensures d.output.Some? ==> d.output == Some(SealedTree(p, p.referenceTime, e, d.t))
    ensures d.output.Some? && (forall x | x in d.output.value :: |d.output.value[x]| <= 2_000_000) ==>
      adopted == Some(d.t.sha256(EnvelopeText(p, p.referenceTime, e, d.t)))
    ensures outcome.Published? && adopted.Some? ==> adopted == Some(outcome.digest)
  {
    hide SealedTree, EnvelopeText, SealOk, Verifies, PathOf, NAMES, Value, Faithful;
    outcome := d.Seal(p, p.referenceTime, Some(e));
    if d.output.Some? {
      SealVerifies(p, p.referenceTime, e, d.t);
    }
    adopted := VerifySealed(d.output, p, order, d.t);
  }

  // ---- The digest binds the tree ----------------------------------------------------------------

  /** Two accepted trees with the same digest are the same eight files, or one of the files differs and its two contents
      collide, whatever provenance each tree was accepted under. */
  lemma DigestBindsTree(a: Output, p: Provenance, b: Output, q: Provenance, t: Tools) returns (n: Name)
    requires Verifies(a, p, t) && Verifies(b, q, t) && t.sha256(Value(a, Envelope)) == t.sha256(Value(b, Envelope))
    ensures a == b || (Value(a, n) != Value(b, n) && t.sha256(Value(a, n)) == t.sha256(Value(b, n)))
  {
    hide SumsText, SummedPaths, PathOf, MetadataOk, NAMES, ARTIFACTS, FilesReadable, Observed, Paths;
    n := Envelope;
    if Value(a, Envelope) == Value(b, Envelope) {
      if d :| d in ARTIFACTS && Value(a, d) != Value(b, d) {
        n := d;
        SameDigest(a, p, b, q, t, n);
      } else {
        forall m: Name
          ensures Value(a, m) == Value(b, m)
        {
          NamesAll(m);
          if m == Sums {
            SumsFollow(a, p, b, q, t);
          }
        }
        SameFiles(a, b);
      }
    }
  }

  lemma SameDigest(a: Output, p: Provenance, b: Output, q: Provenance, t: Tools, n: Name)
    requires Verifies(a, p, t) && Verifies(b, q, t) && Value(a, Envelope) == Value(b, Envelope) && n in ARTIFACTS
    ensures t.sha256(Value(a, n)) == t.sha256(Value(b, n))
  {
    hide SumsText, SummedPaths, PathOf, MetadataOk, NAMES, ARTIFACTS, FilesReadable, Observed, Paths, KindOf;
    var items := Get(t.parse(Value(a, Envelope)).value, "artifacts").items;
    var record := Observed(items)[PathOf(n)];
    assert SameRecord(record, n, Value(a, n), t) && SameRecord(record, n, Value(b, n), t);
  }

  lemma SumsFollow(a: Output, p: Provenance, b: Output, q: Provenance, t: Tools)
    requires Verifies(a, p, t) && Verifies(b, q, t) && Value(a, Envelope) == Value(b, Envelope)
    requires forall n | n in ARTIFACTS :: Value(a, n) == Value(b, n)
    ensures Value(a, Sums) == Value(b, Sums)
  {
    hide SumsText, SummedPaths, PathOf, MetadataOk, EnvelopeOk, NAMES, ARTIFACTS, FilesReadable;
    SummedWithin(a);
    SummedWithin(b);
    forall x | x in SummedPaths()
      ensures a[x] == b[x]
    {
      SummedMembers(x);
      var n: Name :| n != Sums && x == PathOf(n);
      NamesAll(n);
      assert Value(a, n) == Value(b, n);
    }
    SameSums(SummedPaths(), a, b, t);
  }

  lemma SameFiles(a: Output, b: Output)
    requires a.Keys == Paths() == b.Keys && forall n: Name :: Value(a, n) == Value(b, n)
    ensures a == b
  {
    hide PathOf, NAMES;
    forall x | x in a
      ensures x in b && a[x] == b[x]
    {
      var n: Name :| n in NAMES && x == PathOf(n);
      assert Value(a, n) == Value(b, n);
    }
  }

  // ---- Normalised search results ----------------------------------------------------------------

  predicate IsPublicField(k: string) {
    k in ["chunk_id", "content_hash", "pointer", "canonical_url", "source_location_id", "source_observation_id",
          "access_snapshot_id", "observed_at", "explanation"]
  }

  /** The nine fields that are public. */
  ghost predicate Public(k: string) {
    || k == "chunk_id" || k == "content_hash" || k == "pointer" || k == "canonical_url" || k == "source_location_id"
    || k == "source_observation_id" || k == "access_snapshot_id" || k == "observed_at" || k == "explanation"
  }

  lemma PublicFields(k: string)
    ensures IsPublicField(k) <==> Public(k)
  {
  }

  /** A normalised record: the public fields of the raw one, and its rank. */
  ghost predicate Normalises(raw: Json, rank: nat, v: Json) {
    && raw.Obj? && v.Obj? && (forall k :: k in v.fields <==> k == "rank" || (Public(k) && k in raw.fields))
    && v.fields["rank"] == Number(rank)
    && forall k | k in v.fields && k != "rank" :: v.fields[k] == raw.fields[k]
  }

  predicate SearchValid(payload: Json) {
    var results := Get(Get(payload, "data"), "results");
    Get(payload, "data").Obj? && results.Arr? && results.items != [] && forall x | x in results.items :: x.Obj?
  }

  /** `_normalized_search_records`: the results in the server's order, ranked from one, and nothing else of them. */
  method NormalizedSearchRecords(payload: Json) returns (records: Option<seq<Json>>)
    ensures records.Some? <==> SearchValid(payload)
    ensures records.Some? ==>
      var items := Get(Get(payload, "data"), "results").items;
      |records.value| == |items| > 0 && forall i | 0 <= i < |items| :: Normalises(items[i], i + 1, records.value[i])
  {
    hide IsPublicField, Normalises, Decimal;
    var results := Get(Get(payload, "data"), "results");
    if !Get(payload, "data").Obj? || !results.Arr? || results.items == [] {
      return None;
    }
    var normalized: seq<Json> := [];
    for i := 0 to |results.items|
      invariant |normalized| == i && forall j | 0 <= j < i :: results.items[j].Obj?
      invariant forall j | 0 <= j < i :: Normalises(results.items[j], j + 1, normalized[j])
    {
      var raw := results.items[i];
      if !raw.Obj? {
        assert raw in results.items;
        return None;
      }
      var allowed := map k | k in raw.fields && IsPublicField(k) :: raw.fields[k];
      normalized := normalized + [Obj(allowed["rank" := Number(i + 1)])];
      RecordNormalised(raw, i + 1);
    }
    records := Some(normalized);
  }

  lemma RecordNormalised(raw: Json, rank: nat)
    requires raw.Obj?
    ensures var allowed := map k | k in raw.fields && IsPublicField(k) :: raw.fields[k];
            Normalises(raw, rank, Obj(allowed["rank" := Number(rank)]))
  {
    forall k
      ensures IsPublicField(k) <==> Public(k)
    {
      PublicFields(k);
    }
    RankNotPublic();
    hide IsPublicField, Public, Decimal;
  }

  lemma RankNotPublic()
    ensures !IsPublicField("rank")
  {
  }
}
