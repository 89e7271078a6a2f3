/** The record an acceptance run resumes from: what it may hold, and how it is saved and loaded. */
module ResumeRecord {
  import opened Json
  import opened Options

  datatype Status =
    | BootstrapPrepared
    | Preparing
    | AwaitingExternalReview
    | ReviewClaiming
    | ReviewClaimed
    | ReviewSubmitting
    | ExternalReviewSubmitted
    | Complete

  const STATUSES: seq<Status> := [BootstrapPrepared, Preparing, AwaitingExternalReview, ReviewClaiming, ReviewClaimed,
                                  ReviewSubmitting, ExternalReviewSubmitted, Complete]

  /** The position of a status in the order of a run. */
  function Rank(s: Status): (n: nat)
    ensures n < |STATUSES| && STATUSES[n] == s
  {
    match s
    case BootstrapPrepared => 0
    case Preparing => 1
    case AwaitingExternalReview => 2
    case ReviewClaiming => 3
    case ReviewClaimed => 4
    case ReviewSubmitting => 5
    case ExternalReviewSubmitted => 6
    case Complete => 7
  }

  function StatusText(s: Status): string {
    match s
    case BootstrapPrepared => "BOOTSTRAP_PREPARED"
    case Preparing => "PREPARING"
    case AwaitingExternalReview => "AWAITING_EXTERNAL_REVIEW"
    case ReviewClaiming => "REVIEW_CLAIMING"
    case ReviewClaimed => "REVIEW_CLAIMED"
    case ReviewSubmitting => "REVIEW_SUBMITTING"
    case ExternalReviewSubmitted => "EXTERNAL_REVIEW_SUBMITTED"
    case Complete => "COMPLETE"
  }

  function ReadStatus(text: string): Option<Status> {
    if text == "BOOTSTRAP_PREPARED" then Some(BootstrapPrepared)
    else if text == "PREPARING" then Some(Preparing)
    else if text == "AWAITING_EXTERNAL_REVIEW" then Some(AwaitingExternalReview)
    else if text == "REVIEW_CLAIMING" then Some(ReviewClaiming)
    else if text == "REVIEW_CLAIMED" then Some(ReviewClaimed)
    else if text == "REVIEW_SUBMITTING" then Some(ReviewSubmitting)
    else if text == "EXTERNAL_REVIEW_SUBMITTED" then Some(ExternalReviewSubmitted)
    else if text == "COMPLETE" then Some(Complete)
    else None
  }

  datatype Record = Record(corpusId: string, runId: string, referenceTime: string, productVersion: string,
                           status: Status, identities: map<IdKey, string>, hashes: map<HashKey, string>)

  datatype IdKey =
    | ReviewerServiceIdentityId | ReviewerTokenId | OrganizationId | RepositoryId | AccessScopeId
    | SourceConnectionId | SyncRunId | WorkItemId | WorkItemRevisionId | PolicyId | PolicyVersionId
    | EvidenceBlobId | EvidenceManifestId | PullRequestRevisionId | AssuranceRunId | EvaluatorTaskId | ReportId
    | StaleProbeRunId | CanvasViewId

  datatype HashKey =
    | Manifest | SourceFingerprint | CanonicalManifest | CanonicalInput | Case | ProductCommit | CorpusCommit
    | BaseCommit | HeadCommit | NewHeadCommit | ReferenceTime | BootstrapIdempotency | BootstrapRequest
    | DiffHash | InputHash | ReviewClaimIdempotency | ReviewHandoff | ReviewResult | SealedManifest
    | ProductImage | BuildInput | ProductPackage | LaunchManifest

  function IdName(k: IdKey): string {
    match k
    case ReviewerServiceIdentityId => "reviewer_service_identity_id"
    case ReviewerTokenId => "reviewer_token_id"
    case OrganizationId => "organization_id"
    case RepositoryId => "repository_id"
    case AccessScopeId => "access_scope_id"
    case SourceConnectionId => "source_connection_id"
    case SyncRunId => "sync_run_id"
    case WorkItemId => "work_item_id"
    case WorkItemRevisionId => "work_item_revision_id"
    case PolicyId => "policy_id"
    case PolicyVersionId => "policy_version_id"
    case EvidenceBlobId => "evidence_blob_id"
    case EvidenceManifestId => "evidence_manifest_id"
    case PullRequestRevisionId => "pull_request_revision_id"
    case AssuranceRunId => "assurance_run_id"
    case EvaluatorTaskId => "evaluator_task_id"
    case ReportId => "report_id"
    case StaleProbeRunId => "stale_probe_run_id"
    case CanvasViewId => "canvas_view_id"
  }

  function HashName(k: HashKey): string {
    match k
    case Manifest => "manifest_sha256"
    case SourceFingerprint => "source_fingerprint"
    case CanonicalManifest => "canonical_manifest_sha256"
    case CanonicalInput => "canonical_input_sha256"
    case Case => "case_sha256"
    case ProductCommit => "product_commit"
    case CorpusCommit => "corpus_commit"
    case BaseCommit => "base_commit"
    case HeadCommit => "head_commit"
    case NewHeadCommit => "new_head_commit"
    case ReferenceTime => "reference_time_sha256"
    case BootstrapIdempotency => "bootstrap_idempotency_sha256"
    case BootstrapRequest => "bootstrap_request_sha256"
    case DiffHash => "diff_hash"
    case InputHash => "input_hash"
    case ReviewClaimIdempotency => "review_claim_idempotency_sha256"
    case ReviewHandoff => "review_handoff_sha256"
    case ReviewResult => "review_result_sha256"
    case SealedManifest => "sealed_manifest_sha256"
    case ProductImage => "product_image_sha256"
    case BuildInput => "build_input_sha256"
    case ProductPackage => "product_package_sha256"
    case LaunchManifest => "launch_manifest_sha256"
  }

  predicate HasReviewer(ids: map<IdKey, string>) {
    ReviewerServiceIdentityId in ids && ReviewerTokenId in ids
  }

  /** The closed shape of a record: the two reviewer identities come together, and are there once bootstrapped. */
  predicate RecordShape(r: Record) {
    && (ReviewerServiceIdentityId in r.identities <==> ReviewerTokenId in r.identities)
    && (r.status != BootstrapPrepared ==> HasReviewer(r.identities))
  }

  /** The tests on texts: UUID syntax, digest syntax, and no credential marker in the rendered record. */
  datatype Checks = Checks(uuid: string -> bool, digest: string -> bool, markerFree: string -> bool)

  predicate ValidRecord(r: Record, checks: Checks) {
    Acceptable(r, Print(AsJson(r), " "), checks)
  }

  // ---- The record as JSON ----------------------------------------------------------------------

  lemma IdNamesInjective()
    ensures Injective(IdName)
  {
  }

  lemma HashNamesInjective()
    ensures Injective(HashName)
  {
  }

  lemma NamesInjective()
    ensures Injective(IdName) && Injective(HashName)
  {
    IdNamesInjective();
    HashNamesInjective();
  }

  ghost predicate Injective<K(!new)>(name: K -> string) {
    forall j, k :: name(j) == name(k) ==> j == k
  }

  /** An object whose members are the entries of `m`, under their names. */
  function Texts<K(==, !new)>(m: map<K, string>, name: K -> string): Json
    requires Injective(name)
  {
    Obj(map k | k in m :: name(k) := Str(m[k]))
  }

  ghost predicate IsTexts<K(!new)>(v: Json, name: K -> string) {
    v.Obj? && forall x | x in v.fields :: v.fields[x].Str? && exists k :: name(k) == x
  }

  ghost function Named<K(!new)>(x: string, name: K -> string): K
    requires exists k :: name(k) == x
  {
    var k :| name(k) == x;
    k
  }

  ghost function ReadTexts<K(!new)>(v: Json, name: K -> string): map<K, string>
    requires IsTexts(v, name) && Injective(name)
  {
    map x | x in v.fields :: Named(x, name) := v.fields[x].chars
  }

  lemma TextsRoundTrip<K(!new)>(m: map<K, string>, name: K -> string)
    requires Injective(name)
    ensures IsTexts(Texts(m, name), name) && ReadTexts(Texts(m, name), name) == m
  {
    var v := Texts(m, name);
    forall k | k in m
      ensures name(k) in v.fields && v.fields[name(k)] == Str(m[k]) && Named(name(k), name) == k
    {
    }
    assert ReadTexts(v, name).Keys == m.Keys;
  }

  lemma TextsExact<K(!new)>(v: Json, name: K -> string)
    requires IsTexts(v, name) && Injective(name)
    ensures Texts(ReadTexts(v, name), name) == v
  {
    var m := ReadTexts(v, name);
    forall x | x in v.fields
      ensures Named(x, name) in m && m[Named(x, name)] == v.fields[x].chars && name(Named(x, name)) == x
    {
    }
    var w := Texts(m, name);
    assert w.fields.Keys == v.fields.Keys;
    assert w.fields == v.fields;
  }

  /** `as_dict`. */
  function AsJson(r: Record): Json {
    NamesInjective();
    Obj(map["schema_version" := Num("1"), "status" := Str(StatusText(r.status)), "corpus_id" := Str(r.corpusId),
            "run_id" := Str(r.runId), "reference_time" := Str(r.referenceTime), "product_version" := Str(r.productVersion),
            "identities" := Texts(r.identities, IdName), "hashes" := Texts(r.hashes, HashName)])
  }

  const RECORD_FIELDS: set<string> := {"schema_version", "status", "corpus_id", "run_id", "reference_time",
                                       "product_version", "identities", "hashes"}

  /** Whether Python finds the value equal to 1. */
  predicate EqualsOne(v: Json) {
    v == Num("1") || v == Num("1.0") || v == Bool(true)
  }

  /** The members of a record, each of its type. */
  ghost predicate HasMembers(v: Json) {
    && v.Obj? && v.fields.Keys == RECORD_FIELDS && EqualsOne(v.fields["schema_version"])
    && v.fields["status"].Str? && v.fields["corpus_id"].Str? && v.fields["run_id"].Str?
    && v.fields["reference_time"].Str? && v.fields["product_version"].Str?
    && IsTexts(v.fields["identities"], IdName) && IsTexts(v.fields["hashes"], HashName)
    && ReadStatus(v.fields["status"].chars).Some?
  }

  ghost function FromMembers(v: Json): Record
    requires HasMembers(v)
  {
    NamesInjective();
    Record(v.fields["corpus_id"].chars, v.fields["run_id"].chars, v.fields["reference_time"].chars,
           v.fields["product_version"].chars, ReadStatus(v.fields["status"].chars).value,
           ReadTexts(v.fields["identities"], IdName), ReadTexts(v.fields["hashes"], HashName))
  }

  /** The rest of `_validate_state`: the shape, and the tests on texts. */
  predicate Acceptable(r: Record, rendered: string, checks: Checks) {
    && RecordShape(r)
    && (forall k | k in r.identities :: checks.uuid(r.identities[k]))
    && (forall k | k in r.hashes :: checks.digest(r.hashes[k]))
    && checks.markerFree(rendered)
  }

  /** `_validate_state`: the record a JSON value stands for, none if it raises. */
  ghost function ReadRecord(v: Json, checks: Checks): Option<Record> {
    if HasMembers(v) && Acceptable(FromMembers(v), Print(v, " "), checks) then Some(FromMembers(v)) else None
  }

  lemma StatusRoundTrip(s: Status)
    ensures ReadStatus(StatusText(s)) == Some(s)
  {
  }

  lemma AsJsonMembers(r: Record)
    ensures AsJson(r).fields.Keys == RECORD_FIELDS
    ensures AsJson(r).fields["schema_version"] == Num("1")
    ensures AsJson(r).fields["status"] == Str(StatusText(r.status)) && AsJson(r).fields["corpus_id"] == Str(r.corpusId)
    ensures AsJson(r).fields["run_id"] == Str(r.runId) && AsJson(r).fields["reference_time"] == Str(r.referenceTime)
    ensures AsJson(r).fields["product_version"] == Str(r.productVersion)
    ensures Injective(IdName) && Injective(HashName)
    ensures AsJson(r).fields["identities"] == Texts(r.identities, IdName)
    ensures AsJson(r).fields["hashes"] == Texts(r.hashes, HashName)
  {
    NamesInjective();
  }

  lemma MembersRoundTrip(r: Record)
    ensures HasMembers(AsJson(r)) && FromMembers(AsJson(r)) == r
  {
    AsJsonMembers(r);
    StatusRoundTrip(r.status);
    TextsRoundTrip(r.identities, IdName);
    TextsRoundTrip(r.hashes, HashName);
  }

  /** A record is read back as itself exactly when it is valid, and otherwise not at all. */
  lemma RecordRoundTrip(r: Record, checks: Checks)
    ensures ReadRecord(AsJson(r), checks) == if ValidRecord(r, checks) then Some(r) else None
  {
    MembersRoundTrip(r);
  }

  lemma ReadStatusExact(text: string)
    requires ReadStatus(text).Some?
    ensures StatusText(ReadStatus(text).value) == text
  {
  }

  /** The value with its version written as the tool writes it. */
  function Plainly(v: Json): Json
    requires v.Obj?
  {
    Obj(v.fields["schema_version" := Num("1")])
  }

  /** A value is read as a record exactly when it is, member by member, the JSON of that record, but for another writing
      of its version, and passes the tests. */
  lemma OnlyRecordsRead(v: Json, r: Record, checks: Checks)
    ensures ReadRecord(v, checks) == Some(r) <==>
            v.Obj? && "schema_version" in v.fields && EqualsOne(v.fields["schema_version"]) && Plainly(v) == AsJson(r)
            && Acceptable(r, Print(v, " "), checks)
  {
    hide AsJson, Acceptable;
    if v.Obj? && "schema_version" in v.fields && EqualsOne(v.fields["schema_version"]) {
      SameRecord(v);
      if HasMembers(v) {
        MembersExact(Plainly(v));
      }
      if Plainly(v) == AsJson(r) {
        MembersRoundTrip(r);
      }
    }
  }

  /** The writing of the version makes no difference to the members that are read. */
  lemma SameRecord(v: Json)
    requires v.Obj? && "schema_version" in v.fields && EqualsOne(v.fields["schema_version"])
    ensures HasMembers(Plainly(v)) <==> HasMembers(v)
    ensures HasMembers(v) ==> FromMembers(Plainly(v)) == FromMembers(v)
  {
    assert Plainly(v).fields.Keys == v.fields.Keys;
    assert forall k | k in v.fields && k != "schema_version" :: Plainly(v).fields[k] == v.fields[k];
  }

  lemma MembersExact(v: Json)
    requires HasMembers(v) && v.fields["schema_version"] == Num("1")
    ensures AsJson(FromMembers(v)) == v
  {
    hide IsNumeral;
    var r := FromMembers(v);
    AsJsonMembers(r);
    ReadStatusExact(v.fields["status"].chars);
    TextsExact(v.fields["identities"], IdName);
    TextsExact(v.fields["hashes"], HashName);
    assert v.fields["status"] == Str(StatusText(r.status));
    assert v.fields["identities"] == Texts(r.identities, IdName) && v.fields["hashes"] == Texts(r.hashes, HashName);
    SameMembers(AsJson(r), v);
  }

  lemma SameMembers(v: Json, w: Json)
    requires v.Obj? && w.Obj? && v.fields.Keys == RECORD_FIELDS == w.fields.Keys
    requires v.fields["schema_version"] == w.fields["schema_version"] && v.fields["status"] == w.fields["status"]
    requires v.fields["corpus_id"] == w.fields["corpus_id"] && v.fields["run_id"] == w.fields["run_id"]
    requires v.fields["reference_time"] == w.fields["reference_time"]
    requires v.fields["product_version"] == w.fields["product_version"]
    requires v.fields["identities"] == w.fields["identities"] && v.fields["hashes"] == w.fields["hashes"]
    ensures v == w
  {
    hide IsNumeral;
    assert v.fields == w.fields;
  }

  // ---- What is read ----------------------------------------------------------------------------

  const IDENTITIES: set<string> := {
    "organization_id", "repository_id", "access_scope_id", "source_connection_id", "sync_run_id", "work_item_id",
    "work_item_revision_id", "policy_id", "policy_version_id", "evidence_blob_id", "evidence_manifest_id",
    "pull_request_revision_id", "assurance_run_id", "evaluator_task_id", "report_id", "stale_probe_run_id",
    "canvas_view_id", "reviewer_service_identity_id", "reviewer_token_id"}

  const DIGESTS: set<string> := {
    "manifest_sha256", "source_fingerprint", "canonical_manifest_sha256", "canonical_input_sha256", "case_sha256",
    "product_commit", "corpus_commit", "base_commit", "head_commit", "new_head_commit", "reference_time_sha256",
    "bootstrap_idempotency_sha256", "bootstrap_request_sha256", "diff_hash", "input_hash",
    "review_claim_idempotency_sha256", "review_handoff_sha256", "review_result_sha256", "sealed_manifest_sha256",
    "product_image_sha256", "build_input_sha256", "product_package_sha256", "launch_manifest_sha256"}

  const STATUS_TEXTS: set<string> := {
    "BOOTSTRAP_PREPARED", "PREPARING", "AWAITING_EXTERNAL_REVIEW", "REVIEW_CLAIMING", "REVIEW_CLAIMED",
    "REVIEW_SUBMITTING", "EXTERNAL_REVIEW_SUBMITTED", "COMPLETE"}

  lemma IdentityNamed(k: IdKey)
    ensures IdName(k) in IDENTITIES
    ensures IdName(k) == "reviewer_service_identity_id" <==> k == ReviewerServiceIdentityId
    ensures IdName(k) == "reviewer_token_id" <==> k == ReviewerTokenId
  {
  }

  lemma DigestNamed(k: HashKey)
    ensures HashName(k) in DIGESTS
  {
  }

  lemma StatusNamed(s: Status)
    ensures StatusText(s) in STATUS_TEXTS && (StatusText(s) == "BOOTSTRAP_PREPARED" <==> s == BootstrapPrepared)
  {
  }

  lemma TextsMembers<K(!new)>(v: Json, name: K -> string, k: K)
    requires IsTexts(v, name) && Injective(name)
    ensures name(k) in v.fields <==> k in ReadTexts(v, name)
    ensures name(k) in v.fields ==> v.fields[name(k)] == Str(ReadTexts(v, name)[k])
  {
    if name(k) in v.fields {
      assert Named(name(k), name) == k;
    }
    if k in ReadTexts(v, name) {
      var x :| x in v.fields && Named(x, name) == k;
    }
  }

  /** What is read as a record is closed: no member, identity or digest of another name, the reviewer named by both of
      its identities or by none, and by both once the run is bootstrapped. */
  lemma OnlyClosedRecordsRead(v: Json, checks: Checks)
    requires ReadRecord(v, checks).Some?
    ensures v.Obj? && v.fields.Keys == {"schema_version", "status", "corpus_id", "run_id", "reference_time",
                                        "product_version", "identities", "hashes"}
    ensures v.fields["status"].Str? && v.fields["status"].chars in STATUS_TEXTS
    ensures v.fields["identities"].Obj? && v.fields["hashes"].Obj?
    ensures var ids := v.fields["identities"].fields;
            && ids.Keys <= IDENTITIES && (forall x | x in ids :: ids[x].Str? && checks.uuid(ids[x].chars))
            && ("reviewer_token_id" in ids <==> "reviewer_service_identity_id" in ids)
            && (v.fields["status"] != Str("BOOTSTRAP_PREPARED") ==> "reviewer_token_id" in ids)
    ensures var digests := v.fields["hashes"].fields;
            digests.Keys <= DIGESTS && forall x | x in digests :: digests[x].Str? && checks.digest(digests[x].chars)
  {
    hide IdName, HashName, StatusText, ReadTexts, IDENTITIES, DIGESTS, STATUS_TEXTS, IsNumeral;
    var r := FromMembers(v);
    NamesInjective();
    var ids, digests := v.fields["identities"], v.fields["hashes"];
    ReadStatusExact(v.fields["status"].chars);
    StatusNamed(r.status);
    forall x | x in ids.fields
      ensures x in IDENTITIES && ids.fields[x].Str? && checks.uuid(ids.fields[x].chars)
    {
      var k :| IdName(k) == x;
      IdentityNamed(k);
      TextsMembers(ids, IdName, k);
    }
    forall x | x in digests.fields
      ensures x in DIGESTS && digests.fields[x].Str? && checks.digest(digests.fields[x].chars)
    {
      var k :| HashName(k) == x;
      DigestNamed(k);
      TextsMembers(digests, HashName, k);
    }
    IdentityNamed(ReviewerTokenId);
    IdentityNamed(ReviewerServiceIdentityId);
    TextsMembers(ids, IdName, ReviewerTokenId);
    TextsMembers(ids, IdName, ReviewerServiceIdentityId);
  }

  /** The name under which an identity is saved. */
  predicate IdentityName(k: IdKey, x: string) {
    match k
    case ReviewerServiceIdentityId => x == "reviewer_service_identity_id"
    case ReviewerTokenId => x == "reviewer_token_id"
    case OrganizationId => x == "organization_id"
    case RepositoryId => x == "repository_id"
    case AccessScopeId => x == "access_scope_id"
    case SourceConnectionId => x == "source_connection_id"
    case SyncRunId => x == "sync_run_id"
    case WorkItemId => x == "work_item_id"
    case WorkItemRevisionId => x == "work_item_revision_id"
    case PolicyId => x == "policy_id"
    case PolicyVersionId => x == "policy_version_id"
    case EvidenceBlobId => x == "evidence_blob_id"
    case EvidenceManifestId => x == "evidence_manifest_id"
    case PullRequestRevisionId => x == "pull_request_revision_id"
    case AssuranceRunId => x == "assurance_run_id"
    case EvaluatorTaskId => x == "evaluator_task_id"
    case ReportId => x == "report_id"
    case StaleProbeRunId => x == "stale_probe_run_id"
    case CanvasViewId => x == "canvas_view_id"
  }

  /** The name under which a digest is saved. */
  predicate DigestName(k: HashKey, x: string) {
    match k
    case Manifest => x == "manifest_sha256"
    case SourceFingerprint => x == "source_fingerprint"
    case CanonicalManifest => x == "canonical_manifest_sha256"
    case CanonicalInput => x == "canonical_input_sha256"
    case Case => x == "case_sha256"
    case ProductCommit => x == "product_commit"
    case CorpusCommit => x == "corpus_commit"
    case BaseCommit => x == "base_commit"
    case HeadCommit => x == "head_commit"
    case NewHeadCommit => x == "new_head_commit"
    case ReferenceTime => x == "reference_time_sha256"
    case BootstrapIdempotency => x == "bootstrap_idempotency_sha256"
    case BootstrapRequest => x == "bootstrap_request_sha256"
    case DiffHash => x == "diff_hash"
    case InputHash => x == "input_hash"
    case ReviewClaimIdempotency => x == "review_claim_idempotency_sha256"
    case ReviewHandoff => x == "review_handoff_sha256"
    case ReviewResult => x == "review_result_sha256"
    case SealedManifest => x == "sealed_manifest_sha256"
    case ProductImage => x == "product_image_sha256"
    case BuildInput => x == "build_input_sha256"
    case ProductPackage => x == "product_package_sha256"
    case LaunchManifest => x == "launch_manifest_sha256"
  }

  /** The name of a status. */
  predicate StatusName(k: Status, x: string) {
    match k
    case BootstrapPrepared => x == "BOOTSTRAP_PREPARED"
    case Preparing => x == "PREPARING"
    case AwaitingExternalReview => x == "AWAITING_EXTERNAL_REVIEW"
    case ReviewClaiming => x == "REVIEW_CLAIMING"
    case ReviewClaimed => x == "REVIEW_CLAIMED"
    case ReviewSubmitting => x == "REVIEW_SUBMITTING"
    case ExternalReviewSubmitted => x == "EXTERNAL_REVIEW_SUBMITTED"
    case Complete => x == "COMPLETE"
  }

  lemma IdentitySpelt(k: IdKey, x: string)
    requires IdentityName(k, x)
    ensures IdName(k) == x
  {
  }

  lemma DigestSpelt(k: HashKey, x: string)
    requires DigestName(k, x)
    ensures HashName(k) == x
  {
  }

  /** A saved record holds its status, every identity and every digest under the name of that status, identity or
      digest. */
  lemma RecordFiled(r: Record, i: IdKey, id: string, d: HashKey, digest: string, status: string)
    requires IdentityName(i, id) && DigestName(d, digest) && StatusName(r.status, status)
    ensures AsJson(r).fields.Keys == RECORD_FIELDS && AsJson(r).fields["status"] == Str(status)
    ensures AsJson(r).fields["identities"].Obj? && AsJson(r).fields["hashes"].Obj?
    ensures var ids := AsJson(r).fields["identities"].fields;
            (id in ids <==> i in r.identities) && (id in ids ==> ids[id] == Str(r.identities[i]))
    ensures var digests := AsJson(r).fields["hashes"].fields;
            (digest in digests <==> d in r.hashes) && (digest in digests ==> digests[digest] == Str(r.hashes[d]))
  {
    IdentitySpelt(i, id);
    DigestSpelt(d, digest);
    assert StatusText(r.status) == status;
    hide IdName, HashName, StatusText, IdentityName, DigestName, StatusName, AsJson;
    AsJsonMembers(r);
    TextsRoundTrip(r.identities, IdName);
    TextsRoundTrip(r.hashes, HashName);
    TextsMembers(AsJson(r).fields["identities"], IdName, i);
    TextsMembers(AsJson(r).fields["hashes"], HashName, d);
  }

  // ---- Saving and loading ----------------------------------------------------------------------

  const RECORD_LIMIT := 65536

  datatype SaveOutcome = Saved | Rejected | Interrupted

  /** Writing and reading JSON text: reading what was written gives the value back. */
  datatype Codec = Codec(render: Json -> string, parse: string -> Option<Json>)

  ghost predicate RoundTrips(codec: Codec) {
    forall v :: codec.parse(codec.render(v)) == Some(v)
  }

  ghost function LoadText(text: Option<string>, codec: Codec, checks: Checks): Option<Record> {
    if text.None? || |text.value| > RECORD_LIMIT || codec.parse(text.value).None? then None
    else ReadRecord(codec.parse(text.value).value, checks)
  }

  /** Something that happens to the state file: a save that is killed after a number of file operations, or a loss of
      power, after which the last directory change was kept or not. */
  datatype Event = SaveRun(record: Record, budget: nat) | PowerLost(kept: bool)

  class StateFile {
    /** What the state path names, now and on stable storage, and the temporary beside it. */
    var current: Option<string>
    var durable: Option<string>
    var temporary: Option<string>
    const codec: Codec
    const checks: Checks

    constructor (codec: Codec, checks: Checks)
      ensures current == None && durable == None && this.codec == codec && this.checks == checks
    {
      current, durable, temporary, this.codec, this.checks := None, None, None, codec, checks;
    }

    /** `save_state`, killed after at most `budget` file operations: the temporary is created, written, synchronised and
        renamed, and the directory synchronised.  The record is replaced whole or not at all, on stable storage too. */
    method Save(r: Record, budget: nat) returns (outcome: SaveOutcome)
      modifies this
      ensures current == if ValidRecord(r, checks) && budget >= 4 then Some(codec.render(AsJson(r))) else old(current)
      ensures durable == if ValidRecord(r, checks) && budget >= 5 then Some(codec.render(AsJson(r))) else old(durable)
      ensures outcome == if !ValidRecord(r, checks) then Rejected else if budget >= 5 then Saved else Interrupted
      ensures outcome == Saved ==> current == durable && temporary == None
    {
      hide ValidRecord, AsJson;
      if !ValidRecord(r, checks) {
        return Rejected;
      }
      var text := codec.render(AsJson(r));
      if budget < 1 {
        return Interrupted;
      }
      temporary := Some("");
      if budget < 3 {
        var written: nat :| written <= |text|;
        temporary := Some(text[..written]);
        return Interrupted;
      }
      temporary := Some(text);
      if budget < 4 {
        return Interrupted;
      }
      current, temporary := temporary, None;
      if budget < 5 {
        return Interrupted;
      }
      durable := current;
      outcome := Saved;
    }

    /** The directory is found as it was last synchronised, or as it was last seen: what it then names was synchronised
        before it was renamed. */
    method LosePower(kept: bool)
      modifies this
      ensures current == durable == if kept then old(current) else old(durable)
    {
      current := if kept then current else durable;
      durable, temporary := current, None;
    }

    /** What the path names after a history, now and on stable storage: the last valid record whose save got as far as the
        rename, unless power was lost before the directory was synchronised. */
    ghost function Replayed(history: seq<Event>): (Option<string>, Option<string>) {
      if history == [] then (None, None)
      else
        var (seen, stored) := Replayed(history[..|history| - 1]);
        match history[|history| - 1]
        case SaveRun(r, budget) =>
          var text := Some(codec.render(AsJson(r)));
          if !ValidRecord(r, checks) || budget < 4 then (seen, stored) else (text, if budget < 5 then stored else text)
        case PowerLost(kept) => if kept then (seen, seen) else (stored, stored)
    }

    /** Any number of saves, killed anywhere, and losses of power: the path names nothing or a valid record that a save
        was asked for, whole. */
    method RunHistory(history: seq<Event>)
      requires current == None && durable == None
      modifies this
      ensures current.None? || exists r :: WasSaved(r, history) && current == Some(codec.render(AsJson(r)))
      ensures (current, durable) == Replayed(history)
    {
      hide ValidRecord, AsJson;
      for i := 0 to |history|
        invariant (current, durable) == Replayed(history[..i])
        invariant current.None? || exists r :: WasSaved(r, history) && current == Some(codec.render(AsJson(r)))
        invariant durable.None? || exists r :: WasSaved(r, history) && durable == Some(codec.render(AsJson(r)))
      {
        assert history[..i + 1][..i] == history[..i];
        match history[i] {
          case SaveRun(r, budget) =>
            var outcome := Save(r, budget);
            assert history[i] in history;
            assert ValidRecord(r, checks) ==> WasSaved(r, history);
          case PowerLost(kept) => LosePower(kept);
        }
      }
      assert history[..|history|] == history;
    }

    ghost predicate WasSaved(r: Record, history: seq<Event>) {
      ValidRecord(r, checks) && exists budget :: SaveRun(r, budget) in history
    }

    /** After a save, loading gives the same record exactly when its text fits the limit of the loader. */
    lemma LoadsWhatWasSaved(r: Record)
      requires RoundTrips(codec) && ValidRecord(r, checks) && current == Some(codec.render(AsJson(r)))
      ensures LoadText(current, codec, checks) ==
        if |codec.render(AsJson(r))| <= 64 * 1024 then Some(r) else None
    {
      RecordRoundTrip(r, checks);
    }
  }

  // ---- A record that saves and does not load -----------------------------------------------------

  const DIGITS := "00000000000000000000000000000000"

  /** Thirty-two digits behind any number of hyphens: Python's `uuid.UUID` drops hyphens wherever they stand. */
  function PaddedId(hyphens: nat): string {
    seq(hyphens, i => '-') + DIGITS
  }

  function LargeRecord(hyphens: nat): Record {
    Record("corpus", "run", "time", "0.1.7", Preparing,
           map[ReviewerServiceIdentityId := PaddedId(hyphens), ReviewerTokenId := PaddedId(hyphens)], map[])
  }

  /** The tests as Python makes them, on the texts of the large record: its identities parse, and its rendering, which is
      field names, hyphens and digits, holds none of the four markers. */
  ghost predicate PassesLarge(checks: Checks, hyphens: nat) {
    checks.uuid(PaddedId(hyphens)) && checks.markerFree(Print(AsJson(LargeRecord(hyphens)), " "))
  }

  lemma IdentitiesMember(r: Record, k: IdKey)
    requires k in r.identities
    ensures var v := AsJson(r);
            v.Obj? && "identities" in v.fields && v.fields["identities"].Obj?
            && IdName(k) in v.fields["identities"].fields
            && v.fields["identities"].fields[IdName(k)] == Str(r.identities[k])
  {
    AsJsonMembers(r);
    TextsRoundTrip(r.identities, IdName);
    NamesInjective();
  }

  /** With an identity padded beyond the limit a record is valid, is saved, and is not loaded again; the saved text is
      the compact one with white space added. */
  lemma LargeRecordIsLost(checks: Checks, codec: Codec, hyphens: nat)
    requires PassesLarge(checks, hyphens) && hyphens >= RECORD_LIMIT
    requires RoundTrips(codec) && forall v :: |codec.render(v)| >= |Print(v, "")|
    ensures ValidRecord(LargeRecord(hyphens), checks)
    ensures |codec.render(AsJson(LargeRecord(hyphens)))| > RECORD_LIMIT
    ensures LoadText(Some(codec.render(AsJson(LargeRecord(hyphens)))), codec, checks) == None
  {
    hide AsJson, Print;
    var r := LargeRecord(hyphens);
    var v := AsJson(r);
    IdentitiesMember(r, ReviewerTokenId);
    var ids := v.fields["identities"];
    MemberLength(v, "identities", "");
    MemberLength(ids, IdName(ReviewerTokenId), "");
    PaddedLength(hyphens);
    assert |codec.render(v)| >= |Print(v, "")|;
  }

  lemma PaddedLength(hyphens: nat)
    ensures |Print(Str(PaddedId(hyphens)), "")| > hyphens
  {
    EscapeLength(PaddedId(hyphens));
  }
}
