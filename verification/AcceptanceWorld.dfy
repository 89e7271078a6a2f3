/** What an acceptance run leaves between its processes, what every step of it keeps, and why. */
module AcceptanceWorld {
  import opened Options
  import opened ResumeRecord

  // ---- What the commands are given -------------------------------------------------------------

  /** The verified canonical corpus: its identity, the text of its manifest, and the commit that text names. */
  datatype Corpus = Corpus(id: string, manifest: string, fingerprint: string, canonicalText: string, commit: string)

  /** What the operator pins. */
  datatype Config = Config(productVersion: string, productCommit: string, image: string, buildInput: string,
                           package: string, launch: string)

  /** The inputs of a run.  Without a case file the case is derived from the corpus. */
  datatype Inputs = Inputs(corpus: Corpus, config: Config, caseText: Option<string>)

  /** The digests `_new_state` computes; every other one is added by a later step. */
  predicate IsPinned(k: HashKey) {
    match k
    case DiffHash | InputHash | ReviewClaimIdempotency | ReviewHandoff | ReviewResult | SealedManifest => false
    case _ => true
  }

  datatype ReviewFile = ReviewFile(runId: string, task: string, reviewer: string, reviewerToken: string,
                                   claim: Claim)

  /** A claim on the evaluator task; `fits` says whether the handoff rendered from it is within the size limit. */
  datatype Claim = Claim(token: string, fits: bool)

  /** Digests, derived identifiers and texts, and what a case file says of its commits and its stale probe. */
  datatype Hashing = Hashing(sha256: string -> string, runId: (string, string) -> string,
                             requestText: (Inputs, string) -> string, combined: (string, string) -> string,
                             caseCommit: (string, HashKey) -> string, caseNewHead: string -> Option<string>,
                             handoff: ReviewFile -> string, evidence: map<HashKey, string> -> string)

  /** `_hash40`. */
  function Hash40(text: string, h: Hashing): string {
    var digest := h.sha256(text);
    if |digest| > 40 then digest[..40] else digest
  }

  function CanonicalDigest(i: Inputs, h: Hashing): string {
    h.sha256(i.corpus.canonicalText)
  }

  /** The name of the namespace of a run. */
  function NamespaceName(i: Inputs, h: Hashing): string {
    if i.caseText.None? then i.corpus.fingerprint else i.corpus.fingerprint + ":" + h.sha256(i.caseText.value)
  }

  function RunId(i: Inputs, time: string, h: Hashing): string {
    h.runId(NamespaceName(i, h), time)
  }

  /** The newer head of the stale probe, if the case has one; the derived case has. */
  function NewHead(i: Inputs, h: Hashing): Option<string> {
    if i.caseText.None? then Some(Hash40(i.corpus.fingerprint + ":new-head", h)) else h.caseNewHead(i.caseText.value)
  }

  predicate Pinned(k: HashKey, i: Inputs, h: Hashing) {
    IsPinned(k) && (k == Case ==> i.caseText.Some?) && (k == NewHeadCommit ==> NewHead(i, h).Some?)
  }

  function PinnedValue(k: HashKey, i: Inputs, time: string, h: Hashing): string
    requires Pinned(k, i, h)
  {
    match k
    case Manifest => i.corpus.manifest
    case SourceFingerprint => i.corpus.fingerprint
    case CanonicalManifest => CanonicalDigest(i, h)
    case CanonicalInput =>
      if i.caseText.None? then CanonicalDigest(i, h)
      else h.sha256(h.combined(CanonicalDigest(i, h), h.sha256(i.caseText.value)))
    case Case => h.sha256(i.caseText.value)
    case ProductCommit => i.config.productCommit
    case CorpusCommit => i.corpus.commit
    case BaseCommit =>
      if i.caseText.None? then Hash40(i.corpus.fingerprint + ":base", h) else h.caseCommit(i.caseText.value, k)
    case HeadCommit =>
      if i.caseText.None? then Hash40(i.corpus.fingerprint + ":head", h) else h.caseCommit(i.caseText.value, k)
    case NewHeadCommit => NewHead(i, h).value
    case ReferenceTime => h.sha256(time)
    case BootstrapIdempotency => h.sha256("bootstrap:" + RunId(i, time, h))
    case BootstrapRequest => h.sha256(h.requestText(i, time))
    case ProductImage => i.config.image
    case BuildInput => i.config.buildInput
    case ProductPackage => i.config.package
    case _ => i.config.launch
  }

  function PinnedHashes(i: Inputs, time: string, h: Hashing): map<HashKey, string> {
    map k: HashKey | Pinned(k, i, h) :: PinnedValue(k, i, time, h)
  }

  /** `_new_state`. */
  function NewRecord(i: Inputs, time: string, h: Hashing): Record {
    Record(i.corpus.id, RunId(i, time, h), time, i.config.productVersion, BootstrapPrepared, map[],
           PinnedHashes(i, time, h))
  }

  /** `_load_matching_state`: the saved record is the one these inputs would have started. */
  predicate Matches(r: Record, i: Inputs, h: Hashing) {
    var expected := NewRecord(i, r.referenceTime, h);
    && (forall k | k in expected.hashes :: k in r.hashes && r.hashes[k] == expected.hashes[k])
    && r.corpusId == expected.corpusId && r.runId == expected.runId && r.productVersion == expected.productVersion
  }

  function Pins(r: Record): map<HashKey, string> {
    map k | k in r.hashes && IsPinned(k) :: r.hashes[k]
  }

  // ---- The world between processes -------------------------------------------------------------

  /** Imports that answer the same identities however often they are sent. */
  datatype Resource = Source | Sync | Work | Policy | Diff | Blob | EvidenceManifest | Assurance | Probe

  predicate GivesId(r: Resource, k: IdKey) {
    match k
    case SourceConnectionId => r == Source
    case SyncRunId => r == Sync
    case WorkItemId | WorkItemRevisionId => r == Work
    case PolicyId | PolicyVersionId => r == Policy
    case PullRequestRevisionId => r == Diff
    case EvidenceBlobId => r == Blob
    case EvidenceManifestId => r == EvidenceManifest
    case AssuranceRunId | EvaluatorTaskId => r == Assurance
    case StaleProbeRunId => r == Probe
    case _ => false
  }

  predicate GivesHash(r: Resource, k: HashKey) {
    match k
    case DiffHash => r == Diff
    case InputHash => r == Assurance
    case _ => false
  }

  /** The record holds the answer to the import. */
  predicate Has(r: Record, resource: Resource) {
    match resource
    case Source => SourceConnectionId in r.identities
    case Sync => SyncRunId in r.identities
    case Work => WorkItemId in r.identities && WorkItemRevisionId in r.identities
    case Policy => PolicyId in r.identities && PolicyVersionId in r.identities
    case Diff => PullRequestRevisionId in r.identities && DiffHash in r.hashes
    case Blob => EvidenceBlobId in r.identities
    case EvidenceManifest => EvidenceManifestId in r.identities
    case Assurance => Started(r)
    case Probe => StaleProbeRunId in r.identities
  }

  /** What has been learnt while preparing, and whether the case has a stale probe. */
  datatype Facts = Facts(known: set<Resource>, probed: bool)

  function FactsOf(r: Record): Facts {
    Facts((set x: Resource | Has(r, x)), NewHeadCommit in r.hashes)
  }

  function FactsAfter(f: Facts, r: Resource): Facts {
    f.(known := f.known + {r})
  }

  /** Everything was imported, and the stale probe was run if there is one. */
  predicate Ready(f: Facts) {
    f.known >= {Source, Sync, Work, Policy, Diff, Blob, EvidenceManifest, Assurance} && (f.probed ==> Probe in f.known)
  }

  datatype Submission = Submission(task: string, token: string, result: string)

  /** What the server has durably done for this run. */
  datatype Server = Server(
    bootstraps: set<string>,           // bootstrap idempotency keys honoured
    bootstrapRequests: nat,            // bootstrap requests received
    uploads: map<string, string>,      // upload idempotency key -> authorization id; its token is disclosed once
    newHead: bool,                     // the newer head of the stale probe was ingested
    claims: map<string, Claim>,        // claim idempotency key -> claim
    submission: Option<Submission>)

  /** The one-time credential handoff; `fits` says whether it is within the size limit. */
  datatype CredentialFile = CredentialFile(runId: string, request: string, ids: map<IdKey, string>, fits: bool)

  predicate IsOrganization(k: IdKey) {
    k == OrganizationId || k == RepositoryId || k == AccessScopeId || k == ReviewerServiceIdentityId || k == ReviewerTokenId
  }

  predicate HasOrganization(ids: map<IdKey, string>) {
    OrganizationId in ids && RepositoryId in ids && AccessScopeId in ids && HasReviewer(ids)
  }

  /** A published output tree: the identity it was sealed under, its digest, and whether every file is within the
      size limit of the verifier. */
  datatype Sealed = Sealed(identity: Record, digest: string, fits: bool)

  datatype World = World(saved: Option<Record>, credential: Option<CredentialFile>, review: Option<ReviewFile>,
                         output: Option<Sealed>, server: Server)

  const FRESH: World := World(None, None, None, None, Server({}, 0, map[], false, map[], None))

  /** What a seal binds: everything in the record except what sealing itself adds. */
  function SealIdentity(r: Record): Record {
    Record(r.corpusId, r.runId, r.referenceTime, r.productVersion, Complete,
           map k | k in r.identities && (k == ReviewerServiceIdentityId || k == ReviewerTokenId) :: r.identities[k],
           map k | k in r.hashes && k != SealedManifest :: r.hashes[k])
  }

  /** The review handoff the record asks for. */
  predicate ReviewFor(f: ReviewFile, r: Record) {
    && EvaluatorTaskId in r.identities && HasReviewer(r.identities)
    && f.runId == r.runId && f.task == r.identities[EvaluatorTaskId]
    && f.reviewer == r.identities[ReviewerServiceIdentityId] && f.reviewerToken == r.identities[ReviewerTokenId]
  }

  function ClaimKeyFor(r: Record, h: Hashing): string
    requires EvaluatorTaskId in r.identities && HasReviewer(r.identities)
  {
    h.sha256("review-claim:" + r.runId + ":" + r.identities[EvaluatorTaskId] + ":"
             + r.identities[ReviewerServiceIdentityId] + ":" + r.identities[ReviewerTokenId])
  }

  // ---- The invariant ---------------------------------------------------------------------------

  /** `keys` are the upload keys used so far, in order: the first `|keys|` of the one chain. */
  ghost predicate UploadChain(uploads: map<string, string>, keys: seq<string>, evidence: string, h: Hashing) {
    && (forall k :: k in uploads <==> k in keys)
    && (forall i, j | 0 <= i < j < |keys| :: keys[i] != keys[j])
    && forall i | 0 <= i < |keys| :: Linked(uploads, keys, i, evidence, h)
  }

  /** The text whose digest names the key tried first, which is the evidence, and the one tried after `n` keys. */
  ghost function UploadText(uploads: map<string, string>, keys: seq<string>, n: nat, evidence: string): string
    requires n <= |keys| && forall k | k in keys :: k in uploads
  {
    if n == 0 then evidence else keys[n - 1] + ":" + uploads[keys[n - 1]]
  }

  function UploadKey(text: string, h: Hashing): string {
    "acceptance-upload-" + h.sha256(text)
  }

  /** The key tried after `n` keys of the chain. */
  ghost function KeyAfter(uploads: map<string, string>, keys: seq<string>, n: nat, evidence: string, h: Hashing): string
    requires n <= |keys| && forall k | k in keys :: k in uploads
  {
    UploadKey(UploadText(uploads, keys, n, evidence), h)
  }

  ghost predicate Linked(uploads: map<string, string>, keys: seq<string>, i: nat, evidence: string, h: Hashing)
    requires i < |keys| && forall k | k in keys :: k in uploads
  {
    keys[i] == KeyAfter(uploads, keys, i, evidence, h)
  }

  /** Fewer than sixteen keys are used, and the next one is not. */
  ghost predicate UploadsLeft(w: World, keys: seq<string>, h: Hashing) {
    && w.saved.Some? && |keys| < 16 && (forall k | k in keys :: k in w.server.uploads)
    && KeyAfter(w.server.uploads, keys, |keys|, h.evidence(Pins(w.saved.value)), h) !in w.server.uploads
  }

  ghost predicate RecordInv(r: Record, h: Hashing) {
    && RecordShape(r)
    && BootstrapIdempotency in r.hashes && BootstrapRequest in r.hashes
    && (Sync in FactsOf(r).known ==> Source in FactsOf(r).known)
    && (Rank(r.status) >= 1 ==> HasOrganization(r.identities))
    && (Rank(r.status) >= 2 ==> Ready(FactsOf(r)))
    && (Rank(r.status) >= 3 ==> ReviewClaimIdempotency in r.hashes && r.hashes[ReviewClaimIdempotency] == ClaimKeyFor(r, h))
    && (Rank(r.status) >= 4 ==> ReviewHandoff in r.hashes)
    && (Rank(r.status) >= 6 ==> ReviewResult in r.hashes && ReportId in r.identities)
    && (Rank(r.status) >= 7 ==> SealedManifest in r.hashes)
  }

  predicate Started(r: Record) {
    EvaluatorTaskId in r.identities && AssuranceRunId in r.identities && InputHash in r.hashes
  }

  /** Write-ahead: nothing exists on the server that the saved record does not announce. */
  ghost predicate ServerInv(s: Server, r: Record, h: Hashing)
    requires RecordInv(r, h)
  {
    && (forall k | k in s.bootstraps :: k == r.hashes[BootstrapIdempotency])
    && (s.uploads != map[] ==> Rank(r.status) >= 1)
    && (s.newHead ==> Rank(r.status) >= 1 && NewHeadCommit in r.hashes)
    && (Rank(r.status) >= 2 && NewHeadCommit in r.hashes ==> s.newHead)
    && (s.claims != map[] ==> Rank(r.status) >= 3 && s.claims.Keys == {r.hashes[ReviewClaimIdempotency]})
    && (s.submission.Some? ==> Rank(r.status) >= 5 && s.submission.value.task == r.identities[EvaluatorTaskId]
                               && r.hashes[ReviewClaimIdempotency] in s.claims
                               && s.submission.value.token == s.claims[r.hashes[ReviewClaimIdempotency]].token)
    && (Rank(r.status) >= 6 ==> s.submission.Some? && s.submission.value.result == r.hashes[ReviewResult])
  }

  ghost predicate CredentialInv(w: World, r: Record, h: Hashing)
    requires RecordInv(r, h)
  {
    w.credential.Some? ==> w.server.bootstraps != {} && CredentialFor(w.credential.value, r)
  }

  /** The credential handoff of the bootstrap that the record asks for. */
  ghost predicate CredentialFor(c: CredentialFile, r: Record)
    requires BootstrapRequest in r.hashes
  {
    && c.runId == r.runId && c.request == r.hashes[BootstrapRequest]
    && forall k :: k in c.ids <==> IsOrganization(k)
  }

  /** A review handoff belongs to the run and carries the claim the server granted; from REVIEW_CLAIMED on its
      digest is the saved one, and until the submission it is there. */
  ghost predicate ReviewInv(w: World, r: Record, h: Hashing)
    requires RecordInv(r, h)
  {
    && (w.review.Some? ==>
          && Rank(r.status) >= 3 && ReviewFor(w.review.value, r)
          && r.hashes[ReviewClaimIdempotency] in w.server.claims
          && w.review.value.claim == w.server.claims[r.hashes[ReviewClaimIdempotency]]
          && (Rank(r.status) >= 4 ==> h.handoff(w.review.value) == r.hashes[ReviewHandoff]))
    && (4 <= Rank(r.status) <= 5 ==> w.review.Some?)
  }

  ghost predicate OutputInv(w: World, r: Record, h: Hashing)
    requires RecordInv(r, h)
  {
    && (w.output.Some? ==> Rank(r.status) >= 6 && w.output.value.identity == SealIdentity(r))
    && (r.status == Complete ==> w.output.Some? && w.output.value.digest == r.hashes[SealedManifest])
  }

  ghost predicate Inv(w: World, keys: seq<string>, h: Hashing) {
    match w.saved
    case None => w == FRESH && keys == []
    case Some(r) =>
      && RecordInv(r, h) && ServerInv(w.server, r, h)
      && CredentialInv(w, r, h) && ReviewInv(w, r, h) && OutputInv(w, r, h)
      && UploadChain(w.server.uploads, keys, h.evidence(Pins(r)), h)
  }

  /** What a run never changes about itself: its identity and its pinned digests. */
  function Origin(r: Record): Record {
    r.(status := BootstrapPrepared, identities := map[], hashes := Pins(r))
  }

  /** The record moved forward: same run, same pinned inputs, no earlier status. */
  ghost predicate Forward(before: Option<Record>, after: Option<Record>) {
    before.Some? ==>
      after.Some? && Origin(after.value) == Origin(before.value) && Rank(before.value.status) <= Rank(after.value.status)
  }

  /** A request that fails ends a command like being killed. */
  datatype Outcome = Done | Refused | Killed

  /** What decides whether a preparation can go on is unchanged. */
  predicate SameGate(r: Record, n: Record) {
    (Blob in FactsOf(r).known <==> Blob in FactsOf(n).known) && FactsOf(r).probed == FactsOf(n).probed
  }

  /** The evidence is uploaded or an authorisation can still be had, and a probed head is not yet there. */
  predicate CanPrepare(f: Facts, s: Server, uploadsLeft: bool) {
    (Blob in f.known || uploadsLeft) && !(f.probed && s.newHead)
  }

  /** A run being prepared that no start gets any further: its upload authorisations were interrupted sixteen times, or
      the newer head of its stale probe was ingested before the record could say so. */
  ghost predicate Blocked(w: World, keys: seq<string>, h: Hashing) {
    w.saved.Some? && w.saved.value.status == Preparing
    && !CanPrepare(FactsOf(w.saved.value), w.server, UploadsLeft(w, keys, h))
  }

  /** A run whose upload was authorised and interrupted as often as keys are used. */
  ghost predicate UploadInterrupted(w: World, keys: seq<string>, times: nat, i: Inputs, h: Hashing) {
    && w.saved.Some? && Matches(w.saved.value, i, h) && w.saved.value.status == Preparing && |keys| == times
    && Blob !in FactsOf(w.saved.value).known && {Source, Sync} <= FactsOf(w.saved.value).known
  }

  /** The saved record, if any, is one these inputs can resume. */
  predicate Resumable(w: World, i: Inputs, h: Hashing) {
    w.saved.None? || Matches(w.saved.value, i, h)
  }

  /** A start left alone gets to the external review, or is already past it. */
  ghost predicate CanStart(w: World, keys: seq<string>, i: Inputs, h: Hashing) {
    && Resumable(w, i, h)
    && (w.saved.Some? && Rank(w.saved.value.status) < 2 ==> CanPrepare(FactsOf(w.saved.value), w.server, UploadsLeft(w, keys, h)))
  }

  /** A complete credential handoff is there. */
  predicate HasCredential(w: World) {
    w.credential.Some? && w.credential.value.fits
  }

  /** The record took up the identities of the credential handoff. */
  ghost predicate TakenFrom(r: Record, credential: Option<CredentialFile>) {
    credential.Some? && forall k | k in credential.value.ids :: k in r.identities && r.identities[k] == credential.value.ids[k]
  }

  ghost predicate PreparationOnly(before: World, after: World) {
    && after.(saved := None, server := before.server) == before.(saved := None)
    && after.server.(uploads := map[], newHead := false) == before.server.(uploads := map[], newHead := false)
  }

  lemma AwaitingKeepsInv(w: World, r: Record, keys: seq<string>, h: Hashing)
    requires Inv(w, keys, h) && w.saved == Some(r) && r.status == Preparing && Ready(FactsOf(r))
    requires FactsOf(r).probed ==> w.server.newHead
    ensures Inv(w.(saved := Some(r.(status := AwaitingExternalReview))), keys, h)
    ensures Origin(r.(status := AwaitingExternalReview)) == Origin(r)
  {
  }

  lemma NewRecordKeepsInv(i: Inputs, time: string, h: Hashing)
    ensures Inv(FRESH.(saved := Some(NewRecord(i, time, h))), [], h)
    ensures Matches(NewRecord(i, time, h), i, h) && NewRecord(i, time, h).status == BootstrapPrepared
  {
  }

  /** At the start nothing is known but whether there is a stale probe. */
  lemma NewRecordFacts(i: Inputs, time: string, h: Hashing)
    ensures FactsOf(NewRecord(i, time, h)) == Facts({}, NewHead(i, h).Some?)
  {
    hide PinnedValue;
    assert forall x: Resource :: !Has(NewRecord(i, time, h), x);
  }

  /** Before the first upload, an authorisation can be had. */
  lemma FirstUploadLeft(w: World, h: Hashing)
    ensures w.saved.Some? && w.server.uploads == map[] ==> UploadsLeft(w, [], h)
  {
  }

  /** Whether an authorisation can be had depends on the pinned digests and the used keys only. */
  lemma SameUploads(before: World, after: World, keys: seq<string>, h: Hashing)
    requires before.saved.Some? && Forward(before.saved, after.saved) && after.server.uploads == before.server.uploads
    ensures UploadsLeft(after, keys, h) <==> UploadsLeft(before, keys, h)
  {
    assert Pins(after.saved.value) == Origin(after.saved.value).hashes == Origin(before.saved.value).hashes;
  }

  /** Only the saved record and the upload authorisations may differ. */
  ghost predicate OnlySavedAndUploads(before: World, after: World) {
    && after.(saved := None, server := before.server) == before.(saved := None)
    && after.server.(uploads := map[]) == before.server.(uploads := map[])
  }

  /** Only the saved record and the newer head of the stale probe may differ. */
  ghost predicate ProbeOnly(before: World, after: World) {
    && after.(saved := None, server := before.server) == before.(saved := None)
    && after.server.(newHead := before.server.newHead) == before.server
  }

  /** Only the saved record may differ. */
  ghost predicate OnlySaved(before: World, after: World) {
    after.(saved := None) == before.(saved := None)
  }

  /** Before the review nothing but the pinned digests of the record matters to the rest of the world. */
  lemma PreparingKeepsInv(w: World, r: Record, n: Record, keys: seq<string>, h: Hashing)
    requires Inv(w, keys, h) && w.saved == Some(r) && Rank(r.status) <= 1
    requires RecordInv(n, h) && n.status == Preparing && Origin(n) == Origin(r)
    ensures Inv(w.(saved := Some(n)), keys, h)
  {
    PinnedAgree(r, n);
    assert n.runId == Origin(n).runId == Origin(r).runId == r.runId;
    assert Pins(n) == Origin(n).hashes == Origin(r).hashes == Pins(r);
    assert ServerInv(w.server, n, h);
    assert CredentialInv(w.(saved := Some(n)), n, h);
  }

  /** The server has honoured one more bootstrap request under the saved key. */
  function BootstrapRequested(w: World, r: Record): World
    requires BootstrapIdempotency in r.hashes
  {
    w.(server := w.server.(bootstraps := w.server.bootstraps + {r.hashes[BootstrapIdempotency]},
                           bootstrapRequests := w.server.bootstrapRequests + 1))
  }

  /** A bootstrap under the saved key, and the credential handoff it yields, are announced by the record. */
  lemma CredentialKeepsInv(w: World, n: World, r: Record, keys: seq<string>, h: Hashing)
    requires Inv(w, keys, h) && w.saved == Some(r) && r.status == BootstrapPrepared
    requires n == w.(server := n.server, credential := n.credential)
    requires n.server == w.server.(bootstraps := n.server.bootstraps, bootstrapRequests := n.server.bootstrapRequests)
    requires n.server.bootstraps == w.server.bootstraps + {r.hashes[BootstrapIdempotency]}
    requires n.credential.None? || CredentialFor(n.credential.value, r)
    ensures Inv(n, keys, h)
  {
  }

  /** A credential handoff is that of the saved bootstrap; discarding it is no harm. */
  lemma CredentialKnown(w: World, r: Record, keys: seq<string>, h: Hashing)
    requires Inv(w, keys, h) && w.saved == Some(r) && w.credential.Some?
    ensures forall k :: k in w.credential.value.ids <==> IsOrganization(k)
    ensures Inv(w.(credential := None), keys, h)
  {
    hide IsOrganization, UploadChain;
  }

  lemma PinnedAgree(r: Record, n: Record)
    requires Origin(n) == Origin(r)
    ensures forall k | IsPinned(k) :: k in n.hashes <==> k in r.hashes
    ensures forall k | IsPinned(k) && k in r.hashes :: n.hashes[k] == r.hashes[k]
  {
    assert Pins(n) == Origin(n).hashes == Origin(r).hashes == Pins(r);
    forall k | IsPinned(k)
      ensures k in n.hashes <==> k in r.hashes
      ensures k in r.hashes ==> n.hashes[k] == r.hashes[k]
    {
      assert k in Pins(n) <==> k in Pins(r);
    }
  }

  /** The record once the organisation is known. */
  function Bootstrapped(r: Record, ids: map<IdKey, string>): Record {
    r.(identities := r.identities + ids, status := Preparing)
  }

  lemma BootstrappedKeepsInv(w: World, r: Record, ids: map<IdKey, string>, keys: seq<string>, h: Hashing)
    requires Inv(w, keys, h) && w.saved == Some(r) && r.status == BootstrapPrepared
    requires forall k :: k in ids <==> IsOrganization(k)
    ensures Inv(w.(saved := Some(Bootstrapped(r, ids))), keys, h)
    ensures Origin(Bootstrapped(r, ids)) == Origin(r) && FactsOf(Bootstrapped(r, ids)) == FactsOf(r)
  {
    hide UploadChain, IsOrganization;
    var n := Bootstrapped(r, ids);
    BootstrappedKeys(r, ids);
    assert Pins(n) == Pins(r);
    BootstrappedRecord(r, n, h);
    PreparingKeepsInv(w, r, n, keys, h);
  }

  lemma BootstrappedRecord(r: Record, n: Record, h: Hashing)
    requires RecordInv(r, h) && r.status == BootstrapPrepared && n.status == Preparing && n.hashes == r.hashes
    requires HasOrganization(n.identities) && FactsOf(n) == FactsOf(r)
    ensures RecordInv(n, h)
  {
  }

  lemma BootstrappedKeys(r: Record, ids: map<IdKey, string>)
    requires forall k :: k in ids <==> IsOrganization(k)
    ensures HasOrganization(Bootstrapped(r, ids).identities)
    ensures FactsOf(Bootstrapped(r, ids)) == FactsOf(r)
  {
    hide IsOrganization;
    LearntKeys(r, ids, map[]);
    OrganizationKeys();
    var n := Bootstrapped(r, ids);
    assert n.identities == Learnt(r, ids, map[]).identities;
    assert forall x: Resource :: Has(n, x) <==> Has(r, x);
  }

  lemma OrganizationKeys()
    ensures IsOrganization(OrganizationId) && IsOrganization(RepositoryId) && IsOrganization(AccessScopeId)
    ensures IsOrganization(ReviewerServiceIdentityId) && IsOrganization(ReviewerTokenId)
    ensures !IsOrganization(SourceConnectionId) && !IsOrganization(SyncRunId) && !IsOrganization(EvidenceBlobId)
    ensures !IsOrganization(EvaluatorTaskId) && !IsOrganization(AssuranceRunId) && !IsOrganization(WorkItemRevisionId)
    ensures !IsOrganization(WorkItemId) && !IsOrganization(PolicyId)
    ensures !IsOrganization(PolicyVersionId) && !IsOrganization(PullRequestRevisionId)
    ensures !IsOrganization(EvidenceManifestId) && !IsOrganization(StaleProbeRunId)
  {
  }

  /** The record after an answer to an import. */
  function Learnt(r: Record, ids: map<IdKey, string>, hashes: map<HashKey, string>): Record {
    r.(identities := r.identities + ids, hashes := r.hashes + hashes)
  }

  /** Identities and digests learnt while preparing do not disturb the invariant. */
  lemma LearntKeepsInv(w: World, r: Record, ids: map<IdKey, string>, hashes: map<HashKey, string>, keys: seq<string>,
                       h: Hashing, resource: Resource)
    requires Inv(w, keys, h) && w.saved == Some(r) && r.status == Preparing
    requires (forall k :: k in ids <==> GivesId(resource, k)) && (forall k :: k in hashes <==> GivesHash(resource, k))
    requires resource == Sync ==> Source in FactsOf(r).known
    ensures Inv(w.(saved := Some(Learnt(r, ids, hashes))), keys, h) && Origin(Learnt(r, ids, hashes)) == Origin(r)
    ensures FactsOf(Learnt(r, ids, hashes)) == FactsAfter(FactsOf(r), resource)
  {
    hide UploadChain, FactsOf, GivesId, GivesHash;
    var n := Learnt(r, ids, hashes);
    LearntPins(r, ids, hashes, resource);
    LearntFacts(r, ids, hashes, resource);
    LearntKeys(r, ids, hashes);
    LearntRecord(r, n, h);
    PreparingKeepsInv(w, r, n, keys, h);
  }

  lemma LearntPins(r: Record, ids: map<IdKey, string>, hashes: map<HashKey, string>, resource: Resource)
    requires forall k :: k in hashes <==> GivesHash(resource, k)
    ensures Origin(Learnt(r, ids, hashes)) == Origin(r)
  {
    assert forall k | k in hashes :: k == DiffHash || k == InputHash;
    assert Pins(Learnt(r, ids, hashes)) == Pins(r);
  }

  lemma LearntFacts(r: Record, ids: map<IdKey, string>, hashes: map<HashKey, string>, resource: Resource)
    requires (forall k :: k in ids <==> GivesId(resource, k)) && (forall k :: k in hashes <==> GivesHash(resource, k))
    ensures FactsOf(Learnt(r, ids, hashes)) == FactsAfter(FactsOf(r), resource)
  {
    hide Has, GivesId;
    forall x: Resource
      ensures Has(Learnt(r, ids, hashes), x) <==> Has(r, x) || x == resource
    {
      LearntFact(r, ids, hashes, resource, x);
    }
    LearntKeys(r, ids, hashes);
    assert !GivesHash(resource, NewHeadCommit);
  }

  lemma LearntFact(r: Record, ids: map<IdKey, string>, hashes: map<HashKey, string>, resource: Resource, x: Resource)
    requires (forall k :: k in ids <==> GivesId(resource, k)) && (forall k :: k in hashes <==> GivesHash(resource, k))
    ensures Has(Learnt(r, ids, hashes), x) <==> Has(r, x) || x == resource
  {
    hide GivesId, GivesHash, Learnt;
    LearntKeys(r, ids, hashes);
    GivenKeys(resource);
    GivenLater(resource);
  }

  lemma GivenKeys(resource: Resource)
    ensures GivesId(resource, SourceConnectionId) <==> resource == Source
    ensures GivesId(resource, SyncRunId) <==> resource == Sync
    ensures GivesId(resource, WorkItemId) <==> resource == Work
    ensures GivesId(resource, WorkItemRevisionId) <==> resource == Work
    ensures GivesId(resource, PolicyId) <==> resource == Policy
    ensures GivesId(resource, PolicyVersionId) <==> resource == Policy
    ensures GivesId(resource, PullRequestRevisionId) <==> resource == Diff
    ensures GivesHash(resource, DiffHash) <==> resource == Diff
  {
  }

  lemma GivenLater(resource: Resource)
    ensures GivesId(resource, EvidenceBlobId) <==> resource == Blob
    ensures GivesId(resource, EvidenceManifestId) <==> resource == EvidenceManifest
    ensures GivesId(resource, EvaluatorTaskId) <==> resource == Assurance
    ensures GivesId(resource, AssuranceRunId) <==> resource == Assurance
    ensures GivesHash(resource, InputHash) <==> resource == Assurance
    ensures GivesId(resource, StaleProbeRunId) <==> resource == Probe
  {
  }

  lemma LearntKeys(r: Record, ids: map<IdKey, string>, hashes: map<HashKey, string>)
    ensures forall k :: k in Learnt(r, ids, hashes).identities <==> k in r.identities || k in ids
    ensures forall k :: k in Learnt(r, ids, hashes).hashes <==> k in r.hashes || k in hashes
  {
  }

  lemma LearntRecord(r: Record, n: Record, h: Hashing)
    requires RecordInv(r, h) && r.status == Preparing == n.status && Origin(n) == Origin(r)
    requires forall k | k in r.identities :: k in n.identities
    requires Sync in FactsOf(n).known ==> Source in FactsOf(n).known
    ensures RecordInv(n, h)
  {
    PinnedAgree(r, n);
  }

  /** The key tried after `n` used keys is the next used key. */
  lemma KeyAfterUsed(uploads: map<string, string>, keys: seq<string>, n: nat, evidence: string, h: Hashing)
    requires UploadChain(uploads, keys, evidence, h) && n < |keys|
    ensures KeyAfter(uploads, keys, n, evidence, h) == keys[n]
  {
    assert Linked(uploads, keys, n, evidence, h);
  }

  /** Asking under a used key answers with its authorisation, and the key derived from it is one of the chain again: the
      following one, or an earlier one when the chain met itself. */
  lemma NextTried(uploads: map<string, string>, keys: seq<string>, n: nat, evidence: string, h: Hashing) returns (m: nat)
    requires UploadChain(uploads, keys, evidence, h) && n <= |keys| && KeyAfter(uploads, keys, n, evidence, h) in uploads
    ensures m <= |keys| && (n < |keys| ==> m == n + 1)
    ensures var key := KeyAfter(uploads, keys, n, evidence, h);
            KeyAfter(uploads, keys, m, evidence, h) == UploadKey(key + ":" + uploads[key], h)
  {
    hide UploadKey, Linked;
    var key := KeyAfter(uploads, keys, n, evidence, h);
    if n < |keys| {
      KeyAfterUsed(uploads, keys, n, evidence, h);
      m := n + 1;
    } else {
      assert key in keys;
      var j :| 0 <= j < |keys| && keys[j] == key;
      m := j + 1;
    }
  }

  /** If the key after all used keys is a used one as well, two different texts have the same digest: the one it is
      derived from and the evidence or the one an earlier key is derived from, unless the evidence itself spells out the
      key that its own digest names. */
  lemma UsedAgainCollides(uploads: map<string, string>, keys: seq<string>, evidence: string, h: Hashing) returns (j: nat)
    requires UploadChain(uploads, keys, evidence, h) && (forall x, y :: |h.sha256(x)| == |h.sha256(y)|)
    requires KeyAfter(uploads, keys, |keys|, evidence, h) in uploads
    ensures j < |keys|
    ensures var x, y := UploadText(uploads, keys, |keys|, evidence), UploadText(uploads, keys, j, evidence);
            h.sha256(x) == h.sha256(y) && (x != y || (j == 0 && x == evidence))
  {
    var k := KeyAfter(uploads, keys, |keys|, evidence, h);
    assert k in keys;
    j :| 0 <= j < |keys| && keys[j] == k;
    assert Linked(uploads, keys, j, evidence, h);
    var x, y := UploadText(uploads, keys, |keys|, evidence), UploadText(uploads, keys, j, evidence);
    SamePrefix("acceptance-upload-", h.sha256(x), h.sha256(y));
    if j > 0 {
      assert Linked(uploads, keys, |keys| - 1, evidence, h) && Linked(uploads, keys, j - 1, evidence, h);
      DifferentStarts(keys[|keys| - 1], uploads[keys[|keys| - 1]], keys[j - 1], uploads[keys[j - 1]]);
    }
  }

  lemma SamePrefix(p: string, x: string, y: string)
    requires p + x == p + y
    ensures x == y
  {
    assert x == (p + x)[|p|..] && y == (p + y)[|p|..];
  }

  lemma DifferentStarts(p: string, x: string, q: string, y: string)
    requires |p| == |q| && p != q
    ensures p + ":" + x != q + ":" + y
  {
    assert p == (p + ":" + x)[..|p|] && q == (q + ":" + y)[..|q|];
  }

  lemma ExtendChain(uploads: map<string, string>, keys: seq<string>, evidence: string, h: Hashing, id: string)
    requires UploadChain(uploads, keys, evidence, h) && KeyAfter(uploads, keys, |keys|, evidence, h) !in uploads
    ensures var k := KeyAfter(uploads, keys, |keys|, evidence, h); UploadChain(uploads[k := id], keys + [k], evidence, h)
  {
    var k := KeyAfter(uploads, keys, |keys|, evidence, h);
    var more, longer := uploads[k := id], keys + [k];
    forall x
      ensures x in more <==> x in longer
    {
      assert x in longer <==> x in keys || x == k;
      assert x in uploads <==> x in keys;
    }
    forall i, j | 0 <= i < j < |longer|
      ensures longer[i] != longer[j]
    {
      assert j == |keys| ==> keys[i] in uploads;
    }
    forall i | 0 <= i < |longer|
      ensures Linked(more, longer, i, evidence, h)
    {
      assert i < |keys| ==> Linked(uploads, keys, i, evidence, h);
      assert i > 0 ==> keys[i - 1] in uploads;
    }
    assert UploadChain(more, longer, evidence, h);
  }

  /** The chain of used keys, as the invariant has it, starts with the key named by the evidence. */
  lemma ChainInv(w: World, r: Record, keys: seq<string>, h: Hashing)
    requires Inv(w, keys, h) && w.saved == Some(r)
    ensures UploadChain(w.server.uploads, keys, h.evidence(Pins(r)), h)
    ensures forall k :: k in w.server.uploads <==> k in keys
    ensures KeyAfter(w.server.uploads, keys, 0, h.evidence(Pins(r)), h) == UploadKey(h.evidence(Pins(r)), h)
  {
  }

  lemma UploadKeepsInv(w: World, r: Record, keys: seq<string>, h: Hashing, id: string)
    requires Inv(w, keys, h) && w.saved == Some(r) && Rank(r.status) >= 1
    requires forall k :: k in w.server.uploads <==> k in keys
    requires KeyAfter(w.server.uploads, keys, |keys|, h.evidence(Pins(r)), h) !in w.server.uploads
    ensures var k := KeyAfter(w.server.uploads, keys, |keys|, h.evidence(Pins(r)), h);
            Inv(w.(server := w.server.(uploads := w.server.uploads[k := id])), keys + [k], h)
  {
    hide UploadChain, Pins;
    assert UploadChain(w.server.uploads, keys, h.evidence(Pins(r)), h);
    ExtendChain(w.server.uploads, keys, h.evidence(Pins(r)), h, id);
  }

  /** What `start` leaves alone until the run is prepared. */
  ghost predicate Untouched(before: World, after: World) {
    && after.review == before.review && after.output == before.output
    && after.server.(bootstraps := {}, bootstrapRequests := 0) == before.server.(bootstraps := {}, bootstrapRequests := 0)
  }

  /** The write-ahead invariant, read from the side of the effects: whatever exists was announced by the saved record
      under the same key, and nothing exists twice. */
  lemma WriteAhead(w: World, keys: seq<string>, h: Hashing)
    requires Inv(w, keys, h)
    ensures |w.server.bootstraps| <= 1 && |w.server.claims| <= 1
    ensures forall k | k in w.server.bootstraps :: w.saved.Some? && BootstrapIdempotency in w.saved.value.hashes
                                                   && w.saved.value.hashes[BootstrapIdempotency] == k
    ensures forall k | k in w.server.claims :: w.saved.Some? && Rank(w.saved.value.status) >= Rank(ReviewClaiming)
                                               && ReviewClaimIdempotency in w.saved.value.hashes
                                               && w.saved.value.hashes[ReviewClaimIdempotency] == k
    ensures w.server.submission.Some? ==> w.saved.Some? && Rank(w.saved.value.status) >= Rank(ReviewSubmitting)
    ensures w.server.submission.Some? ==>
      && EvaluatorTaskId in w.saved.value.identities
      && w.server.submission.value.task == w.saved.value.identities[EvaluatorTaskId]
      && exists k | k in w.server.claims :: w.server.submission.value.token == w.server.claims[k].token
    ensures w.saved.Some? && w.saved.value.status in {ReviewClaimed, ReviewSubmitting} ==>
      w.review.Some? && ReviewHandoff in w.saved.value.hashes
      && h.handoff(w.review.value) == w.saved.value.hashes[ReviewHandoff]
    ensures w.saved.Some? && w.saved.value.status == Complete ==>
      w.output.Some? && SealedManifest in w.saved.value.hashes
      && w.output.value.digest == w.saved.value.hashes[SealedManifest]
    ensures w.output.Some? ==> w.saved.Some? && SealedUnder(w.output.value.identity, w.saved.value)
    ensures w.credential.Some? ==> w.saved.Some? && NamesBootstrap(w.credential.value, w.saved.value)
    ensures w.review.Some? ==> w.saved.Some? && NamesReview(w.review.value, w.saved.value, w.server.claims)
    ensures w.saved.None? ==> w.server.bootstrapRequests == 0 && !w.server.newHead && w.server.uploads == map[]
  {
    hide UploadChain, SealIdentity, Pins, SealedUnder, FactsOf, Ready, CredentialFor, HasOrganization, NamesBootstrap,
      NamesReview;
    if w.saved.Some? {
      var r := w.saved.value;
      HandoffsNamed(w, r, h);
      AtMostOne(w.server.bootstraps, r.hashes[BootstrapIdempotency]);
      if w.server.claims != map[] {
        AtMostOne(w.server.claims.Keys, r.hashes[ReviewClaimIdempotency]);
      }
      SealedIdentity(r);
      if Rank(r.status) >= 2 {
        ReviewNeeds(r, h);
      }
    }
  }

  /** The output was sealed under this run: its identity, its time and version, the reviewer, and every digest but that
      of the seal itself. */
  ghost predicate SealedUnder(identity: Record, r: Record) {
    && identity.corpusId == r.corpusId && identity.runId == r.runId && identity.referenceTime == r.referenceTime
    && identity.productVersion == r.productVersion
    && (forall k | k == ReviewerServiceIdentityId || k == ReviewerTokenId ::
          k in r.identities && k in identity.identities && identity.identities[k] == r.identities[k])
    && (forall k :: k in identity.identities ==> k == ReviewerServiceIdentityId || k == ReviewerTokenId)
    && (forall k :: k in identity.hashes <==> k in r.hashes && k != SealedManifest)
    && (forall k | k in identity.hashes :: identity.hashes[k] == r.hashes[k])
  }

  /** The credential handoff names the run and the bootstrap request, and holds the five identities it was given. */
  ghost predicate NamesBootstrap(c: CredentialFile, r: Record) {
    && c.runId == r.runId && Is(r.hashes, BootstrapRequest, c.request)
    && c.ids.Keys == {OrganizationId, RepositoryId, AccessScopeId, ReviewerServiceIdentityId, ReviewerTokenId}
  }

  /** The review handoff names the run, the task, the reviewer and its token, and carries the granted claim. */
  ghost predicate NamesReview(f: ReviewFile, r: Record, claims: map<string, Claim>) {
    && f.runId == r.runId && Identified(r.identities, EvaluatorTaskId, f.task)
    && Identified(r.identities, ReviewerServiceIdentityId, f.reviewer)
    && Identified(r.identities, ReviewerTokenId, f.reviewerToken)
    && exists k | k in claims :: claims[k] == f.claim
  }

  ghost predicate Identified(identities: map<IdKey, string>, k: IdKey, v: string) {
    k in identities && identities[k] == v
  }

  lemma HandoffsNamed(w: World, r: Record, h: Hashing)
    requires RecordInv(r, h) && CredentialInv(w, r, h) && ReviewInv(w, r, h)
    ensures w.credential.Some? ==> NamesBootstrap(w.credential.value, r)
    ensures w.review.Some? ==> NamesReview(w.review.value, r, w.server.claims)
  {
    if w.credential.Some? {
      assert forall k :: k in w.credential.value.ids <==> IsOrganization(k);
    }
  }

  lemma SealedIdentity(r: Record)
    ensures HasReviewer(r.identities) ==> SealedUnder(SealIdentity(r), r)
  {
  }

  /** The keys under which uploads were authorised and a review was claimed, as they are spelt. */
  lemma KeysSpelt(w: World, keys: seq<string>, h: Hashing)
    requires Inv(w, keys, h) && w.saved.Some?
    ensures (forall k :: k in w.server.uploads <==> k in keys)
    ensures keys != [] ==> keys[0] == "acceptance-upload-" + h.sha256(h.evidence(Pins(w.saved.value)))
    ensures forall i | 0 < i < |keys| ::
      keys[i] == "acceptance-upload-" + h.sha256(keys[i - 1] + ":" + w.server.uploads[keys[i - 1]])
    ensures forall k | k in w.server.claims :: exists task, reviewer, token ::
      && ClaimNames(w.saved.value, task, reviewer, token)
      && k == h.sha256("review-claim:" + w.saved.value.runId + ":" + task + ":" + reviewer + ":" + token)
  {
    var r := w.saved.value;
    hide FactsOf, Ready, CredentialFor, SealIdentity, Pins;
    forall i | 0 <= i < |keys|
      ensures keys[i] == UploadKey(UploadText(w.server.uploads, keys, i, h.evidence(Pins(r))), h)
    {
      assert Linked(w.server.uploads, keys, i, h.evidence(Pins(r)), h);
    }
    if w.server.claims != map[] {
      var ids := r.identities;
      ReviewNeeds(r, h);
      assert ClaimNames(r, ids[EvaluatorTaskId], ids[ReviewerServiceIdentityId], ids[ReviewerTokenId]);
    }
  }

  /** The task, the reviewer and its token, as the record has them. */
  ghost predicate ClaimNames(r: Record, task: string, reviewer: string, token: string) {
    && Identified(r.identities, EvaluatorTaskId, task) && Identified(r.identities, ReviewerServiceIdentityId, reviewer)
    && Identified(r.identities, ReviewerTokenId, token)
  }

  /** A run that awaits its review, or is past that, has saved every identity and digest the server answered with. */
  lemma PreparedKnowsAll(w: World, keys: seq<string>, h: Hashing)
    requires Inv(w, keys, h) && w.saved.Some? && Rank(w.saved.value.status) >= Rank(AwaitingExternalReview)
    ensures {OrganizationId, RepositoryId, AccessScopeId, ReviewerServiceIdentityId, ReviewerTokenId, SourceConnectionId,
             SyncRunId, WorkItemId, WorkItemRevisionId, PolicyId, PolicyVersionId, PullRequestRevisionId, EvidenceBlobId,
             EvidenceManifestId, AssuranceRunId, EvaluatorTaskId} <= w.saved.value.identities.Keys
    ensures {DiffHash, InputHash} <= w.saved.value.hashes.Keys
    ensures NewHeadCommit in w.saved.value.hashes ==> StaleProbeRunId in w.saved.value.identities
  {
    hide UploadChain, ReviewInv, ServerInv, CredentialInv, OutputInv, FactsOf, Ready;
    ReadyKnows(w.saved.value);
  }

  lemma ReadyKnows(r: Record)
    requires Ready(FactsOf(r))
    ensures {SourceConnectionId, SyncRunId, WorkItemId, WorkItemRevisionId, PolicyId, PolicyVersionId,
             PullRequestRevisionId, EvidenceBlobId, EvidenceManifestId, AssuranceRunId, EvaluatorTaskId}
            <= r.identities.Keys
    ensures {DiffHash, InputHash} <= r.hashes.Keys
    ensures NewHeadCommit in r.hashes ==> StaleProbeRunId in r.identities
  {
    assert forall x | x in FactsOf(r).known :: Has(r, x);
    assert Has(r, Source) && Has(r, Sync) && Has(r, Work) && Has(r, Policy) && Has(r, Diff);
    assert Has(r, Blob) && Has(r, EvidenceManifest) && Has(r, Assurance);
    assert NewHeadCommit in r.hashes ==> Has(r, Probe);
  }

  lemma AtMostOne(s: set<string>, k: string)
    requires forall x | x in s :: x == k
    ensures |s| <= 1
  {
    assert s <= {k};
    if s != {} {
      assert s == {k};
    }
  }

  /** No inputs and no result complete a blocked run. */
  lemma BlockedIsNotCompletable(w: World, keys: seq<string>, h: Hashing)
    ensures Blocked(w, keys, h) ==> forall i, result, acceptable :: !Completable(w, keys, i, result, acceptable, h)
  {
  }

  // ---- Steps of the external review ------------------------------------------------------------

  /** The record after a step that only adds the digest `k`. */
  function Recorded(r: Record, s: Status, k: HashKey, digest: string): Record {
    r.(status := s, hashes := r.hashes[k := digest])
  }

  lemma RecordedOrigin(r: Record, s: Status, k: HashKey, digest: string)
    requires !IsPinned(k)
    ensures Origin(Recorded(r, s, k, digest)) == Origin(r)
  {
    assert Pins(Recorded(r, s, k, digest)) == Pins(r);
  }

  /** Nothing is done before a record is saved, and every saved record names its bootstrap. */
  lemma FirstInv(w: World, keys: seq<string>, h: Hashing)
    requires Inv(w, keys, h)
    ensures w.saved.None? ==> w == FRESH && keys == []
    ensures w.saved.Some? ==> BootstrapIdempotency in w.saved.value.hashes && BootstrapRequest in w.saved.value.hashes
  {
  }

  /** What the invariant says of a saved record. */
  lemma SavedInv(w: World, r: Record, keys: seq<string>, h: Hashing)
    requires Inv(w, keys, h) && w.saved == Some(r)
    ensures RecordInv(r, h) && ServerInv(w.server, r, h) && ReviewInv(w, r, h) && OutputInv(w, r, h)
  {
  }

  lemma NoEarlyReview(w: World, r: Record, keys: seq<string>, h: Hashing)
    requires Inv(w, keys, h) && w.saved == Some(r) && Rank(r.status) < 3
    ensures w.review.None?
  {
  }

  /** Once claimed, the review handoff is the one the record names; until it is submitted, it is there. */
  lemma ReviewKnown(w: World, r: Record, keys: seq<string>, h: Hashing)
    requires Inv(w, keys, h) && w.saved == Some(r) && Rank(r.status) >= 4
    ensures ReviewHandoff in r.hashes
    ensures Rank(r.status) <= 5 ==> w.review.Some?
    ensures w.review.Some? ==> h.handoff(w.review.value) == r.hashes[ReviewHandoff] && ReviewFor(w.review.value, r)
    ensures Rank(r.status) >= 6 ==> ReviewResult in r.hashes && w.server.submission.Some?
    ensures Rank(r.status) >= 6 ==> r.hashes[ReviewResult] == w.server.submission.value.result
  {
  }

  /** Until the submission, the review handoff carries the one claim there is. */
  lemma ReviewIsTheClaim(w: World, r: Record, keys: seq<string>, h: Hashing)
    requires Inv(w, keys, h) && w.saved == Some(r) && 4 <= Rank(r.status) <= 5
    ensures ReviewFits(w) <==> ClaimsFit(w)
  {
    hide UploadChain, Pins;
    var key := r.hashes[ReviewClaimIdempotency];
    assert w.server.claims.Keys == {key};
    assert forall k | k in w.server.claims :: k == key;
  }

  /** Before the claim is announced nothing stands in the way of the review. */
  lemma NothingEarly(w: World, keys: seq<string>, h: Hashing)
    requires Inv(w, keys, h) && (w.saved.None? || Rank(w.saved.value.status) < 3)
    ensures w.server.claims == map[] && w.server.submission == None && w.output == None
  {
  }

  /** The sealed output is that of the run, and is the recorded one once the run is complete. */
  lemma OutputKnown(w: World, r: Record, keys: seq<string>, h: Hashing)
    requires Inv(w, keys, h) && w.saved == Some(r)
    ensures w.output.Some? ==> w.output.value.identity == SealIdentity(r)
    ensures r.status == Complete ==> SealedManifest in r.hashes && w.output.Some?
    ensures r.status == Complete ==> w.output.value.digest == r.hashes[SealedManifest]
  {
    hide SealIdentity, Pins, UploadChain;
  }

  lemma SameFacts(r: Record, n: Record)
    requires n.identities == r.identities && forall k | IsPinned(k) || k == DiffHash || k == InputHash :: k in n.hashes <==> k in r.hashes
    ensures FactsOf(n) == FactsOf(r)
  {
    assert forall x: Resource :: Has(n, x) <==> Has(r, x);
  }

  lemma ClaimingKeepsInv(w: World, r: Record, keys: seq<string>, h: Hashing)
    requires Inv(w, keys, h) && w.saved == Some(r) && r.status == AwaitingExternalReview
    ensures HasReviewer(r.identities) && EvaluatorTaskId in r.identities && w.review.None?
    ensures var n := Recorded(r, ReviewClaiming, ReviewClaimIdempotency, ClaimKeyFor(r, h));
            Inv(w.(saved := Some(n)), keys, h) && Origin(n) == Origin(r)
  {
    hide UploadChain, Ready, FactsOf, Has;
    ReviewNeeds(r, h);
    var n := Recorded(r, ReviewClaiming, ReviewClaimIdempotency, ClaimKeyFor(r, h));
    RecordedOrigin(r, ReviewClaiming, ReviewClaimIdempotency, ClaimKeyFor(r, h));
    SameFacts(r, n);
    PinnedAgree(r, n);
  }

  /** A prepared record names the task and the reviewer. */
  lemma ReviewNeeds(r: Record, h: Hashing)
    requires RecordInv(r, h) && Rank(r.status) >= 2
    ensures EvaluatorTaskId in r.identities && HasReviewer(r.identities)
  {
    assert Assurance in FactsOf(r).known;
  }

  function Claimed(w: World, k: string, claim: Claim): World {
    w.(server := w.server.(claims := w.server.claims[k := claim]))
  }

  lemma ClaimKeepsInv(w: World, r: Record, claim: Claim, keys: seq<string>, h: Hashing)
    requires Inv(w, keys, h) && w.saved == Some(r) && r.status == ReviewClaiming && w.server.claims == map[]
    ensures ReviewClaimIdempotency in r.hashes && Inv(Claimed(w, r.hashes[ReviewClaimIdempotency], claim), keys, h)
  {
  }

  /** The review handoff that `claim` becomes. */
  function HandoffFor(r: Record, claim: Claim): ReviewFile
    requires EvaluatorTaskId in r.identities && HasReviewer(r.identities)
  {
    ReviewFile(r.runId, r.identities[EvaluatorTaskId], r.identities[ReviewerServiceIdentityId],
               r.identities[ReviewerTokenId], claim)
  }

  lemma HandoffKeepsInv(w: World, r: Record, keys: seq<string>, h: Hashing)
    requires Inv(w, keys, h) && w.saved == Some(r) && r.status == ReviewClaiming
    requires ReviewClaimIdempotency in r.hashes && r.hashes[ReviewClaimIdempotency] in w.server.claims
    ensures EvaluatorTaskId in r.identities && HasReviewer(r.identities)
    ensures var f := HandoffFor(r, w.server.claims[r.hashes[ReviewClaimIdempotency]]);
            Inv(w.(review := Some(f)), keys, h)
  {
  }

  lemma DiscardKeepsInv(w: World, r: Record, keys: seq<string>, h: Hashing)
    requires Inv(w, keys, h) && w.saved == Some(r) && (Rank(r.status) < 4 || Rank(r.status) > 5)
    ensures Inv(w.(review := None), keys, h)
  {
  }

  lemma ClaimedKeepsInv(w: World, r: Record, keys: seq<string>, h: Hashing)
    requires Inv(w, keys, h) && w.saved == Some(r) && r.status == ReviewClaiming && w.review.Some?
    ensures var n := Recorded(r, ReviewClaimed, ReviewHandoff, h.handoff(w.review.value));
            Inv(w.(saved := Some(n)), keys, h) && Origin(n) == Origin(r)
  {
    RecordedOrigin(r, ReviewClaimed, ReviewHandoff, h.handoff(w.review.value));
    PinnedAgree(r, Recorded(r, ReviewClaimed, ReviewHandoff, h.handoff(w.review.value)));
  }

  lemma SubmittingKeepsInv(w: World, r: Record, keys: seq<string>, h: Hashing)
    requires Inv(w, keys, h) && w.saved == Some(r) && r.status == ReviewClaimed
    ensures Inv(w.(saved := Some(r.(status := ReviewSubmitting))), keys, h)
    ensures Origin(r.(status := ReviewSubmitting)) == Origin(r)
  {
  }

  lemma SubmissionKeepsInv(w: World, r: Record, result: string, keys: seq<string>, h: Hashing)
    requires Inv(w, keys, h) && w.saved == Some(r) && r.status == ReviewSubmitting && w.review.Some?
    ensures var s := Submission(w.review.value.task, w.review.value.claim.token, result);
            Inv(w.(server := w.server.(submission := Some(s))), keys, h)
  {
  }

  /** The record once the review is submitted. */
  function Reviewed(r: Record, report: string, result: string): Record {
    r.(status := ExternalReviewSubmitted, identities := r.identities[ReportId := report],
       hashes := r.hashes[ReviewResult := result])
  }

  lemma ReviewedKeepsInv(w: World, r: Record, report: string, result: string, keys: seq<string>, h: Hashing)
    requires Inv(w, keys, h) && w.saved == Some(r) && r.status == ReviewSubmitting
    requires w.server.submission.Some? && w.server.submission.value.result == result
    ensures var n := Reviewed(r, report, result); Inv(w.(saved := Some(n)), keys, h) && Origin(n) == Origin(r)
  {
    hide UploadChain, FactsOf, Ready, SealIdentity;
    var n := Reviewed(r, report, result);
    assert Pins(n) == Pins(r);
    PinnedAgree(r, n);
    ReviewedFacts(r, report, result);
  }

  lemma ReviewedFacts(r: Record, report: string, result: string)
    ensures FactsOf(Reviewed(r, report, result)) == FactsOf(r)
  {
    assert forall x: Resource :: Has(Reviewed(r, report, result), x) <==> Has(r, x);
  }

  // ---- Steps of the sealing --------------------------------------------------------------------

  lemma SealKeepsInv(w: World, r: Record, digest: string, fits: bool, keys: seq<string>, h: Hashing)
    requires Inv(w, keys, h) && w.saved == Some(r) && r.status == ExternalReviewSubmitted
    ensures Inv(w.(output := Some(Sealed(SealIdentity(r), digest, fits))), keys, h)
  {
  }

  lemma CompleteKeepsInv(w: World, r: Record, keys: seq<string>, h: Hashing)
    requires Inv(w, keys, h) && w.saved == Some(r) && r.status == ExternalReviewSubmitted && w.output.Some?
    ensures var n := Recorded(r, Complete, SealedManifest, w.output.value.digest);
            Inv(w.(saved := Some(n)), keys, h) && Origin(n) == Origin(r)
  {
    hide SealIdentity, UploadChain;
    var n := Recorded(r, Complete, SealedManifest, w.output.value.digest);
    RecordedOrigin(r, Complete, SealedManifest, w.output.value.digest);
    SameSealIdentity(r, w.output.value.digest);
    PinnedAgree(r, n);
    assert RecordInv(n, h) && ServerInv(w.server, n, h);
    assert CredentialInv(w, n, h) && ReviewInv(w, n, h);
  }

  /** What a seal binds does not change when the seal is recorded. */
  lemma SameSealIdentity(r: Record, digest: string)
    ensures SealIdentity(Recorded(r, Complete, SealedManifest, digest)) == SealIdentity(r)
  {
    assert SealIdentity(Recorded(r, Complete, SealedManifest, digest)).hashes == SealIdentity(r).hashes;
  }

  /** Only the saved record, the claims and the review handoff may differ. */
  ghost predicate ClaimOnly(before: World, after: World) {
    && after.(saved := None, review := None, server := before.server) == before.(saved := None, review := None)
    && after.server.(claims := before.server.claims) == before.server
  }

  /** Only the saved record, the submission and the review handoff may differ. */
  ghost predicate SubmissionOnly(before: World, after: World) {
    && after.(saved := None, review := None, server := before.server) == before.(saved := None, review := None)
    && after.server.(submission := before.server.submission) == before.server
  }

  /** Inputs that resume a run resume it later as well. */
  lemma MatchesAfter(before: Record, after: Record, i: Inputs, h: Hashing)
    requires Forward(Some(before), Some(after)) && Matches(before, i, h)
    ensures Matches(after, i, h)
  {
    PinnedAgree(before, after);
  }

  /** Two inputs that start the same run at the same time: the same pinned digests, and no other. */
  ghost predicate SameRun(i: Inputs, j: Inputs, time: string, h: Hashing) {
    && i.corpus.id == j.corpus.id && i.config.productVersion == j.config.productVersion
    && RunId(i, time, h) == RunId(j, time, h) && PinnedHashes(i, time, h) == PinnedHashes(j, time, h)
  }

  /** Two different texts with the same digest: two case files, or the text that combines corpus and case and the
      manifest of the corpus. */
  ghost predicate CaseCollision(started: Inputs, i: Inputs, x: string, y: string, h: Hashing) {
    && x != y && h.sha256(x) == h.sha256(y) && started.caseText.Some?
    && if i.caseText.Some? then x == started.caseText.value && y == i.caseText.value
       else x == h.combined(CanonicalDigest(started, h), h.sha256(started.caseText.value)) && y == i.corpus.canonicalText
  }

  /** The text is a combination of two digests; a canonical manifest, which has other members, never is. */
  ghost predicate Combines(text: string, h: Hashing) {
    exists a, b :: h.combined(a, b) == text
  }

  /** Which inputs resume a run, at any later point of it: exactly those that would have started it, with every pinned
      digest the same and none left out, or two named texts collide. */
  lemma ResumeDecides(started: Inputs, time: string, r: Record, i: Inputs, h: Hashing) returns (x: string, y: string)
    requires Origin(r) == Origin(NewRecord(started, time, h))
    ensures SameRun(started, i, time, h) ==> Matches(r, i, h)
    ensures Matches(r, i, h) && !Combines(i.corpus.canonicalText, h) ==>
      SameRun(started, i, time, h) || CaseCollision(started, i, x, y, h)
  {
    hide IsPinned, PinnedValue;
    x, y := "", "";
    var first, expected := NewRecord(started, time, h), NewRecord(i, time, h);
    PinnedAgree(r, first);
    assert r.referenceTime == Origin(r).referenceTime == time;
    assert r.corpusId == Origin(r).corpusId && r.runId == Origin(r).runId && r.productVersion == Origin(r).productVersion;
    forall k | k in expected.hashes
      ensures (k in r.hashes && r.hashes[k] == expected.hashes[k]) <==>
              (k in first.hashes && first.hashes[k] == expected.hashes[k])
    {
    }
    if Matches(r, i, h) && !Combines(i.corpus.canonicalText, h) {
      x, y := PinsDecide(started, i, time, h);
    }
  }

  lemma PinsDecide(started: Inputs, i: Inputs, time: string, h: Hashing) returns (x: string, y: string)
    requires !Combines(i.corpus.canonicalText, h)
    requires forall k | k in PinnedHashes(i, time, h) ::
      k in PinnedHashes(started, time, h) && PinnedHashes(started, time, h)[k] == PinnedHashes(i, time, h)[k]
    ensures PinnedHashes(started, time, h) == PinnedHashes(i, time, h) || CaseCollision(started, i, x, y, h)
  {
    hide PinnedValue;
    x, y := CaseDecides(started, i, time, h);
    if started.caseText == i.caseText {
      assert forall k :: Pinned(k, started, h) <==> Pinned(k, i, h);
      assert PinnedHashes(started, time, h) == PinnedHashes(i, time, h);
    }
  }

  /** Pins that agree come from the same case, or two named texts collide. */
  lemma CaseDecides(started: Inputs, i: Inputs, time: string, h: Hashing) returns (x: string, y: string)
    requires !Combines(i.corpus.canonicalText, h)
    requires forall k | k in PinnedHashes(i, time, h) ::
      k in PinnedHashes(started, time, h) && PinnedHashes(started, time, h)[k] == PinnedHashes(i, time, h)[k]
    ensures started.caseText == i.caseText || CaseCollision(started, i, x, y, h)
  {
    hide PinnedValue;
    CasePins(started, time, h);
    CasePins(i, time, h);
    x, y := "", "";
    if started.caseText.Some? && i.caseText.None? {
      x, y := h.combined(CanonicalDigest(started, h), h.sha256(started.caseText.value)), i.corpus.canonicalText;
    } else if started.caseText.Some? && started.caseText != i.caseText {
      x, y := started.caseText.value, i.caseText.value;
    }
  }

  ghost predicate Is(pins: map<HashKey, string>, k: HashKey, v: string) {
    k in pins && pins[k] == v
  }

  /** The first record of a run, member by member. */
  lemma NewRecordMembers(i: Inputs, time: string, h: Hashing)
    ensures var r := NewRecord(i, time, h);
            && r.corpusId == i.corpus.id && r.referenceTime == time && r.productVersion == i.config.productVersion
            && r.identities == map[]
            && r.runId == h.runId(if i.caseText.None? then i.corpus.fingerprint
                                  else i.corpus.fingerprint + ":" + h.sha256(i.caseText.value), time)
    ensures {DiffHash, InputHash, ReviewClaimIdempotency, ReviewHandoff, ReviewResult, SealedManifest}
            !! NewRecord(i, time, h).hashes.Keys
  {
    hide PinnedValue;
  }

  lemma PinAt(i: Inputs, time: string, h: Hashing, k: HashKey)
    requires Pinned(k, i, h)
    ensures Is(NewRecord(i, time, h).hashes, k, PinnedValue(k, i, time, h))
  {
    hide PinnedValue;
  }

  /** The digests that pin the corpus, each under its own name. */
  lemma CorpusPins(i: Inputs, time: string, h: Hashing)
    ensures var pins := NewRecord(i, time, h).hashes;
            && Is(pins, Manifest, i.corpus.manifest) && Is(pins, SourceFingerprint, i.corpus.fingerprint)
            && Is(pins, CanonicalManifest, h.sha256(i.corpus.canonicalText)) && Is(pins, CorpusCommit, i.corpus.commit)
  {
    hide NewRecord, RunId, Hash40, NewHead;
    PinAt(i, time, h, Manifest);
    PinAt(i, time, h, SourceFingerprint);
    PinAt(i, time, h, CanonicalManifest);
    PinAt(i, time, h, CorpusCommit);
  }

  /** The digests that pin the product, each under its own name. */
  lemma ProductPins(i: Inputs, time: string, h: Hashing)
    ensures var pins := NewRecord(i, time, h).hashes;
            && Is(pins, ProductCommit, i.config.productCommit) && Is(pins, ProductImage, i.config.image)
            && Is(pins, BuildInput, i.config.buildInput) && Is(pins, ProductPackage, i.config.package)
            && Is(pins, LaunchManifest, i.config.launch)
  {
    hide NewRecord, RunId, Hash40, NewHead, Is;
    ImagePins(i, time, h);
    LaunchPins(i, time, h);
  }

  lemma ImagePins(i: Inputs, time: string, h: Hashing)
    ensures var pins := NewRecord(i, time, h).hashes;
            Is(pins, ProductImage, i.config.image) && Is(pins, BuildInput, i.config.buildInput)
  {
    hide NewRecord, RunId, Hash40, NewHead, Is;
    PinAt(i, time, h, ProductImage);
    PinAt(i, time, h, BuildInput);
  }

  lemma LaunchPins(i: Inputs, time: string, h: Hashing)
    ensures var pins := NewRecord(i, time, h).hashes;
            && Is(pins, ProductCommit, i.config.productCommit) && Is(pins, ProductPackage, i.config.package)
            && Is(pins, LaunchManifest, i.config.launch)
  {
    hide NewRecord, RunId, Hash40, NewHead, Is;
    PinAt(i, time, h, ProductCommit);
    PinAt(i, time, h, ProductPackage);
    PinAt(i, time, h, LaunchManifest);
  }

  /** The digests derived from the run. */
  lemma NewRecordDerives(i: Inputs, time: string, h: Hashing)
    ensures var r := NewRecord(i, time, h);
            && Is(r.hashes, ReferenceTime, h.sha256(time))
            && Is(r.hashes, BootstrapIdempotency, h.sha256("bootstrap:" + r.runId))
            && Is(r.hashes, BootstrapRequest, h.sha256(h.requestText(i, time)))
  {
  }

  /** What the first record takes from a case file. */
  lemma CaseMembers(i: Inputs, time: string, h: Hashing)
    requires i.caseText.Some?
    ensures var pins, text := NewRecord(i, time, h).hashes, i.caseText.value;
            && Is(pins, Case, h.sha256(text))
            && Is(pins, CanonicalInput, h.sha256(h.combined(h.sha256(i.corpus.canonicalText), h.sha256(text))))
            && Is(pins, BaseCommit, h.caseCommit(text, BaseCommit))
            && Is(pins, HeadCommit, h.caseCommit(text, HeadCommit))
            && (NewHeadCommit in pins <==> h.caseNewHead(text).Some?)
            && (NewHeadCommit in pins ==> pins[NewHeadCommit] == h.caseNewHead(text).value)
  {
  }

  /** Without a case file the commits are derived from the fingerprint, and there is a stale probe. */
  lemma DerivedMembers(i: Inputs, time: string, h: Hashing)
    requires i.caseText.None? && forall x :: |h.sha256(x)| >= 40
    ensures var pins, fingerprint := NewRecord(i, time, h).hashes, i.corpus.fingerprint;
            && Case !in pins && Is(pins, CanonicalInput, h.sha256(i.corpus.canonicalText))
            && Is(pins, BaseCommit, h.sha256(fingerprint + ":base")[..40])
            && Is(pins, HeadCommit, h.sha256(fingerprint + ":head")[..40])
            && Is(pins, NewHeadCommit, h.sha256(fingerprint + ":new-head")[..40])
  {
  }

  /** Inputs that resume a run are those it was started with: the same product, image, package and launch, the same
      corpus, and the same case file or none, or two named texts collide. */
  lemma ResumedInputs(started: Inputs, time: string, r: Record, i: Inputs, h: Hashing) returns (x: string, y: string)
    requires Origin(r) == Origin(NewRecord(started, time, h)) && Matches(r, i, h)
    ensures i.config == started.config && i.corpus.id == started.corpus.id && i.corpus.manifest == started.corpus.manifest
    ensures i.corpus.fingerprint == started.corpus.fingerprint && i.corpus.commit == started.corpus.commit
    ensures h.sha256(i.corpus.canonicalText) == h.sha256(started.corpus.canonicalText)
    ensures !Combines(i.corpus.canonicalText, h) ==>
      i.caseText == started.caseText || CaseCollision(started, i, x, y, h)
  {
    hide PinnedValue;
    var first, expected := NewRecord(started, time, h), NewRecord(i, time, h);
    PinnedAgree(r, first);
    assert r.referenceTime == Origin(r).referenceTime == time;
    assert r.corpusId == Origin(r).corpusId && r.productVersion == Origin(r).productVersion;
    NewRecordMembers(started, time, h);
    NewRecordMembers(i, time, h);
    CorpusPins(started, time, h);
    CorpusPins(i, time, h);
    ProductPins(started, time, h);
    ProductPins(i, time, h);
    forall k | k in expected.hashes
      ensures k in first.hashes && first.hashes[k] == expected.hashes[k]
    {
      assert k in r.hashes && r.hashes[k] == expected.hashes[k] && IsPinned(k);
    }
    x, y := "", "";
    if !Combines(i.corpus.canonicalText, h) {
      x, y := CaseDecides(started, i, time, h);
    }
  }

  /** What the case contributes to the pins. */
  lemma CasePins(i: Inputs, time: string, h: Hashing)
    ensures var pins := PinnedHashes(i, time, h);
            (Case in pins <==> i.caseText.Some?) && CanonicalInput in pins
            && (i.caseText.None? ==> pins[CanonicalInput] == h.sha256(i.corpus.canonicalText))
            && (i.caseText.Some? ==> pins[Case] == h.sha256(i.caseText.value))
            && (i.caseText.Some? ==>
                  pins[CanonicalInput] == h.sha256(h.combined(CanonicalDigest(i, h), h.sha256(i.caseText.value))))
  {
  }

  // ---- What a command left alone achieves ------------------------------------------------------

  /** The saved record is one these inputs resume, with a status in the given range. */
  predicate AtStage(w: World, i: Inputs, first: nat, last: nat, h: Hashing) {
    w.saved.Some? && Matches(w.saved.value, i, h) && first <= Rank(w.saved.value.status) <= last
  }

  /** There is no review handoff, or one within the size limit. */
  predicate ReviewFits(w: World) {
    w.review.None? || w.review.value.claim.fits
  }

  /** A review request left alone gets the claim, or finds it in a handoff it can read back. */
  predicate CanRequest(w: World, i: Inputs, h: Hashing) {
    AtStage(w, i, 2, 3, h) || (AtStage(w, i, 4, 4, h) && ReviewFits(w))
  }

  /** The server has no submission, or this one. */
  predicate SameResult(w: World, result: string) {
    w.server.submission.None? || w.server.submission.value.result == result
  }

  /** The server holds this result as the submission. */
  predicate Submitted(w: World, result: string) {
    w.server.submission.Some? && w.server.submission.value.result == result
  }

  predicate CanSubmit(w: World, i: Inputs, result: string, acceptable: bool, h: Hashing) {
    || (AtStage(w, i, 4, 5, h) && acceptable && ReviewFits(w) && SameResult(w, result))
    || (AtStage(w, i, 6, 7, h) && (w.review.None? || (acceptable && ReviewFits(w) && SameResult(w, result))))
  }

  /** A sealed output can be verified again. */
  predicate OutputFits(w: World) {
    w.output.None? || w.output.value.fits
  }

  predicate CanFinalize(w: World, i: Inputs, h: Hashing) {
    AtStage(w, i, 6, 7, h) && OutputFits(w)
  }

  predicate ClaimsFit(w: World) {
    forall k | k in w.server.claims :: w.server.claims[k].fits
  }

  /** From here the last three commands, left alone, complete the run with this result. */
  predicate ReviewCompletable(w: World, i: Inputs, result: string, acceptable: bool, h: Hashing) {
    && AtStage(w, i, 2, 7, h) && OutputFits(w)
    && (Rank(w.saved.value.status) <= 5 ==> acceptable && ClaimsFit(w) && SameResult(w, result))
  }

  /** From here the four commands, left alone, complete the run with this result. */
  ghost predicate Completable(w: World, keys: seq<string>, i: Inputs, result: string, acceptable: bool, h: Hashing) {
    && CanStart(w, keys, i, h) && OutputFits(w)
    && (w.saved.None? ==> acceptable)
    && (w.saved.Some? && Rank(w.saved.value.status) <= 5 ==> acceptable && ClaimsFit(w) && SameResult(w, result))
  }
}
