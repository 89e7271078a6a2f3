/** Events of the operator drill: the closed payload of every step, the seal of an event, and when a list of events
    is a valid ledger. */
module DrillEvents {
  import opened Json
  import opened Options

  // ---- What is not modelled: patterns and hashes ------------------------------------------------

  /** The regular expressions.  Those on `Json` are applied to `str(value)`. */
  datatype Patterns = Patterns(uuid: Json -> bool, sha256: Json -> bool, commit: Json -> bool, version: Json -> bool,
                               timestamp: Json -> bool, code: string -> bool, forbidden: string -> bool)

  /** Hashing, and writing and reading JSON text. */
  datatype Tools = Tools(sha256: string -> string, compact: Json -> string, line: Json -> string,
                         parse: string -> Option<Json>, space: char -> bool)

  /** `_canonical` and `json.dumps(event, sort_keys=True)` print, and what was printed is parsed back, also behind white
      space that JSON allows, but not behind other white space or another value. */
  ghost predicate Faithful(t: Tools) {
    && (forall v :: t.compact(v) == Print(v, "") && t.line(v) == Print(v, " "))
    && (forall v :: t.parse(t.line(v) + "\n") == Some(v))
    && (forall c :: t.space(c) ==> !('!' <= c <= '~')) && (forall c :: JsonSpace(c) ==> t.space(c))
    && (forall x, e: Json | e.Obj? && t.parse(x).Some? :: t.parse(x + (t.line(e) + "\n")) == None)
    && (forall x, e: Json | e.Obj? && IsBlank(x, t) ::
          t.parse(x + (t.line(e) + "\n")) == if IsJsonBlank(x) then Some(e) else None)
  }

  /** White space around a JSON text; `str.strip` drops more. */
  predicate JsonSpace(c: char) {
    c == ' ' || c == '\t' || c == '\n' || c == '\r'
  }

  predicate IsJsonBlank(text: string) {
    forall c | c in text :: JsonSpace(c)
  }

  predicate IsBlank(text: string, t: Tools) {
    forall c | c in text :: t.space(c)
  }

  // ---- Steps and their payloads ----------------------------------------------------------------

  /** The numbers a payload reports: counts, status codes of HTTP, and the exit status of a faulted restore. */
  const ZERO: Json := Num("0")
  const ONE: Json := Num("1")
  const FOUND: Json := Num("200")
  const MOVED: Json := Num("301")
  const NOT_FOUND: Json := Num("404")
  const FAULT_EXIT: Json := Num("44")

  datatype Kind = AutomatedResult | DecisionProposal | Cleanup

  function KindText(k: Kind): string {
    match k
    case AutomatedResult => "automated_result"
    case DecisionProposal => "decision_proposal"
    case Cleanup => "cleanup"
  }

  datatype Step =
    | MetricsAuth | ProxySpoof | RestoreFault | StorageInterrupt | DecommissionRetry
    | RotateCredential | RevokeCredential | EscalatePermissionLeak | AbortFailedRestore | ResumeStorage
    | EscalateMetricsProxy
    | ResourcesAbsent

  /** The one successful transcript: the automated checks, the decisions and the cleanup, in order. */
  const SCRIPT: seq<Step> := [MetricsAuth, ProxySpoof, RestoreFault, StorageInterrupt, DecommissionRetry,
                              RotateCredential, RevokeCredential, EscalatePermissionLeak, AbortFailedRestore,
                              ResumeStorage, EscalateMetricsProxy, ResourcesAbsent]

  function KindOf(s: Step): Kind {
    match s
    case MetricsAuth | ProxySpoof | RestoreFault | StorageInterrupt | DecommissionRetry => AutomatedResult
    case ResourcesAbsent => Cleanup
    case _ => DecisionProposal
  }

  function StepText(s: Step): string {
    match s
    case MetricsAuth => "METRICS_AUTH"
    case ProxySpoof => "PROXY_SPOOF"
    case RestoreFault => "RESTORE_FAULT"
    case StorageInterrupt => "STORAGE_INTERRUPT"
    case DecommissionRetry => "DECOMMISSION_RETRY"
    case RotateCredential => "ROTATE_CREDENTIAL"
    case RevokeCredential => "REVOKE_CREDENTIAL"
    case EscalatePermissionLeak => "ESCALATE_PERMISSION_LEAK"
    case AbortFailedRestore => "ABORT_FAILED_RESTORE"
    case ResumeStorage => "RESUME_STORAGE"
    case EscalateMetricsProxy => "ESCALATE_METRICS_PROXY"
    case ResourcesAbsent => "TASK_RESOURCES_ABSENT"
  }

  /** The role that must propose a decision. */
  function Role(s: Step): string {
    match s
    case RotateCredential | RevokeCredential => "SECURITY_OPERATOR"
    case EscalatePermissionLeak => "RELEASE_OWNER"
    case AbortFailedRestore => "RESTORE_OPERATOR"
    case ResumeStorage => "STORAGE_OPERATOR"
    case _ => "PLATFORM_OPERATOR"
  }

  /** The field that names the step in a payload of this kind. */
  function CodeField(k: Kind): string {
    match k
    case AutomatedResult => "check_code"
    case DecisionProposal => "decision_code"
    case Cleanup => "cleanup_code"
  }

  predicate HasFields(v: Json, keys: set<string>) {
    v.Obj? && v.fields.Keys == keys
  }

  predicate PositiveInteger(v: Json) {
    v.Num? && v.text[0] != '0' && forall c | c in v.text :: '0' <= c <= '9'
  }

  /** The payload that reports a step: every field closed but the correlation id and the metric sample count. */
  predicate Reports(v: Json, s: Step, p: Patterns) {
    && v.Obj? && Get(v, CodeField(KindOf(s))) == Str(StepText(s))
    && match KindOf(s)
       case AutomatedResult =>
         Get(v, "outcome") == Str("PASS") && p.uuid(Get(v, "correlation_id")) && Observes(v, s)
       case DecisionProposal =>
         && HasFields(v, {"decision_code", "correlation_id", "outcome", "participant_code", "role_code"})
         && Get(v, "outcome") == Str("PROPOSED") && Get(v, "participant_code") == Str("RISHAVT")
         && Get(v, "role_code") == Str(Role(s)) && p.uuid(Get(v, "correlation_id"))
       case Cleanup =>
         && HasFields(v, {"cleanup_code", "outcome", "resource_count"})
         && Get(v, "outcome") == Str("COMPLETE") && Get(v, "resource_count") == ZERO
  }

  /** The fields in which an automated check reports what it observed. */
  function ObservedFields(s: Step): set<string> {
    match s
    case MetricsAuth => {"missing_token_code", "wrong_token_code", "correct_token_code", "metric_sample_count"}
    case ProxySpoof => {"redirect_code"}
    case RestoreFault => {"exit_code", "marker_code", "writers_running"}
    case StorageInterrupt => {"interrupted_state", "failure_code", "resumed_state"}
    case _ => {"initial_state", "initial_error_code", "final_state", "final_error_code", "attempt_delta"}
  }

  /** What an automated check must have observed. */
  predicate Observes(v: Json, s: Step) {
    && HasFields(v, {"check_code", "outcome", "correlation_id"} + ObservedFields(s))
    && match s
       case MetricsAuth =>
         && Get(v, "missing_token_code") == NOT_FOUND && Get(v, "wrong_token_code") == NOT_FOUND
         && Get(v, "correct_token_code") == FOUND && PositiveInteger(Get(v, "metric_sample_count"))
       case ProxySpoof =>
         Get(v, "redirect_code") == MOVED
       case RestoreFault =>
         && Get(v, "exit_code") == FAULT_EXIT && Get(v, "marker_code") == Str("DRILL_OBJECT_RESTORE_FAULT")
         && Get(v, "writers_running") == ZERO
       case StorageInterrupt =>
         && Get(v, "interrupted_state") == Str("UNAVAILABLE") && Get(v, "resumed_state") == Str("AVAILABLE")
         && Get(v, "failure_code") == Str("DECOMMISSION_STORAGE_CLEANUP_RETRY_REQUIRED")
       case _ =>
         && Get(v, "initial_state") == Str("FAILED") && Get(v, "final_state") == Str("COMPLETED")
         && Get(v, "initial_error_code") == Str("DECOMMISSION_STORAGE_CLEANUP_RETRY_REQUIRED")
         && Get(v, "final_error_code") == Str("NONE") && Get(v, "attempt_delta") == ONE
  }

  predicate AnchorOk(v: Json, p: Patterns) {
    && HasFields(v, {"decision_code_hash", "drill_id", "ledger_sha256", "operator_source_commit",
                     "product_source_commit", "run_id", "tail_hash"})
    && PositiveInteger(Get(v, "run_id")) && p.uuid(Get(v, "drill_id"))
    && p.sha256(Get(v, "decision_code_hash")) && p.sha256(Get(v, "ledger_sha256")) && p.sha256(Get(v, "tail_hash"))
    && p.commit(Get(v, "operator_source_commit")) && p.commit(Get(v, "product_source_commit"))
  }

  /** `_reject_unsafe_strings` finds nothing: every string is an identifier of a known form or is not forbidden. */
  predicate Safe(v: Json, p: Patterns) {
    match v
    case Str(s) => SafeText(s, p)
    case Arr(items) => forall x | x in items :: Safe(x, p)
    case Obj(fields) => forall k | k in fields :: Safe(fields[k], p)
    case _ => true
  }

  predicate SafeText(s: string, p: Patterns) {
    p.uuid(Str(s)) || p.sha256(Str(s)) || p.commit(Str(s)) || p.code(s) || p.version(Str(s)) || !p.forbidden(s)
  }

  /** The text stands somewhere in the value, as a member of an object or an item of an array at any depth. */
  ghost predicate Stands(s: string, v: Json) {
    match v
    case Str(chars) => s == chars
    case Arr(items) => exists i | 0 <= i < |items| :: Stands(s, items[i])
    case Obj(fields) => exists k | k in fields :: Stands(s, fields[k])
    case _ => false
  }

  /** No text anywhere in a value is forbidden, but for identifiers, digests, codes and versions. */
  lemma {:induction false} SafeMeans(v: Json, p: Patterns)
    ensures Safe(v, p) <==>
      forall s | Stands(s, v) && p.forbidden(s) ::
        p.uuid(Str(s)) || p.sha256(Str(s)) || p.commit(Str(s)) || p.code(s) || p.version(Str(s))
    decreases v
  {
    match v {
      case Arr(items) =>
        forall i | 0 <= i < |items|
          ensures Safe(items[i], p) <==> forall s | Stands(s, items[i]) && p.forbidden(s) :: SafeText(s, p)
        {
          SafeMeans(items[i], p);
        }
        assert forall i, s | 0 <= i < |items| && Stands(s, items[i]) :: Stands(s, v);
      case Obj(fields) =>
        forall k | k in fields
          ensures Safe(fields[k], p) <==> forall s | Stands(s, fields[k]) && p.forbidden(s) :: SafeText(s, p)
        {
          SafeMeans(fields[k], p);
        }
        assert forall k, s | k in fields && Stands(s, fields[k]) :: Stands(s, v);
      case _ =>
    }
  }

  const ANCHOR: Json := Str("github_anchor")
  const HEADER: Json := Str("header")

  /** `_validate_payload` accepts. */
  predicate PayloadOk(kind: Json, v: Json, p: Patterns) {
    && Safe(v, p)
    && ((kind == ANCHOR && AnchorOk(v, p)) || exists s: Step :: kind == Str(KindText(KindOf(s))) && Reports(v, s, p))
  }

  // ---- The header ------------------------------------------------------------------------------

  const VERSION := "0.1.7"

  predicate EligibleBoundary(productSource: string, operatorSource: string, version: string, inProduct: bool) {
    inProduct && productSource == operatorSource && version == VERSION
  }

  /** `record_release_boundary`. */
  function Boundary(productSource: string, operatorSource: string, version: string, inProduct: bool): Json {
    var eligible := EligibleBoundary(productSource, operatorSource, version, inProduct);
    Obj(map["operator_cli_binding" := Str(if eligible then "PRODUCT_IMAGE" else "SOURCE_BOUND_DEVELOPMENT_HELPER"),
            "operator_cli_in_product" := Bool(inProduct), "operator_source_commit" := Str(operatorSource),
            "product_source_commit" := Str(productSource), "product_version" := Str(version),
            "status" := Str(if eligible then "ELIGIBLE_FOR_HUMAN_ACCEPTANCE" else "NOT_ACCEPTED")])
  }

  /** The boundary is the one its own fields derive. */
  predicate BoundaryOk(b: Json, p: Patterns) {
    && b.Obj? && p.commit(Get(b, "operator_source_commit")) && p.commit(Get(b, "product_source_commit"))
    && Get(b, "operator_cli_in_product").Bool? && p.version(Get(b, "product_version"))
    && Get(b, "operator_source_commit").Str? && Get(b, "product_source_commit").Str? && Get(b, "product_version").Str?
    && b == Boundary(Get(b, "product_source_commit").chars, Get(b, "operator_source_commit").chars,
                     Get(b, "product_version").chars, Get(b, "operator_cli_in_product").value)
  }

  /** The header's payload; a version written `3.0` equals 3. */
  predicate HeaderOk(v: Json, p: Patterns) {
    && HasFields(v, {"drill_id", "release_boundary", "runtime", "schema_version"})
    && (Get(v, "schema_version") == Num("3") || Get(v, "schema_version") == Num("3.0"))
    && p.uuid(Get(v, "drill_id"))
    && HasFields(Get(v, "runtime"), {"image_digest", "source_revision"})
    && p.sha256(Get(Get(v, "runtime"), "image_digest")) && p.commit(Get(Get(v, "runtime"), "source_revision"))
    && BoundaryOk(Get(v, "release_boundary"), p) && Safe(v, p)
  }

  /** What an accepted header holds: its closed members, each of its form, and a boundary that is eligible exactly when
      the product at this version carries its own operator tool. */
  lemma AcceptedHeader(v: Json, p: Patterns)
    requires HeaderOk(v, p)
    ensures v.Obj? && v.fields.Keys == {"drill_id", "release_boundary", "runtime", "schema_version"}
    ensures p.uuid(v.fields["drill_id"])
    ensures var runtime := v.fields["runtime"];
            && runtime.Obj? && runtime.fields.Keys == {"image_digest", "source_revision"}
            && p.sha256(runtime.fields["image_digest"]) && p.commit(runtime.fields["source_revision"])
    ensures var b := v.fields["release_boundary"];
            && b.Obj? && b.fields.Keys == {"operator_cli_binding", "operator_cli_in_product", "operator_source_commit",
                                           "product_source_commit", "product_version", "status"}
            && p.commit(b.fields["operator_source_commit"]) && p.commit(b.fields["product_source_commit"])
            && p.version(b.fields["product_version"])
            && (b.fields["status"] == if b.fields["operator_cli_in_product"] == Bool(true)
                                         && b.fields["product_source_commit"] == b.fields["operator_source_commit"]
                                         && b.fields["product_version"] == Str("0.1.7")
                                      then Str("ELIGIBLE_FOR_HUMAN_ACCEPTANCE") else Str("NOT_ACCEPTED"))
  {
    hide Safe, IsNumeral;
  }

  // ---- What an accepted check has observed -----------------------------------------------------

  lemma AcceptedMetrics(v: Json, p: Patterns)
    ensures Reports(v, MetricsAuth, p) <==>
      && v.Obj? && v.fields.Keys == {"check_code", "outcome", "correlation_id", "missing_token_code", "wrong_token_code",
                                     "correct_token_code", "metric_sample_count"}
      && v.fields["check_code"] == Str("METRICS_AUTH") && v.fields["outcome"] == Str("PASS")
      && p.uuid(v.fields["correlation_id"])
      && v.fields["missing_token_code"] == Num("404") && v.fields["wrong_token_code"] == Num("404")
      && v.fields["correct_token_code"] == Num("200") && PositiveInteger(v.fields["metric_sample_count"])
  {
    hide IsNumeral, PositiveInteger;
  }

  lemma AcceptedProxy(v: Json, p: Patterns)
    ensures Reports(v, ProxySpoof, p) <==>
      && v.Obj? && v.fields.Keys == {"check_code", "outcome", "correlation_id", "redirect_code"}
      && v.fields["check_code"] == Str("PROXY_SPOOF") && v.fields["outcome"] == Str("PASS")
      && p.uuid(v.fields["correlation_id"]) && v.fields["redirect_code"] == Num("301")
  {
    hide IsNumeral;
  }

  lemma AcceptedRestore(v: Json, p: Patterns)
    ensures Reports(v, RestoreFault, p) <==>
      && v.Obj? && v.fields.Keys == {"check_code", "outcome", "correlation_id", "exit_code", "marker_code", "writers_running"}
      && v.fields["check_code"] == Str("RESTORE_FAULT") && v.fields["outcome"] == Str("PASS")
      && p.uuid(v.fields["correlation_id"]) && v.fields["exit_code"] == Num("44")
      && v.fields["marker_code"] == Str("DRILL_OBJECT_RESTORE_FAULT") && v.fields["writers_running"] == Num("0")
  {
    hide IsNumeral;
  }

  lemma AcceptedInterrupt(v: Json, p: Patterns)
    ensures Reports(v, StorageInterrupt, p) <==>
      && v.Obj? && v.fields.Keys == {"check_code", "outcome", "correlation_id", "interrupted_state", "failure_code",
                                     "resumed_state"}
      && v.fields["check_code"] == Str("STORAGE_INTERRUPT") && v.fields["outcome"] == Str("PASS")
      && p.uuid(v.fields["correlation_id"]) && v.fields["interrupted_state"] == Str("UNAVAILABLE")
      && v.fields["failure_code"] == Str("DECOMMISSION_STORAGE_CLEANUP_RETRY_REQUIRED")
      && v.fields["resumed_state"] == Str("AVAILABLE")
  {
    hide IsNumeral;
  }

  lemma AcceptedRetry(v: Json, p: Patterns)
    ensures Reports(v, DecommissionRetry, p) <==>
      && v.Obj? && v.fields.Keys == {"check_code", "outcome", "correlation_id", "initial_state", "initial_error_code",
                                     "final_state", "final_error_code", "attempt_delta"}
      && v.fields["check_code"] == Str("DECOMMISSION_RETRY") && v.fields["outcome"] == Str("PASS")
      && p.uuid(v.fields["correlation_id"]) && v.fields["initial_state"] == Str("FAILED")
      && v.fields["initial_error_code"] == Str("DECOMMISSION_STORAGE_CLEANUP_RETRY_REQUIRED")
      && v.fields["final_state"] == Str("COMPLETED") && v.fields["final_error_code"] == Str("NONE")
      && v.fields["attempt_delta"] == Num("1")
  {
    hide IsNumeral;
  }

  /** A proposal is accepted for a decision of the drill, by its participant in the role that the decision asks for. */
  lemma AcceptedDecision(v: Json, s: Step, p: Patterns)
    requires KindOf(s) == DecisionProposal
    ensures Reports(v, s, p) <==>
      && v.Obj? && v.fields.Keys == {"decision_code", "correlation_id", "outcome", "participant_code", "role_code"}
      && v.fields["outcome"] == Str("PROPOSED") && v.fields["participant_code"] == Str("RISHAVT")
      && p.uuid(v.fields["correlation_id"])
      && v.fields["decision_code"] == Str(StepText(s)) && v.fields["role_code"] == Str(Role(s))
  {
    hide IsNumeral, StepText, Role;
  }

  /** An accepted anchor has its seven members, each of its form. */
  lemma AcceptedAnchor(v: Json, p: Patterns)
    ensures PayloadOk(Str("github_anchor"), v, p) <==>
      && v.Obj? && v.fields.Keys == {"decision_code_hash", "drill_id", "ledger_sha256", "operator_source_commit",
                                     "product_source_commit", "run_id", "tail_hash"}
      && PositiveInteger(v.fields["run_id"]) && p.uuid(v.fields["drill_id"]) && p.sha256(v.fields["decision_code_hash"])
      && p.sha256(v.fields["ledger_sha256"]) && p.sha256(v.fields["tail_hash"])
      && p.commit(v.fields["operator_source_commit"]) && p.commit(v.fields["product_source_commit"]) && Safe(v, p)
  {
    hide IsNumeral, PositiveInteger, Safe, Reports;
  }

  /** The local events: an automated check, a decision, or the cleanup of nothing that is left. */
  lemma AcceptedCleanup(v: Json, p: Patterns)
    ensures Reports(v, ResourcesAbsent, p) <==>
      && v.Obj? && v.fields.Keys == {"cleanup_code", "outcome", "resource_count"}
      && v.fields["cleanup_code"] == Str("TASK_RESOURCES_ABSENT") && v.fields["outcome"] == Str("COMPLETE")
      && v.fields["resource_count"] == Num("0")
  {
    hide IsNumeral;
  }

  // ---- Sealed events and ledgers ---------------------------------------------------------------

  function Padded(text: string): string
    decreases 20 - |text|
  {
    if |text| >= 20 then text else Padded("0" + text)
  }

  /** An event id is the number in decimal behind zeros, twenty digits long unless the number is longer. */
  lemma {:induction false} PaddedText(text: string)
    ensures var padded := Padded(text);
            && |padded| == (if |text| < 20 then 20 else |text|) && padded[|padded| - |text|..] == text
            && forall i | 0 <= i < |padded| - |text| :: padded[i] == '0'
    decreases 20 - |text|
  {
    if |text| < 20 {
      PaddedText("0" + text);
      var padded := Padded(text);
      assert padded[|padded| - |text|..] == padded[|padded| - |text| - 1..][1..];
      assert padded[|padded| - |text| - 1..][0] == padded[|padded| - |text| - 1];
    }
  }

  /** The event without its own hash. */
  function Unsigned(e: Json): Json {
    if e.Obj? then Obj(e.fields - {"event_hash"}) else e
  }

  function Digest(e: Json, t: Tools): string {
    t.sha256(t.compact(Unsigned(e)))
  }

  const ENVELOPE: set<string> := {"event_hash", "event_id", "event_type", "payload", "previous_hash", "recorded_at"}

  function PreviousHash(ledger: seq<Json>, i: nat): Json
    requires i <= |ledger|
  {
    if i == 0 then Null else Get(ledger[i - 1], "event_hash")
  }

  predicate IsAnchor(e: Json) {
    Get(e, "event_type") == ANCHOR
  }

  /** The envelope, the chain and the monotonic id of the event at `i`. */
  predicate ChainOk(ledger: seq<Json>, i: nat, p: Patterns, t: Tools)
    requires i < |ledger|
  {
    var e := ledger[i];
    && HasFields(e, ENVELOPE) && p.timestamp(Get(e, "recorded_at"))
    && Get(e, "previous_hash") == PreviousHash(ledger, i)
    && Get(e, "event_hash") == Str(Digest(e, t)) && Get(e, "event_id") == Str(Padded(Decimal(i)))
  }

  /** The payload of the event at `i`, and an anchor only at the end. */
  predicate ContentOk(ledger: seq<Json>, i: nat, p: Patterns)
    requires i < |ledger|
  {
    var e := ledger[i];
    && Get(e, "payload").Obj?
    && if i == 0 then HeaderOk(Get(e, "payload"), p)
       else PayloadOk(Get(e, "event_type"), Get(e, "payload"), p) && (IsAnchor(e) ==> i == |ledger| - 1)
  }

  predicate EventOk(ledger: seq<Json>, i: nat, p: Patterns, t: Tools)
    requires i < |ledger|
  {
    ChainOk(ledger, i, p, t) && ContentOk(ledger, i, p)
  }

  predicate Anchored(ledger: seq<Json>) {
    ledger != [] && IsAnchor(ledger[|ledger| - 1])
  }

  predicate ValidLedger(ledger: seq<Json>, p: Patterns, t: Tools) {
    && ledger != [] && Get(ledger[0], "event_type") == HEADER
    && forall i | 0 <= i < |ledger| :: EventOk(ledger, i, p, t)
  }

  /** An event has its six members and no other. */
  lemma ClosedEvent(e: Json)
    ensures HasFields(e, ENVELOPE) <==>
      e.Obj? && e.fields.Keys == {"event_hash", "event_id", "event_type", "payload", "previous_hash", "recorded_at"}
    ensures HasFields(e, ENVELOPE) ==>
      && "event_hash" in e.fields && "event_id" in e.fields && "event_type" in e.fields
      && "payload" in e.fields && "previous_hash" in e.fields && "recorded_at" in e.fields
      && e.fields - {"event_hash"} == map k | k in e.fields && k != "event_hash" :: e.fields[k]
  {
    hide IsNumeral;
  }

  /** An event of a valid ledger: its six members, its place, the hash of the event before it and the hash of its own
      other members; only an anchor closes, and a header only opens. */
  lemma AcceptedEvent(ledger: seq<Json>, i: nat, p: Patterns, t: Tools)
    requires ValidLedger(ledger, p, t) && i < |ledger|
    ensures ledger[i].Obj? && ledger[i].fields.Keys ==
            {"event_hash", "event_id", "event_type", "payload", "previous_hash", "recorded_at"}
    ensures var e := ledger[i].fields;
            && p.timestamp(e["recorded_at"]) && e["event_id"] == Str(Padded(Decimal(i))) && e["payload"].Obj?
            && e["event_hash"] == Str(t.sha256(t.compact(Obj(map k | k in e && k != "event_hash" :: e[k]))))
            && e["previous_hash"] == (if i == 0 then Null else Get(ledger[i - 1], "event_hash"))
    ensures var e := ledger[i].fields;
            if i == 0 then e["event_type"] == Str("header") && HeaderOk(e["payload"], p)
            else PayloadOk(e["event_type"], e["payload"], p)
                 && (e["event_type"] == Str("github_anchor") ==> i == |ledger| - 1)
  {
    assert EventOk(ledger, i, p, t);
    ClosedEvent(ledger[i]);
    hide HeaderOk, PayloadOk, Padded, Decimal, IsNumeral, ValidLedger, HasFields;
  }

  /** `validate_evidence`: the running `previous` is the hash of the event before. */
  method ValidateEvidence(ledger: seq<Json>, requireAnchor: bool, p: Patterns, t: Tools) returns (ok: bool)
    ensures ok <==> ValidLedger(ledger, p, t) && (requireAnchor ==> Anchored(ledger))
  {
    hide HeaderOk, PayloadOk, Padded, Decimal, Digest, HasFields, Get;
    if ledger == [] || Get(ledger[0], "event_type") != HEADER {
      return false;
    }
    var previous := Null;
    for index := 0 to |ledger|
      invariant previous == PreviousHash(ledger, index)
      invariant forall i | 0 <= i < index :: EventOk(ledger, i, p, t)
    {
      var event := ledger[index];
      var supplied, payload := Get(event, "event_hash"), Get(event, "payload");
      ok := HasFields(event, ENVELOPE) && p.timestamp(Get(event, "recorded_at"))
            && Get(event, "previous_hash") == previous && supplied == Str(Digest(event, t))
            && Get(event, "event_id") == Str(Padded(Decimal(index))) && payload.Obj?;
      if ok && index == 0 {
        ok := HeaderOk(payload, p);
      } else if ok {
        ok := PayloadOk(Get(event, "event_type"), payload, p) && (IsAnchor(event) ==> index == |ledger| - 1);
      }
      if !ok {
        assert !EventOk(ledger, index, p, t);
        return;
      }
      previous := supplied;
    }
    ok := requireAnchor ==> Anchored(ledger);
  }

  /** The content of the event that follows `ledger`, before it is sealed. */
  function NextContent(ledger: seq<Json>, kind: Json, payload: Json, now: Json): map<string, Json> {
    map["event_id" := Str(Padded(Decimal(|ledger|))), "event_type" := kind, "payload" := payload,
        "previous_hash" := PreviousHash(ledger, |ledger|), "recorded_at" := now]
  }

  /** The event that `_seal` makes of its content. */
  function NextEvent(ledger: seq<Json>, kind: Json, payload: Json, now: Json, t: Tools): Json {
    var content := NextContent(ledger, kind, payload, now);
    Obj(content["event_hash" := Str(t.sha256(t.compact(Obj(content))))])
  }

  lemma NextContentKeys(ledger: seq<Json>, kind: Json, payload: Json, now: Json)
    ensures NextContent(ledger, kind, payload, now).Keys == ENVELOPE - {"event_hash"}
    ensures var c := NextContent(ledger, kind, payload, now);
            "event_id" in c && "event_type" in c && "payload" in c && "recorded_at" in c && "previous_hash" in c
  {
    hide Padded, Decimal, PreviousHash;
  }

  lemma NextContentFields(ledger: seq<Json>, kind: Json, payload: Json, now: Json)
    ensures var c := NextContent(ledger, kind, payload, now);
            c.Keys == ENVELOPE - {"event_hash"} && c["event_id"] == Str(Padded(Decimal(|ledger|)))
            && c["event_type"] == kind && c["payload"] == payload && c["recorded_at"] == now
            && c["previous_hash"] == PreviousHash(ledger, |ledger|)
  {
    NextContentKeys(ledger, kind, payload, now);
    hide Padded, Decimal, PreviousHash, ENVELOPE, IsNumeral;
  }

  lemma NextEventFields(ledger: seq<Json>, kind: Json, payload: Json, now: Json, t: Tools)
    ensures var e := NextEvent(ledger, kind, payload, now, t);
            HasFields(e, ENVELOPE) && Get(e, "event_hash") == Str(Digest(e, t))
            && Get(e, "event_id") == Str(Padded(Decimal(|ledger|))) && Get(e, "event_type") == kind
            && Get(e, "payload") == payload && Get(e, "recorded_at") == now
            && Get(e, "previous_hash") == PreviousHash(ledger, |ledger|)
  {
    hide Padded, Decimal, PreviousHash, NextContent;
    var content := NextContent(ledger, kind, payload, now);
    NextContentFields(ledger, kind, payload, now);
    var e := NextEvent(ledger, kind, payload, now, t);
    assert e.fields - {"event_hash"} == content;
    assert e.fields.Keys == ENVELOPE;
  }

  /** Events before `n` are judged the same in a prefix that holds them. */
  lemma SameEvent(ledger: seq<Json>, longer: seq<Json>, i: nat, p: Patterns, t: Tools)
    requires i < |ledger| && ledger <= longer
    ensures ChainOk(ledger, i, p, t) <==> ChainOk(longer, i, p, t)
    ensures EventOk(longer, i, p, t) ==> EventOk(ledger, i, p, t)
    ensures EventOk(ledger, i, p, t) && (i > 0 ==> !IsAnchor(ledger[i])) ==> EventOk(longer, i, p, t)
  {
    hide HeaderOk, PayloadOk, Padded, Decimal, Digest, HasFields;
    assert longer[i] == ledger[i];
    assert i > 0 ==> longer[i - 1] == ledger[i - 1];
  }

  lemma PrefixValid(ledger: seq<Json>, longer: seq<Json>, p: Patterns, t: Tools)
    requires ledger != [] && ledger <= longer && ValidLedger(longer, p, t)
    ensures ValidLedger(ledger, p, t)
    ensures |ledger| < |longer| ==> !Anchored(ledger)
  {
    hide EventOk;
    forall i | 0 <= i < |ledger|
      ensures EventOk(ledger, i, p, t)
    {
      SameEvent(ledger, longer, i, p, t);
    }
    if |ledger| < |longer| {
      NotAnchor(longer, |ledger| - 1, p, t);
    }
  }

  /** Only the last event of a valid ledger can be an anchor. */
  lemma NotAnchor(ledger: seq<Json>, i: nat, p: Patterns, t: Tools)
    requires ValidLedger(ledger, p, t) && i < |ledger| - 1
    ensures !IsAnchor(ledger[i])
  {
    assert EventOk(ledger, i, p, t);
  }

  /** A sealed event with an acceptable payload extends a valid ledger that is not anchored. */
  lemma ExtensionValid(ledger: seq<Json>, kind: Json, payload: Json, now: Json, p: Patterns, t: Tools)
    requires ValidLedger(ledger, p, t) && !Anchored(ledger) && p.timestamp(now)
    ensures ValidLedger(ledger + [NextEvent(ledger, kind, payload, now, t)], p, t) <==>
            payload.Obj? && PayloadOk(kind, payload, p)
  {
    hide HeaderOk, PayloadOk, Padded, Decimal, Digest, EventOk;
    var e := NextEvent(ledger, kind, payload, now, t);
    var longer := ledger + [e];
    NextEventFields(ledger, kind, payload, now, t);
    forall i | 0 <= i < |ledger|
      ensures EventOk(longer, i, p, t)
    {
      if i < |ledger| - 1 {
        NotAnchor(ledger, i, p, t);
      }
      SameEvent(ledger, longer, i, p, t);
    }
    LastEvent(ledger, longer, kind, payload, now, p, t);
  }

  lemma LastEvent(ledger: seq<Json>, longer: seq<Json>, kind: Json, payload: Json, now: Json, p: Patterns, t: Tools)
    requires ledger != [] && longer == ledger + [NextEvent(ledger, kind, payload, now, t)] && p.timestamp(now)
    ensures EventOk(longer, |ledger|, p, t) <==> payload.Obj? && PayloadOk(kind, payload, p)
  {
    hide HeaderOk, PayloadOk, Padded, Decimal, Digest, NextEvent;
    NextEventFields(ledger, kind, payload, now, t);
  }

  // ---- The tail determines the ledger ----------------------------------------------------------

  /** An event is its unsigned part and its hash. */
  lemma SameParts(e: Json, f: Json)
    requires HasFields(e, ENVELOPE) && HasFields(f, ENVELOPE)
    requires Unsigned(e) == Unsigned(f) && Get(e, "event_hash") == Get(f, "event_hash")
    ensures e == f
  {
    forall k | k in ENVELOPE
      ensures e.fields[k] == f.fields[k]
    {
      if k != "event_hash" {
        assert k in Unsigned(e).fields && k in Unsigned(f).fields;
      }
    }
    assert e.fields == f.fields;
  }

  /** The text whose digest the event carries. */
  function HashedText(e: Json, t: Tools): string {
    t.compact(Unsigned(e))
  }

  /** Two valid ledgers with the same tail hash are the same event for event, or an event of the one and an event of the
      other have different texts with the same digest. */
  lemma {:induction false} TailDeterminesLedger(l: seq<Json>, m: seq<Json>, p: Patterns, t: Tools)
    returns (i: nat, j: nat)
    requires Faithful(t) && ValidLedger(l, p, t) && ValidLedger(m, p, t)
    requires PreviousHash(l, |l|) == PreviousHash(m, |m|)
    ensures i < |l| && j < |m|
    ensures l == m || (HashedText(l[i], t) != HashedText(m[j], t) && t.sha256(HashedText(l[i], t)) == t.sha256(HashedText(m[j], t)))
    decreases |l|
  {
    hide ValidLedger, Faithful;
    ChainedAt(l, p, t);
    ChainedAt(m, p, t);
    var e, f := l[|l| - 1], m[|m| - 1];
    i, j := |l| - 1, |m| - 1;
    if HashedText(e, t) == HashedText(f, t) {
      CompactInjective(Unsigned(e), Unsigned(f), t);
      SameParts(e, f);
      assert l == l[..|l| - 1] + [e] && m == m[..|m| - 1] + [f];
      if |l| > 1 && |m| > 1 {
        PrefixValid(l[..|l| - 1], l, p, t);
        PrefixValid(m[..|m| - 1], m, p, t);
        i, j := TailDeterminesLedger(l[..|l| - 1], m[..|m| - 1], p, t);
      } else {
        FirstLink(l, p, t);
        FirstLink(m, p, t);
      }
    }
  }

  lemma CompactInjective(v: Json, w: Json, t: Tools)
    requires Faithful(t) && t.compact(v) == t.compact(w)
    ensures v == w
  {
    assert t.compact(v) == Print(v, "") && t.compact(w) == Print(w, "");
    PrintInjective(v, w, "");
  }

  /** The last event of a valid ledger carries its own digest and the tail of the rest. */
  lemma ChainedAt(l: seq<Json>, p: Patterns, t: Tools)
    requires ValidLedger(l, p, t)
    ensures l != [] && HasFields(l[|l| - 1], ENVELOPE)
    ensures PreviousHash(l, |l|) == Str(t.sha256(t.compact(Unsigned(l[|l| - 1]))))
    ensures Get(l[|l| - 1], "previous_hash") == PreviousHash(l[..|l| - 1], |l| - 1)
  {
    hide ContentOk;
    assert EventOk(l, |l| - 1, p, t);
  }

  /** Only the first event follows nothing. */
  lemma FirstLink(l: seq<Json>, p: Patterns, t: Tools)
    requires ValidLedger(l, p, t)
    ensures Get(l[|l| - 1], "previous_hash").Null? <==> |l| == 1
  {
    hide ContentOk;
    assert EventOk(l, |l| - 1, p, t);
    if |l| > 1 {
      assert EventOk(l, |l| - 2, p, t);
    }
  }
}
