/** The one transcript that completes an operator drill, and which ledgers can still reach it. */
module DrillScript {
  import opened Json
  import opened Options
  import opened DrillEvents

  // ---- Completion ------------------------------------------------------------------------------

  function WithoutAnchors(events: seq<Json>): (local: seq<Json>)
    ensures |local| <= |events|
  {
    if events == [] then []
    else (if IsAnchor(events[0]) then [] else [events[0]]) + WithoutAnchors(events[1..])
  }

  /** The event reports the step, judged by its type and its code alone. */
  predicate IsStep(e: Json, s: Step) {
    && Get(e, "event_type") == Str(KindText(KindOf(s)))
    && Get(Get(e, "payload"), CodeField(KindOf(s))) == Str(StepText(s))
  }

  /** The events report the script, as far as they go. */
  predicate OnScript(events: seq<Json>) {
    |events| <= |SCRIPT| && forall i | 0 <= i < |events| :: IsStep(events[i], SCRIPT[i])
  }

  /** What `validate_completion` asks of the payload that closes the cleanup. */
  const CLEANED: Json := Obj(map["cleanup_code" := Str("TASK_RESOURCES_ABSENT"), "outcome" := Str("COMPLETE"),
                                 "resource_count" := ZERO])

  predicate CompletesStep(e: Json, s: Step) {
    var payload := Get(e, "payload");
    match KindOf(s)
    case AutomatedResult => Get(payload, "check_code") == Str(StepText(s))
    case DecisionProposal =>
      && Get(payload, "decision_code") == Str(StepText(s)) && Get(payload, "outcome") == Str("PROPOSED")
      && Get(payload, "participant_code") == Str("RISHAVT") && Get(payload, "role_code") == Str(Role(s))
    case Cleanup => payload == CLEANED
  }

  /** `validate_completion`. */
  predicate Completed(ledger: seq<Json>): (ok: bool)
    requires ledger != []
    ensures ok ==> |ledger| > |SCRIPT|
  {
    var local := WithoutAnchors(ledger[1..]);
    && |local| == |SCRIPT|
    && (forall i | 0 <= i < |SCRIPT| :: Get(local[i], "event_type") == Str(KindText(KindOf(SCRIPT[i]))))
    && forall i | 0 <= i < |SCRIPT| :: CompletesStep(local[i], SCRIPT[i])
  }

  /** The events after the header, without the closing anchor. */
  function Local(ledger: seq<Json>): seq<Json>
    requires ledger != []
  {
    if |ledger| > 1 && Anchored(ledger) then ledger[1..|ledger| - 1] else ledger[1..]
  }

  lemma {:induction false} WithoutAnchorsAll(events: seq<Json>)
    requires forall i | 0 <= i < |events| - 1 :: !IsAnchor(events[i])
    ensures WithoutAnchors(events) == if Anchored(events) then events[..|events| - 1] else events
  {
    if |events| > 1 {
      WithoutAnchorsAll(events[1..]);
      var rest := WithoutAnchors(events[1..]);
      assert WithoutAnchors(events) == [events[0]] + rest;
      assert events == [events[0]] + events[1..];
      assert events[..|events| - 1] == [events[0]] + events[1..][..|events| - 2];
    } else if |events| == 1 {
      assert events[1..] == [];
    }
  }

  lemma LocalEvents(ledger: seq<Json>, p: Patterns, t: Tools)
    requires ValidLedger(ledger, p, t)
    ensures WithoutAnchors(ledger[1..]) == Local(ledger)
    ensures forall i | 0 <= i < |Local(ledger)| :: !IsAnchor(Local(ledger)[i])
  {
    hide EventOk, IsAnchor;
    forall i | 0 <= i < |ledger| - 1
      ensures !IsAnchor(ledger[i])
    {
      NotAnchor(ledger, i, p, t);
    }
    assert forall i | 0 <= i < |ledger[1..]| - 1 :: ledger[1..][i] == ledger[i + 1];
    WithoutAnchorsAll(ledger[1..]);
  }

  lemma StepsDiffer(s: Step, u: Step)
    ensures StepText(s) == StepText(u) ==> s == u
  {
  }

  lemma KindsDiffer(j: Kind, k: Kind)
    ensures KindText(j) == KindText(k) ==> j == k
    ensures Str(KindText(j)) != ANCHOR
  {
  }

  /** In a valid ledger an event that names a step reports it in full. */
  lemma StepReported(ledger: seq<Json>, i: nat, s: Step, p: Patterns, t: Tools)
    requires ValidLedger(ledger, p, t) && 0 < i < |ledger| && IsStep(ledger[i], s)
    ensures Reports(Get(ledger[i], "payload"), s, p)
  {
    hide Reports, Safe, AnchorOk, KindText, StepText, ChainOk;
    assert EventOk(ledger, i, p, t);
    var kind, payload := Get(ledger[i], "event_type"), Get(ledger[i], "payload");
    KindsDiffer(KindOf(s), KindOf(s));
    var u: Step :| kind == Str(KindText(KindOf(u))) && Reports(payload, u, p);
    KindsDiffer(KindOf(s), KindOf(u));
    StepsDiffer(s, u);
    ReportsCode(payload, u, p);
  }

  lemma ReportsCode(v: Json, s: Step, p: Patterns)
    requires Reports(v, s, p)
    ensures Get(v, CodeField(KindOf(s))) == Str(StepText(s))
  {
  }

  lemma ReportCompletes(e: Json, s: Step, p: Patterns)
    requires Reports(Get(e, "payload"), s, p)
    ensures CompletesStep(e, s)
  {
    hide Observes, StepText, Role;
    if KindOf(s) == Cleanup {
      var payload := Get(e, "payload");
      assert s == ResourcesAbsent;
      CleanedOnly(payload);
    }
  }

  lemma CleanedOnly(v: Json)
    requires HasFields(v, {"cleanup_code", "outcome", "resource_count"})
    requires Get(v, "cleanup_code") == Str(StepText(ResourcesAbsent)) && Get(v, "outcome") == Str("COMPLETE")
    requires Get(v, "resource_count") == ZERO
    ensures v == CLEANED
  {
    assert v.fields == CLEANED.fields;
  }

  lemma CompletesNames(e: Json, s: Step)
    requires Get(e, "event_type") == Str(KindText(KindOf(s))) && CompletesStep(e, s)
    ensures IsStep(e, s)
  {
  }

  /** For a valid ledger the completion check amounts to this: the local events name the twelve steps, in order. */
  lemma CompletedIsTheScript(ledger: seq<Json>, p: Patterns, t: Tools)
    requires ValidLedger(ledger, p, t)
    ensures Completed(ledger) <==> OnScript(Local(ledger)) && |Local(ledger)| == |SCRIPT|
  {
    hide EventOk, WithoutAnchors, CompletesStep, IsStep, Local, SCRIPT;
    LocalEvents(ledger, p, t);
    var local := Local(ledger);
    if |local| == |SCRIPT| {
      forall i | 0 <= i < |SCRIPT|
        ensures IsStep(local[i], SCRIPT[i]) <==>
                Get(local[i], "event_type") == Str(KindText(KindOf(SCRIPT[i]))) && CompletesStep(local[i], SCRIPT[i])
      {
        StepCompleted(ledger, i, SCRIPT[i], p, t);
      }
    }
  }

  lemma StepCompleted(ledger: seq<Json>, i: nat, s: Step, p: Patterns, t: Tools)
    requires ValidLedger(ledger, p, t) && i < |Local(ledger)|
    ensures IsStep(Local(ledger)[i], s) <==>
            Get(Local(ledger)[i], "event_type") == Str(KindText(KindOf(s))) && CompletesStep(Local(ledger)[i], s)
  {
    hide EventOk, CompletesStep, KindText, StepText, CodeField, IsNumeral;
    var e := Local(ledger)[i];
    assert e == ledger[i + 1];
    if IsStep(e, s) {
      StepReported(ledger, i + 1, s, p, t);
      ReportCompletes(e, s, p);
    }
    if Get(e, "event_type") == Str(KindText(KindOf(s))) && CompletesStep(e, s) {
      CompletesNames(e, s);
    }
  }

  /** A complete ledger has its header, the twelve steps, and the anchor once it is closed. */
  lemma CompletedLength(ledger: seq<Json>, p: Patterns, t: Tools)
    requires ValidLedger(ledger, p, t) && Completed(ledger)
    ensures |ledger| == if Anchored(ledger) then 14 else 13
  {
    hide EventOk, Completed, OnScript;
    CompletedIsTheScript(ledger, p, t);
    HeaderNotAnchor(ledger, p, t);
  }

  lemma HeaderNotAnchor(ledger: seq<Json>, p: Patterns, t: Tools)
    requires ValidLedger(ledger, p, t)
    ensures !IsAnchor(ledger[0])
  {
  }

  predicate Passes(e: Json, code: string) {
    Get(e, "event_type") == Str("automated_result") && Get(Get(e, "payload"), "check_code") == Str(code)
  }

  predicate Proposes(e: Json, code: string, role: string) {
    && Get(e, "event_type") == Str("decision_proposal") && Get(Get(e, "payload"), "decision_code") == Str(code)
    && Get(Get(e, "payload"), "outcome") == Str("PROPOSED")
    && Get(Get(e, "payload"), "participant_code") == Str("RISHAVT")
    && Get(Get(e, "payload"), "role_code") == Str(role)
  }

  predicate Cleans(e: Json) {
    && Get(e, "event_type") == Str("cleanup")
    && Get(Get(e, "payload"), "cleanup_code") == Str("TASK_RESOURCES_ABSENT")
    && Get(Get(e, "payload"), "outcome") == Str("COMPLETE") && Get(Get(e, "payload"), "resource_count") == Num("0")
  }

  /** The checks of a completed drill in their order, and its decisions with the roles that propose them. */
  const CHECKS: seq<string> := ["METRICS_AUTH", "PROXY_SPOOF", "RESTORE_FAULT", "STORAGE_INTERRUPT", "DECOMMISSION_RETRY"]
  const DECIDED: seq<string> := ["ROTATE_CREDENTIAL", "REVOKE_CREDENTIAL", "ESCALATE_PERMISSION_LEAK",
                                 "ABORT_FAILED_RESTORE", "RESUME_STORAGE", "ESCALATE_METRICS_PROXY"]
  const ROLES: seq<string> := ["SECURITY_OPERATOR", "SECURITY_OPERATOR", "RELEASE_OWNER", "RESTORE_OPERATOR",
                               "STORAGE_OPERATOR", "PLATFORM_OPERATOR"]

  /** The transcript of a completed drill. */
  predicate Transcript(events: seq<Json>) {
    && |events| == 12
    && (forall i | 0 <= i < 5 :: Passes(events[i], CHECKS[i]))
    && (forall i | 5 <= i < 11 :: Proposes(events[i], DECIDED[i - 5], ROLES[i - 5]))
    && Cleans(events[11])
  }

  /** A step of the script is judged as the event of the transcript in its place. */
  lemma TranscriptStep(e: Json, i: nat)
    requires i < 12
    ensures Get(e, "event_type") == Str(KindText(KindOf(SCRIPT[i]))) && CompletesStep(e, SCRIPT[i]) ==>
            if i < 5 then Passes(e, CHECKS[i]) else if i < 11 then Proposes(e, DECIDED[i - 5], ROLES[i - 5]) else Cleans(e)
    ensures (if i < 5 then Passes(e, CHECKS[i]) else if i < 11 then Proposes(e, DECIDED[i - 5], ROLES[i - 5]) else Cleans(e))
            ==> IsStep(e, SCRIPT[i])
  {
    hide IsNumeral;
  }

  /** A valid ledger passes the completion check exactly when what stands between its header and its anchor is the
      transcript. */
  lemma CompletedTranscript(ledger: seq<Json>, p: Patterns, t: Tools)
    requires ValidLedger(ledger, p, t)
    ensures Completed(ledger) <==> Transcript(Local(ledger))
  {
    assert |CHECKS| == 5 && |DECIDED| == |ROLES| == 6;
    hide EventOk, WithoutAnchors, CompletesStep, Local, Passes, Proposes, Cleans, IsStep, KindText, CHECKS, DECIDED, ROLES;
    LocalEvents(ledger, p, t);
    CompletedIsTheScript(ledger, p, t);
    var local := Local(ledger);
    if |local| == 12 {
      forall i | 0 <= i < 12
        ensures Completed(ledger) ==>
          if i < 5 then Passes(local[i], CHECKS[i])
          else if i < 11 then Proposes(local[i], DECIDED[i - 5], ROLES[i - 5]) else Cleans(local[i])
        ensures Transcript(local) ==> IsStep(local[i], SCRIPT[i])
      {
        TranscriptStep(local[i], i);
      }
    }
  }

  // ---- Which ledgers can still be completed -----------------------------------------------------

  /** Every fixed text an event of the script writes. */
  const FIXED_TEXTS: seq<string> :=
    ["PASS", "PROPOSED", "COMPLETE", "RISHAVT", "DRILL_OBJECT_RESTORE_FAULT", "UNAVAILABLE", "AVAILABLE",
     "DECOMMISSION_STORAGE_CLEANUP_RETRY_REQUIRED", "FAILED", "COMPLETED", "NONE", "SECURITY_OPERATOR",
     "RELEASE_OWNER", "RESTORE_OPERATOR", "STORAGE_OPERATOR", "PLATFORM_OPERATOR", "PRODUCT_IMAGE",
     "SOURCE_BOUND_DEVELOPMENT_HELPER", "ELIGIBLE_FOR_HUMAN_ACCEPTANCE", "NOT_ACCEPTED"]

  /** The code pattern accepts every fixed text, and `id` is a correlation id. */
  ghost predicate Sane(p: Patterns, id: string) {
    && p.uuid(Str(id))
    && (forall x | x in FIXED_TEXTS :: p.code(x)) && forall s: Step :: p.code(StepText(s))
  }

  /** A payload that reports the step. */
  function StepPayload(s: Step, id: string): Json {
    match KindOf(s)
    case AutomatedResult =>
      Obj(map["check_code" := Str(StepText(s)), "outcome" := Str("PASS"), "correlation_id" := Str(id)] + Observation(s))
    case DecisionProposal =>
      Obj(map["decision_code" := Str(StepText(s)), "outcome" := Str("PROPOSED"), "correlation_id" := Str(id),
              "participant_code" := Str("RISHAVT"), "role_code" := Str(Role(s))])
    case Cleanup => CLEANED
  }

  function Observation(s: Step): map<string, Json> {
    match s
    case MetricsAuth => map["missing_token_code" := NOT_FOUND, "wrong_token_code" := NOT_FOUND,
                            "correct_token_code" := FOUND, "metric_sample_count" := ONE]
    case ProxySpoof => map["redirect_code" := MOVED]
    case RestoreFault => map["exit_code" := FAULT_EXIT, "marker_code" := Str("DRILL_OBJECT_RESTORE_FAULT"),
                             "writers_running" := ZERO]
    case StorageInterrupt => map["interrupted_state" := Str("UNAVAILABLE"), "resumed_state" := Str("AVAILABLE"),
                                 "failure_code" := Str("DECOMMISSION_STORAGE_CLEANUP_RETRY_REQUIRED")]
    case _ => map["initial_state" := Str("FAILED"), "final_state" := Str("COMPLETED"), "attempt_delta" := ONE,
                  "initial_error_code" := Str("DECOMMISSION_STORAGE_CLEANUP_RETRY_REQUIRED"),
                  "final_error_code" := Str("NONE")]
  }

  predicate FieldsSafe(m: map<string, Json>, p: Patterns) {
    forall k | k in m :: Safe(m[k], p)
  }

  lemma ObservationSafe(s: Step, p: Patterns, id: string)
    requires Sane(p, id)
    ensures FieldsSafe(Observation(s), p)
  {
    hide IsNumeral;
  }

  lemma ObservationFields(s: Step)
    ensures Observation(s).Keys == ObservedFields(s)
  {
  }

  /** The members of a payload that reports a check: the common ones and what was observed. */
  lemma CheckPayload(s: Step, id: string)
    requires KindOf(s) == AutomatedResult
    ensures HasFields(StepPayload(s, id), {"check_code", "outcome", "correlation_id"} + ObservedFields(s))
    ensures forall k | k in Observation(s) :: Get(StepPayload(s, id), k) == Observation(s)[k]
  {
    hide StepText, Observation, ObservedFields;
    ObservationNames(s);
    ObservationFields(s);
  }

  lemma MetricsObserved(id: string)
    ensures Observes(StepPayload(MetricsAuth, id), MetricsAuth)
  {
    hide StepText, StepPayload, ObservedFields, HasFields, IsNumeral;
    CheckPayload(MetricsAuth, id);
  }

  lemma ProxyObserved(id: string)
    ensures Observes(StepPayload(ProxySpoof, id), ProxySpoof)
  {
    hide StepText, StepPayload, ObservedFields, HasFields, IsNumeral;
    CheckPayload(ProxySpoof, id);
  }

  lemma RestoreObserved(id: string)
    ensures Observes(StepPayload(RestoreFault, id), RestoreFault)
  {
    hide StepText, StepPayload, ObservedFields, HasFields, IsNumeral;
    CheckPayload(RestoreFault, id);
  }

  lemma StorageObserved(id: string)
    ensures Observes(StepPayload(StorageInterrupt, id), StorageInterrupt)
  {
    hide StepText, StepPayload, ObservedFields, HasFields, IsNumeral;
    CheckPayload(StorageInterrupt, id);
  }

  lemma RetryObservation()
    ensures var m := Observation(DecommissionRetry);
            "initial_state" in m && m["initial_state"] == Str("FAILED")
            && "final_state" in m && m["final_state"] == Str("COMPLETED")
            && "initial_error_code" in m
            && m["initial_error_code"] == Str("DECOMMISSION_STORAGE_CLEANUP_RETRY_REQUIRED")
            && "final_error_code" in m && m["final_error_code"] == Str("NONE")
            && "attempt_delta" in m && m["attempt_delta"] == ONE
  {
    hide IsNumeral;
  }

  lemma RetryObserved(id: string)
    ensures Observes(StepPayload(DecommissionRetry, id), DecommissionRetry)
  {
    hide StepText, StepPayload, ObservedFields, HasFields, Observation, Get, IsNumeral;
    CheckPayload(DecommissionRetry, id);
    RetryObservation();
  }

  lemma CheckPayloadOk(s: Step, id: string)
    requires KindOf(s) == AutomatedResult
    ensures Observes(StepPayload(s, id), s)
  {
    hide Observes, StepPayload;
    match s {
      case MetricsAuth => MetricsObserved(id);
      case ProxySpoof => ProxyObserved(id);
      case RestoreFault => RestoreObserved(id);
      case StorageInterrupt => StorageObserved(id);
      case _ => RetryObserved(id);
    }
  }

  lemma AutomatedPayloadOk(s: Step, p: Patterns, id: string)
    requires Sane(p, id) && KindOf(s) == AutomatedResult
    ensures Safe(StepPayload(s, id), p) && Reports(StepPayload(s, id), s, p)
  {
    hide StepText, Observation, Observes, IsNumeral;
    ObservationSafe(s, p, id);
    CheckPayloadOk(s, id);
    ObservationNames(s);
  }

  lemma ObservationNames(s: Step)
    ensures "check_code" !in Observation(s) && "outcome" !in Observation(s) && "correlation_id" !in Observation(s)
  {
    hide Observation;
    ObservationFields(s);
  }

  lemma RoleFixed(s: Step)
    ensures Role(s) in FIXED_TEXTS
  {
  }

  lemma DecisionTextsSafe(s: Step, p: Patterns, id: string)
    requires Sane(p, id)
    ensures p.uuid(Str(id)) && p.code(StepText(s)) && p.code(Role(s)) && p.code("PROPOSED") && p.code("RISHAVT")
  {
    hide Role, StepText;
    RoleFixed(s);
    assert FIXED_TEXTS[1] in FIXED_TEXTS && FIXED_TEXTS[3] in FIXED_TEXTS;
  }

  lemma DecisionPayloadOk(s: Step, p: Patterns, id: string)
    requires Sane(p, id) && KindOf(s) == DecisionProposal
    ensures Safe(StepPayload(s, id), p) && Reports(StepPayload(s, id), s, p)
  {
    hide StepText, Role, Sane, IsNumeral;
    DecisionTextsSafe(s, p, id);
    DecisionMembers(s, id);
    hide StepPayload;
  }

  lemma DecisionMembers(s: Step, id: string)
    requires KindOf(s) == DecisionProposal
    ensures var v := StepPayload(s, id);
            HasFields(v, {"decision_code", "correlation_id", "outcome", "participant_code", "role_code"})
            && v.fields["decision_code"] == Str(StepText(s)) && v.fields["outcome"] == Str("PROPOSED")
            && v.fields["correlation_id"] == Str(id) && v.fields["participant_code"] == Str("RISHAVT")
            && v.fields["role_code"] == Str(Role(s))
  {
    hide StepText, Role;
  }

  lemma CleanupPayloadOk(p: Patterns, id: string)
    requires Sane(p, id)
    ensures Safe(StepPayload(ResourcesAbsent, id), p) && Reports(StepPayload(ResourcesAbsent, id), ResourcesAbsent, p)
  {
    hide IsNumeral;
    assert p.code(StepText(ResourcesAbsent));
  }

  lemma StepPayloadOk(s: Step, p: Patterns, id: string)
    requires Sane(p, id)
    ensures StepPayload(s, id).Obj? && PayloadOk(Str(KindText(KindOf(s))), StepPayload(s, id), p)
  {
    hide Sane, Safe, Reports, KindText, StepText, Observation;
    match KindOf(s) {
      case AutomatedResult => AutomatedPayloadOk(s, p, id);
      case DecisionProposal => DecisionPayloadOk(s, p, id);
      case Cleanup => CleanupPayloadOk(p, id);
    }
  }

  /** What one call of the tool appends. */
  datatype Append = Append(kind: string, payload: Json, now: Json)

  predicate IsLocalKind(kind: string) {
    kind == "automated_result" || kind == "decision_proposal" || kind == "cleanup"
  }

  predicate AppendOk(a: Append, p: Patterns) {
    IsLocalKind(a.kind) && PayloadOk(Str(a.kind), a.payload, p) && p.timestamp(a.now)
  }

  /** The ledger after appends that all succeed. */
  function AfterAppends(ledger: seq<Json>, appends: seq<Append>, t: Tools): seq<Json>
    decreases |appends|
  {
    if appends == [] then ledger
    else AfterAppends(ledger + [NextEvent(ledger, Str(appends[0].kind), appends[0].payload, appends[0].now, t)], appends[1..], t)
  }

  lemma PayloadIsObject(kind: Json, v: Json, p: Patterns)
    requires PayloadOk(kind, v, p)
    ensures v.Obj?
  {
    hide Safe;
  }

  lemma LocalIsNoAnchor(ledger: seq<Json>, kind: string, payload: Json, now: Json, t: Tools)
    requires IsLocalKind(kind)
    ensures !IsAnchor(NextEvent(ledger, Str(kind), payload, now, t))
  {
    hide NextEvent, Padded, Decimal, HasFields;
    NextEventFields(ledger, Str(kind), payload, now, t);
  }

  /** Appends keep a ledger valid and open, and extend it. */
  lemma {:induction false} AppendsKeep(ledger: seq<Json>, appends: seq<Append>, p: Patterns, t: Tools)
    requires ValidLedger(ledger, p, t) && !Anchored(ledger) && forall a | a in appends :: AppendOk(a, p)
    ensures ValidLedger(AfterAppends(ledger, appends, t), p, t) && !Anchored(AfterAppends(ledger, appends, t))
    ensures ledger <= AfterAppends(ledger, appends, t)
    decreases |appends|
  {
    hide EventOk, PayloadOk, NextEvent, IsAnchor, IsLocalKind;
    if appends != [] {
      var a := appends[0];
      assert AppendOk(a, p);
      PayloadIsObject(Str(a.kind), a.payload, p);
      ExtensionValid(ledger, Str(a.kind), a.payload, a.now, p, t);
      LocalIsNoAnchor(ledger, a.kind, a.payload, a.now, t);
      AppendsKeep(ledger + [NextEvent(ledger, Str(a.kind), a.payload, a.now, t)], appends[1..], p, t);
    }
  }

  /** The append of the next step of the script. */
  function NextStep(ledger: seq<Json>, id: string, now: Json): Append
    requires 0 < |ledger| <= |SCRIPT|
  {
    var s := SCRIPT[|ledger| - 1];
    Append(KindText(KindOf(s)), StepPayload(s, id), now)
  }

  lemma NextStepKeeps(ledger: seq<Json>, id: string, now: Json, p: Patterns, t: Tools)
    requires ValidLedger(ledger, p, t) && !Anchored(ledger) && |ledger| <= |SCRIPT| && OnScript(ledger[1..])
    requires Sane(p, id) && p.timestamp(now)
    ensures var a := NextStep(ledger, id, now);
            var longer := ledger + [NextEvent(ledger, Str(a.kind), a.payload, a.now, t)];
            AppendOk(a, p) && ValidLedger(longer, p, t) && !Anchored(longer) && OnScript(longer[1..])
  {
    hide EventOk, Sane, PayloadOk, KindText, StepText, StepPayload, NextEvent, SCRIPT, OnScript, IsStep, IsAnchor;
    var s := SCRIPT[|ledger| - 1];
    StepPayloadOk(s, p, id);
    KindsLocal(KindOf(s));
    ExtensionValid(ledger, Str(KindText(KindOf(s))), StepPayload(s, id), now, p, t);
    StepEvent(ledger, s, id, now, t);
    var longer := ledger + [NextEvent(ledger, Str(KindText(KindOf(s))), StepPayload(s, id), now, t)];
    assert longer[1..] == ledger[1..] + [longer[|ledger|]];
    ScriptNext(ledger[1..], longer[|ledger|]);
  }

  lemma KindsLocal(k: Kind)
    ensures IsLocalKind(KindText(k))
  {
  }

  lemma StepEvent(ledger: seq<Json>, s: Step, id: string, now: Json, t: Tools)
    ensures var e := NextEvent(ledger, Str(KindText(KindOf(s))), StepPayload(s, id), now, t);
            IsStep(e, s) && !IsAnchor(e)
  {
    hide KindText, StepText, StepPayload, NextEvent, Padded, Decimal, HasFields;
    NextEventFields(ledger, Str(KindText(KindOf(s))), StepPayload(s, id), now, t);
    KindsDiffer(KindOf(s), KindOf(s));
    PayloadNames(s, id);
  }

  lemma ScriptNext(events: seq<Json>, e: Json)
    requires OnScript(events) && |events| < |SCRIPT| && IsStep(e, SCRIPT[|events|])
    ensures OnScript(events + [e])
  {
    hide IsStep, SCRIPT;
  }

  lemma PayloadNames(s: Step, id: string)
    ensures Get(StepPayload(s, id), CodeField(KindOf(s))) == Str(StepText(s))
  {
    hide Observation;
    ObservationNames(s);
  }

  /** The appends all succeed, and the ledger is complete after them. */
  ghost predicate Completes(ledger: seq<Json>, appends: seq<Append>, p: Patterns, t: Tools) {
    && (forall a | a in appends :: AppendOk(a, p))
    && AfterAppends(ledger, appends, t) != [] && Completed(AfterAppends(ledger, appends, t))
  }

  /** An open ledger can be completed by appends exactly when its events are the first steps of the script. */
  lemma CompletableOnScript(ledger: seq<Json>, id: string, now: Json, p: Patterns, t: Tools)
    requires ValidLedger(ledger, p, t) && !Anchored(ledger) && Sane(p, id) && p.timestamp(now)
    ensures (exists appends :: Completes(ledger, appends, p, t)) <==> OnScript(ledger[1..])
  {
    hide EventOk, Completes, OnScript;
    if appends :| Completes(ledger, appends, p, t) {
      CompletesOnScript(ledger, appends, p, t);
    }
    if OnScript(ledger[1..]) {
      var appends := Complete(ledger, id, now, p, t);
    }
  }

  lemma CompletesOnScript(ledger: seq<Json>, appends: seq<Append>, p: Patterns, t: Tools)
    requires ValidLedger(ledger, p, t) && !Anchored(ledger) && Completes(ledger, appends, p, t)
    ensures OnScript(ledger[1..])
  {
    hide EventOk, Completed, IsStep, AppendOk, AfterAppends;
    AppendsKeep(ledger, appends, p, t);
    var whole := AfterAppends(ledger, appends, t);
    CompletedIsTheScript(whole, p, t);
    assert forall i | 0 <= i < |ledger[1..]| :: ledger[1..][i] == Local(whole)[i];
  }

  lemma {:induction false} Complete(ledger: seq<Json>, id: string, now: Json, p: Patterns, t: Tools)
    returns (appends: seq<Append>)
    requires ValidLedger(ledger, p, t) && !Anchored(ledger) && OnScript(ledger[1..])
    requires Sane(p, id) && p.timestamp(now)
    ensures Completes(ledger, appends, p, t)
    decreases |SCRIPT| + 1 - |ledger|
  {
    hide EventOk, Completed, IsStep, Sane, NextEvent, Anchored, StepPayload, KindText, AppendOk;
    if |ledger| == |SCRIPT| + 1 {
      appends := [];
      CompletedIsTheScript(ledger, p, t);
    } else {
      var a := NextStep(ledger, id, now);
      NextStepKeeps(ledger, id, now, p, t);
      var rest := Complete(ledger + [NextEvent(ledger, Str(a.kind), a.payload, a.now, t)], id, now, p, t);
      appends := [a] + rest;
      assert appends[1..] == rest;
    }
  }
}
