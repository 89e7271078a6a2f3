/** The ledger file of the operator drill: created, appended to under a lock, closed by one anchor, verified again. */
module DrillLedger {
  import opened Json
  import opened Options
  import opened DrillEvents
  import opened DrillScript
  import opened Text

  // ---- The file --------------------------------------------------------------------------------

  /** Where the first line ends, its newline included. */
  function LineEnd(content: string): (n: nat)
    ensures n <= |content| && (content != "" ==> n > 0)
  {
    if content == "" then 0 else if content[0] == '\n' then 1 else 1 + LineEnd(content[1..])
  }

  /** The events on the lines that are not blank; none if one of them does not parse. */
  function Read(content: string, t: Tools): Option<seq<Json>>
    decreases |content|
  {
    if content == "" then Some([])
    else
      WithLine(content[..LineEnd(content)], Read(content[LineEnd(content)..], t), t)
  }

  /** The events of a line followed by `rest`. */
  function WithLine(line: string, rest: Option<seq<Json>>, t: Tools): Option<seq<Json>> {
    if IsBlank(line, t) then rest
    else if t.parse(line).None? || rest.None? then None
    else Some([t.parse(line).value] + rest.value)
  }

  /** The events of both parts, if both can be read. */
  function Joined(a: Option<seq<Json>>, b: Option<seq<Json>>): Option<seq<Json>> {
    if a.None? || b.None? then None else Some(a.value + b.value)
  }

  lemma WithLineMore(line: string, some: Option<seq<Json>>, more: Option<seq<Json>>, t: Tools)
    ensures WithLine(line, Joined(some, more), t) == Joined(WithLine(line, some, t), more)
  {
    if !IsBlank(line, t) && t.parse(line).Some? && some.Some? && more.Some? {
      assert [t.parse(line).value] + (some.value + more.value) == ([t.parse(line).value] + some.value) + more.value;
    }
  }

  /** `_read_ledger`; the file is open in text mode. */
  function Accepted(content: string, p: Patterns, t: Tools): (r: Option<seq<Json>>)
    ensures r.Some? ==> ValidLedger(r.value, p, t)
  {
    var ledger := Read(Universal(content), t);
    if ledger.Some? && ValidLedger(ledger.value, p, t) then ledger else None
  }

  /** What this tool writes for a ledger. */
  function Rendered(ledger: seq<Json>, t: Tools): string {
    if ledger == [] then "" else t.line(ledger[0]) + "\n" + Rendered(ledger[1..], t)
  }

  lemma {:induction false} LineEndAt(line: string, rest: string)
    requires '\n' !in line
    ensures LineEnd(line + "\n" + rest) == |line| + 1
  {
    if line == "" {
      assert "" + "\n" + rest == "\n" + rest;
    } else {
      assert (line + "\n" + rest)[1..] == line[1..] + "\n" + rest;
      LineEndAt(line[1..], rest);
    }
  }

  /** One written line is read as the event it was written for. */
  lemma ReadLine(e: Json, rest: string, t: Tools)
    requires Faithful(t)
    ensures Read(t.line(e) + "\n" + rest, t) ==
            (var others := Read(rest, t); if others.None? then None else Some([e] + others.value))
  {
    var line := t.line(e);
    var content := line + "\n" + rest;
    PrintPrintable(e, " ");
    assert line == Print(e, " ");
    LineEndAt(line, rest);
    assert content[..|line| + 1] == line + "\n" && content[|line| + 1..] == rest;
    assert line[0] in line + "\n" && !t.space(line[0]);
    assert t.parse(line + "\n") == Some(e);
  }

  /** What this tool writes is read back as the same ledger. */
  lemma {:induction false} ReadRendered(ledger: seq<Json>, t: Tools)
    requires Faithful(t)
    ensures Read(Rendered(ledger, t), t) == Some(ledger)
  {
    if ledger != [] {
      ReadRendered(ledger[1..], t);
      ReadLine(ledger[0], Rendered(ledger[1..], t), t);
      assert ledger == [ledger[0]] + ledger[1..];
    }
  }

  lemma {:induction false} RenderedNext(ledger: seq<Json>, e: Json, t: Tools)
    ensures Rendered(ledger + [e], t) == Rendered(ledger, t) + (t.line(e) + "\n")
  {
    if ledger == [] {
      assert Rendered([e], t) == t.line(e) + "\n" + Rendered([], t);
    } else {
      RenderedNext(ledger[1..], e, t);
      assert (ledger + [e])[1..] == ledger[1..] + [e];
    }
  }

  lemma RenderedOne(e: Json, t: Tools)
    ensures Rendered([e], t) == t.line(e) + "\n"
  {
    assert [e][1..] == [] && Rendered([], t) == "";
  }

  /** Every line of the content is ended. */
  predicate Ended(content: string) {
    content != "" ==> content[|content| - 1] == '\n'
  }

  lemma {:induction false} LineEndBefore(content: string, more: string)
    requires content != "" && Ended(content)
    ensures LineEnd(content + more) == LineEnd(content)
  {
    if content[0] != '\n' {
      assert (content + more)[1..] == content[1..] + more;
      LineEndBefore(content[1..], more);
    }
  }

  /** Appending to ended lines appends to what is read. */
  lemma {:induction false} ReadMore(content: string, more: string, t: Tools)
    requires Ended(content)
    ensures Read(content + more, t) == Joined(Read(content, t), Read(more, t))
    decreases |content|
  {
    if content == "" {
      assert content + more == more;
      assert Read(more, t).Some? ==> [] + Read(more, t).value == Read(more, t).value;
    } else {
      var n := LineEnd(content);
      LineEndBefore(content, more);
      var line, rest := content[..n], content[n..];
      assert (content + more)[..n] == line && (content + more)[n..] == rest + more;
      assert Ended(rest);
      WithLineMore(line, Read(rest, t), Read(more, t), t);
      hide WithLine;
      ReadMore(rest, more, t);
    }
  }

  /** What follows the last newline. */
  function LastLine(content: string): string {
    if Ended(content) then ""
    else LastLine(content[..|content| - 1]) + [content[|content| - 1]]
  }

  lemma {:induction false} BeforeLastLine(content: string) returns (ended: string)
    ensures content == ended + LastLine(content) && Ended(ended) && '\n' !in LastLine(content)
  {
    ended := content;
    if !Ended(content) {
      ended := BeforeLastLine(content[..|content| - 1]);
      assert content == content[..|content| - 1] + [content[|content| - 1]];
    }
  }

  lemma {:induction false} NoLineEnd(line: string)
    requires '\n' !in line
    ensures LineEnd(line) == |line|
  {
    if line != "" {
      NoLineEnd(line[1..]);
    }
  }

  /** A line alone is read as what is on it. */
  lemma ReadAlone(line: string, t: Tools)
    requires '\n' !in line
    ensures Read(line + "\n", t) == WithLine(line + "\n", Some([]), t)
    ensures Read(line, t) == if line == "" then Some([]) else WithLine(line, Some([]), t)
  {
    LineEndAt(line, "");
    var ended := line + "\n";
    assert ended + "" == ended && ended[..|ended|] == ended && ended[|ended|..] == "";
    NoLineEnd(line);
    assert line[..|line|] == line && line[|line|..] == "";
  }

  /** An event written behind a line that is not ended is on that line. */
  lemma ReadGlued(line: string, e: Json, t: Tools)
    requires Faithful(t) && e.Obj? && '\n' !in line && Read(line, t).Some?
    ensures Read(line + (t.line(e) + "\n"), t) == if IsJsonBlank(line) then Some(Read(line, t).value + [e]) else None
  {
    var glued := line + (t.line(e) + "\n");
    assert glued == (line + t.line(e)) + "\n";
    LineShows(line, e, t);
    ReadAlone(line + t.line(e), t);
    ReadAlone(line, t);
    hide Read;
    assert t.parse(glued) == if IsJsonBlank(line) then Some(e) else None by {
      GluedParse(line, e, t);
    }
    assert [e] + [] == [e] && [] + [e] == [e];
    assert IsJsonBlank(line) ==> IsBlank(line, t);
  }

  lemma LineShows(line: string, e: Json, t: Tools)
    requires Faithful(t)
    ensures '\n' !in t.line(e) && !IsBlank(line + (t.line(e) + "\n"), t)
  {
    PrintPrintable(e, " ");
    assert t.line(e) == Print(e, " ");
    assert t.line(e)[0] in line + (t.line(e) + "\n") && !t.space(t.line(e)[0]);
  }

  lemma GluedParse(line: string, e: Json, t: Tools)
    requires Faithful(t) && e.Obj? && (IsBlank(line, t) || t.parse(line).Some?)
    ensures t.parse(line + (t.line(e) + "\n")) == if IsJsonBlank(line) then Some(e) else None
  {
    assert IsJsonBlank(line) ==> IsBlank(line, t);
  }

  lemma SplitAppended(ended: string, last: string, e: Json, t: Tools)
    requires Faithful(t) && e.Obj? && Ended(ended) && '\n' !in last && Read(ended + last, t).Some?
    ensures Read(ended + (last + (t.line(e) + "\n")), t) ==
            if IsJsonBlank(last) then Some(Read(ended + last, t).value + [e]) else None
  {
    hide Read, Faithful, IsJsonBlank;
    ReadMore(ended, last, t);
    ReadGlued(last, e, t);
    ReadMore(ended, last + (t.line(e) + "\n"), t);
    if IsJsonBlank(last) {
      assert Read(ended, t).value + (Read(last, t).value + [e]) == (Read(ended, t).value + Read(last, t).value) + [e];
    }
  }

  /** After an append the events and the new one are read, unless the last line was not ended and holds anything but
      white space of JSON: then nothing can be read any more. */
  lemma ReadAppended(content: string, e: Json, t: Tools)
    requires Faithful(t) && e.Obj? && Read(content, t).Some?
    ensures Read(content + (t.line(e) + "\n"), t) ==
            if IsJsonBlank(LastLine(content)) then Some(Read(content, t).value + [e]) else None
  {
    hide Read, Faithful, IsJsonBlank, LastLine, Ended;
    var ended := BeforeLastLine(content);
    assert content + (t.line(e) + "\n") == ended + (LastLine(content) + (t.line(e) + "\n"));
    SplitAppended(ended, LastLine(content), e, t);
  }

  /** What this tool writes holds no carriage return. */
  lemma {:induction false} RenderedPlain(ledger: seq<Json>, t: Tools)
    requires Faithful(t)
    ensures Universal(Rendered(ledger, t)) == Rendered(ledger, t) && '\r' !in Rendered(ledger, t)
  {
    if ledger != [] {
      RenderedPlain(ledger[1..], t);
      LinePlain(ledger[0], t);
    }
    UniversalPlain(Rendered(ledger, t));
  }

  lemma LinePlain(e: Json, t: Tools)
    requires Faithful(t)
    ensures '\r' !in t.line(e) + "\n" && t.line(e) != "" && t.line(e)[0] != '\n'
  {
    PrintPrintable(e, " ");
    assert t.line(e) == Print(e, " ");
  }

  // ---- What an anchor binds --------------------------------------------------------------------

  function HeaderPayload(ledger: seq<Json>): Json
    requires ledger != []
  {
    Get(ledger[0], "payload")
  }

  function HeaderBoundary(ledger: seq<Json>): Json
    requires ledger != []
  {
    Get(HeaderPayload(ledger), "release_boundary")
  }

  predicate Eligible(ledger: seq<Json>)
    requires ledger != []
  {
    Get(HeaderBoundary(ledger), "status") == Str("ELIGIBLE_FOR_HUMAN_ACCEPTANCE")
  }

  function DecisionCodes(ledger: seq<Json>): seq<Json> {
    if ledger == [] then [] else DecisionCode(ledger[0]) + DecisionCodes(ledger[1..])
  }

  function DecisionCode(e: Json): seq<Json> {
    if Get(e, "event_type") == Str("decision_proposal") then [Get(Get(e, "payload"), "decision_code")] else []
  }

  /** The anchor names the drill, the commits, the decisions, the tail of the chain and the digest of the file. */
  predicate Binds(anchor: Json, ledger: seq<Json>, fileDigest: string, t: Tools)
    requires ledger != []
  {
    && Get(anchor, "drill_id") == Get(HeaderPayload(ledger), "drill_id")
    && Get(anchor, "ledger_sha256") == Str(fileDigest)
    && Get(anchor, "tail_hash") == PreviousHash(ledger, |ledger|)
    && Get(anchor, "product_source_commit") == Get(HeaderBoundary(ledger), "product_source_commit")
    && Get(anchor, "operator_source_commit") == Get(HeaderBoundary(ledger), "operator_source_commit")
    && Get(anchor, "decision_code_hash") == Str(t.sha256(t.compact(Arr(DecisionCodes(ledger)))))
  }

  lemma {:induction false} CodesJoin(a: seq<Json>, b: seq<Json>)
    ensures DecisionCodes(a + b) == DecisionCodes(a) + DecisionCodes(b)
  {
    hide DecisionCode;
    if a == [] {
      assert a + b == b;
    } else {
      assert (a + b)[1..] == a[1..] + b;
      CodesJoin(a[1..], b);
      assert (a + b)[0] == a[0];
    }
  }

  lemma OneCode(e: Json)
    ensures DecisionCodes([e]) == if Get(e, "event_type") == Str("decision_proposal")
                                  then [Get(Get(e, "payload"), "decision_code")] else []
  {
    assert [e][1..] == [] && DecisionCodes([]) == [];
  }

  lemma {:induction false} NoCodes(events: seq<Json>)
    requires forall e | e in events :: Get(e, "event_type") != Str("decision_proposal")
    ensures DecisionCodes(events) == []
  {
    if events != [] {
      NoCodes(events[1..]);
    }
  }

  lemma {:induction false} AllCodes(events: seq<Json>, codes: seq<string>)
    requires |events| == |codes|
    requires forall i | 0 <= i < |events| ::
      && Get(events[i], "event_type") == Str("decision_proposal")
      && Get(Get(events[i], "payload"), "decision_code") == Str(codes[i])
    ensures DecisionCodes(events) == TextItems(codes)
  {
    if events != [] {
      AllCodes(events[1..], codes[1..]);
      assert TextItems(codes) == [Str(codes[0])] + TextItems(codes[1..]);
    }
  }

  function TextItems(texts: seq<string>): seq<Json> {
    seq(|texts|, i requires 0 <= i < |texts| => Str(texts[i]))
  }

  lemma TranscriptCodes(events: seq<Json>)
    requires Transcript(events)
    ensures DecisionCodes(events) == TextItems(DECIDED)
  {
    hide CHECKS, ROLES, DecisionCodes, TextItems;
    assert |DECIDED| == 6;
    hide DECIDED;
    assert events == events[..5] + (events[5..11] + events[11..]);
    CodesJoin(events[..5], events[5..11] + events[11..]);
    CodesJoin(events[5..11], events[11..]);
    NoCodes(events[..5]);
    assert events[11..] == [events[11]];
    NoCodes(events[11..]);
    AllCodes(events[5..11], DECIDED);
    assert [] + (TextItems(DECIDED) + []) == TextItems(DECIDED);
  }

  /** The decisions that are hashed for a complete ledger are those of the transcript. */
  lemma CompletedCodes(ledger: seq<Json>, p: Patterns, t: Tools)
    requires ValidLedger(ledger, p, t) && Completed(ledger)
    ensures DecisionCodes(ledger) == TextItems(DECIDED)
  {
    hide EventOk, Completed, Transcript, DECIDED, DecisionCodes, TextItems;
    CompletedTranscript(ledger, p, t);
    var local := Local(ledger);
    TranscriptCodes(local);
    var rest := ledger[1 + |local|..];
    assert ledger == [ledger[0]] + (local + rest);
    CodesJoin([ledger[0]], local + rest);
    CodesJoin(local, rest);
    OneCode(ledger[0]);
    if |rest| > 0 {
      assert rest == [ledger[|ledger| - 1]] && IsAnchor(ledger[|ledger| - 1]);
      OneCode(ledger[|ledger| - 1]);
    } else {
      assert rest == [];
      NoCodes(rest);
    }
  }

  /** The anchor of a complete ledger, member by member. */
  predicate Anchors(anchor: Json, header: Json, tail: Json, fileDigest: string, t: Tools) {
    && Get(anchor, "drill_id") == Get(Get(header, "payload"), "drill_id")
    && Get(anchor, "product_source_commit") == Get(Get(Get(header, "payload"), "release_boundary"), "product_source_commit")
    && Get(anchor, "operator_source_commit")
         == Get(Get(Get(header, "payload"), "release_boundary"), "operator_source_commit")
    && Get(anchor, "ledger_sha256") == Str(fileDigest) && Get(anchor, "tail_hash") == Get(tail, "event_hash")
    && Get(anchor, "decision_code_hash") == Str(t.sha256(t.compact(Arr(TextItems(DECIDED)))))
  }

  /** What binds an anchor to a complete ledger is the drill and the two commits of its header, the hash of its last
      event, the digest of the file and the digest of the six decisions. */
  lemma BindsMembers(anchor: Json, ledger: seq<Json>, fileDigest: string, p: Patterns, t: Tools)
    requires ValidLedger(ledger, p, t) && Completed(ledger)
    ensures Binds(anchor, ledger, fileDigest, t) <==>
            Anchors(anchor, ledger[0], ledger[|ledger| - 1], fileDigest, t)
  {
    hide ValidLedger, Completed, DECIDED, DecisionCodes, TextItems;
    CompletedCodes(ledger, p, t);
  }

  /** What finalising checks of the file and the anchor, apart from the external proof. */
  predicate Finalisable(content: string, anchor: Json, p: Patterns, t: Tools) {
    var ledger := Accepted(content, p, t);
    && PayloadOk(ANCHOR, anchor, p) && ledger.Some? && !Anchored(ledger.value)
    && Eligible(ledger.value) && Completed(ledger.value) && Binds(anchor, ledger.value, t.sha256(content), t)
  }

  /** What the final validation checks, apart from the external proof: the digest is that of the events before the
      anchor, rendered again. */
  predicate FinalOk(content: string, p: Patterns, t: Tools) {
    var ledger := Accepted(content, p, t);
    && ledger.Some? && Anchored(ledger.value) && Eligible(ledger.value) && Completed(ledger.value)
    && (var before := ledger.value[..|ledger.value| - 1];
        Binds(Get(ledger.value[|ledger.value| - 1], "payload"), before, t.sha256(Rendered(before, t)), t))
  }

  /** The file after one more sealed event. */
  function Appended(content: string, ledger: seq<Json>, kind: Json, payload: Json, now: Json, t: Tools): string {
    content + (t.line(NextEvent(ledger, kind, payload, now, t)) + "\n")
  }

  class LedgerFile {
    var content: string
    const p: Patterns
    const t: Tools

    constructor (content: string, p: Patterns, t: Tools)
      ensures this.content == content && this.p == p && this.t == t
    {
      this.content, this.p, this.t := content, p, t;
    }

    /** `append_event`: under the lock the file is read and validated, and one sealed line is added.  The second
        validation of the source never fails. */
    method Append(kind: string, payload: Json, now: Json) returns (ok: bool)
      requires p.timestamp(now)
      modifies this
      ensures ok <==> IsLocalKind(kind) && PayloadOk(Str(kind), payload, p) && Accepted(old(content), p, t).Some?
                      && !Anchored(Accepted(old(content), p, t).value)
      ensures content == if ok then Appended(old(content), Accepted(old(content), p, t).value, Str(kind), payload, now, t)
                         else old(content)
    {
      hide PayloadOk, Accepted, NextEvent, EventOk, Anchored;
      if !IsLocalKind(kind) || !PayloadOk(Str(kind), payload, p) {
        return false;
      }
      var read := Accepted(content, p, t);
      if read.None? || Anchored(read.value) {
        return false;
      }
      var event := NextEvent(read.value, Str(kind), payload, now, t);
      ok := ValidateEvidence(read.value + [event], false, p, t);
      PayloadIsObject(Str(kind), payload, p);
      ExtensionValid(read.value, Str(kind), payload, now, p, t);
      content := Appended(content, read.value, Str(kind), payload, now, t);
    }

    /** `finalize_with_github_anchor`; `attested` is the answer of the external proof. */
    method Finalize(anchor: Json, attested: bool, now: Json) returns (ok: bool)
      requires p.timestamp(now)
      modifies this
      ensures ok <==> Finalisable(old(content), anchor, p, t) && attested
      ensures ok ==> var ledger := Accepted(old(content), p, t).value;
                     Anchors(anchor, ledger[0], ledger[|ledger| - 1], t.sha256(old(content)), t)
      ensures content == if ok then Appended(old(content), Accepted(old(content), p, t).value, ANCHOR, anchor, now, t)
                         else old(content)
    {
      hide PayloadOk, Accepted, NextEvent, EventOk, Completed, Binds, Eligible, IsAnchor, Anchors;
      if !PayloadOk(ANCHOR, anchor, p) {
        return false;
      }
      var read := Accepted(content, p, t);
      if read.None? {
        return false;
      }
      var ledger := read.value;
      if !Eligible(ledger) || !Completed(ledger) || !Binds(anchor, ledger, t.sha256(content), t) || !attested {
        return false;
      }
      BindsMembers(anchor, ledger, t.sha256(content), p, t);
      var event := NextEvent(ledger, ANCHOR, anchor, now, t);
      ok := ValidateEvidence(ledger + [event], true, p, t);
      PayloadIsObject(ANCHOR, anchor, p);
      AnchorCloses(ledger, anchor, now, p, t);
      if ok {
        content := Appended(content, ledger, ANCHOR, anchor, now, t);
      }
    }

    /** `validate_final_evidence`. */
    method ValidateFinal(attested: bool) returns (ok: bool)
      ensures ok <==> FinalOk(content, p, t) && attested
      ensures ok ==> var ledger := Accepted(content, p, t).value;
                     && |ledger| == 14
                     && Anchors(Get(ledger[13], "payload"), ledger[0], ledger[12],
                                t.sha256(Rendered(ledger[..13], t)), t)
    {
      hide Accepted, EventOk, Completed, Binds, Eligible, Rendered, IsAnchor, Anchors;
      var read := Accepted(content, p, t);
      if read.None? {
        return false;
      }
      var ledger := read.value;
      ok := ValidateEvidence(ledger, true, p, t);
      if !ok || !Completed(ledger) || !Eligible(ledger) {
        return false;
      }
      var before := ledger[..|ledger| - 1];
      CompletedLength(ledger, p, t);
      BeforeAnchor(ledger, p, t);
      BindsMembers(Get(ledger[13], "payload"), before, t.sha256(Rendered(before, t)), p, t);
      ok := Binds(Get(ledger[|ledger| - 1], "payload"), before, t.sha256(Rendered(before, t)), t) && attested;
    }
  }

  /** What an anchor closes is valid and complete, if the closed ledger is. */
  lemma BeforeAnchor(ledger: seq<Json>, p: Patterns, t: Tools)
    requires ValidLedger(ledger, p, t) && Anchored(ledger) && Completed(ledger)
    ensures var before := ledger[..|ledger| - 1]; ValidLedger(before, p, t) && Completed(before)
  {
    hide EventOk, Completed, IsAnchor, Transcript;
    var before := ledger[..|ledger| - 1];
    CompletedLength(ledger, p, t);
    PrefixValid(before, ledger, p, t);
    assert Local(before) == Local(ledger);
    CompletedTranscript(ledger, p, t);
    CompletedTranscript(before, p, t);
  }

  /** An anchor closes a ledger exactly once. */
  lemma AnchorCloses(ledger: seq<Json>, anchor: Json, now: Json, p: Patterns, t: Tools)
    requires ValidLedger(ledger, p, t) && PayloadOk(ANCHOR, anchor, p) && anchor.Obj? && p.timestamp(now)
    ensures var longer := ledger + [NextEvent(ledger, ANCHOR, anchor, now, t)];
            Anchored(longer) && (ValidLedger(longer, p, t) <==> !Anchored(ledger))
  {
    hide EventOk, PayloadOk, NextEvent, Padded, Decimal, HasFields;
    NextEventFields(ledger, ANCHOR, anchor, now, t);
    if Anchored(ledger) {
      var longer := ledger + [NextEvent(ledger, ANCHOR, anchor, now, t)];
      assert longer[|ledger| - 1] == ledger[|ledger| - 1];
      if ValidLedger(longer, p, t) {
        NotAnchor(longer, |ledger| - 1, p, t);
      }
    } else {
      ExtensionValid(ledger, ANCHOR, anchor, now, p, t);
    }
  }

  // ---- Creation --------------------------------------------------------------------------------

  datatype HeaderInputs = HeaderInputs(drillId: string, sourceRevision: string, imageDigest: string, version: string,
                                       productSource: string, operatorSource: string, inProduct: bool)

  /** `build_evidence` does not raise. */
  predicate InputsOk(i: HeaderInputs, p: Patterns) {
    && p.uuid(Str(i.drillId)) && p.commit(Str(i.sourceRevision)) && p.commit(Str(i.productSource))
    && p.commit(Str(i.operatorSource)) && p.version(Str(i.version)) && p.sha256(Str(i.imageDigest))
  }

  function NewHeaderPayload(i: HeaderInputs): Json {
    Obj(map["drill_id" := Str(i.drillId),
            "release_boundary" := Boundary(i.productSource, i.operatorSource, i.version, i.inProduct),
            "runtime" := Obj(map["image_digest" := Str(i.imageDigest), "source_revision" := Str(i.sourceRevision)]),
            "schema_version" := Num("3")])
  }

  function NewLedger(i: HeaderInputs, now: Json, t: Tools): seq<Json> {
    [NextEvent([], HEADER, NewHeaderPayload(i), now, t)]
  }

  lemma BoundaryMembers(i: HeaderInputs)
    ensures var b := Boundary(i.productSource, i.operatorSource, i.version, i.inProduct);
            b.Obj? && Get(b, "operator_source_commit") == Str(i.operatorSource)
            && Get(b, "product_source_commit") == Str(i.productSource) && Get(b, "product_version") == Str(i.version)
            && Get(b, "operator_cli_in_product") == Bool(i.inProduct)
  {
    hide EligibleBoundary;
  }

  lemma BoundaryAccepted(i: HeaderInputs, p: Patterns, id: string)
    requires InputsOk(i, p) && Sane(p, id)
    ensures BoundaryOk(Boundary(i.productSource, i.operatorSource, i.version, i.inProduct), p)
  {
    hide Boundary, Get;
    BoundaryMembers(i);
  }

  lemma BoundarySafe(i: HeaderInputs, p: Patterns, id: string)
    requires InputsOk(i, p) && Sane(p, id)
    ensures Safe(Boundary(i.productSource, i.operatorSource, i.version, i.inProduct), p)
  {
    hide EligibleBoundary;
    assert FIXED_TEXTS[16] in FIXED_TEXTS && FIXED_TEXTS[17] in FIXED_TEXTS;
    assert FIXED_TEXTS[18] in FIXED_TEXTS && FIXED_TEXTS[19] in FIXED_TEXTS;
  }

  lemma HeaderMembers(i: HeaderInputs)
    ensures var v := NewHeaderPayload(i);
            HasFields(v, {"drill_id", "release_boundary", "runtime", "schema_version"})
            && Get(v, "drill_id") == Str(i.drillId) && Get(v, "schema_version") == Num("3")
            && Get(v, "release_boundary") == Boundary(i.productSource, i.operatorSource, i.version, i.inProduct)
            && Get(v, "runtime") == Obj(map["image_digest" := Str(i.imageDigest),
                                            "source_revision" := Str(i.sourceRevision)])
  {
    hide Boundary;
  }

  lemma HeaderAccepted(i: HeaderInputs, p: Patterns, id: string)
    requires InputsOk(i, p) && Sane(p, id)
    ensures HeaderOk(NewHeaderPayload(i), p)
  {
    hide Boundary, BoundaryOk, NewHeaderPayload, Sane;
    HeaderMembers(i);
    BoundaryAccepted(i, p, id);
    BoundarySafe(i, p, id);
    var v := NewHeaderPayload(i);
    assert Safe(Str(i.drillId), p) && Safe(Num("3"), p);
    assert Safe(Get(v, "runtime"), p);
    assert forall k | k in v.fields :: Safe(Get(v, k), p);
  }

  /** A new ledger is valid, and it is eligible exactly when the product at this version carries its own operator
      tool. */
  lemma NewLedgerValid(i: HeaderInputs, now: Json, p: Patterns, t: Tools, id: string)
    requires InputsOk(i, p) && Sane(p, id) && p.timestamp(now)
    ensures ValidLedger(NewLedger(i, now, t), p, t) && !Anchored(NewLedger(i, now, t))
    ensures Eligible(NewLedger(i, now, t)) <==>
            i.inProduct && i.productSource == i.operatorSource && i.version == VERSION
  {
    hide HeaderOk, NewHeaderPayload, NextEvent, Sane, Boundary, PayloadOk;
    HeaderAccepted(i, p, id);
    HeaderMembers(i);
    NextEventFields([], HEADER, NewHeaderPayload(i), now, t);
    BoundaryStatus(i.productSource, i.operatorSource, i.version, i.inProduct);
  }

  /** A boundary names the two commits, the version and whether the tool is in the product, and says what these decide. */
  lemma BoundarySpelt(productSource: string, operatorSource: string, version: string, inProduct: bool)
    ensures var b := Boundary(productSource, operatorSource, version, inProduct);
            var eligible := inProduct && productSource == operatorSource && version == "0.1.7";
            && b.Obj? && b.fields.Keys == {"operator_cli_binding", "operator_cli_in_product", "operator_source_commit",
                                           "product_source_commit", "product_version", "status"}
            && Get(b, "product_source_commit") == Str(productSource) && Get(b, "operator_source_commit") == Str(operatorSource)
            && Get(b, "product_version") == Str(version) && Get(b, "operator_cli_in_product") == Bool(inProduct)
            && Get(b, "status") == Str(if eligible then "ELIGIBLE_FOR_HUMAN_ACCEPTANCE" else "NOT_ACCEPTED")
            && Get(b, "operator_cli_binding") == Str(if eligible then "PRODUCT_IMAGE" else "SOURCE_BOUND_DEVELOPMENT_HELPER")
  {
    hide IsNumeral;
  }

  /** A new ledger has one event, a header of schema version 3 that names the drill, the runtime and the boundary. */
  lemma NewLedgerMembers(i: HeaderInputs, now: Json, t: Tools)
    ensures |NewLedger(i, now, t)| == 1
    ensures var e := NewLedger(i, now, t)[0];
            && Get(e, "event_type") == Str("header") && Get(e, "previous_hash") == Null && Get(e, "recorded_at") == now
            && var v := Get(e, "payload");
            && Get(v, "schema_version") == Num("3") && Get(v, "drill_id") == Str(i.drillId)
            && Get(Get(v, "runtime"), "image_digest") == Str(i.imageDigest)
            && Get(Get(v, "runtime"), "source_revision") == Str(i.sourceRevision)
            && Get(v, "release_boundary") == Boundary(i.productSource, i.operatorSource, i.version, i.inProduct)
  {
    NextEventFields([], HEADER, NewHeaderPayload(i), now, t);
    hide NextEvent, Boundary, NextContent, IsNumeral;
  }

  lemma BoundaryStatus(productSource: string, operatorSource: string, version: string, inProduct: bool)
    ensures Get(Boundary(productSource, operatorSource, version, inProduct), "status")
              == Str("ELIGIBLE_FOR_HUMAN_ACCEPTANCE")
            <==> EligibleBoundary(productSource, operatorSource, version, inProduct)
  {
    hide EligibleBoundary;
  }

  /** `_write_evidence`: a new file, or an error and no file. */
  method CreateEvidence(i: HeaderInputs, now: Json, p: Patterns, t: Tools, ghost id: string)
    returns (file: Option<LedgerFile>)
    requires Sane(p, id) && p.timestamp(now)
    ensures file.Some? <==> InputsOk(i, p)
    ensures file.Some? ==> fresh(file.value) && file.value.content == Rendered(NewLedger(i, now, t), t)
                           && file.value.p == p && file.value.t == t
  {
    hide NextEvent, EventOk, Rendered, Sane;
    if !InputsOk(i, p) {
      return None;
    }
    NewLedgerValid(i, now, p, t, id);
    var header := NextEvent([], HEADER, NewHeaderPayload(i), now, t);
    var ok := ValidateEvidence([header], false, p, t);
    RenderedOne(header, t);
    var created := new LedgerFile(t.line(header) + "\n", p, t);
    file := Some(created);
  }

  // ---- Histories -------------------------------------------------------------------------------

  /** One process that takes the lock. */
  datatype Operation =
    | AppendRun(kind: string, payload: Json, now: Json)
    | FinalizeRun(anchor: Json, attested: bool, now: Json)

  /** The file is what this tool writes for a valid ledger. */
  ghost predicate Holds(file: LedgerFile, ledger: seq<Json>)
    reads file
  {
    file.content == Rendered(ledger, file.t) && ValidLedger(ledger, file.p, file.t)
  }

  lemma HeldIsAccepted(ledger: seq<Json>, p: Patterns, t: Tools)
    requires Faithful(t) && ValidLedger(ledger, p, t)
    ensures Accepted(Rendered(ledger, t), p, t) == Some(ledger)
  {
    hide ValidLedger, Rendered, Read, Universal;
    ReadRendered(ledger, t);
    RenderedPlain(ledger, t);
  }

  /** The ledger after an operation: an append adds an event to an open ledger if its payload is acceptable, a finalisation
      the anchor if it is attested and can close the ledger. */
  ghost function After(ledger: seq<Json>, o: Operation, p: Patterns, t: Tools): seq<Json> {
    match o
    case AppendRun(kind, payload, now) =>
      if IsLocalKind(kind) && PayloadOk(Str(kind), payload, p) && !Anchored(ledger)
      then ledger + [NextEvent(ledger, Str(kind), payload, now, t)] else ledger
    case FinalizeRun(anchor, attested, now) =>
      if attested && Finalisable(Rendered(ledger, t), anchor, p, t)
      then ledger + [NextEvent(ledger, ANCHOR, anchor, now, t)] else ledger
  }

  ghost function Replayed(first: seq<Json>, history: seq<Operation>, p: Patterns, t: Tools): seq<Json> {
    if history == [] then first
    else After(Replayed(first, history[..|history| - 1], p, t), history[|history| - 1], p, t)
  }

  /** An operation adds one event or nothing, and nothing once the ledger is anchored. */
  method Perform(file: LedgerFile, operation: Operation, ghost ledger: seq<Json>) returns (ok: bool, ghost after: seq<Json>)
    requires Faithful(file.t) && Holds(file, ledger) && file.p.timestamp(operation.now)
    modifies file
    ensures Holds(file, after) && ledger <= after && |after| <= |ledger| + 1
    ensures after == After(ledger, operation, file.p, file.t) && (ok <==> after != ledger)
    ensures Anchored(ledger) ==> !ok
    ensures ok ==> (operation.FinalizeRun? <==> Anchored(after))
    ensures Anchored(after) && !Anchored(ledger) ==> Completed(after) && Eligible(after)
  {
    hide EventOk, Rendered, PayloadOk, Completed, Accepted, NextEvent, Binds, Eligible, IsAnchor;
    HeldIsAccepted(ledger, file.p, file.t);
    match operation {
      case AppendRun(kind, payload, now) =>
        ok := file.Append(kind, payload, now);
        after := if ok then ledger + [NextEvent(ledger, Str(kind), payload, now, file.t)] else ledger;
        if ok {
          PayloadIsObject(Str(kind), payload, file.p);
          ExtensionValid(ledger, Str(kind), payload, now, file.p, file.t);
          LocalIsNoAnchor(ledger, kind, payload, now, file.t);
          RenderedNext(ledger, NextEvent(ledger, Str(kind), payload, now, file.t), file.t);
        }
      case FinalizeRun(anchor, attested, now) =>
        ok := file.Finalize(anchor, attested, now);
        after := if ok then ledger + [NextEvent(ledger, ANCHOR, anchor, now, file.t)] else ledger;
        if ok {
          PayloadIsObject(ANCHOR, anchor, file.p);
          AnchorCloses(ledger, anchor, now, file.p, file.t);
          RenderedNext(ledger, NextEvent(ledger, ANCHOR, anchor, now, file.t), file.t);
          AnchorKeepsCompleted(ledger, NextEvent(ledger, ANCHOR, anchor, now, file.t));
          SameHeader(ledger, after);
        }
    }
  }

  /** Eligibility is a matter of the header. */
  lemma SameHeader(ledger: seq<Json>, longer: seq<Json>)
    requires ledger != [] && ledger <= longer
    ensures Eligible(longer) <==> Eligible(ledger)
  {
    assert longer[0] == ledger[0];
  }

  lemma {:induction false} AnchorSkipped(events: seq<Json>, e: Json)
    requires IsAnchor(e)
    ensures WithoutAnchors(events + [e]) == WithoutAnchors(events)
  {
    if events == [] {
      assert events + [e] == [e] && [e][1..] == [];
    } else {
      AnchorSkipped(events[1..], e);
      assert (events + [e])[1..] == events[1..] + [e];
    }
  }

  lemma AnchorKeepsCompleted(ledger: seq<Json>, e: Json)
    requires ledger != [] && Completed(ledger) && Anchored(ledger + [e])
    ensures Completed(ledger + [e])
  {
    hide WithoutAnchors, CompletesStep;
    assert (ledger + [e])[1..] == ledger[1..] + [e];
    AnchorSkipped(ledger[1..], e);
  }

  /** Any number of appends and finalisations by any number of processes, one at a time under the lock: the file holds
      a valid ledger that extends every earlier version, with one header and at most one anchor, which is last; a ledger
      that came to be anchored is eligible and complete and has fourteen events. */
  method RunHistory(file: LedgerFile, history: seq<Operation>, ghost first: seq<Json>) returns (ghost last: seq<Json>)
    requires Faithful(file.t) && Holds(file, first)
    requires forall o | o in history :: file.p.timestamp(o.now)
    modifies file
    ensures Holds(file, last) && first <= last && |last| <= |first| + |history|
    ensures last == Replayed(first, history, file.p, file.t)
    ensures Anchored(first) ==> last == first
    ensures Anchored(last) && !Anchored(first) ==> Eligible(last) && Completed(last) && |last| == 14
    ensures forall i | 0 <= i < |last| :: (Get(last[i], "event_type") == HEADER <==> i == 0)
    ensures forall i | 0 <= i < |last| - 1 :: !IsAnchor(last[i])
  {
    hide EventOk, Rendered, Faithful, Completed, Eligible, IsAnchor, After;
    last := first;
    for i := 0 to |history|
      invariant last == Replayed(first, history[..i], file.p, file.t)
      invariant Holds(file, last) && first <= last && |last| <= |first| + i
      invariant Anchored(first) ==> last == first
      invariant Anchored(last) && !Anchored(first) ==> Eligible(last) && Completed(last)
    {
      assert history[i] in history && history[..i + 1][..i] == history[..i];
      var ok;
      ok, last := Perform(file, history[i], last);
    }
    assert history[..|history|] == history;
    if Anchored(last) && !Anchored(first) {
      CompletedLength(last, file.p, file.t);
    }
    forall i | 0 <= i < |last|
      ensures Get(last[i], "event_type") == HEADER <==> i == 0
      ensures i < |last| - 1 ==> !IsAnchor(last[i])
    {
      OneHeader(last, i, file.p, file.t);
      if i < |last| - 1 {
        NotAnchor(last, i, file.p, file.t);
      }
    }
  }

  lemma OneHeader(ledger: seq<Json>, i: nat, p: Patterns, t: Tools)
    requires ValidLedger(ledger, p, t) && i < |ledger|
    ensures Get(ledger[i], "event_type") == HEADER <==> i == 0
  {
    hide ChainOk, Reports, Safe, AnchorOk, HeaderOk;
    assert EventOk(ledger, i, p, t);
  }

  // ---- Which ledgers can be finalised ----------------------------------------------------------

  /** The patterns accept digests. */
  ghost predicate DigestsMatch(p: Patterns, t: Tools) {
    forall x :: p.sha256(Str(t.sha256(x)))
  }

  /** The anchor that binds a ledger and the digest of its file. */
  function AnchorFor(ledger: seq<Json>, fileDigest: string, t: Tools): Json
    requires ledger != []
  {
    Obj(map["drill_id" := Get(HeaderPayload(ledger), "drill_id"), "ledger_sha256" := Str(fileDigest),
            "tail_hash" := PreviousHash(ledger, |ledger|), "run_id" := ONE,
            "product_source_commit" := Get(HeaderBoundary(ledger), "product_source_commit"),
            "operator_source_commit" := Get(HeaderBoundary(ledger), "operator_source_commit"),
            "decision_code_hash" := Str(t.sha256(t.compact(Arr(DecisionCodes(ledger)))))])
  }

  lemma AnchorMembers(ledger: seq<Json>, fileDigest: string, t: Tools)
    requires ledger != []
    ensures var v := AnchorFor(ledger, fileDigest, t);
            HasFields(v, {"decision_code_hash", "drill_id", "ledger_sha256", "operator_source_commit",
                          "product_source_commit", "run_id", "tail_hash"})
            && Binds(v, ledger, fileDigest, t) && Get(v, "run_id") == ONE
  {
    hide HeaderPayload, HeaderBoundary, PreviousHash, DecisionCodes;
  }

  /** What a valid ledger's header and tail are made of. */
  lemma AnchoredValues(ledger: seq<Json>, p: Patterns, t: Tools)
    requires ValidLedger(ledger, p, t) && DigestsMatch(p, t)
    ensures p.uuid(Get(HeaderPayload(ledger), "drill_id")) && Safe(Get(HeaderPayload(ledger), "drill_id"), p)
    ensures forall k | k == "product_source_commit" || k == "operator_source_commit" ::
      p.commit(Get(HeaderBoundary(ledger), k)) && Get(HeaderBoundary(ledger), k).Str?
    ensures p.sha256(PreviousHash(ledger, |ledger|)) && PreviousHash(ledger, |ledger|).Str?
  {
    hide ChainOk, Boundary, PayloadOk;
    assert EventOk(ledger, 0, p, t);
    ChainedAt(ledger, p, t);
  }

  lemma AnchorAccepted(ledger: seq<Json>, fileDigest: string, p: Patterns, t: Tools)
    requires ValidLedger(ledger, p, t) && DigestsMatch(p, t) && p.sha256(Str(fileDigest))
    ensures PayloadOk(ANCHOR, AnchorFor(ledger, fileDigest, t), p)
  {
    hide EventOk, HeaderPayload, HeaderBoundary, PreviousHash, DecisionCodes;
    AnchoredValues(ledger, p, t);
    AnchorMembers(ledger, fileDigest, t);
    var v := AnchorFor(ledger, fileDigest, t);
    hide AnchorFor, DigestsMatch;
    assert p.sha256(Get(v, "decision_code_hash")) by { DigestMatches(t.compact(Arr(DecisionCodes(ledger))), p, t); }
    assert AnchorOk(v, p);
    assert Get(v, "drill_id") == Get(HeaderPayload(ledger), "drill_id");
    hide Get, PositiveInteger, HasFields;
    AnchorSafe(v, p);
  }

  lemma DigestMatches(x: string, p: Patterns, t: Tools)
    requires DigestsMatch(p, t)
    ensures p.sha256(Str(t.sha256(x)))
  {
  }

  /** An anchor of texts that match their patterns holds nothing unsafe. */
  lemma AnchorSafe(v: Json, p: Patterns)
    requires AnchorOk(v, p) && Safe(Get(v, "drill_id"), p) && Get(v, "run_id").Num?
    requires Get(v, "decision_code_hash").Str? && Get(v, "ledger_sha256").Str? && Get(v, "tail_hash").Str?
    requires Get(v, "operator_source_commit").Str? && Get(v, "product_source_commit").Str?
    ensures Safe(v, p)
  {
    forall k | k in v.fields
      ensures Safe(v.fields[k], p)
    {
      assert v.fields[k] == Get(v, k);
    }
  }

  /** The appends all succeed, and the anchor then finalises the file. */
  ghost predicate Finalises(ledger: seq<Json>, appends: seq<Append>, anchor: Json, p: Patterns, t: Tools) {
    && (forall a | a in appends :: AppendOk(a, p))
    && Finalisable(Rendered(AfterAppends(ledger, appends, t), t), anchor, p, t)
  }

  /** A ledger the tool holds can still be finalised, by appends and an attested anchor, exactly when it is eligible and
      its events are the first steps of the script. */
  lemma FinalisableOnScript(ledger: seq<Json>, id: string, now: Json, p: Patterns, t: Tools)
    requires Faithful(t) && ValidLedger(ledger, p, t) && !Anchored(ledger)
    requires Sane(p, id) && p.timestamp(now) && DigestsMatch(p, t)
    ensures (exists appends, anchor :: Finalises(ledger, appends, anchor, p, t)) <==>
            Eligible(ledger) && OnScript(ledger[1..])
  {
    hide EventOk, OnScript, Eligible, Finalises, Sane, DigestsMatch, Faithful;
    if appends, anchor :| Finalises(ledger, appends, anchor, p, t) {
      FinalisesOnScript(ledger, appends, anchor, p, t);
    }
    if Eligible(ledger) && OnScript(ledger[1..]) {
      var appends := Complete(ledger, id, now, p, t);
      CompletedFinalises(ledger, appends, p, t);
    }
  }

  lemma FinalisesOnScript(ledger: seq<Json>, appends: seq<Append>, anchor: Json, p: Patterns, t: Tools)
    requires Faithful(t) && ValidLedger(ledger, p, t) && !Anchored(ledger) && Finalises(ledger, appends, anchor, p, t)
    ensures Eligible(ledger) && OnScript(ledger[1..])
  {
    hide EventOk, OnScript, Eligible, Faithful, AppendOk, AfterAppends, Rendered, Accepted, Completed, Binds, PayloadOk;
    AppendsKeep(ledger, appends, p, t);
    HeldIsAccepted(AfterAppends(ledger, appends, t), p, t);
    SameHeader(ledger, AfterAppends(ledger, appends, t));
    CompletesOnScript(ledger, appends, p, t);
  }

  lemma CompletedFinalises(ledger: seq<Json>, appends: seq<Append>, p: Patterns, t: Tools)
    requires Faithful(t) && ValidLedger(ledger, p, t) && !Anchored(ledger) && DigestsMatch(p, t)
    requires Eligible(ledger) && Completes(ledger, appends, p, t)
    ensures exists anchor :: Finalises(ledger, appends, anchor, p, t)
  {
    hide EventOk, Eligible, Faithful, AppendOk, AfterAppends, Rendered, Accepted, Completed, Binds, PayloadOk, AnchorFor;
    var whole := AfterAppends(ledger, appends, t);
    AppendsKeep(ledger, appends, p, t);
    HeldIsAccepted(whole, p, t);
    SameHeader(ledger, whole);
    var digest := t.sha256(Rendered(whole, t));
    DigestMatches(Rendered(whole, t), p, t);
    AnchorAccepted(whole, digest, p, t);
    AnchorMembers(whole, digest, t);
    assert Finalises(ledger, appends, AnchorFor(whole, digest, t), p, t);
  }

  // ---- Verifying a finalised ledger again -------------------------------------------------------

  lemma {:induction false} SameCodes(ledger: seq<Json>, e: Json)
    requires Get(e, "event_type") == ANCHOR
    ensures DecisionCodes(ledger + [e]) == DecisionCodes(ledger)
  {
    if ledger == [] {
      assert ledger + [e] == [e] && [e][1..] == [];
    } else {
      SameCodes(ledger[1..], e);
      assert (ledger + [e])[1..] == ledger[1..] + [e];
    }
  }

  lemma EventIsObject(ledger: seq<Json>, kind: Json, payload: Json, now: Json, t: Tools)
    ensures NextEvent(ledger, kind, payload, now, t).Obj?
  {
  }

  /** A finalised file passes the final validation exactly when the digest of its bytes is that of its events rendered
      again and the anchor did not come to stand on a line with something else. */
  lemma Reverifies(content: string, anchor: Json, now: Json, p: Patterns, t: Tools)
    requires Faithful(t) && Finalisable(content, anchor, p, t) && p.timestamp(now)
    ensures var ledger := Accepted(content, p, t).value;
            FinalOk(Appended(content, ledger, ANCHOR, anchor, now, t), p, t) <==>
            t.sha256(content) == t.sha256(Rendered(ledger, t)) && IsJsonBlank(LastLine(Universal(content)))
  {
    hide Faithful, EventOk, PayloadOk, Completed, NextEvent, Rendered, Read, IsAnchor, Universal, IsJsonBlank, LastLine,
      Eligible;
    var ledger := Accepted(content, p, t).value;
    var e := NextEvent(ledger, ANCHOR, anchor, now, t);
    PayloadIsObject(ANCHOR, anchor, p);
    AnchorCloses(ledger, anchor, now, p, t);
    LinePlain(e, t);
    UniversalAppend(content, t.line(e) + "\n");
    UniversalPlain(t.line(e) + "\n");
    EventIsObject(ledger, ANCHOR, anchor, now, t);
    ReadAppended(Universal(content), e, t);
    SameHeader(ledger, ledger + [e]);
    AnchorKeepsCompleted(ledger, e);
    NextEventFields(ledger, ANCHOR, anchor, now, t);
    assert (ledger + [e])[..|ledger|] == ledger && (ledger + [e])[0] == ledger[0];
  }

  /** What only this tool wrote always verifies again. */
  lemma WrittenReverifies(ledger: seq<Json>, anchor: Json, now: Json, p: Patterns, t: Tools)
    requires Faithful(t) && Finalisable(Rendered(ledger, t), anchor, p, t) && p.timestamp(now)
    ensures FinalOk(Appended(Rendered(ledger, t), ledger, ANCHOR, anchor, now, t), p, t)
  {
    hide Faithful, ValidLedger, Finalisable, FinalOk, Read, Rendered, Universal;
    ReadRendered(ledger, t);
    RenderedPlain(ledger, t);
    RenderedEnded(ledger, t);
    FinalisableAccepts(Rendered(ledger, t), anchor, p, t);
    Reverifies(Rendered(ledger, t), anchor, now, p, t);
  }

  lemma FinalisableAccepts(content: string, anchor: Json, p: Patterns, t: Tools)
    requires Finalisable(content, anchor, p, t)
    ensures Accepted(content, p, t).Some?
  {
  }

  lemma {:induction false} RenderedEnded(ledger: seq<Json>, t: Tools)
    ensures Ended(Rendered(ledger, t))
  {
    if ledger != [] {
      RenderedEnded(ledger[1..], t);
    }
  }

  /** A file that somebody touched and that still reads as the ledger can be finalised like the ledger itself. */
  lemma TouchedFinalises(content: string, ledger: seq<Json>, p: Patterns, t: Tools)
    requires ValidLedger(ledger, p, t) && !Anchored(ledger) && Eligible(ledger) && Completed(ledger) && DigestsMatch(p, t)
    requires Accepted(content, p, t) == Some(ledger)
    ensures Finalisable(content, AnchorFor(ledger, t.sha256(content), t), p, t)
  {
    hide EventOk, Eligible, Accepted, Completed, Binds, PayloadOk, AnchorFor;
    DigestMatches(content, p, t);
    AnchorAccepted(ledger, t.sha256(content), p, t);
    AnchorMembers(ledger, t.sha256(content), t);
  }

  /** A blank line added by hand, or line ends written with carriage returns, change the bytes and not the events: such
      a file of a complete ledger can be finalised, and then fails the final validation unless the hash collides. */
  lemma TouchedFails(ledger: seq<Json>, content: string, anchor: Json, now: Json, p: Patterns, t: Tools)
    requires Faithful(t) && p.timestamp(now) && ledger != []
    requires content == Rendered(ledger, t) + "\n" || content == WithReturns(Rendered(ledger, t))
    ensures content != Rendered(ledger, t)
    ensures Accepted(content, p, t) == if ValidLedger(ledger, p, t) then Some(ledger) else None
    ensures Finalisable(content, anchor, p, t) && FinalOk(Appended(content, ledger, ANCHOR, anchor, now, t), p, t) ==>
      t.sha256(content) == t.sha256(Rendered(ledger, t))
    ensures ValidLedger(ledger, p, t) && !Anchored(ledger) && Eligible(ledger) && Completed(ledger) && DigestsMatch(p, t) ==>
      Finalisable(content, AnchorFor(ledger, t.sha256(content), t), p, t)
  {
    hide ValidLedger, Finalisable, FinalOk, Rendered, Eligible, Completed, DigestsMatch, Anchored, AnchorFor;
    TouchedReads(ledger, content, t);
    if Finalisable(content, anchor, p, t) {
      FinalisableAccepts(content, anchor, p, t);
      Reverifies(content, anchor, now, p, t);
    }
    if ValidLedger(ledger, p, t) && !Anchored(ledger) && Eligible(ledger) && Completed(ledger) && DigestsMatch(p, t) {
      TouchedFinalises(content, ledger, p, t);
    }
  }

  lemma TouchedReads(ledger: seq<Json>, content: string, t: Tools)
    requires Faithful(t) && ledger != []
    requires content == Rendered(ledger, t) + "\n" || content == WithReturns(Rendered(ledger, t))
    ensures content != Rendered(ledger, t) && Read(Universal(content), t) == Some(ledger)
  {
    assert '\n' in Rendered(ledger, t);
    hide Rendered;
    ReadRendered(ledger, t);
    RenderedEnded(ledger, t);
    RenderedPlain(ledger, t);
    if content == WithReturns(Rendered(ledger, t)) {
      ReturnsRead(Rendered(ledger, t));
    } else {
      UniversalPlain(content);
      assert Read("\n", t) == Some([]) by {
        assert LineEnd("\n") == 1 && "\n"[..1] == "\n" && "\n"[1..] == "";
        assert JsonSpace('\n');
      }
      hide Read, Faithful;
      ReadMore(Rendered(ledger, t), "\n", t);
      assert ledger + [] == ledger;
    }
  }
}
