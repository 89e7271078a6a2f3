/** What a report's classification says, read from the members of the report, and all that sanitising takes away. */
module ScanFindings {
  import opened Ordering
  import opened Json
  import opened ScanReport

  // ---- Classification --------------------------------------------------------------------------

  /** The member is absent or null, or an array of objects. */
  ghost predicate ObjectsOrNone(r: Json, field: string) {
    r.Obj? && field in r.fields && r.fields[field] != Null ==>
      r.fields[field].Arr? && forall x | x in r.fields[field].items :: x.Obj?
  }

  /** A report is classified if it is of schema version 2 and its results are objects whose finding arrays, where there
      are any, hold objects. */
  lemma ReportShapeMeans(report: Json)
    ensures ReportShape(report) <==>
      && report.Obj? && "SchemaVersion" in report.fields && report.fields["SchemaVersion"] in {Num("2"), Num("2.0")}
      && "Results" in report.fields && report.fields["Results"].Arr?
      && forall r | r in report.fields["Results"].items ::
        && r.Obj? && ObjectsOrNone(r, "Vulnerabilities") && ObjectsOrNone(r, "Secrets")
        && ObjectsOrNone(r, "Misconfigurations")
  {
    forall r: Json | r.Obj?
      ensures ResultShape(r) <==>
        ObjectsOrNone(r, "Vulnerabilities") && ObjectsOrNone(r, "Secrets") && ObjectsOrNone(r, "Misconfigurations")
    {
      ResultShapeMeans(r);
    }
    hide ResultShape, ObjectsOrNone, IsNumeral;
  }

  lemma ResultShapeMeans(r: Json)
    requires r.Obj?
    ensures ResultShape(r) <==>
      ObjectsOrNone(r, "Vulnerabilities") && ObjectsOrNone(r, "Secrets") && ObjectsOrNone(r, "Misconfigurations")
  {
    var s := SOURCES;
    assert s[0] in s && s[1] in s && s[2] in s && forall x | x in s :: x == s[0] || x == s[1] || x == s[2];
  }

  /** `f` is a finding of the array `field` of one of the report's results. */
  ghost predicate Listed(report: Json, field: string, f: Json) {
    && report.Obj? && "Results" in report.fields && report.fields["Results"].Arr?
    && exists r | r in report.fields["Results"].items ::
      r.Obj? && field in r.fields && r.fields[field].Arr? && f in r.fields[field].items
  }

  /** The member of an object, a missing one being null. */
  ghost predicate Holds(f: Json, key: string, v: Json) {
    if f.Obj? && key in f.fields then f.fields[key] == v else v == Null
  }

  /** The finding stands in the array, is of the kind of that array, and has the identifying member of that kind. */
  ghost predicate From(report: Json, field: string, of: string, key: string, kind: string, f: Json, identifier: Json) {
    kind == of && Listed(report, field, f) && Holds(f, key, identifier)
  }

  /** A finding of the kind, with its identifying member and its severity as they stand in the report. */
  ghost predicate Reported(report: Json, kind: string, f: Json, identifier: Json, severity: Json) {
    && Holds(f, "Severity", severity)
    && (|| From(report, "Vulnerabilities", "vulnerabilities", "VulnerabilityID", kind, f, identifier)
        || From(report, "Secrets", "secrets", "RuleID", kind, f, identifier)
        || From(report, "Misconfigurations", "misconfigurations", "ID", kind, f, identifier))
  }

  lemma SourcesNamed(s: Source)
    ensures s in SOURCES <==>
      || s == Source("Vulnerabilities", "vulnerabilities", "VulnerabilityID") || s == Source("Secrets", "secrets", "RuleID")
      || s == Source("Misconfigurations", "misconfigurations", "ID")
  {
  }

  lemma EntriesListed(report: Json, field: string, f: Json)
    ensures Listed(report, field, f) <==> exists r | r in Entries(report, "Results") :: f in Entries(r, field)
  {
    if Listed(report, field, f) {
      var r :| r in report.fields["Results"].items && r.Obj? && field in r.fields && r.fields[field].Arr?
               && f in r.fields[field].items;
      assert r in Entries(report, "Results") && f in Entries(r, field);
    }
  }

  /** A finding of one of the three sources is reported under the names of that source. */
  lemma SourceReported(report: Json, s: Source, f: Json, identifier: Json, severity: Json)
    requires s in SOURCES && Holds(f, "Severity", severity)
    requires From(report, s.field, s.kind, s.identifier, s.kind, f, identifier)
    ensures Reported(report, s.kind, f, identifier, severity)
  {
    SourcesNamed(s);
    hide From, Holds, SOURCES;
  }

  lemma ReportedSource(report: Json, kind: string, f: Json, identifier: Json, severity: Json) returns (s: Source)
    requires Reported(report, kind, f, identifier, severity)
    ensures s in SOURCES && From(report, s.field, s.kind, s.identifier, kind, f, identifier)
  {
    hide From, Holds;
    var a, b := Source("Vulnerabilities", "vulnerabilities", "VulnerabilityID"), Source("Secrets", "secrets", "RuleID");
    var c := Source("Misconfigurations", "misconfigurations", "ID");
    SourcesNamed(a);
    SourcesNamed(b);
    SourcesNamed(c);
    hide SOURCES;
    s := if From(report, a.field, a.kind, a.identifier, kind, f, identifier) then a
         else if From(report, b.field, b.kind, b.identifier, kind, f, identifier) then b else c;
  }

  /** Where a finding is found is what is reported of it. */
  lemma FoundReported(report: Json, kind: string, f: Json, identifier: Json, severity: Json)
    ensures Reported(report, kind, f, identifier, severity) <==>
      && Get(f, "Severity") == severity
      && exists r, s :: FoundAt(report, r, s, f) && s.kind == kind && Get(f, s.identifier) == identifier
  {
    if Reported(report, kind, f, identifier, severity) {
      var s := ReportedSource(report, kind, f, identifier, severity);
      assert Get(f, "Severity") == severity && Get(f, s.identifier) == identifier && s.kind == kind;
      hide Listed, Entries, Reported, SOURCES, Get;
      EntriesListed(report, s.field, f);
      var r :| r in Entries(report, "Results") && f in Entries(r, s.field);
      assert FoundAt(report, r, s, f);
    }
    if r, s :| FoundAt(report, r, s, f) && s.kind == kind && Get(f, s.identifier) == identifier
               && Get(f, "Severity") == severity {
      hide Listed, Entries, Reported, SOURCES;
      EntriesListed(report, s.field, f);
      SourceReported(report, s, f, identifier, severity);
    }
  }

  /** A finding blocks a release exactly when its severity is rendered "HIGH" or "CRITICAL"; it is listed with its
      kind, its identifying member and that severity. */
  lemma BlockedMeans(report: Json, render: Rendering, x: Finding)
    ensures x in BlockedFindings(report, render) <==>
      && x.severity in {"HIGH", "CRITICAL"}
      && exists f, identifier, severity ::
        && Reported(report, x.kind, f, identifier, severity)
        && x.identifier == render.identifier(identifier) && x.severity == render.severity(severity)
  {
    BlockedMember(report, render, x);
    hide FoundAt, Reported, BlockedFindings, Get;
    if r, s, f :| FoundAt(report, r, s, f) && x == Classified(f, s, render) {
      FoundReported(report, s.kind, f, Get(f, s.identifier), Get(f, "Severity"));
      assert Reported(report, x.kind, f, Get(f, s.identifier), Get(f, "Severity"));
    }
    if f, identifier, severity :|
      && Reported(report, x.kind, f, identifier, severity)
      && x.identifier == render.identifier(identifier) && x.severity == render.severity(severity)
    {
      FoundReported(report, x.kind, f, identifier, severity);
      var r, s :| FoundAt(report, r, s, f) && s.kind == x.kind && Get(f, s.identifier) == identifier;
      assert x == Classified(f, s, render);
    }
  }

  /** What is counted for a kind are the rendered severities of its findings. */
  lemma CountedMeans(report: Json, render: Rendering, kind: string, severity: string)
    ensures (kind, severity) in Counts(report, render) <==>
      exists f, identifier, v :: Reported(report, kind, f, identifier, v) && severity == render.severity(v)
  {
    CountedMember(report, render, (kind, severity));
    hide FoundAt, Reported, Counts, Get;
    if r, s, f :| FoundAt(report, r, s, f) && (kind, severity) == (s.kind, render.severity(Get(f, "Severity"))) {
      FoundReported(report, s.kind, f, Get(f, s.identifier), Get(f, "Severity"));
    }
    if f, identifier, v :| Reported(report, kind, f, identifier, v) && severity == render.severity(v) {
      FoundReported(report, kind, f, identifier, v);
    }
  }

  /** The blocked list is ordered by kind, then by identifier, then by severity. */
  lemma BlockedOrder(report: Json, render: Rendering, i: nat, j: nat)
    requires i < j < |BlockedFindings(report, render)|
    ensures var x, y := BlockedFindings(report, render)[i], BlockedFindings(report, render)[j];
            && StrLe(x.kind, y.kind)
            && (x.kind == y.kind ==> StrLe(x.identifier, y.identifier))
            && (x.kind == y.kind && x.identifier == y.identifier ==> StrLe(x.severity, y.severity))
  {
    var found := OfReport(report, render, PickBlocked);
    FindingLeIsTotalOrder();
    SortSorts(found, FindingLe);
    var x, y := BlockedFindings(report, render)[i], BlockedFindings(report, render)[j];
    assert FindingLe(x, y);
    StrLeTotal(x.kind, y.kind);
    StrLeTotal(x.identifier, y.identifier);
  }

  // ---- Sanitising ------------------------------------------------------------------------------

  /** The two values agree on every member but those named; what is no object is left as it is. */
  ghost predicate SameBut(v: Json, w: Json, keys: set<string>) {
    if v.Obj? then
      && w.Obj? && (forall k | k !in keys :: k in w.fields <==> k in v.fields)
      && forall k | k in v.fields && k !in keys :: w.fields[k] == v.fields[k]
    else w == v
  }

  /** A secret loses its two match members and nothing else. */
  ghost predicate SecretStripped(v: Json, w: Json) {
    SameBut(v, w, {"Code", "Match"}) && (w.Obj? ==> "Code" !in w.fields && "Match" !in w.fields)
  }

  /** A result keeps every member but its secrets, and each of those in its place. */
  ghost predicate ResultStripped(v: Json, w: Json) {
    && SameBut(v, w, {"Secrets"})
    && (v.Obj? ==> ("Secrets" in v.fields <==> "Secrets" in w.fields))
    && (v.Obj? && "Secrets" in v.fields ==>
          if v.fields["Secrets"].Arr? then
            && w.fields["Secrets"].Arr? && |w.fields["Secrets"].items| == |v.fields["Secrets"].items|
            && forall i | 0 <= i < |v.fields["Secrets"].items| ::
              SecretStripped(v.fields["Secrets"].items[i], w.fields["Secrets"].items[i])
          else w.fields["Secrets"] == v.fields["Secrets"])
  }

  /** A report loses the time of the scan; every other member stays but the results, each of which stays in place. */
  ghost predicate ReportStripped(v: Json, w: Json)
    requires v.Obj?
  {
    && SameBut(v, w, {"CreatedAt", "Results"}) && "CreatedAt" !in w.fields
    && ("Results" in v.fields <==> "Results" in w.fields)
    && ("Results" in v.fields && !v.fields["Results"].Arr? ==> w.fields["Results"] == v.fields["Results"])
    && ("Results" in v.fields && v.fields["Results"].Arr? ==>
          && w.fields["Results"].Arr? && |w.fields["Results"].items| == |v.fields["Results"].items|
          && forall i | 0 <= i < |v.fields["Results"].items| ::
            ResultStripped(v.fields["Results"].items[i], w.fields["Results"].items[i]))
  }

  lemma DropStrips(v: Json)
    ensures SecretStripped(v, Drop(v, {"Code", "Match"}))
  {
  }

  lemma StripsResult(v: Json)
    ensures ResultStripped(v, StripResult(v))
  {
    if Get(v, "Secrets").Arr? {
      var secrets := v.fields["Secrets"].items;
      forall i | 0 <= i < |secrets|
        ensures SecretStripped(secrets[i], StripResult(v).fields["Secrets"].items[i])
      {
        DropStrips(secrets[i]);
      }
    }
  }

  /** Sanitising takes away the time of the scan and the text the secrets matched, and otherwise reorders arrays. */
  lemma SanitizingRemovesOnly(report: Json) returns (stripped: Json)
    requires report.Obj?
    ensures ReportStripped(report, stripped) && Reordered(stripped, SanitizeReport(report))
  {
    stripped := StripReport(report);
    CanonicalizeOnlyReorders(stripped);
    hide Canonicalize, Reordered, ResultStripped;
    var kept := Obj(report.fields - {"CreatedAt"});
    if "Results" in report.fields && report.fields["Results"].Arr? {
      var results := report.fields["Results"].items;
      forall i | 0 <= i < |results|
        ensures ResultStripped(results[i], stripped.fields["Results"].items[i])
      {
        StripsResult(results[i]);
      }
    }
  }
}
