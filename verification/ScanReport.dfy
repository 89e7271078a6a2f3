/** Canonical form of a release scan report, and what it preserves.

    `Canonicalize` sorts every array by the compact text of its canonical items, so two values get the
    same canonical form exactly when they differ only in the order of arrays, at any depth. */
module ScanReport {
  import opened Ordering
  import opened Json

  ghost predicate JsonLe(a: Json, b: Json) {
    StrLe(Print(a, ""), Print(b, ""))
  }

  lemma JsonLeIsTotalOrder()
    ensures TotalOrder(JsonLe)
  {
    forall a, b
      ensures JsonLe(a, b) || JsonLe(b, a)
      ensures JsonLe(a, b) && JsonLe(b, a) ==> a == b
    {
      StrLeTotal(Print(a, ""), Print(b, ""));
      PrintInjective(a, b, "");
    }
    forall a, b, c | JsonLe(a, b) && JsonLe(b, c)
      ensures JsonLe(a, c)
    {
      StrLeTransitive(Print(a, ""), Print(b, ""), Print(c, ""));
    }
  }

  ghost function Canonicalize(v: Json): Json
    decreases v
  {
    match v
    case Obj(fields) => Obj(map k | k in fields :: Canonicalize(fields[k]))
    case Arr(items) => Arr(Sort(CanonicalItems(v), JsonLe))
    case _ => v
  }

  ghost function CanonicalItems(v: Json): (s: seq<Json>)
    requires v.Arr?
    ensures |s| == |v.items|
    decreases v, 0
  {
    seq(|v.items|, i requires 0 <= i < |v.items| => Canonicalize(v.items[i]))
  }

  // ---- Equality up to array order --------------------------------------------------------------

  ghost predicate Permutation(p: seq<nat>, n: nat) {
    && |p| == n
    && (forall i | 0 <= i < n :: p[i] < n)
    && (forall i, j | 0 <= i < j < n :: p[i] != p[j])
  }

  /** `w` can be obtained from `v` by reordering arrays, at any depth. */
  ghost predicate Reordered(v: Json, w: Json)
    decreases v
  {
    match v
    case Obj(fields) =>
      && w.Obj? && w.fields.Keys == fields.Keys
      && forall k | k in fields :: Reordered(fields[k], w.fields[k])
    case Arr(items) =>
      && w.Arr?
      && exists p: seq<nat> :: ReorderedBy(v, w, p)
    case _ => v == w
  }

  ghost predicate ReorderedBy(v: Json, w: Json, p: seq<nat>)
    requires v.Arr? && w.Arr?
    decreases v, 0
  {
    && |w.items| == |v.items| && Permutation(p, |v.items|)
    && forall i | 0 <= i < |v.items| :: Reordered(v.items[i], w.items[p[i]])
  }

  // ---- Permutations and multisets --------------------------------------------------------------

  function Without<T>(t: seq<T>, k: nat): (u: seq<T>)
    requires k < |t|
    ensures |u| == |t| - 1
    ensures forall i | 0 <= i < |u| :: u[i] == t[Past(i, k)]
  {
    t[..k] + t[k + 1..]
  }

  /** The position, in a sequence, of what is at position `i` once position `k` is removed. */
  function Past(i: nat, k: nat): nat {
    if i < k then i else i + 1
  }

  lemma WithoutMultiset<T>(t: seq<T>, k: nat)
    requires k < |t|
    ensures multiset(Without(t, k)) == multiset(t) - multiset{t[k]}
    ensures t[k] in multiset(t)
  {
    assert t == t[..k] + [t[k]] + t[k + 1..];
  }

  lemma {:induction false} MatchMultisets<T>(s: seq<T>, t: seq<T>) returns (p: seq<nat>)
    requires multiset(s) == multiset(t)
    ensures Permutation(p, |s|) && |s| == |t|
    ensures forall i | 0 <= i < |s| :: s[i] == t[p[i]]
  {
    assert |multiset(s)| == |s| && |multiset(t)| == |t|;
    if s == [] {
      p := [];
    } else {
      WithoutMultiset(s, 0);
      var k :| 0 <= k < |t| && t[k] == s[0];
      WithoutMultiset(t, k);
      var q := MatchMultisets(Without(s, 0), Without(t, k));
      p := [k] + seq(|q|, i requires 0 <= i < |q| => Past(q[i], k));
      ExtendPermutation(q, k, p);
      forall i | 0 <= i < |s|
        ensures s[i] == t[p[i]]
      {
        if i > 0 {
          assert s[i] == Without(s, 0)[i - 1] == Without(t, k)[q[i - 1]];
        }
      }
    }
  }

  lemma ExtendPermutation(q: seq<nat>, k: nat, p: seq<nat>)
    requires Permutation(q, |q|) && k <= |q|
    requires |p| == |q| + 1 && p[0] == k && forall i | 0 < i < |p| :: p[i] == Past(q[i - 1], k)
    ensures Permutation(p, |p|)
  {
    forall i, j | 0 <= i < j < |p|
      ensures p[i] != p[j]
    {
      if i > 0 {
        assert q[i - 1] != q[j - 1];
      }
    }
  }

  lemma ShrinkPermutation(p: seq<nat>, k: nat) returns (q: seq<nat>)
    requires p != [] && Permutation(p, |p|) && k == p[|p| - 1]
    ensures Permutation(q, |p| - 1)
    ensures forall i | 0 <= i < |q| :: Past(q[i], k) == p[i]
  {
    var n := |p| - 1;
    forall i | 0 <= i < n
      ensures p[i] != k && p[i] < |p|
    {
      assert p[i] != p[n];
    }
    q := seq(n, i requires 0 <= i < n => if p[i] < k then p[i] else p[i] - 1);
    forall i, j | 0 <= i < j < n
      ensures q[i] != q[j]
    {
      assert p[i] != p[j];
    }
  }

  lemma {:induction false} PermutedMultiset<T>(s: seq<T>, t: seq<T>, p: seq<nat>)
    requires |s| == |t| && Permutation(p, |s|) && forall i | 0 <= i < |s| :: s[i] == t[p[i]]
    ensures multiset(s) == multiset(t)
  {
    if s != [] {
      var n, k := |s| - 1, p[|s| - 1];
      var q := ShrinkPermutation(p, k);
      var u, w := Without(s, n), Without(t, k);
      forall i | 0 <= i < n
        ensures u[i] == w[q[i]]
      {
        assert u[i] == s[i] == t[p[i]];
      }
      PermutedMultiset(u, w, q);
      WithoutMultiset(s, n);
      WithoutMultiset(t, k);
      assert multiset(s) == multiset(u) + multiset{s[n]};
      assert multiset(t) == multiset(w) + multiset{t[k]};
    }
  }

  // ---- Canonical form decides reordering -------------------------------------------------------

  lemma {:induction false} ReorderedSameCanonical(v: Json, w: Json)
    requires Reordered(v, w)
    ensures Canonicalize(v) == Canonicalize(w)
    decreases v
  {
    match v {
      case Obj(fields) =>
        forall k | k in fields
          ensures Canonicalize(fields[k]) == Canonicalize(w.fields[k])
        {
          ReorderedSameCanonical(fields[k], w.fields[k]);
        }
        assert Canonicalize(v).fields == Canonicalize(w).fields;
      case Arr(items) =>
        var p :| ReorderedBy(v, w, p);
        var s, t := CanonicalItems(v), CanonicalItems(w);
        forall i | 0 <= i < |s|
          ensures s[i] == t[p[i]]
        {
          ReorderedSameCanonical(items[i], w.items[p[i]]);
        }
        PermutedMultiset(s, t, p);
        JsonLeIsTotalOrder();
        SortIsCanonical(s, t, JsonLe);
      case _ =>
    }
  }

  lemma {:induction false} SameCanonicalReordered(v: Json, w: Json)
    requires Canonicalize(v) == Canonicalize(w)
    ensures Reordered(v, w)
    decreases v
  {
    match v {
      case Obj(fields) =>
        assert Canonicalize(v).fields.Keys == fields.Keys && Canonicalize(w).fields.Keys == w.fields.Keys;
        forall k | k in fields
          ensures Reordered(fields[k], w.fields[k])
        {
          assert Canonicalize(v).fields[k] == Canonicalize(w).fields[k];
          SameCanonicalReordered(fields[k], w.fields[k]);
        }
      case Arr(items) =>
        var s, t := CanonicalItems(v), CanonicalItems(w);
        JsonLeIsTotalOrder();
        SortIsCanonical(s, t, JsonLe);
        var p := MatchMultisets(s, t);
        forall i | 0 <= i < |items|
          ensures Reordered(items[i], w.items[p[i]])
        {
          assert s[i] == t[p[i]];
          SameCanonicalReordered(items[i], w.items[p[i]]);
        }
        assert ReorderedBy(v, w, p);
      case _ =>
    }
  }

  /** Two values have the same canonical form exactly when they differ only in array order. */
  lemma CanonicalFormDecides(v: Json, w: Json)
    ensures Canonicalize(v) == Canonicalize(w) <==> Reordered(v, w)
  {
    if Reordered(v, w) {
      ReorderedSameCanonical(v, w);
    }
    if Canonicalize(v) == Canonicalize(w) {
      SameCanonicalReordered(v, w);
    }
  }

  lemma {:induction false} CanonicalizeIdempotent(v: Json)
    ensures Canonicalize(Canonicalize(v)) == Canonicalize(v)
    decreases v
  {
    match v {
      case Obj(fields) =>
        forall k | k in fields
          ensures Canonicalize(Canonicalize(fields[k])) == Canonicalize(fields[k])
        {
          CanonicalizeIdempotent(fields[k]);
        }
        assert Canonicalize(Canonicalize(v)).fields == Canonicalize(v).fields;
      case Arr(items) =>
        var s := CanonicalItems(v);
        var c := Canonicalize(v);
        JsonLeIsTotalOrder();
        SortSorts(s, JsonLe);
        assert |multiset(c.items)| == |c.items| && |multiset(s)| == |s|;
        forall i | 0 <= i < |c.items|
          ensures CanonicalItems(c)[i] == c.items[i]
        {
          assert c.items[i] in multiset(s);
          var j :| 0 <= j < |items| && c.items[i] == s[j];
          CanonicalizeIdempotent(items[j]);
        }
        assert CanonicalItems(c) == c.items;
        SortSorts(c.items, JsonLe);
        SortedIsUnique(Sort(c.items, JsonLe), c.items, JsonLe);
      case _ =>
    }
  }

  /** Canonicalisation changes nothing but array order. */
  lemma CanonicalizeOnlyReorders(v: Json)
    ensures Reordered(v, Canonicalize(v))
  {
    CanonicalizeIdempotent(v);
    CanonicalFormDecides(v, Canonicalize(v));
  }

  // ---- Findings --------------------------------------------------------------------------------

  datatype Finding = Finding(kind: string, identifier: string, severity: string)

  datatype Source = Source(field: string, kind: string, identifier: string)

  /** The three finding arrays of a result, the kind reported for each, and the member that identifies a finding. */
  const SOURCES: seq<Source> := [
    Source("Vulnerabilities", "vulnerabilities", "VulnerabilityID"),
    Source("Secrets", "secrets", "RuleID"),
    Source("Misconfigurations", "misconfigurations", "ID")
  ]

  ghost predicate ObjectArray(v: Json) {
    v.Arr? && forall x | x in v.items :: x.Obj?
  }

  /** What `_validate_trivy_report` demands of a report; a version written `2.0` equals 2. */
  ghost predicate ReportShape(report: Json) {
    && report.Obj?
    && (Get(report, "SchemaVersion") == Num("2") || Get(report, "SchemaVersion") == Num("2.0"))
    && ObjectArray(Get(report, "Results"))
    && forall r | r in Get(report, "Results").items :: ResultShape(r)
  }

  ghost predicate ResultShape(r: Json) {
    forall s | s in SOURCES :: Get(r, s.field) == Null || ObjectArray(Get(r, s.field))
  }

  /** `value.get(field) or []`. */
  function Entries(v: Json, field: string): seq<Json> {
    match Get(v, field)
    case Arr(items) => items
    case _ => []
  }

  /** How the classifier renders a severity and an identifier member: `str(value or "UNKNOWN")`, upper-cased
      for a severity.  Any two functions of the value will do.  Python writes the members of an object in the order in
      which they stand, which sanitising changes: a report and its sanitised form have a rendering each. */
  datatype Rendering = Rendering(severity: Json -> string, identifier: Json -> string)

  function Classified(f: Json, s: Source, render: Rendering): Finding {
    Finding(s.kind, render.identifier(Get(f, s.identifier)), render.severity(Get(f, "Severity")))
  }

  predicate Blocking(f: Finding) {
    f.severity == "HIGH" || f.severity == "CRITICAL"
  }

  /** The concatenation of `g` over a sequence. */
  function Flat<A, X>(s: seq<A>, g: A -> seq<X>): seq<X> {
    if s == [] then [] else Flat(s[..|s| - 1], g) + g(s[|s| - 1])
  }

  lemma FlatNext<A, X>(s: seq<A>, k: nat, g: A -> seq<X>)
    requires k < |s|
    ensures Flat(s[..k + 1], g) == Flat(s[..k], g) + g(s[k])
  {
    assert s[..k + 1][..k] == s[..k];
  }

  // The findings of a report, in traversal order, each passed through `pick`.

  function OfEntry<X>(s: Source, render: Rendering, pick: Finding -> seq<X>): Json -> seq<X> {
    (f: Json) => pick(Classified(f, s, render))
  }

  function OfSource<X>(r: Json, render: Rendering, pick: Finding -> seq<X>): Source -> seq<X> {
    (s: Source) => Flat(Entries(r, s.field), OfEntry(s, render, pick))
  }

  function OfResult<X>(sources: seq<Source>, render: Rendering, pick: Finding -> seq<X>): Json -> seq<X> {
    (r: Json) => Flat(sources, OfSource(r, render, pick))
  }

  function OfReport<X>(report: Json, render: Rendering, pick: Finding -> seq<X>): seq<X> {
    Flat(Entries(report, "Results"), OfResult(SOURCES, render, pick))
  }

  function PickCount(f: Finding): seq<(string, string)> {
    [(f.kind, f.severity)]
  }

  function PickBlocked(f: Finding): seq<Finding> {
    if Blocking(f) then [f] else []
  }

  /** How often each severity occurs for each kind. */
  function Counts(report: Json, render: Rendering): multiset<(string, string)> {
    multiset(OfReport(report, render, PickCount))
  }

  predicate FindingLe(a: Finding, b: Finding) {
    if a.kind != b.kind then StrLe(a.kind, b.kind)
    else if a.identifier != b.identifier then StrLe(a.identifier, b.identifier)
    else StrLe(a.severity, b.severity)
  }

  /** The blocking findings, ordered by kind, identifier and severity. */
  function BlockedFindings(report: Json, render: Rendering): seq<Finding> {
    Sort(OfReport(report, render, PickBlocked), FindingLe)
  }

  method Findings(report: Json, render: Rendering) returns (counts: multiset<(string, string)>, blocked: seq<Finding>)
    requires ReportShape(report)
    ensures counts == Counts(report, render)
    ensures blocked == BlockedFindings(report, render)
  {
    counts, blocked := multiset{}, [];
    var results, sources := Entries(report, "Results"), SOURCES;
    for i := 0 to |results|
      invariant counts == multiset(Flat(results[..i], OfResult(sources, render, PickCount)))
      invariant blocked == Flat(results[..i], OfResult(sources, render, PickBlocked))
    {
      var c, b := ResultFindings(results[i], sources, render);
      FlatNext(results, i, OfResult(sources, render, PickCount));
      FlatNext(results, i, OfResult(sources, render, PickBlocked));
      counts, blocked := counts + c, blocked + b;
    }
    assert results[..|results|] == results;
    blocked := Sort(blocked, FindingLe);
  }

  method ResultFindings(r: Json, sources: seq<Source>, render: Rendering)
    returns (counts: multiset<(string, string)>, blocked: seq<Finding>)
    ensures counts == multiset(OfResult(sources, render, PickCount)(r))
    ensures blocked == OfResult(sources, render, PickBlocked)(r)
  {
    counts, blocked := multiset{}, [];
    for j := 0 to |sources|
      invariant counts == multiset(Flat(sources[..j], OfSource(r, render, PickCount)))
      invariant blocked == Flat(sources[..j], OfSource(r, render, PickBlocked))
    {
      var c, b := SourceFindings(r, sources[j], render);
      FlatNext(sources, j, OfSource(r, render, PickCount));
      FlatNext(sources, j, OfSource(r, render, PickBlocked));
      counts, blocked := counts + c, blocked + b;
    }
    assert sources[..|sources|] == sources;
  }

  method SourceFindings(r: Json, s: Source, render: Rendering)
    returns (counts: multiset<(string, string)>, blocked: seq<Finding>)
    ensures counts == multiset(OfSource(r, render, PickCount)(s))
    ensures blocked == OfSource(r, render, PickBlocked)(s)
  {
    counts, blocked := multiset{}, [];
    var entries := Entries(r, s.field);
    for k := 0 to |entries|
      invariant counts == multiset(Flat(entries[..k], OfEntry(s, render, PickCount)))
      invariant blocked == Flat(entries[..k], OfEntry(s, render, PickBlocked))
    {
      var f := Classified(entries[k], s, render);
      FlatNext(entries, k, OfEntry(s, render, PickCount));
      FlatNext(entries, k, OfEntry(s, render, PickBlocked));
      assert blocked + PickBlocked(f) == if Blocking(f) then blocked + [f] else blocked;
      counts := counts + multiset{(f.kind, f.severity)};
      if Blocking(f) {
        blocked := blocked + [f];
      }
    }
    assert entries[..|entries|] == entries;
  }

  // ---- Sanitising ------------------------------------------------------------------------------

  function Drop(v: Json, keys: set<string>): Json {
    match v
    case Obj(fields) => Obj(fields - keys)
    case _ => v
  }

  function DropAll(s: seq<Json>, keys: set<string>): (t: seq<Json>)
    ensures |t| == |s|
  {
    seq(|s|, i requires 0 <= i < |s| => Drop(s[i], keys))
  }

  /** A result without the text its secrets matched. */
  function StripResult(r: Json): Json {
    if Get(r, "Secrets").Arr? then
      Obj(r.fields["Secrets" := Arr(DropAll(r.fields["Secrets"].items, {"Code", "Match"}))])
    else r
  }

  function StripResults(s: seq<Json>): (t: seq<Json>)
    ensures |t| == |s|
  {
    seq(|s|, i requires 0 <= i < |s| => StripResult(s[i]))
  }

  function StripReport(report: Json): Json
    requires report.Obj?
  {
    var kept := Obj(report.fields - {"CreatedAt"});
    if Get(kept, "Results").Arr? then
      Obj(kept.fields["Results" := Arr(StripResults(kept.fields["Results"].items))])
    else kept
  }

  ghost function SanitizeReport(report: Json): Json
    requires report.Obj?
  {
    Canonicalize(StripReport(report))
  }

  /** The value is its own canonical form: a string, a number, or an array whose items are in order at every depth. */
  ghost predicate InOrder(v: Json) {
    Canonicalize(v) == v
  }

  /** No object in the value has two members, so that there is one order to write them in. */
  predicate OrderFree(v: Json) {
    match v
    case Arr(items) => forall i | 0 <= i < |items| :: OrderFree(items[i])
    case Obj(fields) => |fields| <= 1 && forall k | k in fields :: OrderFree(fields[k])
    case _ => true
  }

  /** Sanitising leaves neither an array nor an object of the value to be written otherwise. */
  ghost predicate Settled(v: Json) {
    InOrder(v) && OrderFree(v)
  }

  /** The renderings of a report and of its sanitised form differ at most in the order of members. */
  ghost predicate Alike(raw: Rendering, clean: Rendering) {
    forall v | OrderFree(v) :: raw.severity(v) == clean.severity(v) && raw.identifier(v) == clean.identifier(v)
  }

  /** Every finding's severity and identifier is settled. */
  ghost predicate LabelsSettled(report: Json) {
    forall r, s | r in Entries(report, "Results") && s in SOURCES :: EntriesSettled(r, s)
  }

  ghost predicate EntriesSettled(r: Json, s: Source) {
    forall f | f in Entries(r, s.field) :: Settled(Get(f, s.identifier)) && Settled(Get(f, "Severity"))
  }

  // ---- Sanitising keeps the classification -----------------------------------------------------

  lemma {:induction false} FlatWithout<A, X>(s: seq<A>, k: nat, g: A -> seq<X>)
    requires k < |s|
    ensures multiset(Flat(s, g)) == multiset(Flat(Without(s, k), g)) + multiset(g(s[k]))
  {
    var n := |s| - 1;
    if k < n {
      FlatWithout(s[..n], k, g);
      assert Without(s, k)[..n - 1] == Without(s[..n], k);
    } else {
      assert Without(s, k) == s[..n];
    }
  }

  lemma {:induction false} FlatPermuted<A, X>(s: seq<A>, t: seq<A>, g: A -> seq<X>)
    requires multiset(s) == multiset(t)
    ensures multiset(Flat(s, g)) == multiset(Flat(t, g))
    decreases |s|
  {
    assert |multiset(s)| == |s| && |multiset(t)| == |t|;
    if s != [] {
      WithoutMultiset(s, 0);
      var k :| 0 <= k < |t| && t[k] == s[0];
      WithoutMultiset(t, k);
      FlatPermuted(Without(s, 0), Without(t, k), g);
      FlatWithout(s, 0, g);
      FlatWithout(t, k, g);
    }
  }

  lemma {:induction false} FlatPointwise<A, X>(s: seq<A>, t: seq<A>, g: A -> seq<X>, h: A -> seq<X>)
    requires |s| == |t| && forall i | 0 <= i < |s| :: multiset(g(s[i])) == multiset(h(t[i]))
    ensures multiset(Flat(s, g)) == multiset(Flat(t, h))
    decreases |s|
  {
    if s != [] {
      var n := |s| - 1;
      FlatPointwise(s[..n], t[..n], g, h);
    }
  }

  /** Canonicalising an array leaves its items canonicalised and in some order. */
  lemma CanonicalArray(v: Json)
    requires v.Arr?
    ensures Canonicalize(v).Arr? && multiset(Canonicalize(v).items) == multiset(CanonicalItems(v))
  {
    JsonLeIsTotalOrder();
    SortSorts(CanonicalItems(v), JsonLe);
  }

  lemma CanonicalGet(v: Json, key: string)
    ensures Get(Canonicalize(v), key) == Canonicalize(Get(v, key))
  {
  }

  /** Findings gathered from an array are those gathered from its canonical form, item by item. */
  lemma GatherCanonical<X>(v: Json, field: string, items: seq<Json>, g: Json -> seq<X>, h: Json -> seq<X>)
    requires Entries(v, field) == items
    requires forall x | x in items :: multiset(h(Canonicalize(x))) == multiset(g(x))
    ensures multiset(Flat(Entries(Canonicalize(v), field), h)) == multiset(Flat(items, g))
  {
    CanonicalGet(v, field);
    if Get(v, field).Arr? {
      var a := Get(v, field);
      CanonicalArray(a);
      FlatPermuted(Canonicalize(a).items, CanonicalItems(a), h);
      FlatPointwise(CanonicalItems(a), items, h, g);
    }
  }

  /** A finding as it is classified after canonicalising. */
  ghost function Reclassified(f: Json, s: Source, render: Rendering): Finding {
    Finding(s.kind, render.identifier(Canonicalize(Get(f, s.identifier))),
            render.severity(Canonicalize(Get(f, "Severity"))))
  }

  lemma EntryReclassified(f: Json, s: Source, keys: set<string>, render: Rendering)
    requires s.identifier !in keys && "Severity" !in keys
    ensures Classified(Canonicalize(Drop(f, keys)), s, render) == Reclassified(f, s, render)
  {
    CanonicalGet(Drop(f, keys), s.identifier);
    CanonicalGet(Drop(f, keys), "Severity");
  }

  lemma StripEntries(r: Json, field: string) returns (keys: set<string>)
    ensures Entries(StripResult(r), field) == DropAll(Entries(r, field), keys)
    ensures keys <= {"Code", "Match"}
  {
    keys := if field == "Secrets" then {"Code", "Match"} else {};
    var from, to := Entries(r, field), Entries(StripResult(r), field);
    forall i | 0 <= i < |from|
      ensures field != "Secrets" ==> Drop(from[i], keys) == from[i]
    {
      assert from[i].Obj? ==> from[i].fields - {} == from[i].fields;
    }
    assert |to| == |from|;
  }

  /** The same is picked from every finding of the source, classified before or after canonicalising. */
  ghost predicate PickKept<X>(r: Json, s: Source, raw: Rendering, clean: Rendering, pick: Finding -> seq<X>) {
    forall f | f in Entries(r, s.field) :: pick(Reclassified(f, s, clean)) == pick(Classified(f, s, raw))
  }

  lemma SourceUnchanged<X>(r: Json, s: Source, raw: Rendering, clean: Rendering, pick: Finding -> seq<X>)
    requires s.identifier != "Code" && s.identifier != "Match" && PickKept(r, s, raw, clean, pick)
    ensures multiset(OfSource(Canonicalize(StripResult(r)), clean, pick)(s)) == multiset(OfSource(r, raw, pick)(s))
  {
    var g, before := OfEntry(s, clean, pick), OfEntry(s, raw, pick);
    var from, to := Entries(r, s.field), Entries(StripResult(r), s.field);
    var keys := StripEntries(r, s.field);
    forall i | 0 <= i < |to|
      ensures g(Canonicalize(to[i])) == before(from[i])
    {
      assert from[i] in from;
      EntryReclassified(from[i], s, keys, clean);
    }
    var h := (f: Json) => if f in to then g(Canonicalize(f)) else [];
    GatherCanonical(StripResult(r), s.field, to, h, g);
    FlatPointwise(to, from, h, before);
  }

  lemma ResultUnchanged<X>(r: Json, sources: seq<Source>, raw: Rendering, clean: Rendering, pick: Finding -> seq<X>)
    requires forall s | s in sources ::
      s.identifier != "Code" && s.identifier != "Match" && PickKept(r, s, raw, clean, pick)
    ensures multiset(OfResult(sources, clean, pick)(Canonicalize(StripResult(r))))
         == multiset(OfResult(sources, raw, pick)(r))
  {
    var g, h := OfSource(r, raw, pick), OfSource(Canonicalize(StripResult(r)), clean, pick);
    forall i | 0 <= i < |sources|
      ensures multiset(h(sources[i])) == multiset(g(sources[i]))
    {
      SourceUnchanged(r, sources[i], raw, clean, pick);
    }
    FlatPointwise(sources, sources, h, g);
  }

  lemma ResultsUnchanged<X>(report: Json, sources: seq<Source>, raw: Rendering, clean: Rendering, pick: Finding -> seq<X>)
    requires report.Obj?
    requires forall s | s in sources :: s.identifier != "Code" && s.identifier != "Match"
    requires forall r, s | r in Entries(report, "Results") && s in sources :: PickKept(r, s, raw, clean, pick)
    ensures multiset(Flat(Entries(SanitizeReport(report), "Results"), OfResult(sources, clean, pick)))
         == multiset(Flat(Entries(report, "Results"), OfResult(sources, raw, pick)))
  {
    var g, before := OfResult(sources, clean, pick), OfResult(sources, raw, pick);
    var from, to := Entries(report, "Results"), Entries(StripReport(report), "Results");
    assert to == StripResults(from);
    forall i | 0 <= i < |to|
      ensures multiset(g(Canonicalize(to[i]))) == multiset(before(from[i]))
    {
      ResultUnchanged(from[i], sources, raw, clean, pick);
    }
    var h := (r: Json) => if r in to then g(Canonicalize(r)) else [];
    GatherCanonical(StripReport(report), "Results", to, h, g);
    FlatPointwise(to, from, h, before);
  }

  /** What is picked is kept if nothing that is picked changes. */
  lemma SanitizingKeepsPicked<X>(report: Json, raw: Rendering, clean: Rendering, pick: Finding -> seq<X>)
    requires report.Obj?
    requires forall r, s | r in Entries(report, "Results") && s in SOURCES :: PickKept(r, s, raw, clean, pick)
    ensures multiset(OfReport(SanitizeReport(report), clean, pick)) == multiset(OfReport(report, raw, pick))
  {
    ResultsUnchanged(report, SOURCES, raw, clean, pick);
  }

  /** The sanitised report holds the same findings, in some order, whatever is picked from each. */
  lemma SanitizingKeepsFindings<X>(report: Json, raw: Rendering, clean: Rendering, pick: Finding -> seq<X>)
    requires ReportShape(report) && LabelsSettled(report) && Alike(raw, clean)
    ensures multiset(OfReport(SanitizeReport(report), clean, pick)) == multiset(OfReport(report, raw, pick))
  {
    hide OfReport, Entries, Get, SOURCES, OrderFree;
    forall r, s | r in Entries(report, "Results") && s in SOURCES
      ensures PickKept(r, s, raw, clean, pick)
    {
      assert EntriesSettled(r, s);
    }
    SanitizingKeepsPicked(report, raw, clean, pick);
  }

  lemma FindingLeIsTotalOrder()
    ensures TotalOrder(FindingLe)
  {
    forall a, b
      ensures FindingLe(a, b) || FindingLe(b, a)
      ensures FindingLe(a, b) && FindingLe(b, a) ==> a == b
    {
      StrLeTotal(a.kind, b.kind);
      StrLeTotal(a.identifier, b.identifier);
      StrLeTotal(a.severity, b.severity);
    }
    forall a, b, c | FindingLe(a, b) && FindingLe(b, c)
      ensures FindingLe(a, c)
    {
      FindingLeTransitive(a, b, c);
    }
  }

  lemma FindingLeTransitive(a: Finding, b: Finding, c: Finding)
    requires FindingLe(a, b) && FindingLe(b, c)
    ensures FindingLe(a, c)
  {
    if a.kind != b.kind || b.kind != c.kind {
      StrLeTotal(a.kind, b.kind);
      StrLeTotal(b.kind, c.kind);
      StrLeTransitive(a.kind, b.kind, c.kind);
    } else if a.identifier != b.identifier || b.identifier != c.identifier {
      StrLeTotal(a.identifier, b.identifier);
      StrLeTotal(b.identifier, c.identifier);
      StrLeTransitive(a.identifier, b.identifier, c.identifier);
    } else {
      StrLeTransitive(a.severity, b.severity, c.severity);
    }
  }

  /** The classifier reports the same counts and the same blocked list for a report and for its sanitised form. */
  ghost predicate SameClassification(report: Json, raw: Rendering, clean: Rendering)
    requires report.Obj?
  {
    && Counts(SanitizeReport(report), clean) == Counts(report, raw)
    && BlockedFindings(SanitizeReport(report), clean) == BlockedFindings(report, raw)
  }

  /** A report is classified like its sanitised form, however labels are rendered, exactly when its labels are
      settled; labels that are texts always are. */
  lemma SanitizingKeepsClassification(report: Json)
    requires ReportShape(report)
    ensures (forall raw, clean | Alike(raw, clean) :: SameClassification(report, raw, clean)) <==> LabelsSettled(report)
  {
    ReportIsObject(report);
    hide ReportShape, SameClassification, LabelsSettled, Alike;
    if LabelsSettled(report) {
      forall raw, clean | Alike(raw, clean)
        ensures SameClassification(report, raw, clean)
      {
        SettledLabelsKeep(report, raw, clean);
      }
    } else {
      var raw, clean := DisorderShows(report);
    }
  }

  /** Every label is a text or absent, which is what the scanner writes. */
  ghost predicate TextLabels(report: Json) {
    forall r, s, f | FoundAt(report, r, s, f) :: IsText(Get(f, s.identifier)) && IsText(Get(f, "Severity"))
  }

  predicate IsText(v: Json) {
    v.Str? || v == Null
  }

  /** A report whose labels are texts is classified like its sanitised form. */
  lemma TextLabelsKeep(report: Json, raw: Rendering, clean: Rendering)
    requires ReportShape(report) && TextLabels(report) && Alike(raw, clean)
    ensures SameClassification(report, raw, clean)
  {
    ReportIsObject(report);
    hide ReportShape, SameClassification, Get, Entries, SOURCES;
    forall r, s | r in Entries(report, "Results") && s in SOURCES
      ensures EntriesSettled(r, s)
    {
      forall f | f in Entries(r, s.field)
        ensures Settled(Get(f, s.identifier)) && Settled(Get(f, "Severity"))
      {
        assert FoundAt(report, r, s, f);
      }
    }
    SettledLabelsKeep(report, raw, clean);
  }

  lemma SettledLabelsKeep(report: Json, raw: Rendering, clean: Rendering)
    requires ReportShape(report) && LabelsSettled(report) && Alike(raw, clean)
    ensures SameClassification(report, raw, clean)
  {
    ReportIsObject(report);
    hide ReportShape, LabelsSettled, OfReport, Alike;
    SanitizingKeepsFindings(report, raw, clean, PickCount);
    SanitizingKeepsFindings(report, raw, clean, PickBlocked);
    FindingLeIsTotalOrder();
    SortIsCanonical(OfReport(SanitizeReport(report), clean, PickBlocked), OfReport(report, raw, PickBlocked), FindingLe);
  }

  /** Whatever is gathered comes from an item. */
  lemma {:induction false} FlatMember<A, X>(s: seq<A>, g: A -> seq<X>, x: X)
    ensures x in Flat(s, g) <==> exists a | a in s :: x in g(a)
  {
    if s != [] {
      var rest, last := s[..|s| - 1], s[|s| - 1];
      FlatMember(rest, g, x);
      assert s == rest + [last];
    }
  }

  /** A finding of a report, and the result, source and entry it is read from. */
  ghost predicate FoundAt(report: Json, r: Json, s: Source, f: Json) {
    r in Entries(report, "Results") && s in SOURCES && f in Entries(r, s.field)
  }

  lemma InSource<X>(r: Json, s: Source, render: Rendering, pick: Finding -> seq<X>, x: X)
    ensures x in OfSource(r, render, pick)(s) <==> exists f | f in Entries(r, s.field) :: x in pick(Classified(f, s, render))
  {
    hide Entries, Classified;
    FlatMember(Entries(r, s.field), OfEntry(s, render, pick), x);
    hide Flat;
    assert forall f :: OfEntry(s, render, pick)(f) == pick(Classified(f, s, render));
  }

  lemma InResult<X>(r: Json, render: Rendering, pick: Finding -> seq<X>, x: X)
    ensures x in OfResult(SOURCES, render, pick)(r) <==> exists s | s in SOURCES :: x in OfSource(r, render, pick)(s)
  {
    hide SOURCES, OfSource;
    FlatMember(SOURCES, OfSource(r, render, pick), x);
  }

  /** What is gathered from a report is what is picked from the findings in it. */
  lemma Gathered<X>(report: Json, render: Rendering, pick: Finding -> seq<X>, x: X)
    ensures x in OfReport(report, render, pick) <==>
      exists r, s, f :: FoundAt(report, r, s, f) && x in pick(Classified(f, s, render))
  {
    hide SOURCES, OfSource, OfResult, Entries, Classified, Flat;
    FlatMember(Entries(report, "Results"), OfResult(SOURCES, render, pick), x);
    if r :| r in Entries(report, "Results") && x in OfResult(SOURCES, render, pick)(r) {
      InResult(r, render, pick, x);
      var s :| s in SOURCES && x in OfSource(r, render, pick)(s);
      InSource(r, s, render, pick, x);
      var f :| f in Entries(r, s.field) && x in pick(Classified(f, s, render));
      assert FoundAt(report, r, s, f);
    }
    if r, s, f :| FoundAt(report, r, s, f) && x in pick(Classified(f, s, render)) {
      InSource(r, s, render, pick, x);
      InResult(r, render, pick, x);
    }
  }

  /** The blocked findings are the blocking ones among those found. */
  lemma BlockedMember(report: Json, render: Rendering, x: Finding)
    ensures x in BlockedFindings(report, render) <==>
      Blocking(x) && exists r, s, f :: FoundAt(report, r, s, f) && x == Classified(f, s, render)
  {
    hide Blocking, FoundAt, Classified, OfReport;
    FindingLeIsTotalOrder();
    SortSorts(OfReport(report, render, PickBlocked), FindingLe);
    hide Sort, TotalOrder, Sorted, FindingLe;
    assert x in BlockedFindings(report, render) <==> x in multiset(OfReport(report, render, PickBlocked));
    Gathered(report, render, PickBlocked, x);
    assert forall y :: x in PickBlocked(y) <==> x == y && Blocking(x);
  }

  /** Everything in a canonical form is in order. */
  lemma CanonicalParts(v: Json, field: string)
    requires InOrder(v)
    ensures InOrder(Get(v, field))
    ensures forall x | x in Entries(v, field) :: InOrder(x)
  {
    CanonicalGet(v, field);
    forall x | x in Entries(v, field)
      ensures InOrder(x)
    {
      var y := CanonicalMember(v, field, x);
      CanonicalizeIdempotent(y);
    }
  }

  /** The labels of a sanitised report are in order. */
  lemma SanitizedInOrder(report: Json, r: Json, s: Source, f: Json)
    requires report.Obj? && FoundAt(SanitizeReport(report), r, s, f)
    ensures InOrder(Get(f, s.identifier)) && InOrder(Get(f, "Severity"))
  {
    hide Canonicalize, Get, Entries, StripReport;
    CanonicalizeIdempotent(StripReport(report));
    CanonicalParts(SanitizeReport(report), "Results");
    CanonicalParts(r, s.field);
    CanonicalParts(f, s.identifier);
    CanonicalParts(f, "Severity");
  }

  /** A rendering that singles out two labels; in a sanitised report only if there is one order to write them in. */
  function Marking(severity: Json, identifier: Json, sanitized: bool): Rendering {
    Rendering((v: Json) => if v == severity && (sanitized ==> OrderFree(v)) then "HIGH" else "LOW",
              (v: Json) => if v == identifier && (sanitized ==> OrderFree(v)) then "this" else "other")
  }

  lemma MarkingAlike(severity: Json, identifier: Json)
    ensures Alike(Marking(severity, identifier, false), Marking(severity, identifier, true))
  {
    hide OrderFree;
  }

  /** A finding with the marked labels blocks, and a finding of the sanitised report that is classified like it carries
      the same labels, which no order can change. */
  lemma MarkedFinding(f: Json, s: Source, g: Json, u: Source)
    ensures var severity, identifier := Get(f, "Severity"), Get(f, s.identifier);
            var x := Classified(f, s, Marking(severity, identifier, false));
            && Blocking(x)
            && (x == Classified(g, u, Marking(severity, identifier, true)) ==>
                  && Get(g, "Severity") == severity && OrderFree(severity)
                  && Get(g, u.identifier) == identifier && OrderFree(identifier))
  {
    hide OrderFree, Get;
  }

  /** A label that is not settled makes some renderings classify the sanitised report differently. */
  lemma DisorderShows(report: Json) returns (raw: Rendering, clean: Rendering)
    requires ReportShape(report) && !LabelsSettled(report)
    ensures Alike(raw, clean) && !SameClassification(report, raw, clean)
  {
    hide Canonicalize, Get, Entries, SOURCES, OrderFree, Marking, Alike, Blocking, Classified, SanitizeReport,
      BlockedFindings, Counts;
    var r, s :| r in Entries(report, "Results") && s in SOURCES && !EntriesSettled(r, s);
    var f :| f in Entries(r, s.field) && !(Settled(Get(f, s.identifier)) && Settled(Get(f, "Severity")));
    var severity, identifier := Get(f, "Severity"), Get(f, s.identifier);
    raw, clean := Marking(severity, identifier, false), Marking(severity, identifier, true);
    MarkingAlike(severity, identifier);
    MarkedFinding(f, s, f, s);
    var x := Classified(f, s, raw);
    assert FoundAt(report, r, s, f);
    BlockedMember(report, raw, x);
    BlockedMember(SanitizeReport(report), clean, x);
    if q, u, g :| FoundAt(SanitizeReport(report), q, u, g) && x == Classified(g, u, clean) {
      SanitizedInOrder(report, q, u, g);
      MarkedFinding(f, s, g, u);
    }
    assert x in BlockedFindings(report, raw) && x !in BlockedFindings(SanitizeReport(report), clean);
  }

  // ---- One rendering ---------------------------------------------------------------------------

  /** No label that is not settled is rendered like a label of the same kind of finding in the sanitised report. */
  ghost predicate ToldApart(report: Json, raw: Rendering, clean: Rendering)
    requires report.Obj?
  {
    forall r, s, f, q, u, g | FoundAt(report, r, s, f) && FoundAt(SanitizeReport(report), q, u, g) && s.kind == u.kind ::
      && (!Settled(Get(f, "Severity")) ==> clean.severity(Get(g, "Severity")) != raw.severity(Get(f, "Severity")))
      && (!Settled(Get(f, s.identifier)) ==>
            clean.identifier(Get(g, u.identifier)) != raw.identifier(Get(f, s.identifier)))
  }

  /** The severities of all findings and the identifiers of the blocking ones are settled. */
  ghost predicate ReportedSettled(report: Json, raw: Rendering) {
    forall r, s, f | FoundAt(report, r, s, f) :: EntryReportedSettled(f, s, raw)
  }

  ghost predicate EntryReportedSettled(f: Json, s: Source, raw: Rendering) {
    Settled(Get(f, "Severity")) && (Blocking(Classified(f, s, raw)) ==> Settled(Get(f, s.identifier)))
  }

  /** With renderings that tell labels apart, a report is classified like its sanitised form exactly when the
      severities of all findings and the identifiers of the blocking ones are settled. */
  lemma RenderedClassification(report: Json, raw: Rendering, clean: Rendering)
    requires ReportShape(report) && Alike(raw, clean) && ToldApart(report, raw, clean)
    ensures SameClassification(report, raw, clean) <==> ReportedSettled(report, raw)
  {
    ReportIsObject(report);
    hide ReportShape, SameClassification, ReportedSettled, ToldApart, Alike;
    if ReportedSettled(report, raw) {
      ReportedKeep(report, raw, clean);
    } else {
      ReportedShow(report, raw, clean);
    }
  }

  lemma ReportedKeep(report: Json, raw: Rendering, clean: Rendering)
    requires report.Obj? && Alike(raw, clean) && ReportedSettled(report, raw)
    ensures SameClassification(report, raw, clean)
  {
    hide OfReport, Entries, Get, SOURCES, OrderFree;
    forall r, s | r in Entries(report, "Results") && s in SOURCES
      ensures PickKept(r, s, raw, clean, PickCount) && PickKept(r, s, raw, clean, PickBlocked)
    {
      forall f | f in Entries(r, s.field)
        ensures PickCount(Reclassified(f, s, clean)) == PickCount(Classified(f, s, raw))
        ensures PickBlocked(Reclassified(f, s, clean)) == PickBlocked(Classified(f, s, raw))
      {
        assert FoundAt(report, r, s, f) && EntryReportedSettled(f, s, raw);
      }
    }
    hide Alike, ReportedSettled;
    SanitizingKeepsPicked(report, raw, clean, PickCount);
    SanitizingKeepsPicked(report, raw, clean, PickBlocked);
    FindingLeIsTotalOrder();
    SortIsCanonical(OfReport(SanitizeReport(report), clean, PickBlocked), OfReport(report, raw, PickBlocked), FindingLe);
  }

  lemma ReportedShow(report: Json, raw: Rendering, clean: Rendering)
    requires report.Obj? && ToldApart(report, raw, clean) && !ReportedSettled(report, raw)
    ensures !SameClassification(report, raw, clean)
  {
    hide Settled, Get, Entries, SOURCES, Sort, SanitizeReport, Counts, BlockedFindings, Blocking, FoundAt;
    var r, s, f :| FoundAt(report, r, s, f) && !EntryReportedSettled(f, s, raw);
    if !Settled(Get(f, "Severity")) {
      var x := (s.kind, raw.severity(Get(f, "Severity")));
      CountedMember(report, raw, x);
      CountedMember(SanitizeReport(report), clean, x);
      assert x in Counts(report, raw) && x !in Counts(SanitizeReport(report), clean);
    } else {
      var x := Classified(f, s, raw);
      BlockedMember(report, raw, x);
      BlockedMember(SanitizeReport(report), clean, x);
      assert x in BlockedFindings(report, raw) && x !in BlockedFindings(SanitizeReport(report), clean);
    }
  }

  /** No secret keeps the text it matched, and the time of the scan is gone. */
  lemma SanitizingRemovesMatches(report: Json, r: Json, f: Json)
    requires report.Obj?
    requires r in Entries(SanitizeReport(report), "Results") && f in Entries(r, "Secrets")
    ensures Get(f, "Code") == Null && Get(f, "Match") == Null
    ensures Get(SanitizeReport(report), "CreatedAt") == Null
  {
    var v := StripReport(report);
    CanonicalGet(v, "Results");
    CanonicalGet(v, "CreatedAt");
    var source := CanonicalMember(v, "Results", r);
    CanonicalGet(source, "Secrets");
    var secret := CanonicalMember(source, "Secrets", f);
    CanonicalGet(secret, "Code");
    CanonicalGet(secret, "Match");
  }

  /** An item of a canonicalised array is a canonicalised item of the array. */
  lemma CanonicalMember(v: Json, field: string, x: Json) returns (y: Json)
    requires x in Entries(Canonicalize(v), field)
    ensures y in Entries(v, field) && x == Canonicalize(y)
  {
    CanonicalGet(v, field);
    var a := Get(v, field);
    CanonicalArray(a);
    assert x in multiset(Canonicalize(a).items);
    var i :| 0 <= i < |a.items| && CanonicalItems(a)[i] == x;
    y := a.items[i];
  }

  const MARK: Json := Arr([Str("b"), Str("a")])
  const SORTED_MARK: Json := Arr([Str("a"), Str("b")])

  /** A report with one vulnerability, whose severity is an array out of order. */
  const VULNERABILITY: Json := Obj(map["Severity" := MARK])
  const RESULT: Json := Obj(map["Vulnerabilities" := Arr([VULNERABILITY])])
  const DISORDERED: Json := Obj(map["SchemaVersion" := Num("2"), "Results" := Arr([RESULT])])

  lemma DisorderedShape()
    ensures ReportShape(DISORDERED) && Entries(DISORDERED, "Results") == [RESULT]
    ensures Entries(StripReport(DISORDERED), "Results") == [RESULT]
    ensures forall s | s in SOURCES ::
      Entries(RESULT, s.field) == if s.kind == "vulnerabilities" then [VULNERABILITY] else []
    ensures SOURCES[0] in SOURCES && SOURCES[0].kind == "vulnerabilities"
  {
    assert Get(DISORDERED, "Results") == Arr([RESULT]) && Get(RESULT, "Secrets") == Null;
    assert Get(RESULT, "Misconfigurations") == Null && Get(RESULT, "Vulnerabilities") == Arr([VULNERABILITY]);
    assert DISORDERED.fields - {"CreatedAt"} == DISORDERED.fields;
    assert StripResults([RESULT]) == [RESULT];
  }

  /** What is counted are the severities found. */
  lemma CountedMember(report: Json, render: Rendering, x: (string, string))
    ensures x in Counts(report, render) <==>
      exists r, s, f :: FoundAt(report, r, s, f) && x == (s.kind, render.severity(Get(f, "Severity")))
  {
    hide FoundAt, OfReport;
    Gathered(report, render, PickCount, x);
    assert forall y :: x in PickCount(y) <==> x == (y.kind, y.severity);
    forall f, s
      ensures x in PickCount(Classified(f, s, render)) <==> x == (s.kind, render.severity(Get(f, "Severity")))
    {
    }
  }

  lemma MarkIsSorted()
    ensures Canonicalize(MARK) == SORTED_MARK
  {
    LettersOutOfOrder();
    var b, a := Str("b"), Str("a");
    assert CanonicalItems(MARK) == [b, a];
    assert [b, a][1..] == [a] && [a][1..] == [];
    assert Sort([a], JsonLe) == [a];
    assert Insert(b, [a], JsonLe) == [a] + Insert(b, [], JsonLe);
    assert Sort([b, a], JsonLe) == [a, b];
  }

  /** The sanitised report has one finding, with the sorted severity. */
  lemma SanitizedMark(r: Json, s: Source, f: Json)
    requires FoundAt(SanitizeReport(DISORDERED), r, s, f)
    ensures Get(f, "Severity") == SORTED_MARK
  {
    hide Canonicalize, Entries, StripReport, SOURCES, RESULT, DISORDERED;
    DisorderedShape();
    ReportIsObject(DISORDERED);
    var q := CanonicalMember(StripReport(DISORDERED), "Results", r);
    var g := CanonicalMember(RESULT, s.field, f);
    CanonicalGet(VULNERABILITY, "Severity");
    MarkIsSorted();
  }

  lemma ReportIsObject(report: Json)
    requires ReportShape(report)
    ensures report.Obj?
  {
  }

  /** A severity that is an array is counted under one text before sanitising and under another after it.  Python
      renders the two arrays "['B', 'A']" and "['A', 'B']". */
  lemma ArrayLabelChanges(raw: Rendering, clean: Rendering)
    requires raw.severity(MARK) == "['B', 'A']" && clean.severity(SORTED_MARK) == "['A', 'B']"
    ensures ReportShape(DISORDERED) && Counts(SanitizeReport(DISORDERED), clean) != Counts(DISORDERED, raw)
  {
    DisorderedShape();
    ReportIsObject(DISORDERED);
    var x := ("vulnerabilities", "['B', 'A']");
    assert FoundAt(DISORDERED, RESULT, SOURCES[0], VULNERABILITY) && Get(VULNERABILITY, "Severity") == MARK;
    hide DISORDERED, SOURCES, FoundAt, Canonicalize, Counts, ReportShape, RESULT, VULNERABILITY, MARK, SORTED_MARK;
    CountedMember(DISORDERED, raw, x);
    CountedMember(SanitizeReport(DISORDERED), clean, x);
    if r, s, f :| FoundAt(SanitizeReport(DISORDERED), r, s, f) && x == (s.kind, clean.severity(Get(f, "Severity"))) {
      SanitizedMark(r, s, f);
    }
  }

  lemma LettersOutOfOrder()
    ensures !JsonLe(Str("b"), Str("a"))
  {
    assert Escape("b") == "b" && Escape("a") == "a";
    var b, a := Print(Str("b"), ""), Print(Str("a"), "");
    assert b == "\"b\"" && a == "\"a\"";
    assert !StrLe(b[1..], a[1..]);
  }
}
