/** What `SchemaMeaning.Accepts` says under the standard's applicators, keyword by keyword: which values a schema that
    is no reference accepts, in terms of which values its subschemas accept. */
module SchemaKeywords {
  import opened Json
  import opened Options
  import opened RefInlining
  import opened SchemaMeaning

  /** The subschemas of a keyword whose value is a list. */
  function Listed(v: Json): seq<Json> {
    if v.Arr? then v.items else []
  }

  /** The subschemas of a keyword whose value has names. */
  function ByName(v: Json): map<string, Json> {
    if v.Obj? then v.fields else map[]
  }

  /** The subschemas under a keyword, none if it is missing. */
  function Under(s: Json, keyword: string): map<string, Json>
    requires s.Obj?
  {
    if keyword in s.fields then ByName(s.fields[keyword]) else map[]
  }

  function ListUnder(s: Json, keyword: string): seq<Json>
    requires s.Obj?
  {
    if keyword in s.fields then Listed(s.fields[keyword]) else []
  }

  /** How many of the items the schema accepts. */
  function Hits(s: Json, at: Place, items: seq<Json>): nat {
    if items == [] then 0 else (if Accepts(s, at, items[0]) then 1 else 0) + Hits(s, at, items[1..])
  }

  // ---- Counting --------------------------------------------------------------------------------

  lemma {:induction false} CountHits(verdicts: seq<bool>, s: Json, at: Place, items: seq<Json>)
    requires |verdicts| == |items| && forall i | 0 <= i < |items| :: verdicts[i] == Accepts(s, at, items[i])
    ensures Count(verdicts) == Hits(s, at, items)
    decreases |items|
  {
    hide Accepts;
    if items != [] {
      CountHits(verdicts[1..], s, at, items[1..]);
    }
  }

  /** The verdict at `i` is the only one that is true. */
  predicate OnlyAt(verdicts: seq<bool>, i: nat) {
    i < |verdicts| && verdicts[i] && forall j | 0 <= j < |verdicts| && verdicts[j] :: j == i
  }

  lemma {:induction false} CountNone(verdicts: seq<bool>)
    ensures Count(verdicts) == 0 <==> forall i | 0 <= i < |verdicts| :: !verdicts[i]
  {
    if verdicts != [] {
      CountNone(verdicts[1..]);
      assert forall i | 0 < i < |verdicts| :: verdicts[i] == verdicts[1..][i - 1];
    }
  }

  lemma {:induction false} CountOne(verdicts: seq<bool>)
    ensures Count(verdicts) == 1 <==> exists i :: OnlyAt(verdicts, i)
  {
    if verdicts != [] {
      var rest := verdicts[1..];
      CountOne(rest);
      CountNone(rest);
      assert forall i | 0 < i < |verdicts| :: verdicts[i] == rest[i - 1];
      if verdicts[0] && Count(rest) == 0 {
        assert OnlyAt(verdicts, 0);
      }
      if i: nat :| !verdicts[0] && OnlyAt(rest, i) {
        assert rest[i] == verdicts[i + 1];
        assert OnlyAt(verdicts, i + 1);
      }
      if i: nat :| OnlyAt(verdicts, i) {
        assert i > 0 ==> OnlyAt(rest, i - 1);
      }
    }
  }

  // ---- The keywords ----------------------------------------------------------------------------

  /** Of the schemas in the list the one at `i` alone accepts the value. */
  ghost predicate OnlyThis(list: seq<Json>, i: nat, at: Place, x: Json) {
    i < |list| && Accepts(list[i], at, x) && forall j | 0 <= j < |list| && Accepts(list[j], at, x) :: j == i
  }

  /** What `allOf`, `anyOf`, `oneOf`, `not` and the conditional demand of a value. */
  ghost predicate InPlaceDemands(s: Json, at: Place, x: Json)
    requires s.Obj?
  {
    && ("allOf" in s.fields ==> forall c | c in Listed(s.fields["allOf"]) :: Accepts(c, at, x))
    && ("anyOf" in s.fields ==> exists c | c in Listed(s.fields["anyOf"]) :: Accepts(c, at, x))
    && ("oneOf" in s.fields ==>
          exists i :: OnlyThis(Listed(s.fields["oneOf"]), i, at, x))
    && ("not" in s.fields ==> !Accepts(s.fields["not"], at, x))
    && ("if" in s.fields && "then" in s.fields && Accepts(s.fields["if"], at, x) ==> Accepts(s.fields["then"], at, x))
    && ("if" in s.fields && "else" in s.fields && !Accepts(s.fields["if"], at, x) ==> Accepts(s.fields["else"], at, x))
  }

  /** What the keywords for the members of an object demand. */
  ghost predicate MembersDemand(s: Json, at: Place, x: Json, a: Assertions)
    requires s.Obj? && x.Obj?
  {
    var properties, patterns := Under(s, "properties"), Under(s, "patternProperties");
    && (forall k | k in x.fields && k in properties :: Accepts(properties[k], at, x.fields[k]))
    && (forall q, k | q in patterns && k in x.fields && a.matches(q, k) :: Accepts(patterns[q], at, x.fields[k]))
    && ("additionalProperties" in s.fields ==>
          forall k | k in x.fields && k !in properties && (forall q | q in patterns :: !a.matches(q, k)) ::
            Accepts(s.fields["additionalProperties"], at, x.fields[k]))
    && ("propertyNames" in s.fields ==> forall k | k in x.fields :: Accepts(s.fields["propertyNames"], at, Str(k)))
    && forall k | k in Under(s, "dependentSchemas") && k in x.fields :: Accepts(Under(s, "dependentSchemas")[k], at, x)
  }

  /** What the keywords for the items of an array demand. */
  ghost predicate ItemsDemand(s: Json, at: Place, x: Json, a: Assertions)
    requires s.Obj? && x.Arr?
  {
    var prefix := ListUnder(s, "prefixItems");
    && (forall i | 0 <= i < |prefix| && i < |x.items| :: Accepts(prefix[i], at, x.items[i]))
    && ("items" in s.fields ==> forall i | |prefix| <= i < |x.items| :: Accepts(s.fields["items"], at, x.items[i]))
    && ("contains" in s.fields ==>
          a.atLeast(Data(s)) <= Hits(s.fields["contains"], at, x.items)
          && (a.atMost(Data(s)).Some? ==> Hits(s.fields["contains"], at, x.items) <= a.atMost(Data(s)).value))
  }

  // ---- They are what the vocabulary of the standard says -----------------------------------------

  lemma SingleAt(s: Json, at: Place, x: Json, k: string)
    requires s.Obj?
    ensures k in PartsOf(s, at, x).single <==> k in s.fields && IsSingle(k)
    ensures k in PartsOf(s, at, x).single ==> PartsOf(s, at, x).single[k] == VerdictsOf(s.fields[k], at, x)
  {
    hide IsSingle, IsListed, IsNamed, VerdictsOf, ListOf, NamesOf;
  }

  lemma ListedAt(s: Json, at: Place, x: Json, k: string)
    requires s.Obj?
    ensures k in PartsOf(s, at, x).listed <==> k in s.fields && IsListed(k)
    ensures k in PartsOf(s, at, x).listed ==>
      var list := Listed(s.fields[k]);
      |PartsOf(s, at, x).listed[k]| == |list|
      && forall i | 0 <= i < |list| :: PartsOf(s, at, x).listed[k][i] == VerdictsOf(list[i], at, x)
  {
    hide IsSingle, IsListed, IsNamed, VerdictsOf, NamesOf;
  }

  lemma NamedAt(s: Json, at: Place, x: Json, k: string)
    requires s.Obj?
    ensures k in PartsOf(s, at, x).named <==> k in s.fields && IsNamed(k)
    ensures k in PartsOf(s, at, x).named ==>
      PartsOf(s, at, x).named[k].Keys == ByName(s.fields[k]).Keys
      && forall n | n in ByName(s.fields[k]) :: PartsOf(s, at, x).named[k][n] == VerdictsOf(ByName(s.fields[k])[n], at, x)
  {
    hide IsSingle, IsListed, IsNamed, VerdictsOf, ListOf;
  }

  lemma VerdictsAre(c: Json, at: Place, x: Json)
    ensures var v := VerdictsOf(c, at, x);
      && v.self == Accepts(c, at, x)
      && (x.Obj? ==> forall k | k in x.fields :: Of(v.members, k) == Accepts(c, at, x.fields[k])
                                                 && Of(v.names, k) == Accepts(c, at, Str(k)))
      && (x.Arr? ==> |v.items| == |x.items|
                     && forall i | 0 <= i < |x.items| :: v.items[i] == At(v.items, i) == Accepts(c, at, x.items[i]))
  {
    hide Accepts;
  }

  lemma InPlaceMeans(s: Json, at: Place, x: Json)
    requires s.Obj?
    ensures InPlaceHold(PartsOf(s, at, x), x) <==> InPlaceDemands(s, at, x)
  {
    hide Accepts, VerdictsOf, PartsOf, Count;
    var p := PartsOf(s, at, x);
    InPlaceLists(s, at, x);
    SingleAt(s, at, x, "not");
    SingleAt(s, at, x, "if");
    SingleAt(s, at, x, "then");
    SingleAt(s, at, x, "else");
    forall c
      ensures VerdictsOf(c, at, x).self == Accepts(c, at, x)
    {
      VerdictsAre(c, at, x);
    }
  }

  lemma InPlaceLists(s: Json, at: Place, x: Json)
    requires s.Obj?
    ensures var p := PartsOf(s, at, x);
      && ("allOf" in p.listed <==> "allOf" in s.fields) && ("anyOf" in p.listed <==> "anyOf" in s.fields)
      && ("oneOf" in p.listed <==> "oneOf" in s.fields)
      && ("allOf" in s.fields ==>
            ((forall v | v in p.listed["allOf"] :: v.self) <==>
             forall c | c in Listed(s.fields["allOf"]) :: Accepts(c, at, x)))
      && ("anyOf" in s.fields ==>
            ((exists v | v in p.listed["anyOf"] :: v.self) <==>
             exists c | c in Listed(s.fields["anyOf"]) :: Accepts(c, at, x)))
      && ("oneOf" in s.fields ==>
            (Count(Selves(p.listed["oneOf"])) == 1 <==> exists i :: OnlyThis(Listed(s.fields["oneOf"]), i, at, x)))
  {
    hide Accepts, VerdictsOf, PartsOf, Count;
    ListedAt(s, at, x, "allOf");
    ListedAt(s, at, x, "anyOf");
    ListedAt(s, at, x, "oneOf");
    forall c
      ensures VerdictsOf(c, at, x).self == Accepts(c, at, x)
    {
      VerdictsAre(c, at, x);
    }
    var p := PartsOf(s, at, x);
    if "allOf" in s.fields {
      SelvesAgree(p.listed["allOf"], Listed(s.fields["allOf"]), at, x);
    }
    if "anyOf" in s.fields {
      SelvesAgree(p.listed["anyOf"], Listed(s.fields["anyOf"]), at, x);
    }
    if "oneOf" in s.fields {
      var verdicts, list := Selves(p.listed["oneOf"]), Listed(s.fields["oneOf"]);
      CountOne(verdicts);
      assert |verdicts| == |list| && forall i | 0 <= i < |list| :: verdicts[i] == Accepts(list[i], at, x);
      assert forall i :: OnlyAt(verdicts, i) <==> OnlyThis(list, i, at, x);
    }
  }

  lemma SelvesAgree(verdicts: seq<Verdicts>, list: seq<Json>, at: Place, x: Json)
    requires |verdicts| == |list| && forall i | 0 <= i < |list| :: verdicts[i].self == Accepts(list[i], at, x)
    ensures (forall v | v in verdicts :: v.self) <==> forall c | c in list :: Accepts(c, at, x)
    ensures (exists v | v in verdicts :: v.self) <==> exists c | c in list :: Accepts(c, at, x)
  {
    hide Accepts;
    assert forall i | 0 <= i < |list| :: verdicts[i] in verdicts && list[i] in list;
    if c :| c in list && Accepts(c, at, x) {
      var i :| 0 <= i < |list| && list[i] == c;
      assert verdicts[i].self;
    }
    if c :| c in list && !Accepts(c, at, x) {
      var i :| 0 <= i < |list| && list[i] == c;
      assert !verdicts[i].self;
    }
  }

  lemma MembersMean(s: Json, at: Place, x: Json, a: Assertions)
    requires s.Obj? && x.Obj?
    ensures MembersHold(PartsOf(s, at, x), x, a) <==> MembersDemand(s, at, x, a)
  {
    hide Accepts, VerdictsOf, PartsOf, Of;
    NamedAt(s, at, x, "properties");
    NamedAt(s, at, x, "patternProperties");
    NamedAt(s, at, x, "dependentSchemas");
    SingleAt(s, at, x, "additionalProperties");
    SingleAt(s, at, x, "propertyNames");
    forall c
      ensures var v := VerdictsOf(c, at, x);
        && v.self == Accepts(c, at, x)
        && forall k | k in x.fields :: Of(v.members, k) == Accepts(c, at, x.fields[k])
                                       && Of(v.names, k) == Accepts(c, at, Str(k))
    {
      VerdictsAre(c, at, x);
    }
  }

  lemma ItemsMean(s: Json, at: Place, x: Json, a: Assertions)
    requires s.Obj? && x.Arr?
    ensures ItemsHold(Data(s), PartsOf(s, at, x), x, a) <==> ItemsDemand(s, at, x, a)
  {
    hide Accepts, VerdictsOf, PartsOf, Count, Data;
    ListedAt(s, at, x, "prefixItems");
    SingleAt(s, at, x, "items");
    SingleAt(s, at, x, "contains");
    forall c
      ensures var v := VerdictsOf(c, at, x);
        |v.items| == |x.items| && forall i | 0 <= i < |x.items| :: v.items[i] == At(v.items, i) == Accepts(c, at, x.items[i])
    {
      VerdictsAre(c, at, x);
    }
    var p, prefix := PartsOf(s, at, x), ListUnder(s, "prefixItems");
    var mine := Prefix(p);
    forall i | 0 <= i < |prefix| && i < |x.items|
      ensures |mine| == |prefix| && At(mine[i].items, i) == Accepts(prefix[i], at, x.items[i])
    {
    }
    assert |mine| == |prefix|;
    if "items" in s.fields {
      var verdicts := p.single["items"].items;
      assert forall i | 0 <= i < |x.items| :: At(verdicts, i) == Accepts(s.fields["items"], at, x.items[i]);
    }
    if "contains" in s.fields {
      CountHits(p.single["contains"].items, s.fields["contains"], at, x.items);
    }
    if ItemsHold(Data(s), p, x, a) {
      forall i | 0 <= i < |prefix| && i < |x.items|
        ensures Accepts(prefix[i], at, x.items[i])
      {
        assert At(mine[i].items, i);
      }
    }
  }

  /** Everything else of a schema is data, but for its definitions. */
  lemma DataMeans(s: Json, k: string)
    requires s.Obj?
    ensures k in Data(s) <==>
      k in s.fields
      && k !in {"$defs", "additionalProperties", "allOf", "anyOf", "contains", "dependentSchemas", "else", "if", "items",
                "not", "oneOf", "patternProperties", "prefixItems", "properties", "propertyNames", "then"}
    ensures k in Data(s) ==> Data(s)[k] == s.fields[k]
  {
  }

  /** A schema that is no reference accepts a value exactly when the assertions on its data hold and each of its
      keywords is satisfied, its subschemas being read in the schema itself if it has definitions. */
  lemma SchemaAccepts(s: Json, at: Place, x: Json, a: Assertions)
    requires s.Obj? && !(s.fields.Keys == {"$ref"} && s.fields["$ref"].Str?) && at.vocabulary == Standard(a)
    ensures Accepts(s, at, x) <==>
      var inner := at.(scope := if "$defs" in s.fields then Within(s) else at.scope);
      && a.hold(Data(s), x) && InPlaceDemands(s, inner, x)
      && (x.Obj? ==> MembersDemand(s, inner, x, a)) && (x.Arr? ==> ItemsDemand(s, inner, x, a))
  {
    hide PartsOf, InPlaceHold, MembersHold, ItemsHold, InPlaceDemands, MembersDemand, ItemsDemand, Data;
    var inner := at.(scope := if "$defs" in s.fields then Within(s) else at.scope);
    assert ScopeAt(s, at.scope) == inner.scope;
    InPlaceMeans(s, inner, x);
    var p := PartsOf(s, inner, x);
    if x.Obj? {
      MembersMean(s, inner, x, a);
    } else {
      assert MembersHold(p, x, a) by { NotMembers(p, x, a); }
    }
    if x.Arr? {
      ItemsMean(s, inner, x, a);
    } else {
      assert ItemsHold(Data(s), p, x, a) by { NotItems(Data(s), p, x, a); }
    }
  }

  lemma NotMembers(p: Parts, x: Json, a: Assertions)
    requires !x.Obj?
    ensures MembersHold(p, x, a)
  {
  }

  lemma NotItems(data: map<string, Json>, p: Parts, x: Json, a: Assertions)
    requires !x.Arr?
    ensures ItemsHold(data, p, x, a)
  {
  }
}
