/** Inlining references does not change which values a schema accepts.

    `Accepts` is the meaning of JSON Schema Core 2020-12, a reference being followed in the scope it stands in.
    What the keywords say is given by a vocabulary: it judges a value from the keywords whose value is data and from
    the verdicts of the subschemas on the value, its members, its items and its member names.  `Standard` is the
    vocabulary of the standard's applicators over any assertions at all.

    `Shape` is what any vocabulary can see of a schema: two schemas mean the same under all of them exactly when they
    have the same shape, and so the question of meaning becomes one of shapes. */
module SchemaMeaning {
  import opened Json
  import opened Options
  import opened RefInlining
  import opened Text

  // ---- Keywords --------------------------------------------------------------------------------

  /** Keywords whose value is one schema. */
  predicate IsSingle(k: string) {
    || k == "additionalProperties" || k == "items" || k == "not" || k == "if" || k == "then" || k == "else"
    || k == "contains" || k == "propertyNames"
  }

  /** Keywords whose value is a list of schemas. */
  predicate IsListed(k: string) {
    k == "allOf" || k == "anyOf" || k == "oneOf" || k == "prefixItems"
  }

  /** Keywords whose value holds a schema under each name. */
  predicate IsNamed(k: string) {
    k == "properties" || k == "patternProperties" || k == "dependentSchemas"
  }

  /** Every other keyword is data, but for the definitions, which assert nothing. */
  predicate IsData(k: string) {
    !IsSingle(k) && !IsListed(k) && !IsNamed(k) && k != "$defs"
  }

  /** What a subschema says of a value and of its parts. */
  datatype Verdicts = Verdicts(self: bool, members: map<string, bool>, items: seq<bool>, names: map<string, bool>)

  /** The subschemas of a schema under its keywords, as verdicts. */
  datatype Parts = Parts(single: map<string, Verdicts>, listed: map<string, seq<Verdicts>>,
                         named: map<string, map<string, Verdicts>>)

  /** What the keywords of a schema make of a value. */
  type Vocabulary = (map<string, Json>, Parts, Json) -> bool

  function Data(s: Json): map<string, Json>
    requires s.Obj?
  {
    map k | k in s.fields && IsData(k) :: s.fields[k]
  }

  // ---- Meaning ---------------------------------------------------------------------------------

  /** Where a schema is read: its document, the scope of its references, and how deep they may be followed. */
  datatype Place = Place(vocabulary: Vocabulary, document: Json, scope: Scope, depth: nat)

  function Accepts(s: Json, at: Place, x: Json): bool
    decreases at.depth, s, 2
  {
    if s.Bool? then s.value
    else if !s.Obj? then false
    else if ExactRef(s) then
      at.depth > 0 && Target(at.document, RefAt(s, at.scope)).Some? &&
      var t := Target(at.document, RefAt(s, at.scope)).value;
      Accepts(t.value, at.(scope := t.scope, depth := at.depth - 1), x)
    else
      at.vocabulary(Data(s), PartsOf(s, at.(scope := ScopeAt(s, at.scope)), x), x)
  }

  function VerdictsOf(s: Json, at: Place, x: Json): Verdicts
    decreases at.depth, s, 4
  {
    Verdicts(Accepts(s, at, x), OnMembers(s, at, x), OnItems(s, at, x), OnNames(s, at, x))
  }

  function OnMembers(s: Json, at: Place, x: Json): map<string, bool>
    decreases at.depth, s, 3
  {
    if x.Obj? then map k | k in x.fields :: Accepts(s, at, x.fields[k]) else map[]
  }

  function OnItems(s: Json, at: Place, x: Json): seq<bool>
    decreases at.depth, s, 3
  {
    if x.Arr? then seq(|x.items|, i requires 0 <= i < |x.items| => Accepts(s, at, x.items[i])) else []
  }

  function OnNames(s: Json, at: Place, x: Json): map<string, bool>
    decreases at.depth, s, 3
  {
    if x.Obj? then map k | k in x.fields :: Accepts(s, at, Str(k)) else map[]
  }

  function PartsOf(s: Json, at: Place, x: Json): Parts
    requires s.Obj?
    decreases at.depth, s, 1
  {
    Parts(map k | k in s.fields && IsSingle(k) :: VerdictsOf(s.fields[k], at, x),
          map k | k in s.fields && IsListed(k) :: ListOf(s.fields[k], at, x),
          map k | k in s.fields && IsNamed(k) :: NamesOf(s.fields[k], at, x))
  }

  function ListOf(v: Json, at: Place, x: Json): seq<Verdicts>
    decreases at.depth, v, 5
  {
    if v.Arr? then seq(|v.items|, i requires 0 <= i < |v.items| => VerdictsOf(v.items[i], at, x)) else []
  }

  function NamesOf(v: Json, at: Place, x: Json): map<string, Verdicts>
    decreases at.depth, v, 5
  {
    if v.Obj? then map n | n in v.fields :: VerdictsOf(v.fields[n], at, x) else map[]
  }

  /** A reference to a component accepts what the component accepts, read in itself if it is an object. */
  lemma ComponentAccepts(kind: string, name: string, v: Json, at: Place, x: Json)
    requires '/' !in kind && '/' !in name && IsComponent(at.document, kind, name, v) && at.depth > 0
    ensures Accepts(Reference("#/components/" + kind + "/" + name), at, x) ==
            Accepts(v, at.(scope := if v.Obj? then Within(v) else at.scope, depth := at.depth - 1), x)
  {
    hide Split, Lookup, HasPrefix;
    ComponentPath(kind, name);
    ComponentLookup(at.document, kind, name);
    var r := Reference("#/components/" + kind + "/" + name);
    assert ExactRef(r) && r.fields["$ref"].chars == "#/components/" + kind + "/" + name;
  }

  /** A reference to a definition of the scope accepts what the definition accepts in that scope. */
  lemma DefinitionAccepts(name: string, root: Json, v: Json, at: Place, x: Json)
    requires '/' !in name && root.Obj? && "$defs" in root.fields && Member(root.fields["$defs"], name, v)
    requires at.scope == Within(root) && at.depth > 0
    ensures Accepts(Reference("#/$defs/" + name), at, x) == Accepts(v, at.(depth := at.depth - 1), x)
  {
    hide Split, Lookup, HasPrefix;
    DefinitionPath(name);
    Lookup2(root, "$defs", name);
    Lookup2(root.fields["$defs"], "$defs", name);
    var r := Reference("#/$defs/" + name);
    assert ExactRef(r) && r.fields["$ref"].chars == "#/$defs/" + name;
  }

  // ---- The applicators of the standard ---------------------------------------------------------

  /** What the standard leaves to other specifications: every assertion of a keyword that is data (`type`, `pattern`,
      `minLength`, `format`, `uniqueItems` and so on), regular expressions, and the bounds on `contains`. */
  datatype Assertions = Assertions(hold: (map<string, Json>, Json) -> bool, matches: (string, string) -> bool,
                                   atLeast: map<string, Json> -> nat, atMost: map<string, Json> -> Option<nat>)

  function Standard(a: Assertions): Vocabulary {
    (data: map<string, Json>, p: Parts, x: Json) =>
      a.hold(data, x) && MembersHold(p, x, a) && ItemsHold(data, p, x, a) && InPlaceHold(p, x)
  }

  /** `properties`, `patternProperties`, `additionalProperties`, `propertyNames` and `dependentSchemas`. */
  predicate MembersHold(p: Parts, x: Json, a: Assertions) {
    x.Obj? ==>
      var properties := if "properties" in p.named then p.named["properties"] else map[];
      var patterns := if "patternProperties" in p.named then p.named["patternProperties"] else map[];
      && (forall k | k in x.fields && k in properties :: Of(properties[k].members, k))
      && (forall q, k | q in patterns && k in x.fields && a.matches(q, k) :: Of(patterns[q].members, k))
      && ("additionalProperties" in p.single ==>
            forall k | k in x.fields && k !in properties && !(exists q | q in patterns :: a.matches(q, k)) ::
              Of(p.single["additionalProperties"].members, k))
      && ("propertyNames" in p.single ==> forall k | k in x.fields :: Of(p.single["propertyNames"].names, k))
      && ("dependentSchemas" in p.named ==>
            forall k | k in p.named["dependentSchemas"] && k in x.fields :: p.named["dependentSchemas"][k].self)
  }

  function Prefix(p: Parts): seq<Verdicts> {
    if "prefixItems" in p.listed then p.listed["prefixItems"] else []
  }

  /** `prefixItems`, `items` and `contains` with its bounds. */
  predicate ItemsHold(data: map<string, Json>, p: Parts, x: Json, a: Assertions) {
    x.Arr? ==>
      var prefix := Prefix(p);
      && (forall i | 0 <= i < |prefix| && i < |x.items| :: At(prefix[i].items, i))
      && ("items" in p.single ==> forall i | |prefix| <= i < |x.items| :: At(p.single["items"].items, i))
      && ("contains" in p.single ==>
            var n := Count(p.single["contains"].items);
            a.atLeast(data) <= n && (a.atMost(data).Some? ==> n <= a.atMost(data).value))
  }

  /** `allOf`, `anyOf`, `oneOf`, `not`, and `if` with `then` and `else`. */
  predicate InPlaceHold(p: Parts, x: Json) {
    && ("allOf" in p.listed ==> forall v | v in p.listed["allOf"] :: v.self)
    && ("anyOf" in p.listed ==> exists v | v in p.listed["anyOf"] :: v.self)
    && ("oneOf" in p.listed ==> Count(Selves(p.listed["oneOf"])) == 1)
    && ("not" in p.single ==> !p.single["not"].self)
    && ("if" in p.single ==>
          if p.single["if"].self then "then" in p.single ==> p.single["then"].self
          else "else" in p.single ==> p.single["else"].self)
  }

  function Of(verdicts: map<string, bool>, k: string): bool {
    k in verdicts && verdicts[k]
  }

  function At(verdicts: seq<bool>, i: nat): bool {
    i < |verdicts| && verdicts[i]
  }

  function Selves(list: seq<Verdicts>): seq<bool> {
    seq(|list|, i requires 0 <= i < |list| => list[i].self)
  }

  function Count(verdicts: seq<bool>): nat {
    if verdicts == [] then 0 else (if verdicts[0] then 1 else 0) + Count(verdicts[1..])
  }

  // ---- What a vocabulary can see ---------------------------------------------------------------

  /** The way from a schema to one of its subschemas. */
  datatype Step = One(keyword: string) | Item(keyword: string, index: nat) | Named(keyword: string, name: string)

  /** The keywords of a schema, but for its subschemas. */
  datatype Frame = Frame(data: map<string, Json>, single: set<string>, listed: map<string, nat>,
                         named: map<string, set<string>>)

  /** A schema with its references followed: what a vocabulary is given of it, and nothing else. */
  datatype Shape = Always(verdict: bool) | Keywords(frame: Frame, parts: map<Step, Shape>)

  function FrameOf(s: Json): Frame
    requires s.Obj?
  {
    Frame(Data(s), set k | k in s.fields && IsSingle(k),
          map k | k in s.fields && IsListed(k) :: if s.fields[k].Arr? then |s.fields[k].items| else 0,
          map k | k in s.fields && IsNamed(k) :: if s.fields[k].Obj? then s.fields[k].fields.Keys else {})
  }

  function StepsOf(f: Frame): set<Step> {
    (set k | k in f.single :: One(k))
    + (set k, i | k in f.listed && 0 <= i < f.listed[k] :: Item(k, i))
    + (set k, n | k in f.named && n in f.named[k] :: Named(k, n))
  }

  function Child(s: Json, step: Step): (c: Json)
    requires s.Obj? && step in StepsOf(FrameOf(s))
  {
    match step
    case One(k) => s.fields[k]
    case Item(k, i) => s.fields[k].items[i]
    case Named(k, n) => s.fields[k].fields[n]
  }

  function ShapeOf(s: Json, document: Json, scope: Scope, depth: nat): Shape
    decreases depth, s, 1
  {
    if s.Bool? then Always(s.value)
    else if !s.Obj? then Always(false)
    else if ExactRef(s) then
      if depth == 0 || Target(document, RefAt(s, scope)).None? then Always(false)
      else
        var t := Target(document, RefAt(s, scope)).value;
        ShapeOf(t.value, document, t.scope, depth - 1)
    else KeywordsOf(s, document, ScopeAt(s, scope), depth)
  }

  function KeywordsOf(s: Json, document: Json, scope: Scope, depth: nat): Shape
    requires s.Obj?
    decreases depth, s, 0
  {
    Keywords(FrameOf(s), map step | step in StepsOf(FrameOf(s)) :: ShapeOf(Child(s, step), document, scope, depth))
  }

  /** What a schema of this shape says of a value. */
  function Meaning(p: Shape, v: Vocabulary, x: Json): bool
    decreases p, 2
  {
    if p.Always? then p.verdict else v(p.frame.data, PartsMeant(p, v, x), x)
  }

  function PartsMeant(p: Shape, v: Vocabulary, x: Json): Parts
    requires p.Keywords?
    decreases p, 1
  {
    Parts(map k | k in p.frame.single :: PartMeant(p, One(k), v, x),
          map k | k in p.frame.listed ::
            seq(p.frame.listed[k], i requires 0 <= i < p.frame.listed[k] => PartMeant(p, Item(k, i), v, x)),
          map k | k in p.frame.named :: map n | n in p.frame.named[k] :: PartMeant(p, Named(k, n), v, x))
  }

  function PartMeant(p: Shape, step: Step, v: Vocabulary, x: Json): Verdicts
    requires p.Keywords?
    decreases p, 0
  {
    if step in p.parts then VerdictsMeant(p.parts[step], v, x) else Verdicts(false, map[], [], map[])
  }

  function VerdictsMeant(p: Shape, v: Vocabulary, x: Json): Verdicts
    decreases p, 3
  {
    Verdicts(Meaning(p, v, x),
             if x.Obj? then map k | k in x.fields :: Meaning(p, v, x.fields[k]) else map[],
             if x.Arr? then seq(|x.items|, i requires 0 <= i < |x.items| => Meaning(p, v, x.items[i])) else [],
             if x.Obj? then map k | k in x.fields :: Meaning(p, v, Str(k)) else map[])
  }

  ghost predicate Same(v: Json, a: Place, w: Json, b: Place) {
    forall x :: Accepts(v, a, x) == Accepts(w, b, x)
  }

  // ---- A schema means what its shape means -----------------------------------------------------

  /** A schema accepts what its shape does. */
  ghost predicate MeansShape(s: Json, at: Place) {
    forall x :: Accepts(s, at, x) == Meaning(ShapeOf(s, at.document, at.scope, at.depth), at.vocabulary, x)
  }

  lemma {:induction false} AcceptsIsMeaning(s: Json, at: Place)
    ensures MeansShape(s, at)
    decreases at.depth, s
  {
    if ExactRef(s) {
      if at.depth > 0 && Target(at.document, RefAt(s, at.scope)).Some? {
        var t := Target(at.document, RefAt(s, at.scope)).value;
        AcceptsIsMeaning(t.value, at.(scope := t.scope, depth := at.depth - 1));
      }
    } else if s.Obj? {
      var inner := at.(scope := ScopeAt(s, at.scope));
      forall step | step in StepsOf(FrameOf(s))
        ensures MeansShape(Child(s, step), inner)
      {
        AcceptsIsMeaning(Child(s, step), inner);
      }
      forall x
        ensures Accepts(s, at, x) == Meaning(ShapeOf(s, at.document, at.scope, at.depth), at.vocabulary, x)
      {
        PartsAreMeant(s, inner, x);
      }
    }
  }

  lemma PartsAreMeant(s: Json, at: Place, x: Json)
    requires s.Obj? && forall step | step in StepsOf(FrameOf(s)) :: MeansShape(Child(s, step), at)
    ensures PartsOf(s, at, x) == PartsMeant(KeywordsOf(s, at.document, at.scope, at.depth), at.vocabulary, x)
  {
    hide Accepts, Meaning, ShapeOf, MeansShape, VerdictsOf, VerdictsMeant, IsSingle, IsListed, IsNamed;
    var p := KeywordsOf(s, at.document, at.scope, at.depth);
    var a, b := PartsOf(s, at, x), PartsMeant(p, at.vocabulary, x);
    forall k | k in s.fields && IsSingle(k)
      ensures a.single[k] == b.single[k]
    {
      PartIsMeant(s, One(k), at, x);
    }
    forall k | k in s.fields && IsListed(k)
      ensures a.listed[k] == b.listed[k]
    {
      ListIsMeant(s, k, at, x);
    }
    forall k | k in s.fields && IsNamed(k)
      ensures a.named[k] == b.named[k]
    {
      NamesAreMeant(s, k, at, x);
    }
    assert a.single == b.single && a.listed == b.listed && a.named == b.named;
  }

  lemma ListIsMeant(s: Json, k: string, at: Place, x: Json)
    requires s.Obj? && k in s.fields && IsListed(k)
    requires forall step | step in StepsOf(FrameOf(s)) :: MeansShape(Child(s, step), at)
    ensures var p := KeywordsOf(s, at.document, at.scope, at.depth);
            PartsMeant(p, at.vocabulary, x).listed[k] == ListOf(s.fields[k], at, x)
  {
    hide Accepts, Meaning, ShapeOf, MeansShape, VerdictsOf, VerdictsMeant, PartMeant, IsSingle, IsListed, IsNamed;
    var p := KeywordsOf(s, at.document, at.scope, at.depth);
    assert p.frame.listed[k] == |ListOf(s.fields[k], at, x)|;
    forall i | 0 <= i < p.frame.listed[k]
      ensures PartMeant(p, Item(k, i), at.vocabulary, x) == ListOf(s.fields[k], at, x)[i]
    {
      assert Item(k, i) in StepsOf(FrameOf(s));
      PartIsMeant(s, Item(k, i), at, x);
    }
  }

  lemma NamesAreMeant(s: Json, k: string, at: Place, x: Json)
    requires s.Obj? && k in s.fields && IsNamed(k)
    requires forall step | step in StepsOf(FrameOf(s)) :: MeansShape(Child(s, step), at)
    ensures var p := KeywordsOf(s, at.document, at.scope, at.depth);
            PartsMeant(p, at.vocabulary, x).named[k] == NamesOf(s.fields[k], at, x)
  {
    hide Accepts, Meaning, ShapeOf, MeansShape, VerdictsOf, VerdictsMeant, PartMeant, IsSingle, IsListed, IsNamed;
    var p := KeywordsOf(s, at.document, at.scope, at.depth);
    assert p.frame.named[k] == NamesOf(s.fields[k], at, x).Keys;
    forall n | n in p.frame.named[k]
      ensures PartMeant(p, Named(k, n), at.vocabulary, x) == NamesOf(s.fields[k], at, x)[n]
    {
      assert Named(k, n) in StepsOf(FrameOf(s));
      PartIsMeant(s, Named(k, n), at, x);
    }
  }

  lemma PartIsMeant(s: Json, step: Step, at: Place, x: Json)
    requires s.Obj? && step in StepsOf(FrameOf(s)) && MeansShape(Child(s, step), at)
    ensures VerdictsOf(Child(s, step), at, x) ==
            PartMeant(KeywordsOf(s, at.document, at.scope, at.depth), step, at.vocabulary, x)
  {
    hide Accepts, Meaning, ShapeOf;
    var c := Child(s, step);
    var p := ShapeOf(c, at.document, at.scope, at.depth);
    assert OnMembers(c, at, x) == VerdictsMeant(p, at.vocabulary, x).members;
    assert OnItems(c, at, x) == VerdictsMeant(p, at.vocabulary, x).items;
    assert OnNames(c, at, x) == VerdictsMeant(p, at.vocabulary, x).names;
    assert Accepts(c, at, x) == Meaning(p, at.vocabulary, x);
  }

  // ---- Different shapes have different meanings ------------------------------------------------

  ghost predicate Proper(p: Shape) {
    p.Keywords? ==> p.parts.Keys == StepsOf(p.frame) && forall step | step in p.parts :: Proper(p.parts[step])
  }

  lemma {:induction false} ShapeIsProper(s: Json, document: Json, scope: Scope, depth: nat)
    ensures Proper(ShapeOf(s, document, scope, depth))
    decreases depth, s
  {
    if ExactRef(s) {
      if depth > 0 && Target(document, RefAt(s, scope)).Some? {
        var t := Target(document, RefAt(s, scope)).value;
        ShapeIsProper(t.value, document, t.scope, depth - 1);
      }
    } else if s.Obj? {
      forall step | step in StepsOf(FrameOf(s))
        ensures Proper(ShapeOf(Child(s, step), document, ScopeAt(s, scope), depth))
      {
        ShapeIsProper(Child(s, step), document, ScopeAt(s, scope), depth);
      }
    }
  }

  /** A value that tells `Telling` to go to a subschema and ask it about another value. */
  function Directions(step: Step, x: Json): Json {
    match step
    case One(k) => Obj(map["to" := x, "one" := Str(k)])
    case Item(k, i) => Obj(map["to" := x, "list" := Str(k), "index" := Arr(seq(i, j => Null))])
    case Named(k, n) => Obj(map["to" := x, "map" := Str(k), "name" := Str(n)])
  }

  /** What the subschema that the value directs to says of the value it holds. */
  predicate Followed(p: Parts, x: Json) {
    if Get(x, "one").Str? then
      Get(x, "one").chars in p.single && Of(p.single[Get(x, "one").chars].members, "to")
    else if Get(x, "list").Str? && Get(x, "index").Arr? then
      && Get(x, "list").chars in p.listed && |Get(x, "index").items| < |p.listed[Get(x, "list").chars]|
      && Of(p.listed[Get(x, "list").chars][|Get(x, "index").items|].members, "to")
    else
      && Get(x, "map").Str? && Get(x, "name").Str? && Get(x, "map").chars in p.named
      && Get(x, "name").chars in p.named[Get(x, "map").chars]
      && Of(p.named[Get(x, "map").chars][Get(x, "name").chars].members, "to")
  }

  /** The frame that a vocabulary is given. */
  function FrameSeen(data: map<string, Json>, p: Parts): Frame {
    Frame(data, p.single.Keys, map k | k in p.listed :: |p.listed[k]|, map k | k in p.named :: p.named[k].Keys)
  }

  /** The vocabulary that follows directions, and at their end tells one frame from all others. */
  function Telling(f: Frame, positive: bool): Vocabulary {
    (data: map<string, Json>, p: Parts, x: Json) =>
      if x.Obj? && "to" in x.fields then Followed(p, x) else (FrameSeen(data, p) == f) == positive
  }

  lemma FrameIsSeen(p: Shape, v: Vocabulary, x: Json)
    requires p.Keywords?
    ensures FrameSeen(p.frame.data, PartsMeant(p, v, x)) == p.frame
  {
    hide PartMeant;
    var f := FrameSeen(p.frame.data, PartsMeant(p, v, x));
    forall k | k in p.frame.named
      ensures f.named[k] == p.frame.named[k]
    {
      assert PartsMeant(p, v, x).named[k].Keys == p.frame.named[k];
    }
    assert f.listed == p.frame.listed && f.named == p.frame.named;
  }

  lemma FollowsOne(p: Parts, k: string, x: Json)
    requires k in p.single
    ensures Followed(p, Directions(One(k), x)) == Of(p.single[k].members, "to")
  {
    assert Get(Directions(One(k), x), "one") == Str(k);
  }

  lemma FollowsItem(p: Parts, k: string, i: nat, x: Json)
    requires k in p.listed && i < |p.listed[k]|
    ensures Followed(p, Directions(Item(k, i), x)) == Of(p.listed[k][i].members, "to")
  {
    var d := Directions(Item(k, i), x);
    assert Get(d, "one") == Null && Get(d, "list") == Str(k) && Get(d, "index") == Arr(seq(i, j => Null));
  }

  lemma FollowsNamed(p: Parts, k: string, n: string, x: Json)
    requires k in p.named && n in p.named[k]
    ensures Followed(p, Directions(Named(k, n), x)) == Of(p.named[k][n].members, "to")
  {
    var d := Directions(Named(k, n), x);
    assert Get(d, "one") == Null && Get(d, "list") == Null && Get(d, "map") == Str(k) && Get(d, "name") == Str(n);
  }

  lemma FollowsStep(p: Shape, step: Step, f: Frame, positive: bool, x: Json)
    requires p.Keywords? && p.parts.Keys == StepsOf(p.frame) && step in p.parts
    ensures Meaning(p, Telling(f, positive), Directions(step, x)) == Meaning(p.parts[step], Telling(f, positive), x)
  {
    var v, d := Telling(f, positive), Directions(step, x);
    var parts := PartsMeant(p, v, d);
    hide VerdictsMeant, Followed;
    assert d.Obj? && "to" in d.fields && d.fields["to"] == x;
    assert Meaning(p, v, d) == Followed(parts, d);
    DirectedMember(p.parts[step], v, d, x);
    hide Meaning, Telling, Directions;
    match step {
      case One(k) =>
        assert k in p.frame.single && parts.single[k] == PartMeant(p, step, v, d);
        FollowsOne(parts, k, x);
      case Item(k, i) =>
        assert k in p.frame.listed && parts.listed[k][i] == PartMeant(p, step, v, d);
        FollowsItem(parts, k, i, x);
      case Named(k, n) =>
        assert k in p.frame.named && parts.named[k][n] == PartMeant(p, step, v, d);
        FollowsNamed(parts, k, n, x);
    }
  }

  lemma DirectedMember(p: Shape, v: Vocabulary, d: Json, x: Json)
    requires d.Obj? && "to" in d.fields && d.fields["to"] == x
    ensures Of(VerdictsMeant(p, v, d).members, "to") == Meaning(p, v, x)
  {
    hide Meaning;
  }

  /** Two different shapes are told apart by some vocabulary. */
  lemma {:induction false} ToldApart(p: Shape, q: Shape) returns (f: Frame, positive: bool, x: Json)
    requires Proper(p) && Proper(q) && p != q
    ensures Meaning(p, Telling(f, positive), x) != Meaning(q, Telling(f, positive), x)
    decreases p
  {
    f, positive, x := Frame(map[], {}, map[], map[]), true, Null;
    if p.Always? && q.Keywords? {
      f, positive := q.frame, !p.verdict;
      FrameIsSeen(q, Telling(f, positive), x);
    } else if p.Keywords? && q.Always? {
      f, positive := p.frame, !q.verdict;
      FrameIsSeen(p, Telling(f, positive), x);
    } else if p.Keywords? && p.frame != q.frame {
      f := p.frame;
      FrameIsSeen(p, Telling(f, positive), x);
      FrameIsSeen(q, Telling(f, positive), x);
    } else if p.Keywords? {
      assert p.parts != q.parts;
      var step :| step in p.parts && p.parts[step] != q.parts[step];
      var y;
      f, positive, y := ToldApart(p.parts[step], q.parts[step]);
      x := Directions(step, y);
      FollowsStep(p, step, f, positive, y);
      FollowsStep(q, step, f, positive, y);
    }
  }

  /** Two schemas mean the same whatever keywords mean exactly when they have the same shape. */
  lemma ShapeDecides(s: Json, d: Json, a: Scope, m: nat, w: Json, e: Json, b: Scope, n: nat)
    ensures (forall v :: Same(s, Place(v, d, a, m), w, Place(v, e, b, n))) <==> ShapeOf(s, d, a, m) == ShapeOf(w, e, b, n)
  {
    hide Accepts, Meaning, ShapeOf;
    var p, q := ShapeOf(s, d, a, m), ShapeOf(w, e, b, n);
    if p == q {
      forall v
        ensures Same(s, Place(v, d, a, m), w, Place(v, e, b, n))
      {
        AcceptsIsMeaning(s, Place(v, d, a, m));
        AcceptsIsMeaning(w, Place(v, e, b, n));
      }
    } else {
      ShapeIsProper(s, d, a, m);
      ShapeIsProper(w, e, b, n);
      var f, positive, x := ToldApart(p, q);
      var v := Telling(f, positive);
      AcceptsIsMeaning(s, Place(v, d, a, m));
      AcceptsIsMeaning(w, Place(v, e, b, n));
      assert Accepts(s, Place(v, d, a, m), x) != Accepts(w, Place(v, e, b, n), x);
    }
  }

  // ---- Which schemas keep their shape ----------------------------------------------------------

  /** A map of named subschemas that the inlining takes for a reference or for a scope. */
  predicate Captured(v: Json) {
    ExactRef(v) || (v.Obj? && "$defs" in v.fields)
  }

  predicate CapturedAt(s: Json, step: Step)
    requires s.Obj? && step in StepsOf(FrameOf(s))
  {
    step.Named? && Captured(s.fields[step.keyword])
  }

  /** The shapes of the members of a map. */
  function NamesShape(v: Json, document: Json, scope: Scope, depth: nat): map<string, Shape> {
    if v.Obj? then map n | n in v.fields :: ShapeOf(v.fields[n], document, scope, depth) else map[]
  }

  /** Wherever a vocabulary looks, inlining leaves alone what is data, makes no list of subschemas out of a reference,
      and gives a map that it takes for a reference or a scope members of the same shapes. */
  ghost predicate Kept(s: Json, document: Json, scope: Scope, depth: nat)
    decreases depth, s, 1
  {
    if !s.Obj? then true
    else if ExactRef(s) then
      depth > 0 && Target(document, RefAt(s, scope)).Some? ==>
      var t := Target(document, RefAt(s, scope)).value; Kept(t.value, document, t.scope, depth - 1)
    else KeywordsKept(s, document, ScopeAt(s, scope), depth)
  }

  ghost predicate KeywordsKept(s: Json, document: Json, scope: Scope, depth: nat)
    requires s.Obj?
    decreases depth, s, 0
  {
    && (forall k | k in s.fields && IsData(k) :: Inline(s.fields[k], document, scope, depth) == Some(s.fields[k]))
    && (forall k | k in s.fields && IsListed(k) && !s.fields[k].Arr? ::
          NoList(Inline(s.fields[k], document, scope, depth)))
    && (forall k | k in s.fields && IsNamed(k) && Captured(s.fields[k]) :: MapKept(s.fields[k], document, scope, depth))
    && (forall step | step in StepsOf(FrameOf(s)) && !CapturedAt(s, step) :: Kept(Child(s, step), document, scope, depth))
  }

  predicate NoList(v: Option<Json>) {
    v.Some? && v.value.Arr? ==> v.value.items == []
  }

  predicate MapKept(v: Json, document: Json, scope: Scope, depth: nat) {
    var w := Inline(v, document, scope, depth);
    w.Some? ==> NamesShape(w.value, Null, NoScope, 0) == NamesShape(v, document, scope, depth)
  }

  /** A schema that stands alone: no reference is followed any more. */
  function Alone(w: Json): Shape {
    ShapeOf(w, Null, NoScope, 0)
  }

  lemma {:induction false} AloneAnywhere(w: Json, document: Json, scope: Scope)
    ensures ShapeOf(w, document, scope, 0) == Alone(w)
    decreases w
  {
    if w.Obj? && !ExactRef(w) {
      assert ShapeOf(w, document, scope, 0) == KeywordsOf(w, document, ScopeAt(w, scope), 0);
      assert Alone(w) == KeywordsOf(w, Null, ScopeAt(w, NoScope), 0);
      forall step | step in StepsOf(FrameOf(w))
        ensures ShapeOf(Child(w, step), document, ScopeAt(w, scope), 0) == ShapeOf(Child(w, step), Null, ScopeAt(w, NoScope), 0)
      {
        AloneAnywhere(Child(w, step), document, ScopeAt(w, scope));
        AloneAnywhere(Child(w, step), Null, ScopeAt(w, NoScope));
      }
    }
  }

  /** The subschemas of an inlined schema that stands alone do so too. */
  lemma AloneParts(w: Json)
    requires w.Obj? && !ExactRef(w)
    ensures Alone(w).Keywords? && Alone(w).frame == FrameOf(w) && Alone(w).parts.Keys == StepsOf(FrameOf(w))
    ensures forall step | step in StepsOf(FrameOf(w)) :: Alone(w).parts[step] == Alone(Child(w, step))
  {
    assert Alone(w) == KeywordsOf(w, Null, ScopeAt(w, NoScope), 0);
    forall step | step in StepsOf(FrameOf(w))
      ensures Alone(w).parts[step] == Alone(Child(w, step))
    {
      AloneAnywhere(Child(w, step), Null, ScopeAt(w, NoScope));
    }
  }

  /** Inlining keeps the shape of a schema exactly when the schema is kept. */
  lemma {:induction false} KeptDecides(s: Json, document: Json, scope: Scope, depth: nat)
    requires Inline(s, document, scope, depth).Some?
    ensures Alone(Inline(s, document, scope, depth).value) == ShapeOf(s, document, scope, depth) <==>
            Kept(s, document, scope, depth)
    decreases depth, s
  {
    hide FrameOf, StepsOf, IsSingle, IsListed, IsNamed, IsData;
    if ExactRef(s) {
      var t := Target(document, RefAt(s, scope)).value;
      KeptDecides(t.value, document, t.scope, depth - 1);
    } else if s.Obj? {
      var inner := ScopeAt(s, scope);
      var w := Inline(s, document, scope, depth).value;
      forall step | step in StepsOf(FrameOf(s)) && !CapturedAt(s, step)
        ensures step in StepsOf(FrameOf(w))
        ensures Alone(Child(w, step)) == ShapeOf(Child(s, step), document, inner, depth) <==>
                Kept(Child(s, step), document, inner, depth)
      {
        InlinedChild(s, w, step, document, inner, depth);
        ChildSmaller(s, step);
        KeptDecides(Child(s, step), document, inner, depth);
      }
      KeywordsDecide(s, w, document, inner, depth);
    }
  }

  lemma InlinedChild(s: Json, w: Json, step: Step, document: Json, scope: Scope, depth: nat)
    requires s.Obj? && InlineFields(s, document, scope, depth) == Some(w)
    requires step in StepsOf(FrameOf(s)) && !CapturedAt(s, step)
    ensures w.Obj? && step in StepsOf(FrameOf(w))
    ensures Inline(Child(s, step), document, scope, depth) == Some(Child(w, step))
  {
    hide IsSingle, IsListed, IsNamed;
    var v := s.fields[step.keyword];
    assert Inline(v, document, scope, depth) == Some(w.fields[step.keyword]);
    match step {
      case One(k) =>
      case Item(k, i) => assert InlineItems(v, document, scope, depth) == Some(w.fields[k]);
      case Named(k, n) => assert InlineFields(v, document, scope, depth) == Some(w.fields[k]);
    }
  }

  /** Whether a schema and what became of its members have the same frame. */
  ghost predicate FrameKept(s: Json, w: Json)
    requires s.Obj? && w.Obj? && s.fields.Keys == w.fields.Keys
  {
    && (forall k | k in s.fields && IsData(k) :: w.fields[k] == s.fields[k])
    && (forall k | k in s.fields && IsListed(k) :: Length(w.fields[k]) == Length(s.fields[k]))
    && (forall k | k in s.fields && IsNamed(k) :: Names(w.fields[k]) == Names(s.fields[k]))
  }

  function Length(v: Json): nat {
    if v.Arr? then |v.items| else 0
  }

  function Names(v: Json): set<string> {
    if v.Obj? then v.fields.Keys else {}
  }

  lemma FramesAgree(s: Json, w: Json)
    requires s.Obj? && w.Obj? && s.fields.Keys == w.fields.Keys
    ensures FrameOf(w) == FrameOf(s) <==> FrameKept(s, w)
  {
    hide IsSingle, IsListed, IsNamed, IsData;
    var f, g := FrameOf(s), FrameOf(w);
    assert f.single == g.single;
    if FrameKept(s, w) {
      assert f.data == g.data && f.listed == g.listed && f.named == g.named;
    }
    if f == g {
      forall k | k in s.fields
        ensures IsData(k) ==> w.fields[k] == s.fields[k]
        ensures IsListed(k) ==> Length(w.fields[k]) == Length(s.fields[k])
        ensures IsNamed(k) ==> Names(w.fields[k]) == Names(s.fields[k])
      {
        assert IsData(k) ==> f.data[k] == s.fields[k] && g.data[k] == w.fields[k];
        assert IsListed(k) ==> f.listed[k] == Length(s.fields[k]) && g.listed[k] == Length(w.fields[k]);
        assert IsNamed(k) ==> f.named[k] == Names(s.fields[k]) && g.named[k] == Names(w.fields[k]);
      }
    }
  }

  /** The conditions on the members are those on the frame, and on the members of captured maps. */
  lemma FrameDecides(s: Json, w: Json, document: Json, scope: Scope, depth: nat)
    requires s.Obj? && InlineFields(s, document, scope, depth) == Some(w)
    ensures w.Obj? && s.fields.Keys == w.fields.Keys
    ensures FrameKept(s, w) <==>
            && (forall k | k in s.fields && IsData(k) :: Inline(s.fields[k], document, scope, depth) == Some(s.fields[k]))
            && (forall k | k in s.fields && IsListed(k) && !s.fields[k].Arr? ::
                  NoList(Inline(s.fields[k], document, scope, depth)))
            && (forall k | k in s.fields && IsNamed(k) && Captured(s.fields[k]) :: Names(w.fields[k]) == Names(s.fields[k]))
  {
    hide IsSingle, IsListed, IsNamed, IsData, InlineTarget;
    forall k | k in s.fields
      ensures Inline(s.fields[k], document, scope, depth) == Some(w.fields[k])
      ensures s.fields[k].Arr? ==> Length(w.fields[k]) == Length(s.fields[k])
      ensures !s.fields[k].Arr? ==> (Length(w.fields[k]) == Length(s.fields[k]) <==> NoList(Some(w.fields[k])))
      ensures !Captured(s.fields[k]) ==> Names(w.fields[k]) == Names(s.fields[k])
    {
    }
  }

  /** The members of a map have the same shapes as before exactly when they do step by step. */
  lemma MapDecides(s: Json, w: Json, k: string, document: Json, scope: Scope, depth: nat)
    requires s.Obj? && InlineFields(s, document, scope, depth) == Some(w) && k in s.fields && IsNamed(k)
    ensures w.Obj? && k in w.fields
    ensures MapKept(s.fields[k], document, scope, depth) <==>
            Names(w.fields[k]) == Names(s.fields[k])
            && forall n | n in Names(s.fields[k]) ::
                 Alone(w.fields[k].fields[n]) == ShapeOf(s.fields[k].fields[n], document, scope, depth)
  {
    hide ShapeOf;
    var v, u := s.fields[k], w.fields[k];
    assert Inline(v, document, scope, depth) == Some(u);
    var p, q := NamesShape(u, Null, NoScope, 0), NamesShape(v, document, scope, depth);
    assert p.Keys == Names(u) && q.Keys == Names(v);
    if p == q {
      forall n | n in Names(v)
        ensures Alone(u.fields[n]) == ShapeOf(v.fields[n], document, scope, depth)
      {
        assert p[n] == q[n];
      }
    }
  }

  /** Every subschema keeps its shape. */
  ghost predicate StepsKept(s: Json, w: Json, document: Json, scope: Scope, depth: nat)
    requires s.Obj? && w.Obj? && FrameOf(w) == FrameOf(s)
  {
    forall step | step in StepsOf(FrameOf(s)) :: Alone(Child(w, step)) == ShapeOf(Child(s, step), document, scope, depth)
  }

  lemma KeywordsSame(s: Json, w: Json, document: Json, scope: Scope, depth: nat)
    requires s.Obj? && w.Obj? && !ExactRef(w)
    ensures Alone(w) == KeywordsOf(s, document, scope, depth) <==>
            FrameOf(w) == FrameOf(s) && StepsKept(s, w, document, scope, depth)
  {
    hide Alone, ShapeOf, FrameOf, StepsOf;
    AloneParts(w);
    var p, q := Alone(w), KeywordsOf(s, document, scope, depth);
    if FrameOf(w) == FrameOf(s) && StepsKept(s, w, document, scope, depth) {
      assert p.parts == q.parts;
    }
    if p == q {
      forall step | step in StepsOf(FrameOf(s))
        ensures Alone(Child(w, step)) == ShapeOf(Child(s, step), document, scope, depth)
      {
        assert p.parts[step] == q.parts[step];
      }
    }
  }

  /** A schema that became a reference was not kept: its `$ref` is data, and was no text before. */
  lemma BecameRef(s: Json, w: Json, document: Json, scope: Scope, depth: nat)
    requires s.Obj? && !ExactRef(s) && InlineFields(s, document, scope, depth) == Some(w) && ExactRef(w)
    ensures !KeywordsKept(s, document, scope, depth) && Alone(w) == Always(false)
  {
    assert "$ref" in w.fields && "$ref" in s.fields && s.fields.Keys == w.fields.Keys;
    assert IsData("$ref") && Inline(s.fields["$ref"], document, scope, depth) == Some(w.fields["$ref"]);
  }

  lemma KeywordsDecide(s: Json, w: Json, document: Json, scope: Scope, depth: nat)
    requires s.Obj? && !ExactRef(s) && InlineFields(s, document, scope, depth) == Some(w)
    requires forall step | step in StepsOf(FrameOf(s)) && !CapturedAt(s, step) ::
      && w.Obj? && step in StepsOf(FrameOf(w))
      && (Alone(Child(w, step)) == ShapeOf(Child(s, step), document, scope, depth) <==>
          Kept(Child(s, step), document, scope, depth))
    ensures Alone(w) == KeywordsOf(s, document, scope, depth) <==> KeywordsKept(s, document, scope, depth)
  {
    hide ShapeOf, Alone, Kept, MapKept, FrameOf, StepsOf, Child, IsSingle, IsListed, IsNamed, IsData, Inline, InlineFields;
    if ExactRef(w) {
      BecameRef(s, w, document, scope, depth);
    } else {
      FrameDecides(s, w, document, scope, depth);
      FramesAgree(s, w);
      forall k | k in s.fields && IsNamed(k)
        ensures MapKept(s.fields[k], document, scope, depth) <==>
                Names(w.fields[k]) == Names(s.fields[k])
                && forall n | n in Names(s.fields[k]) ::
                     Alone(w.fields[k].fields[n]) == ShapeOf(s.fields[k].fields[n], document, scope, depth)
      {
        MapDecides(s, w, k, document, scope, depth);
      }
      KeywordsSame(s, w, document, scope, depth);
      StepsDecide(s, w, document, scope, depth);
    }
  }

  /** The conditions on the subschemas, step by step. */
  lemma StepsDecide(s: Json, w: Json, document: Json, scope: Scope, depth: nat)
    requires s.Obj? && w.Obj? && s.fields.Keys == w.fields.Keys
    requires forall step | step in StepsOf(FrameOf(s)) && !CapturedAt(s, step) ::
      && step in StepsOf(FrameOf(w))
      && (Alone(Child(w, step)) == ShapeOf(Child(s, step), document, scope, depth) <==>
          Kept(Child(s, step), document, scope, depth))
    ensures FrameOf(w) == FrameOf(s) ==>
            (StepsKept(s, w, document, scope, depth) <==>
             && (forall step | step in StepsOf(FrameOf(s)) && !CapturedAt(s, step) ::
                   Kept(Child(s, step), document, scope, depth))
             && (forall k | k in s.fields && IsNamed(k) && Captured(s.fields[k]) ::
                   forall n | n in Names(s.fields[k]) && n in Names(w.fields[k]) ::
                     Alone(w.fields[k].fields[n]) == ShapeOf(s.fields[k].fields[n], document, scope, depth)))
  {
    hide Alone, ShapeOf, Kept, IsSingle, IsListed, IsNamed, IsData, Captured, FrameOf, StepsOf, Child, Names;
    if FrameOf(w) == FrameOf(s) {
      FramesAgree(s, w);
      forall k, n | k in s.fields && IsNamed(k) && n in Names(s.fields[k])
        ensures Named(k, n) in StepsOf(FrameOf(s)) && s.fields[k].Obj? && w.fields[k].Obj? && n in Names(w.fields[k])
        ensures n in s.fields[k].fields && Child(s, Named(k, n)) == s.fields[k].fields[n]
        ensures n in w.fields[k].fields && Child(w, Named(k, n)) == w.fields[k].fields[n]
      {
        NamedStep(s, k, n);
        NamedStep(w, k, n);
      }
      forall step | step in StepsOf(FrameOf(s)) && step.Named?
        ensures step.keyword in s.fields && IsNamed(step.keyword) && step.name in Names(s.fields[step.keyword])
      {
        StepNamed(s, step);
      }
    }
  }

  lemma NamedStep(s: Json, k: string, n: string)
    requires s.Obj? && k in s.fields && IsNamed(k) && n in Names(s.fields[k])
    ensures Named(k, n) in StepsOf(FrameOf(s)) && s.fields[k].Obj? && n in s.fields[k].fields
    ensures Child(s, Named(k, n)) == s.fields[k].fields[n]
  {
    assert n in FrameOf(s).named[k];
  }

  lemma StepNamed(s: Json, step: Step)
    requires s.Obj? && step in StepsOf(FrameOf(s)) && step.Named?
    ensures step.keyword in s.fields && IsNamed(step.keyword) && step.name in Names(s.fields[step.keyword])
  {
  }

  /** Under every vocabulary, the inlined schema alone accepts what the original accepts with its references followed,
      exactly when the schema is kept.  An object with `$ref` and other members is no reference to the source: its
      `$ref` is data here. */
  lemma InliningDecides(s: Json, document: Json, scope: Scope, depth: nat)
    requires Inline(s, document, scope, depth).Some?
    ensures var w := Inline(s, document, scope, depth).value;
            (forall v :: Same(s, Place(v, document, scope, depth), w, Place(v, Null, NoScope, 0))) <==>
            Kept(s, document, scope, depth)
  {
    hide Same, Inline, Kept;
    KeptDecides(s, document, scope, depth);
    ShapeDecides(s, document, scope, depth, Inline(s, document, scope, depth).value, Null, NoScope, 0);
  }

  // ---- Schemas that keep their meaning anywhere ------------------------------------------------

  /** A schema in which references stand only where a schema can stand, alone in their object, and no named
      subschema is called `$defs`. */
  predicate WellFormed(s: Json, document: Json, scope: Scope, depth: nat)
    decreases depth, s, 1
  {
    if s.Bool? then true
    else if !s.Obj? then false
    else if ExactRef(s) then
      depth > 0 && Target(document, RefAt(s, scope)).Some? &&
      var t := Target(document, RefAt(s, scope)).value; WellFormed(t.value, document, t.scope, depth - 1)
    else
      && "$ref" !in s.fields
      && (forall k | k in s.fields && IsData(k) :: !HasExactRef(s.fields[k]))
      && WellFormedParts(s, document, ScopeAt(s, scope), depth)
  }

  predicate WellFormedParts(s: Json, document: Json, scope: Scope, depth: nat)
    requires s.Obj?
    decreases depth, s, 0
  {
    && (forall k | k in s.fields && IsNamed(k) ::
          && s.fields[k].Obj? && "$defs" !in s.fields[k].fields
          && forall n | n in s.fields[k].fields :: WellFormed(s.fields[k].fields[n], document, scope, depth))
    && (forall k | k in s.fields && IsSingle(k) :: WellFormed(s.fields[k], document, scope, depth))
    && (forall k | k in s.fields && IsListed(k) ::
          s.fields[k].Arr? && forall i | 0 <= i < |s.fields[k].items| :: WellFormed(s.fields[k].items[i], document, scope, depth))
  }

  lemma {:induction false} DataUnchanged(v: Json, document: Json, scope: Scope, depth: nat)
    requires !HasExactRef(v)
    ensures Inline(v, document, scope, depth) == Some(v)
    decreases v
  {
    if v.Arr? {
      forall i | 0 <= i < |v.items|
        ensures Inline(v.items[i], document, scope, depth) == Some(v.items[i])
      {
        DataUnchanged(v.items[i], document, scope, depth);
      }
      assert InlineItems(v, document, scope, depth).value.items == v.items;
    } else if v.Obj? {
      var inner := ScopeAt(v, scope);
      forall k | k in v.fields
        ensures Inline(v.fields[k], document, inner, depth) == Some(v.fields[k])
      {
        DataUnchanged(v.fields[k], document, inner, depth);
      }
      assert InlineFields(v, document, inner, depth).value.fields == v.fields;
    }
  }

  lemma {:induction false} WellFormedShape(s: Json, d: Json, scope: Scope, depth: nat, e: Json, b: Scope, n: nat)
    requires WellFormed(s, d, scope, depth) && Inline(s, d, scope, depth).Some?
    ensures ShapeOf(Inline(s, d, scope, depth).value, e, b, n) == ShapeOf(s, d, scope, depth)
    decreases depth, s, 1
  {
    hide IsSingle, IsListed, IsNamed, IsData, FrameOf, StepsOf, WellFormedParts;
    if ExactRef(s) {
      var t := Target(d, RefAt(s, scope)).value;
      WellFormedShape(t.value, d, t.scope, depth - 1, e, b, n);
    } else if s.Obj? {
      var inner := ScopeAt(s, scope);
      var w := Inline(s, d, scope, depth).value;
      WellFormedFrame(s, w, d, inner, depth);
      WellFormedKeywords(s, w, d, inner, depth, e, ScopeAt(w, b), n);
      assert ShapeOf(w, e, b, n) == KeywordsOf(w, e, ScopeAt(w, b), n);
      assert ShapeOf(s, d, scope, depth) == KeywordsOf(s, d, inner, depth);
    }
  }

  lemma {:induction false} WellFormedKeywords(s: Json, w: Json, d: Json, scope: Scope, depth: nat,
                                              e: Json, b: Scope, n: nat)
    requires s.Obj? && WellFormedParts(s, d, scope, depth) && InlineFields(s, d, scope, depth) == Some(w)
    requires w.Obj? && FrameOf(w) == FrameOf(s)
    ensures KeywordsOf(w, e, b, n) == KeywordsOf(s, d, scope, depth)
    decreases depth, s, 0
  {
    hide ShapeOf, KeywordsOf, Inline, InlineFields, WellFormed, WellFormedParts, FrameOf, StepsOf, Child, IsNamed, Captured;
    forall step | step in StepsOf(FrameOf(s))
      ensures ShapeOf(Child(w, step), e, b, n) == ShapeOf(Child(s, step), d, scope, depth)
    {
      WellFormedStep(s, step, d, scope, depth);
      InlinedChild(s, w, step, d, scope, depth);
      ChildSmaller(s, step);
      WellFormedShape(Child(s, step), d, scope, depth, e, b, n);
    }
    SameKeywords(s, w, d, scope, depth, e, b, n);
  }

  lemma SameKeywords(s: Json, w: Json, d: Json, scope: Scope, depth: nat, e: Json, b: Scope, n: nat)
    requires s.Obj? && w.Obj? && FrameOf(w) == FrameOf(s)
    requires forall step | step in StepsOf(FrameOf(s)) ::
      ShapeOf(Child(w, step), e, b, n) == ShapeOf(Child(s, step), d, scope, depth)
    ensures KeywordsOf(w, e, b, n) == KeywordsOf(s, d, scope, depth)
  {
    hide ShapeOf, FrameOf, StepsOf, Child;
    var p, q := KeywordsOf(w, e, b, n), KeywordsOf(s, d, scope, depth);
    forall step | step in StepsOf(FrameOf(s))
      ensures step in p.parts && step in q.parts && p.parts[step] == q.parts[step]
    {
    }
    hide KeywordsOf;
    assert p.parts == q.parts;
  }

  lemma ChildSmaller(s: Json, step: Step)
    requires s.Obj? && step in StepsOf(FrameOf(s))
    ensures Child(s, step) < s
  {
  }

  lemma WellFormedStep(s: Json, step: Step, document: Json, scope: Scope, depth: nat)
    requires s.Obj? && WellFormedParts(s, document, scope, depth) && step in StepsOf(FrameOf(s))
    ensures !CapturedAt(s, step) && WellFormed(Child(s, step), document, scope, depth)
  {
    hide IsSingle, IsListed, IsNamed;
    if step.Named? {
      NotCaptured(s, step.keyword, document, scope, depth);
    }
  }

  lemma NotCaptured(s: Json, k: string, document: Json, scope: Scope, depth: nat)
    requires s.Obj? && WellFormedParts(s, document, scope, depth) && k in s.fields && IsNamed(k)
    ensures !Captured(s.fields[k])
  {
    var v := s.fields[k];
    assert "$ref" in v.fields ==> WellFormed(v.fields["$ref"], document, scope, depth);
  }

  lemma WellFormedFrame(s: Json, w: Json, document: Json, scope: Scope, depth: nat)
    requires s.Obj? && "$ref" !in s.fields && WellFormedParts(s, document, scope, depth)
    requires forall k | k in s.fields && IsData(k) :: !HasExactRef(s.fields[k])
    requires InlineFields(s, document, scope, depth) == Some(w)
    ensures w.Obj? && !ExactRef(w) && FrameOf(w) == FrameOf(s)
  {
    hide IsSingle, IsListed, IsNamed, IsData, WellFormed, FrameOf;
    assert w.fields.Keys == s.fields.Keys;
    assert "$ref" in {"$ref"};
    forall k | k in s.fields && IsData(k)
      ensures Inline(s.fields[k], document, scope, depth) == Some(s.fields[k])
    {
      DataUnchanged(s.fields[k], document, scope, depth);
    }
    forall k | k in s.fields && IsNamed(k)
      ensures !Captured(s.fields[k])
    {
      NotCaptured(s, k, document, scope, depth);
    }
    FrameDecides(s, w, document, scope, depth);
    FramesAgree(s, w);
  }

  /** The inlined schema, read in any document and scope, accepts what the original accepts with its references
      followed, whatever its keywords mean. */
  lemma {:induction false} InliningKeepsMeaning(s: Json, a: Place, document: Json, scope: Scope, depth: nat)
    requires WellFormed(s, a.document, a.scope, a.depth) && Inline(s, a.document, a.scope, a.depth).Some?
    ensures Same(s, a, Inline(s, a.document, a.scope, a.depth).value, Place(a.vocabulary, document, scope, depth))
  {
    hide WellFormed, Inline, Same;
    var w := Inline(s, a.document, a.scope, a.depth).value;
    WellFormedShape(s, a.document, a.scope, a.depth, document, scope, depth);
    ShapeDecides(s, a.document, a.scope, a.depth, w, document, scope, depth);
    assert Same(s, Place(a.vocabulary, a.document, a.scope, a.depth), w, Place(a.vocabulary, document, scope, depth));
  }

  // ---- Schemas that do not ---------------------------------------------------------------------

  lemma SplitLetter(c: char)
    requires c != '/'
    ensures Split([c]) == [[c]]
  {
    assert [c][1..] == "" && Split("") == [""] && [c] + "" == [c] && [""][1..] == [];
    assert Split([c]) == [[c]] + [];
  }

  lemma LocalTarget(document: Json, root: Json, c: char)
    requires root.Obj? && c != '/'
    ensures var r := Ref("#/" + [c], Within(root));
      Target(document, r) == if [c] in root.fields then Some(Site(root.fields[[c]], Within(root))) else None
  {
    SplitLetter(c);
    assert ("#/" + [c])[2..] == [c] && ("#/" + [c])[..2] == "#/";
    assert Lookup(root, [[c]]) == if [c] in root.fields then Lookup(root.fields[[c]], []) else None;
  }

  /** The assertions of `const` alone, which demands its value. */
  const CONSTANT: Assertions :=
    Assertions((data: map<string, Json>, x: Json) => "const" in data ==> x == data["const"],
               (q: string, k: string) => false, (data: map<string, Json>) => 1, (data: map<string, Json>) => None)

  /** An object that looks like a reference inside `const` is inlined too, and another value is then demanded. */
  lemma DataIsRewritten(document: Json) returns (s: Json, root: Json, x: Json)
    ensures var at := Place(Standard(CONSTANT), document, Within(root), 1);
      Accepts(s, at, x) && Inline(s, document, Within(root), 1).Some?
      && !Accepts(Inline(s, document, Within(root), 1).value, at, x)
  {
    root := Obj(map["$defs" := Null, "s" := Bool(true)]);
    x := Obj(map["$ref" := Str("#/" + "s")]);
    s := Obj(map["const" := x]);
    LocalTarget(document, root, 's');
    assert "s" == ['s'] && Target(document, RefAt(x, Within(root))) == Some(Site(Bool(true), Within(root)));
    assert InlineTarget(x, document, Within(root), 1) == Inline(Bool(true), document, Within(root), 0);
    assert Inline(x, document, Within(root), 1) == Some(Bool(true));
    assert ScopeAt(s, Within(root)) == Within(root) && s.fields.Keys == {"const"} && s.fields["const"] == x;
    assert InlineFields(s, document, Within(root), 1).Some?;
    var w := Inline(s, document, Within(root), 1).value;
    assert w.Obj? && w.fields.Keys == {"const"} && w.fields["const"] == Bool(true);
    var at := Place(Standard(CONSTANT), document, Within(root), 1);
    OnlyConstant(s, at, x);
    OnlyConstant(w, at, x);
  }

  /** A schema that is a constant accepts the constant. */
  lemma OnlyConstant(s: Json, at: Place, x: Json)
    requires s.Obj? && s.fields.Keys == {"const"} && at.vocabulary == Standard(CONSTANT)
    ensures Accepts(s, at, x) <==> x == s.fields["const"]
  {
    assert !ExactRef(s) by {
      assert "const" in s.fields && "const" !in {"$ref"};
    }
    var p := PartsOf(s, at.(scope := ScopeAt(s, at.scope)), x);
    assert p.single == map[] && p.listed == map[] && p.named == map[];
    assert Data(s) == map["const" := s.fields["const"]];
    assert MembersHold(p, x, CONSTANT) && ItemsHold(Data(s), p, x, CONSTANT) && InPlaceHold(p, x);
  }

  /** A property called `$defs` makes the property map the scope, and references beside it stop resolving. */
  lemma PropertyCapturesScope(document: Json, depth: nat) returns (root: Json)
    requires depth > 0
    ensures Inline(root, document, NoScope, depth) == None
    ensures Accepts(root, Place(Standard(CONSTANT), document, NoScope, depth), Obj(map["a" := Null]))
  {
    var a := Obj(map["$ref" := Str("#/" + "t")]);
    var named := Obj(map["$defs" := Bool(true), "a" := a]);
    root := Obj(map["$defs" := Null, "t" := Bool(true), "properties" := named]);
    LocalTarget(document, root, 't');
    LocalTarget(document, named, 't');
    assert Inline(named.fields["a"], document, Within(named), depth) == None;
    assert Inline(root.fields["properties"], document, Within(root), depth) == None;
    var at := Place(Standard(CONSTANT), document, NoScope, depth);
    assert Accepts(a, at.(scope := Within(root)), Null);
    OneProperty(root, at, named);
  }

  /** An object with one member is accepted by a schema of properties when that member is. */
  lemma OneProperty(root: Json, at: Place, named: Json)
    requires root.Obj? && root.fields.Keys == {"$defs", "t", "properties"} && root.fields["properties"] == named
    requires named.Obj? && "a" in named.fields && at.vocabulary == Standard(CONSTANT)
    requires Accepts(named.fields["a"], at.(scope := Within(root)), Null)
    ensures Accepts(root, at, Obj(map["a" := Null]))
  {
    hide PartsOf, NamesOf, VerdictsOf;
    var x := Obj(map["a" := Null]);
    var inner := at.(scope := Within(root));
    assert ScopeAt(root, at.scope) == Within(root);
    assert !ExactRef(root) by {
      assert "t" in root.fields && "t" !in {"$ref"};
    }
    PropertiesOnly(root, inner, named, x);
    var p := PartsOf(root, inner, x);
    assert x.fields.Keys == {"a"};
    assert ItemsHold(Data(root), p, x, CONSTANT) && InPlaceHold(p, x);
    assert MembersHold(p, x, CONSTANT);
    assert "const" !in Data(root);
  }

  lemma PropertiesOnly(root: Json, at: Place, named: Json, x: Json)
    requires root.Obj? && root.fields.Keys == {"$defs", "t", "properties"} && root.fields["properties"] == named
    requires named.Obj? && "a" in named.fields && x == Obj(map["a" := Null]) && Accepts(named.fields["a"], at, Null)
    ensures PartsOf(root, at, x).single == map[] && PartsOf(root, at, x).listed == map[]
    ensures PartsOf(root, at, x).named.Keys == {"properties"}
    ensures forall k | k in PartsOf(root, at, x).named["properties"] && k == "a" ::
      Of(PartsOf(root, at, x).named["properties"][k].members, k)
  {
    hide Accepts, VerdictsOf;
    var p := PartsOf(root, at, x);
    OneKeyword(root);
    assert p.single == map[] && p.listed == map[];
    assert p.named["properties"] == NamesOf(named, at, x);
    MemberVerdict(named.fields["a"], at, x);
  }

  lemma OneKeyword(root: Json)
    requires root.Obj? && root.fields.Keys == {"$defs", "t", "properties"}
    ensures forall k | k in root.fields :: !IsSingle(k) && !IsListed(k) && (IsNamed(k) <==> k == "properties")
  {
  }

  lemma MemberVerdict(s: Json, at: Place, x: Json)
    requires x.Obj? && x.fields.Keys == {"a"} && Accepts(s, at, x.fields["a"])
    ensures Of(VerdictsOf(s, at, x).members, "a")
  {
    hide Accepts;
  }
}
