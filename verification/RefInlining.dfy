/** Scoped `$ref` inlining of contract documents.

    A reference is an object whose only member is `$ref` with a string.  "#/components/..." is looked up
    in the whole document, any other pointer in the current scope: the nearest enclosing object with `$defs`,
    or the component last entered. */
module RefInlining {
  import opened Json
  import opened Options
  import opened Text

  datatype Scope = NoScope | Within(root: Json)

  // ---- Pointers --------------------------------------------------------------------------------

  function Lookup(v: Json, path: seq<string>): Option<Json> {
    if path == [] then Some(v)
    else if v.Obj? && path[0] in v.fields then Lookup(v.fields[path[0]], path[1..])
    else None
  }

  function Resolve(root: Json, pointer: string): Option<Json> {
    if HasPrefix(pointer, "#/") then Lookup(root, Split(pointer[2..])) else None
  }

  /** The loop of `_resolve_pointer`; no result stands for the error it raises. */
  method ResolvePointer(document: Json, pointer: string) returns (result: Option<Json>)
    ensures result == Resolve(document, pointer)
  {
    if !HasPrefix(pointer, "#/") {
      return None;
    }
    var components := Split(pointer[2..]);
    var value := document;
    for i := 0 to |components|
      invariant Lookup(value, components[i..]) == Lookup(document, components)
    {
      if !value.Obj? || components[i] !in value.fields {
        return None;
      }
      value := value.fields[components[i]];
      assert components[i..][1..] == components[i + 1..];
    }
    assert components[|components|..] == [];
    result := Some(value);
  }

  // ---- Inlining --------------------------------------------------------------------------------

  predicate ExactRef(v: Json) {
    v.Obj? && v.fields.Keys == {"$ref"} && v.fields["$ref"].Str?
  }

  function ScopeAt(v: Json, scope: Scope): Scope {
    if v.Obj? && "$defs" in v.fields then Within(v) else scope
  }

  /** A reference together with the scope it is read in. */
  datatype Ref = Ref(pointer: string, scope: Scope)

  datatype Site = Site(value: Json, scope: Scope)

  function RefAt(v: Json, scope: Scope): Ref
    requires ExactRef(v)
  {
    Ref(v.fields["$ref"].chars, scope)
  }

  /** What a reference leads to and the scope there; none if it cannot be resolved. */
  function Target(document: Json, r: Ref): Option<Site> {
    var component := HasPrefix(r.pointer, "#/components/");
    if !component && r.scope.NoScope? then None
    else
      match Resolve(if component then document else r.scope.root, r.pointer)
      case None => None
      case Some(v) => Some(Site(v, if component && v.Obj? then Within(v) else r.scope))
  }

  /** `_inline_refs`, allowed to follow at most `depth` references one inside the other.  No result stands
      for an unresolvable reference or for a recursion that is still going at that depth. */
  function Inline(v: Json, document: Json, scope: Scope, depth: nat): Option<Json>
    decreases depth, v, 1
  {
    if v.Arr? then InlineItems(v, document, scope, depth)
    else if !v.Obj? then Some(v)
    else if ExactRef(v) then InlineTarget(v, document, scope, depth)
    else InlineFields(v, document, ScopeAt(v, scope), depth)
  }

  function InlineItems(v: Json, document: Json, scope: Scope, depth: nat): Option<Json>
    requires v.Arr?
    decreases depth, v, 0
  {
    if forall i | 0 <= i < |v.items| :: Inline(v.items[i], document, scope, depth).Some?
    then Some(Arr(seq(|v.items|, i requires 0 <= i < |v.items| => Inline(v.items[i], document, scope, depth).value)))
    else None
  }

  function InlineFields(v: Json, document: Json, scope: Scope, depth: nat): Option<Json>
    requires v.Obj?
    decreases depth, v, 0
  {
    if forall k | k in v.fields :: Inline(v.fields[k], document, scope, depth).Some?
    then Some(Obj(map k | k in v.fields :: Inline(v.fields[k], document, scope, depth).value))
    else None
  }

  function InlineTarget(v: Json, document: Json, scope: Scope, depth: nat): Option<Json>
    requires ExactRef(v)
    decreases depth, v, 0
  {
    var target := Target(document, RefAt(v, scope));
    if target.None? || depth == 0 then None
    else Inline(target.value.value, document, target.value.scope, depth - 1)
  }

  // ---- What inlining does, step by step --------------------------------------------------------

  /** The object that is exactly a reference. */
  function Reference(pointer: string): Json {
    Obj(map["$ref" := Str(pointer)])
  }

  predicate Member(v: Json, key: string, w: Json) {
    v.Obj? && key in v.fields && v.fields[key] == w
  }

  /** The document has this component. */
  predicate IsComponent(document: Json, kind: string, name: string, v: Json) {
    && document.Obj? && "components" in document.fields
    && document.fields["components"].Obj? && kind in document.fields["components"].fields
    && Member(document.fields["components"].fields[kind], name, v)
  }

  lemma PathOf(parts: seq<string>)
    requires parts != [] && forall part | part in parts :: '/' !in part
    ensures Split(("#/" + Join(parts))[2..]) == parts
  {
    assert ("#/" + Join(parts))[2..] == Join(parts);
    JoinSplit(parts);
  }

  lemma ComponentPath(kind: string, name: string)
    requires '/' !in kind && '/' !in name
    ensures var pointer := "#/components/" + kind + "/" + name;
            HasPrefix(pointer, "#/") && HasPrefix(pointer, "#/components/")
            && Split(pointer[2..]) == ["components", kind, name]
  {
    var parts := ["components", kind, name];
    assert parts[1..] == [kind, name] && parts[1..][1..] == [name];
    assert Join([name]) == name && Join([kind, name]) == kind + ['/'] + name;
    assert Join(parts) == "components" + ['/'] + (kind + ['/'] + name);
    assert "#/" + Join(parts) == "#/components/" + kind + "/" + name;
    PathOf(parts);
  }

  lemma DefinitionPath(name: string)
    requires '/' !in name
    ensures var pointer := "#/$defs/" + name;
            HasPrefix(pointer, "#/") && !HasPrefix(pointer, "#/components/") && Split(pointer[2..]) == ["$defs", name]
  {
    var parts := ["$defs", name];
    var pointer := "#/$defs/" + name;
    assert parts[1..] == [name] && Join([name]) == name;
    assert Join(parts) == "$defs" + ['/'] + name;
    assert "#/" + Join(parts) == pointer;
    PathOf(parts);
    assert pointer[2] == '$' && "#/components/"[2] == 'c';
  }

  lemma Lookup2(v: Json, a: string, b: string)
    ensures Lookup(v, [a, b]) == if v.Obj? && a in v.fields then Lookup(v.fields[a], [b]) else None
    ensures Lookup(v, [b]) == if v.Obj? && b in v.fields then Some(v.fields[b]) else None
  {
    assert [a, b][1..] == [b] && [b][1..] == [];
  }

  lemma Lookup3(v: Json, a: string, b: string, c: string)
    ensures Lookup(v, [a, b, c]) == if v.Obj? && a in v.fields then Lookup(v.fields[a], [b, c]) else None
  {
    assert [a, b, c][1..] == [b, c];
  }

  lemma ComponentLookup(document: Json, kind: string, name: string)
    ensures forall v :: IsComponent(document, kind, name, v) <==> Lookup(document, ["components", kind, name]) == Some(v)
  {
    hide Lookup;
    Lookup3(document, "components", kind, name);
    if document.Obj? && "components" in document.fields {
      var components := document.fields["components"];
      Lookup2(components, kind, name);
      if components.Obj? && kind in components.fields {
        Lookup2(components.fields[kind], kind, name);
      }
    }
  }

  /** A reference to a component, read in any scope or none, is replaced by the component, inlined with itself as the
      scope if it is an object; without such a component it is an error. */
  lemma ComponentReference(kind: string, name: string, document: Json, scope: Scope, depth: nat)
    requires '/' !in kind && '/' !in name
    ensures forall v | IsComponent(document, kind, name, v) ::
      Inline(Reference("#/components/" + kind + "/" + name), document, scope, depth + 1) ==
      Inline(v, document, if v.Obj? then Within(v) else scope, depth)
    ensures (forall v :: !IsComponent(document, kind, name, v)) ==>
      Inline(Reference("#/components/" + kind + "/" + name), document, scope, depth + 1) == None
  {
    hide Split, Lookup, HasPrefix;
    ComponentPath(kind, name);
    ComponentLookup(document, kind, name);
    var r := Reference("#/components/" + kind + "/" + name);
    assert ExactRef(r) && r.fields["$ref"].chars == "#/components/" + kind + "/" + name;
    hide IsComponent;
    assert Inline(r, document, scope, depth + 1) == InlineTarget(r, document, scope, depth + 1);
  }

  /** A reference to a definition of the scope is replaced by the definition, inlined in that scope. */
  lemma DefinitionReference(name: string, root: Json, v: Json, document: Json, depth: nat)
    requires '/' !in name && root.Obj? && "$defs" in root.fields && Member(root.fields["$defs"], name, v)
    ensures Inline(Reference("#/$defs/" + name), document, Within(root), depth + 1) ==
            Inline(v, document, Within(root), depth)
  {
    hide Split, Lookup, HasPrefix;
    DefinitionPath(name);
    Lookup2(root, "$defs", name);
    Lookup2(root.fields["$defs"], "$defs", name);
    var r := Reference("#/$defs/" + name);
    assert ExactRef(r) && r.fields["$ref"].chars == "#/$defs/" + name;
    assert Inline(r, document, Within(root), depth + 1) == InlineTarget(r, document, Within(root), depth + 1);
  }

  /** A reference is an error if it is no pointer, or names no component where there is no scope. */
  lemma BadReference(pointer: string, document: Json, scope: Scope, depth: nat)
    requires (|pointer| < 2 || pointer[..2] != "#/")
             || (scope.NoScope? && (|pointer| < 13 || pointer[..13] != "#/components/"))
    ensures Inline(Reference(pointer), document, scope, depth) == None
  {
    var r := Reference(pointer);
    assert ExactRef(r) && r.fields["$ref"].chars == pointer;
  }

  /** Everything else is inlined part by part: an array in its own scope, an object in itself if it has definitions. */
  lemma InlineParts(v: Json, document: Json, scope: Scope, depth: nat)
    ensures v.Null? || v.Bool? || v.Num? || v.Str? ==> Inline(v, document, scope, depth) == Some(v)
    ensures v.Arr? ==>
      var w := Inline(v, document, scope, depth);
      && (w.Some? <==> forall i | 0 <= i < |v.items| :: Inline(v.items[i], document, scope, depth).Some?)
      && (w.Some? ==> w.value.Arr? && |w.value.items| == |v.items|
                      && forall i | 0 <= i < |v.items| :: Inline(v.items[i], document, scope, depth) == Some(w.value.items[i]))
    ensures v.Obj? && !(v.fields.Keys == {"$ref"} && v.fields["$ref"].Str?) ==>
      var w := Inline(v, document, scope, depth);
      var inner := if "$defs" in v.fields then Within(v) else scope;
      && (w.Some? <==> forall k | k in v.fields :: Inline(v.fields[k], document, inner, depth).Some?)
      && (w.Some? ==> w.value.Obj? && w.value.fields.Keys == v.fields.Keys
                      && forall k | k in v.fields :: Inline(v.fields[k], document, inner, depth) == Some(w.value.fields[k]))
  {
  }

  // ---- When it terminates ----------------------------------------------------------------------

  /** The reference occurs in `v`, not looking behind other references. */
  ghost predicate Occurs(r: Ref, v: Json, scope: Scope)
    decreases v
  {
    match v
    case Arr(items) => exists i | 0 <= i < |items| :: Occurs(r, items[i], scope)
    case Obj(fields) =>
      if ExactRef(v) then r == RefAt(v, scope)
      else exists k | k in fields :: Occurs(r, fields[k], ScopeAt(v, scope))
    case _ => false
  }

  /** References met one behind the other, the first of them in `v`. */
  ghost predicate Chain(document: Json, v: Json, scope: Scope, p: seq<Ref>)
    decreases |p|
  {
    p == [] ||
    (Occurs(p[0], v, scope) &&
     (|p| > 1 ==> Target(document, p[0]).Some?
                  && Chain(document, Target(document, p[0]).value.value, Target(document, p[0]).value.scope, p[1..])))
  }

  ghost predicate AllResolve(document: Json, v: Json, scope: Scope) {
    forall p | p != [] && Chain(document, v, scope, p) :: Target(document, p[|p| - 1]).Some?
  }

  ghost predicate Distinct(p: seq<Ref>) {
    forall i, j | 0 <= i < j < |p| :: p[i] != p[j]
  }

  /** No reference is met again behind itself. */
  ghost predicate Acyclic(document: Json, v: Json, scope: Scope) {
    forall p | Chain(document, v, scope, p) :: Distinct(p)
  }

  lemma {:induction false} OccursInlines(r: Ref, v: Json, document: Json, scope: Scope, depth: nat)
    requires Occurs(r, v, scope) && Inline(v, document, scope, depth).Some?
    ensures depth > 0 && Target(document, r).Some?
    ensures var t := Target(document, r).value; Inline(t.value, document, t.scope, depth - 1).Some?
    decreases v
  {
    match v {
      case Arr(items) =>
        var i :| 0 <= i < |items| && Occurs(r, items[i], scope);
        OccursInlines(r, items[i], document, scope, depth);
      case Obj(fields) =>
        if !ExactRef(v) {
          var k :| k in fields && Occurs(r, fields[k], ScopeAt(v, scope));
          OccursInlines(r, fields[k], document, ScopeAt(v, scope), depth);
        }
      case _ =>
    }
  }

  lemma {:induction false} ChainInlines(v: Json, document: Json, scope: Scope, depth: nat, p: seq<Ref>, n: nat)
    requires 0 < n <= |p| && Chain(document, v, scope, p) && Inline(v, document, scope, depth).Some?
    ensures n <= depth && Target(document, p[n - 1]).Some?
    ensures var t := Target(document, p[n - 1]).value; Inline(t.value, document, t.scope, depth - n).Some?
    decreases n
  {
    OccursInlines(p[0], v, document, scope, depth);
    if n > 1 {
      var t := Target(document, p[0]).value;
      ChainInlines(t.value, document, t.scope, depth - 1, p[1..], n - 1);
    }
  }

  lemma {:induction false} NoWayBack(document: Json, r: Ref, depth: nat, q: seq<Ref>)
    requires Target(document, r).Some? && q != [] && q[|q| - 1] == r
    requires var t := Target(document, r).value;
      Chain(document, t.value, t.scope, q) && Inline(t.value, document, t.scope, depth).Some?
    ensures false
    decreases depth
  {
    var t := Target(document, r).value;
    ChainInlines(t.value, document, t.scope, depth, q, |q|);
    NoWayBack(document, r, depth - |q|, q);
  }

  lemma {:induction false} ChainSplit(document: Json, v: Json, scope: Scope, p: seq<Ref>, n: nat)
    requires Chain(document, v, scope, p) && 0 < n < |p|
    ensures Target(document, p[n - 1]).Some?
    ensures var t := Target(document, p[n - 1]).value; Chain(document, t.value, t.scope, p[n..])
    decreases n
  {
    var t := Target(document, p[0]).value;
    if n > 1 {
      ChainSplit(document, t.value, t.scope, p[1..], n - 1);
      assert p[1..][n - 1..] == p[n..];
    }
  }

  lemma {:induction false} ChainPrefix(document: Json, v: Json, scope: Scope, p: seq<Ref>, n: nat)
    requires Chain(document, v, scope, p) && n <= |p|
    ensures Chain(document, v, scope, p[..n])
    decreases n
  {
    if n > 1 {
      var t := Target(document, p[0]).value;
      ChainPrefix(document, t.value, t.scope, p[1..], n - 1);
      assert p[1..][..n - 1] == p[..n][1..];
    }
  }

  lemma InlinedChainDistinct(v: Json, document: Json, scope: Scope, depth: nat, p: seq<Ref>, i: nat, j: nat)
    requires Inline(v, document, scope, depth).Some? && Chain(document, v, scope, p) && i < j < |p|
    ensures p[i] != p[j]
  {
    hide Inline, Chain, Target;
    var r, q := p[i], p[i + 1..];
    ChainSplit(document, v, scope, p, i + 1);
    ChainInlines(v, document, scope, depth, p, i + 1);
    assert q[j - i - 1] == p[j] && |q| == |p| - (i + 1);
    SuffixDistinct(document, r, depth - (i + 1), q, j - i);
  }

  lemma SuffixDistinct(document: Json, r: Ref, depth: nat, q: seq<Ref>, n: nat)
    requires Target(document, r).Some? && 0 < n <= |q|
    requires var t := Target(document, r).value;
      Chain(document, t.value, t.scope, q) && Inline(t.value, document, t.scope, depth).Some?
    ensures q[n - 1] != r
  {
    var t := Target(document, r).value;
    ChainPrefix(document, t.value, t.scope, q, n);
    if q[n - 1] == r {
      NoWayBack(document, r, depth, q[..n]);
    }
  }

  lemma InliningNeedsAcyclic(v: Json, document: Json, scope: Scope, depth: nat)
    requires Inline(v, document, scope, depth).Some?
    ensures AllResolve(document, v, scope) && Acyclic(document, v, scope)
  {
    forall p | p != [] && Chain(document, v, scope, p)
      ensures Target(document, p[|p| - 1]).Some?
    {
      ChainInlines(v, document, scope, depth, p, |p|);
    }
    forall p, i, j | Chain(document, v, scope, p) && 0 <= i < j < |p|
      ensures p[i] != p[j]
    {
      InlinedChainDistinct(v, document, scope, depth, p, i, j);
    }
  }

  // ---- The references that can ever be met are finitely many ------------------------------------

  ghost function Subterms(v: Json): set<Json>
    decreases v
  {
    match v
    case Arr(items) => {v} + set i, x | 0 <= i < |items| && x in Subterms(items[i]) :: x
    case Obj(fields) => {v} + set k, x | k in fields && x in Subterms(fields[k]) :: x
    case _ => {v}
  }

  ghost predicate Closed(u: set<Json>) {
    && (forall v, x | v in u && v.Arr? && x in v.items :: x in u)
    && (forall v, k | v in u && v.Obj? && k in v.fields :: v.fields[k] in u)
  }

  lemma {:induction false} SubtermsClosed(v: Json)
    ensures v in Subterms(v) && Closed(Subterms(v))
    decreases v
  {
    match v {
      case Arr(items) =>
        forall x | x in items
          ensures x in Subterms(x) && Closed(Subterms(x)) && Subterms(x) <= Subterms(v)
        {
          SubtermsClosed(x);
        }
      case Obj(fields) =>
        forall k | k in fields
          ensures fields[k] in Subterms(fields[k]) && Closed(Subterms(fields[k])) && Subterms(fields[k]) <= Subterms(v)
        {
          SubtermsClosed(fields[k]);
        }
      case _ =>
    }
  }

  ghost function RefsOver(u: set<Json>): set<Ref> {
    (set v | v in u && ExactRef(v) :: RefAt(v, NoScope)) +
    (set v, w | v in u && w in u && ExactRef(v) :: RefAt(v, Within(w)))
  }

  ghost predicate ScopeIn(scope: Scope, u: set<Json>) {
    scope.Within? ==> scope.root in u
  }

  lemma {:induction false} OccursOver(r: Ref, v: Json, scope: Scope, u: set<Json>)
    requires Closed(u) && v in u && ScopeIn(scope, u) && Occurs(r, v, scope)
    ensures r in RefsOver(u) && ScopeIn(r.scope, u)
    decreases v
  {
    match v {
      case Arr(items) =>
        var i :| 0 <= i < |items| && Occurs(r, items[i], scope);
        OccursOver(r, items[i], scope, u);
      case Obj(fields) =>
        if !ExactRef(v) {
          var k :| k in fields && Occurs(r, fields[k], ScopeAt(v, scope));
          OccursOver(r, fields[k], ScopeAt(v, scope), u);
        }
      case _ =>
    }
  }

  lemma {:induction false} LookupOver(v: Json, path: seq<string>, u: set<Json>)
    requires Closed(u) && v in u && Lookup(v, path).Some?
    ensures Lookup(v, path).value in u
    decreases |path|
  {
    if path != [] {
      LookupOver(v.fields[path[0]], path[1..], u);
    }
  }

  lemma TargetOver(document: Json, r: Ref, u: set<Json>)
    requires Closed(u) && document in u && ScopeIn(r.scope, u) && Target(document, r).Some?
    ensures Target(document, r).value.value in u && ScopeIn(Target(document, r).value.scope, u)
  {
    var component := HasPrefix(r.pointer, "#/components/");
    LookupOver(if component then document else r.scope.root, Split(r.pointer[2..]), u);
  }

  lemma {:induction false} ChainOver(document: Json, v: Json, scope: Scope, p: seq<Ref>, u: set<Json>)
    requires Closed(u) && document in u && v in u && ScopeIn(scope, u) && Chain(document, v, scope, p)
    ensures forall r | r in p :: r in RefsOver(u)
    decreases |p|
  {
    if p != [] {
      OccursOver(p[0], v, scope, u);
      if |p| > 1 {
        TargetOver(document, p[0], u);
        var t := Target(document, p[0]).value;
        ChainOver(document, t.value, t.scope, p[1..], u);
      }
    }
  }

  lemma {:induction false} DistinctBounded(p: seq<Ref>, s: set<Ref>)
    requires Distinct(p) && forall r | r in p :: r in s
    ensures |p| <= |s|
    decreases |p|
  {
    if p != [] {
      DistinctBounded(p[1..], s - {p[0]});
    }
  }

  /** Every chain from `v` is at most `n` long and resolves to its end. */
  ghost predicate Shallow(document: Json, v: Json, scope: Scope, n: nat) {
    forall p | Chain(document, v, scope, p) :: |p| <= n && (p != [] ==> Target(document, p[|p| - 1]).Some?)
  }

  lemma ItemChain(document: Json, v: Json, scope: Scope, i: nat, p: seq<Ref>)
    requires v.Arr? && i < |v.items| && Chain(document, v.items[i], scope, p)
    ensures Chain(document, v, scope, p)
  {
    assert p != [] ==> Occurs(p[0], v, scope);
  }

  lemma FieldChain(document: Json, v: Json, scope: Scope, k: string, p: seq<Ref>)
    requires v.Obj? && !ExactRef(v) && k in v.fields && Chain(document, v.fields[k], ScopeAt(v, scope), p)
    ensures Chain(document, v, scope, p)
  {
    assert p != [] ==> Occurs(p[0], v, scope);
  }

  lemma TargetChain(document: Json, v: Json, scope: Scope, q: seq<Ref>) returns (p: seq<Ref>)
    requires ExactRef(v) && Target(document, RefAt(v, scope)).Some?
    requires var t := Target(document, RefAt(v, scope)).value; Chain(document, t.value, t.scope, q)
    ensures p == [RefAt(v, scope)] + q && Chain(document, v, scope, p)
    ensures q != [] ==> p[|p| - 1] == q[|q| - 1]
  {
    p := [RefAt(v, scope)] + q;
    assert p[1..] == q;
  }

  lemma ShallowItem(document: Json, v: Json, scope: Scope, n: nat, i: nat)
    requires v.Arr? && i < |v.items| && Shallow(document, v, scope, n)
    ensures Shallow(document, v.items[i], scope, n)
  {
    forall p | Chain(document, v.items[i], scope, p)
      ensures Chain(document, v, scope, p)
    {
      ItemChain(document, v, scope, i, p);
    }
  }

  lemma ShallowField(document: Json, v: Json, scope: Scope, n: nat, k: string)
    requires v.Obj? && !ExactRef(v) && k in v.fields && Shallow(document, v, scope, n)
    ensures Shallow(document, v.fields[k], ScopeAt(v, scope), n)
  {
    forall p | Chain(document, v.fields[k], ScopeAt(v, scope), p)
      ensures Chain(document, v, scope, p)
    {
      FieldChain(document, v, scope, k, p);
    }
  }

  lemma ShallowTarget(document: Json, v: Json, scope: Scope, n: nat) returns (t: Site)
    requires ExactRef(v) && Shallow(document, v, scope, n)
    ensures n > 0 && Target(document, RefAt(v, scope)) == Some(t)
    ensures Shallow(document, t.value, t.scope, n - 1)
  {
    assert Chain(document, v, scope, [RefAt(v, scope)]);
    t := Target(document, RefAt(v, scope)).value;
    forall q | Chain(document, t.value, t.scope, q)
      ensures |q| <= n - 1 && (q != [] ==> Target(document, q[|q| - 1]).Some?)
    {
      var p := TargetChain(document, v, scope, q);
    }
  }

  /** Measure: the bound on chains, then the size of the value. */
  lemma {:induction false} ShallowInlines(document: Json, v: Json, scope: Scope, n: nat)
    requires Shallow(document, v, scope, n)
    ensures Inline(v, document, scope, n).Some?
    decreases n, v, 1
  {
    if v.Arr? {
      ShallowItems(document, v, scope, n);
    } else if ExactRef(v) {
      ShallowRef(document, v, scope, n);
    } else if v.Obj? {
      ShallowFields(document, v, scope, n);
    }
  }

  lemma {:induction false} ShallowRef(document: Json, v: Json, scope: Scope, n: nat)
    requires ExactRef(v) && Shallow(document, v, scope, n)
    ensures InlineTarget(v, document, scope, n).Some?
    decreases n, v, 0
  {
    hide Chain, Occurs;
    var t := ShallowTarget(document, v, scope, n);
    ShallowInlines(document, t.value, t.scope, n - 1);
  }

  lemma {:induction false} ShallowItems(document: Json, v: Json, scope: Scope, n: nat)
    requires v.Arr? && Shallow(document, v, scope, n)
    ensures InlineItems(v, document, scope, n).Some?
    decreases n, v, 0
  {
    forall i | 0 <= i < |v.items|
      ensures Inline(v.items[i], document, scope, n).Some?
    {
      ShallowItem(document, v, scope, n, i);
      ShallowInlines(document, v.items[i], scope, n);
    }
  }

  lemma {:induction false} ShallowFields(document: Json, v: Json, scope: Scope, n: nat)
    requires v.Obj? && !ExactRef(v) && Shallow(document, v, scope, n)
    ensures InlineFields(v, document, ScopeAt(v, scope), n).Some?
    decreases n, v, 0
  {
    forall k | k in v.fields
      ensures Inline(v.fields[k], document, ScopeAt(v, scope), n).Some?
    {
      ShallowField(document, v, scope, n, k);
      ShallowInlines(document, v.fields[k], ScopeAt(v, scope), n);
    }
  }

  lemma AcyclicShallow(document: Json, v: Json, scope: Scope) returns (n: nat)
    requires AllResolve(document, v, scope) && Acyclic(document, v, scope)
    ensures Shallow(document, v, scope, n)
  {
    var u := Subterms(v) + Subterms(document) + if scope.Within? then Subterms(scope.root) else {};
    SubtermsClosed(v);
    SubtermsClosed(document);
    if scope.Within? {
      SubtermsClosed(scope.root);
    }
    n := |RefsOver(u)|;
    forall p | Chain(document, v, scope, p)
      ensures |p| <= n
    {
      ChainOver(document, v, scope, p, u);
      DistinctBounded(p, RefsOver(u));
    }
  }

  /** Inlining comes to an end without an error exactly when every reference that can be met resolves and none
      is met again behind itself. */
  lemma InliningTerminates(v: Json, document: Json, scope: Scope)
    ensures (exists depth :: Inline(v, document, scope, depth).Some?)
       <==> AllResolve(document, v, scope) && Acyclic(document, v, scope)
  {
    if depth :| Inline(v, document, scope, depth).Some? {
      InliningNeedsAcyclic(v, document, scope, depth);
    }
    if AllResolve(document, v, scope) && Acyclic(document, v, scope) {
      var n := AcyclicShallow(document, v, scope);
      ShallowInlines(document, v, scope, n);
    }
  }

  /** The depth allowed does not influence the result. */
  lemma {:induction false} DepthIrrelevant(v: Json, document: Json, scope: Scope, d: nat, e: nat)
    requires Inline(v, document, scope, d).Some? && d <= e
    ensures Inline(v, document, scope, e) == Inline(v, document, scope, d)
    decreases d, v, 1
  {
    if v.Arr? {
      DepthItems(v, document, scope, d, e);
    } else if ExactRef(v) {
      var t := Target(document, RefAt(v, scope)).value;
      DepthIrrelevant(t.value, document, t.scope, d - 1, e - 1);
    } else if v.Obj? {
      DepthFields(v, document, ScopeAt(v, scope), d, e);
    }
  }

  lemma {:induction false} DepthItems(v: Json, document: Json, scope: Scope, d: nat, e: nat)
    requires v.Arr? && InlineItems(v, document, scope, d).Some? && d <= e
    ensures InlineItems(v, document, scope, e) == InlineItems(v, document, scope, d)
    decreases d, v, 0
  {
    forall i | 0 <= i < |v.items|
      ensures Inline(v.items[i], document, scope, e) == Inline(v.items[i], document, scope, d)
    {
      DepthIrrelevant(v.items[i], document, scope, d, e);
    }
    assert InlineItems(v, document, scope, e).value.items == InlineItems(v, document, scope, d).value.items;
  }

  lemma {:induction false} DepthFields(v: Json, document: Json, scope: Scope, d: nat, e: nat)
    requires v.Obj? && InlineFields(v, document, scope, d).Some? && d <= e
    ensures InlineFields(v, document, scope, e) == InlineFields(v, document, scope, d)
    decreases d, v, 0
  {
    forall k | k in v.fields
      ensures Inline(v.fields[k], document, scope, e) == Inline(v.fields[k], document, scope, d)
    {
      DepthIrrelevant(v.fields[k], document, scope, d, e);
    }
    assert InlineFields(v, document, scope, e).value.fields == InlineFields(v, document, scope, d).value.fields;
  }

  // ---- What is left over -----------------------------------------------------------------------

  predicate HasExactRef(v: Json)
    decreases v
  {
    match v
    case Arr(items) => exists i | 0 <= i < |items| :: HasExactRef(items[i])
    case Obj(fields) => ExactRef(v) || exists k | k in fields :: HasExactRef(fields[k])
    case _ => false
  }

  /** A value that, references followed, is a string. */
  ghost predicate EndsInString(v: Json, document: Json, scope: Scope, depth: nat)
    decreases depth
  {
    v.Str? ||
    (ExactRef(v) && depth > 0 && Target(document, RefAt(v, scope)).Some? &&
     var t := Target(document, RefAt(v, scope)).value; EndsInString(t.value, document, t.scope, depth - 1))
  }

  /** Somewhere, references followed, there is an object whose only member is a `$ref` that is not a string
      but a reference ending in one. */
  ghost predicate StringSlot(v: Json, document: Json, scope: Scope, depth: nat)
    decreases depth, v
  {
    if v.Arr? then exists i | 0 <= i < |v.items| :: StringSlot(v.items[i], document, scope, depth)
    else if !v.Obj? then false
    else if ExactRef(v) then
      depth > 0 && Target(document, RefAt(v, scope)).Some? &&
      var t := Target(document, RefAt(v, scope)).value; StringSlot(t.value, document, t.scope, depth - 1)
    else
      || (v.fields.Keys == {"$ref"} && EndsInString(v.fields["$ref"], document, scope, depth))
      || exists k | k in v.fields :: StringSlot(v.fields[k], document, ScopeAt(v, scope), depth)
  }

  lemma {:induction false} InlineString(v: Json, document: Json, scope: Scope, depth: nat)
    requires Inline(v, document, scope, depth).Some?
    ensures Inline(v, document, scope, depth).value.Str? <==> EndsInString(v, document, scope, depth)
    decreases depth
  {
    if ExactRef(v) {
      var t := Target(document, RefAt(v, scope)).value;
      InlineString(t.value, document, t.scope, depth - 1);
    }
  }

  /** The result contains an exact reference exactly when a non-string `$ref` member turned into a string. */
  lemma {:induction false} InlineLeavesNoRef(v: Json, document: Json, scope: Scope, depth: nat)
    requires Inline(v, document, scope, depth).Some?
    ensures HasExactRef(Inline(v, document, scope, depth).value) <==> StringSlot(v, document, scope, depth)
    decreases depth, v, 1
  {
    if v.Arr? {
      LeavesItems(v, document, scope, depth);
    } else if ExactRef(v) {
      var t := Target(document, RefAt(v, scope)).value;
      InlineLeavesNoRef(t.value, document, t.scope, depth - 1);
    } else if v.Obj? {
      LeavesFields(v, document, scope, depth);
    }
  }

  lemma {:induction false} LeavesItems(v: Json, document: Json, scope: Scope, depth: nat)
    requires v.Arr? && InlineItems(v, document, scope, depth).Some?
    ensures HasExactRef(InlineItems(v, document, scope, depth).value) <==> StringSlot(v, document, scope, depth)
    decreases depth, v, 0
  {
    var w := InlineItems(v, document, scope, depth).value;
    forall i | 0 <= i < |v.items|
      ensures HasExactRef(w.items[i]) <==> StringSlot(v.items[i], document, scope, depth)
    {
      InlineLeavesNoRef(v.items[i], document, scope, depth);
    }
  }

  lemma {:induction false} LeavesFields(v: Json, document: Json, scope: Scope, depth: nat)
    requires v.Obj? && !ExactRef(v) && InlineFields(v, document, ScopeAt(v, scope), depth).Some?
    ensures HasExactRef(InlineFields(v, document, ScopeAt(v, scope), depth).value) <==> StringSlot(v, document, scope, depth)
    decreases depth, v, 0
  {
    var inner := ScopeAt(v, scope);
    var w := InlineFields(v, document, inner, depth).value;
    forall k | k in v.fields
      ensures HasExactRef(w.fields[k]) <==> StringSlot(v.fields[k], document, inner, depth)
    {
      InlineLeavesNoRef(v.fields[k], document, inner, depth);
    }
    assert w.fields.Keys == v.fields.Keys;
    if v.fields.Keys == {"$ref"} {
      InlineString(v.fields["$ref"], document, inner, depth);
    }
  }

  /** No reference that can be met leads to a bare string. */
  ghost predicate NoStringTarget(document: Json, v: Json, scope: Scope) {
    forall p | p != [] && Chain(document, v, scope, p) ::
      Target(document, p[|p| - 1]).Some? ==> !Target(document, p[|p| - 1]).value.value.Str?
  }

  lemma {:induction false} StringEndIsTarget(v: Json, document: Json, scope: Scope, depth: nat) returns (p: seq<Ref>)
    requires ExactRef(v) && EndsInString(v, document, scope, depth)
    ensures p != [] && Chain(document, v, scope, p)
    ensures Target(document, p[|p| - 1]).Some? && Target(document, p[|p| - 1]).value.value.Str?
    decreases depth
  {
    var r := RefAt(v, scope);
    var t := Target(document, r).value;
    p := [r];
    if !t.value.Str? {
      var q := StringEndIsTarget(t.value, document, t.scope, depth - 1);
      p := TargetChain(document, v, scope, q);
    }
  }

  lemma {:induction false} SlotIsTarget(v: Json, document: Json, scope: Scope, depth: nat) returns (p: seq<Ref>)
    requires StringSlot(v, document, scope, depth)
    ensures p != [] && Chain(document, v, scope, p)
    ensures Target(document, p[|p| - 1]).Some? && Target(document, p[|p| - 1]).value.value.Str?
    decreases depth, v, 1
  {
    if v.Arr? {
      var i :| 0 <= i < |v.items| && StringSlot(v.items[i], document, scope, depth);
      p := SlotIsTarget(v.items[i], document, scope, depth);
      ItemChain(document, v, scope, i, p);
    } else if ExactRef(v) {
      var t := Target(document, RefAt(v, scope)).value;
      var q := SlotIsTarget(t.value, document, t.scope, depth - 1);
      p := TargetChain(document, v, scope, q);
    } else {
      p := FieldSlotIsTarget(v, document, scope, depth);
    }
  }

  lemma {:induction false} FieldSlotIsTarget(v: Json, document: Json, scope: Scope, depth: nat) returns (p: seq<Ref>)
    requires v.Obj? && !ExactRef(v) && StringSlot(v, document, scope, depth)
    ensures p != [] && Chain(document, v, scope, p)
    ensures Target(document, p[|p| - 1]).Some? && Target(document, p[|p| - 1]).value.value.Str?
    decreases depth, v, 0
  {
    var inner := ScopeAt(v, scope);
    if k :| k in v.fields && StringSlot(v.fields[k], document, inner, depth) {
      p := SlotIsTarget(v.fields[k], document, inner, depth);
      FieldChain(document, v, scope, k, p);
    } else {
      p := StringEndIsTarget(v.fields["$ref"], document, scope, depth);
      FieldChain(document, v, scope, "$ref", p);
    }
  }

  /** When no reference leads to a bare string, nothing that is exactly a reference is left. */
  lemma InlinedIsRefFree(v: Json, document: Json, scope: Scope, depth: nat)
    requires NoStringTarget(document, v, scope) && Inline(v, document, scope, depth).Some?
    ensures !HasExactRef(Inline(v, document, scope, depth).value)
  {
    InlineLeavesNoRef(v, document, scope, depth);
    if StringSlot(v, document, scope, depth) {
      var p := SlotIsTarget(v, document, scope, depth);
      assert false;
    }
  }

  /** Inside an object whose member `s` is a bare string, an exact reference can be manufactured. */
  lemma RefCanBeManufactured(document: Json) returns (root: Json, v: Json)
    ensures !ExactRef(v) && Inline(v, document, Within(root), 1).Some?
    ensures ExactRef(Inline(v, document, Within(root), 1).value)
  {
    root := Obj(map["$defs" := Null, "s" := Str("#/s")]);
    var inner := Obj(map["$ref" := Str("#/s")]);
    v := Obj(map["$ref" := inner]);
    assert "#/s"[2..] == "s" && "s"[1..] == "" && Split("") == [""];
    assert ['s'] + "" == "s" && [""][1..] == [];
    assert Split("s") == ["s"] + [] == ["s"];
    assert Lookup(root, ["s"]) == Lookup(root.fields["s"], []);
    assert Target(document, RefAt(inner, Within(root))) == Some(Site(Str("#/s"), Within(root)));
    assert Inline(inner, document, Within(root), 1) == Some(Str("#/s"));
    assert ScopeAt(v, Within(root)) == Within(root);
  }
}
