/** The Python client generator's ordering of component schemas: a depth-first post-order over the
    reference graph, which may be cyclic. */
module SchemaSort {
  import opened Wrappers
  import Sorting

  datatype Schema = Schema(ref: string, properties: map<string, Schema>, items: Option<Schema>, additional: Option<Schema>)

  const PREFIX := "#/components/schemas/"

  function TrimPrefix(s: string): string {
    if PREFIX <= s then s[|PREFIX|..] else s
  }

  // ----- what a schema refers to -----

  /** One step into a schema. */
  datatype Step = Property(name: string) | Items | Additional

  /** The schema at a position inside another, if there is one. */
  function SchemaAt(s: Schema, path: seq<Step>): Option<Schema> {
    if path == [] then Some(s)
    else
      match path[0]
      case Property(name) => if name in s.properties then SchemaAt(s.properties[name], path[1..]) else None
      case Items => if s.items.Some? then SchemaAt(s.items.value, path[1..]) else None
      case Additional => if s.additional.Some? then SchemaAt(s.additional.value, path[1..]) else None
  }

  /** A reference names a component by its name behind the prefix, or, without the prefix, by itself. */
  predicate RefNames(ref: string, name: string) {
    ref != "" && (ref == "#/components/schemas/" + name || (ref == name && !("#/components/schemas/" <= ref)))
  }

  predicate RefersAt(s: Schema, path: seq<Step>, name: string) {
    SchemaAt(s, path).Some? && RefNames(SchemaAt(s, path).value.ref, name)
  }

  /** Somewhere inside the schema there is a reference to the name. */
  ghost predicate RefersTo(s: Schema, name: string) {
    exists path :: RefersAt(s, path, name)
  }

  /** The names a schema refers to, collected. */
  function DirectDeps(s: Schema): set<string>
    decreases s, 1
  {
    (if s.ref != "" then {TrimPrefix(s.ref)} else {})
    + PropertyDeps(s, s.properties.Keys)
    + (if s.items.Some? then DirectDeps(s.items.value) else {})
    + (if s.additional.Some? then DirectDeps(s.additional.value) else {})
  }

  function PropertyDeps(s: Schema, keys: set<string>): set<string>
    requires keys <= s.properties.Keys
    decreases s, 0
  {
    set k, d | k in keys && d in DirectDeps(s.properties[k]) :: d
  }

  lemma TrimPrefixIff(ref: string, name: string)
    requires ref != ""
    ensures TrimPrefix(ref) == name <==> RefNames(ref, name)
  {
    if PREFIX <= ref {
      assert ref == PREFIX + ref[|PREFIX|..];
    }
  }

  lemma RefersInside(s: Schema, step: Step, inner: Schema, path: seq<Step>, name: string)
    requires SchemaAt(s, [step]) == Some(inner)
    ensures RefersAt(s, [step] + path, name) <==> RefersAt(inner, path, name)
  {
    assert [step][1..] == [] && ([step] + path)[1..] == path;
  }

  /** The collected names are exactly the ones referred to. */
  lemma DirectDepsIff(s: Schema, name: string)
    ensures name in DirectDeps(s) <==> RefersTo(s, name)
  {
    if name in DirectDeps(s) {
      DepIsReferred(s, name);
    }
    if path :| RefersAt(s, path, name) {
      ReferredIsDep(s, path, name);
    }
  }

  lemma {:induction false} DepIsReferred(s: Schema, name: string)
    requires name in DirectDeps(s)
    ensures RefersTo(s, name)
    decreases s
  {
    if s.ref != "" && TrimPrefix(s.ref) == name {
      TrimPrefixIff(s.ref, name);
      assert RefersAt(s, [], name);
    } else if k :| k in s.properties && name in DirectDeps(s.properties[k]) {
      DepIsReferred(s.properties[k], name);
      ReferredInside(s, Property(k), s.properties[k], name);
    } else if s.items.Some? && name in DirectDeps(s.items.value) {
      DepIsReferred(s.items.value, name);
      ReferredInside(s, Items, s.items.value, name);
    } else {
      DepIsReferred(s.additional.value, name);
      ReferredInside(s, Additional, s.additional.value, name);
    }
  }

  lemma ReferredInside(s: Schema, step: Step, inner: Schema, name: string)
    requires SchemaAt(s, [step]) == Some(inner) && RefersTo(inner, name)
    ensures RefersTo(s, name)
  {
    var path :| RefersAt(inner, path, name);
    RefersInside(s, step, inner, path, name);
  }

  lemma {:induction false} ReferredIsDep(s: Schema, path: seq<Step>, name: string)
    requires RefersAt(s, path, name)
    ensures name in DirectDeps(s)
    decreases |path|
  {
    if path == [] {
      TrimPrefixIff(s.ref, name);
    } else {
      match path[0]
      case Property(k) => ReferredIsDep(s.properties[k], path[1..], name);
      case Items => ReferredIsDep(s.items.value, path[1..], name);
      case Additional => ReferredIsDep(s.additional.value, path[1..], name);
    }
  }

  lemma PropertyDepsStep(s: Schema, done: set<string>, k: string)
    requires done <= s.properties.Keys && k in s.properties
    ensures PropertyDeps(s, done + {k}) == PropertyDeps(s, done) + DirectDeps(s.properties[k])
  {
  }

  method CollectDirectSchemaDeps(s: Schema, deps: set<string>) returns (all: set<string>)
    ensures all == deps + DirectDeps(s)
    ensures forall d :: d in all <==> d in deps || RefersTo(s, d)
    decreases s, 1
  {
    all := deps;
    if s.ref != "" {
      all := all + {TrimPrefix(s.ref)};
    }
    all := CollectProperties(s, all);
    if s.items.Some? {
      all := CollectDirectSchemaDeps(s.items.value, all);
    }
    if s.additional.Some? {
      all := CollectDirectSchemaDeps(s.additional.value, all);
    }
    forall d ensures d in DirectDeps(s) <==> RefersTo(s, d) { DirectDepsIff(s, d); }
  }

  /** The loop over a schema's properties, in whatever order the map yields them. */
  method CollectProperties(s: Schema, deps: set<string>) returns (all: set<string>)
    ensures all == deps + PropertyDeps(s, s.properties.Keys)
    decreases s, 0
  {
    all := deps;
    var todo: set<string> := s.properties.Keys;
    ghost var done: set<string> := {};
    while todo != {}
      invariant todo + done == s.properties.Keys && all == deps + PropertyDeps(s, done)
      decreases |todo|
    {
      var k :| k in todo;
      PropertyDepsStep(s, done, k);
      all := CollectDirectSchemaDeps(s.properties[k], all);
      assert all == deps + PropertyDeps(s, done + {k});
      todo, done := todo - {k}, done + {k};
    }
    assert done == s.properties.Keys;
  }

  // ----- the reference graph -----

  type Schemas = map<string, Schema>

  /** Schema `name` refers to another defined schema. */
  ghost predicate DependsOn(schemas: Schemas, name: string, dep: string) {
    name in schemas && dep in schemas && dep != name && RefersTo(schemas[name], dep)
  }

  ghost predicate IsPath(schemas: Schemas, p: seq<string>) {
    p != [] && forall i :: 0 <= i < |p| - 1 ==> DependsOn(schemas, p[i], p[i + 1])
  }

  ghost predicate PathBetween(schemas: Schemas, p: seq<string>, a: string, b: string) {
    IsPath(schemas, p) && p[0] == a && p[|p| - 1] == b
  }

  /** `a` depends on `b`, directly, through others, or by being `b`. */
  ghost predicate Reaches(schemas: Schemas, a: string, b: string) {
    exists p :: PathBetween(schemas, p, a, b)
  }

  ghost predicate Acyclic(schemas: Schemas) {
    forall a, b :: DependsOn(schemas, a, b) ==> !Reaches(schemas, b, a)
  }

  lemma ReachesSelf(schemas: Schemas, a: string)
    ensures Reaches(schemas, a, a)
  {
    assert PathBetween(schemas, [a], a, a);
  }

  lemma ReachesStep(schemas: Schemas, a: string, b: string, c: string)
    requires Reaches(schemas, a, b) && DependsOn(schemas, b, c)
    ensures Reaches(schemas, a, c)
  {
    var p :| PathBetween(schemas, p, a, b);
    assert PathBetween(schemas, p + [c], a, c);
  }

  lemma ReachesThrough(schemas: Schemas, a: string, b: string, c: string)
    requires Reaches(schemas, a, b) && Reaches(schemas, b, c)
    ensures Reaches(schemas, a, c)
  {
    var p :| PathBetween(schemas, p, a, b);
    var q :| PathBetween(schemas, q, b, c);
    var r := p + q[1..];
    forall i | 0 <= i < |r| - 1 ensures DependsOn(schemas, r[i], r[i + 1]) {
      if i >= |p| - 1 {
        assert r[i] == q[i - (|p| - 1)] && r[i + 1] == q[i + 1 - (|p| - 1)];
      }
    }
    assert PathBetween(schemas, r, a, c);
  }

  // ----- the order -----

  predicate NoDuplicates(s: seq<string>) {
    forall i, j :: 0 <= i < j < |s| ==> s[i] != s[j]
  }

  /** Every dependency of `name` comes before it in `before`, or is a cycle back to it. */
  ghost predicate DepsHandled(schemas: Schemas, before: seq<string>, name: string) {
    forall d :: DependsOn(schemas, name, d) ==> d in before || Reaches(schemas, d, name)
  }

  ghost predicate DepsFirst(schemas: Schemas, ordered: seq<string>) {
    forall i :: 0 <= i < |ordered| ==> DepsHandled(schemas, ordered[..i], ordered[i])
  }

  ghost predicate Topological(schemas: Schemas, ordered: seq<string>) {
    forall i :: 0 <= i < |ordered| ==> forall d :: DependsOn(schemas, ordered[i], d) ==> d in ordered[..i]
  }

  lemma OpenReachDep(schemas: Schemas, open: set<string>, name: string, dep: string)
    requires forall g :: g in open ==> Reaches(schemas, g, name)
    requires DependsOn(schemas, name, dep)
    ensures forall g :: g in open ==> Reaches(schemas, g, dep)
  {
    forall g | g in open ensures Reaches(schemas, g, dep) { ReachesStep(schemas, g, name, dep); }
  }

  lemma AppendKeepsOrder(schemas: Schemas, ordered: seq<string>, name: string)
    requires DepsFirst(schemas, ordered) && DepsHandled(schemas, ordered, name)
    ensures DepsFirst(schemas, ordered + [name])
  {
    var longer := ordered + [name];
    forall i | 0 <= i < |longer| ensures DepsHandled(schemas, longer[..i], longer[i]) {
      assert longer[..i] == ordered[..i];
      if i == |ordered| {
        assert ordered[..i] == ordered;
      }
    }
  }

  method DepNames(s: Schema, name: string) returns (depNames: seq<string>)
    ensures forall d :: d in depNames <==> RefersTo(s, d) && d != name
  {
    var deps := CollectDirectSchemaDeps(s, {});
    depNames := Sorting.SortedKeys(deps - {name});
    assert forall d :: d in depNames <==> d in multiset(depNames);
  }

  lemma ReachedThroughDep(schemas: Schemas, name: string, dep: string)
    requires DependsOn(schemas, name, dep)
    ensures forall x :: Reaches(schemas, dep, x) ==> Reaches(schemas, name, x)
  {
    ReachesSelf(schemas, name);
    ReachesStep(schemas, name, name, dep);
    forall x | Reaches(schemas, dep, x) ensures Reaches(schemas, name, x) { ReachesThrough(schemas, name, dep, x); }
  }

  /** A schema whose name is not after `bound` reaches `x`. */
  ghost predicate ReachedFrom(schemas: Schemas, bound: string, x: string) {
    exists root :: Sorting.LexLe(root, bound) && Reaches(schemas, root, x)
  }

  /** One of the names reaches `x`. */
  ghost predicate FromRoots(schemas: Schemas, names: seq<string>, x: string) {
    exists j :: 0 <= j < |names| && Reaches(schemas, names[j], x)
  }

  /** Every schema listed before `names[k]` is reached from a name that is not after it. */
  ghost predicate InNameOrder(schemas: Schemas, names: seq<string>, ordered: seq<string>, k: nat) {
    forall a, b :: 0 <= a < b < |ordered| && k < |names| && ordered[b] == names[k] ==>
      FromRoots(schemas, names[..k + 1], ordered[a])
  }

  lemma MoreRoots(schemas: Schemas, names: seq<string>, i: nat, x: string)
    requires i < |names| && (FromRoots(schemas, names[..i], x) || Reaches(schemas, names[i], x))
    ensures FromRoots(schemas, names[..i + 1], x)
  {
    if FromRoots(schemas, names[..i], x) {
      var j :| 0 <= j < i && Reaches(schemas, names[..i][j], x);
      assert names[..i + 1][j] == names[j];
    } else {
      assert names[..i + 1][i] == names[i];
    }
  }

  lemma NextRootOrdered(schemas: Schemas, names: seq<string>, before: seq<string>, after: seq<string>, i: nat, k: nat)
    requires i < |names| && before <= after && NoDuplicates(after) && k <= i
    requires k < i ==> InNameOrder(schemas, names, before, k) && names[k] in before
    requires forall x :: x in after ==> FromRoots(schemas, names[..i + 1], x)
    ensures InNameOrder(schemas, names, after, k)
  {
    forall a, b | 0 <= a < b < |after| && after[b] == names[k] ensures FromRoots(schemas, names[..k + 1], after[a]) {
      if k < i {
        var c :| 0 <= c < |before| && before[c] == names[k];
        assert after[c] == names[k] && b == c && after[a] == before[a];
      } else {
        assert after[a] in after;
      }
    }
  }

  class Sorter {
    const schemas: Schemas
    var visited: set<string>
    var ordered: seq<string>

    constructor (schemas: Schemas)
      ensures this.schemas == schemas && visited == {} && ordered == []
    {
      this.schemas, visited, ordered := schemas, {}, [];
    }

    /** The schemas whose visit has begun and not ended. */
    ghost function Open(): set<string>
      reads this
    {
      visited - set x | x in ordered
    }

    ghost predicate Valid()
      reads this
    {
      && visited <= schemas.Keys && NoDuplicates(ordered) && (forall x :: x in ordered ==> x in visited)
      && DepsFirst(schemas, ordered)
    }

    method Visit(name: string)
      requires Valid() && name in schemas
      requires forall g :: g in Open() ==> Reaches(schemas, g, name)
      modifies this
      ensures Valid() && old(ordered) <= ordered && old(visited) <= visited
      ensures Open() == old(Open()) && name in visited
      ensures forall x :: x in visited ==> x in old(visited) || Reaches(schemas, name, x)
      decreases schemas.Keys - visited, 0
    {
      if name in visited {
        return;
      }
      visited := visited + {name};
      assert Open() == old(Open()) + {name};
      ReachesSelf(schemas, name);
      var depNames := DepNames(schemas[name], name);
      VisitDeps(name, depNames);
      Finish(name);
    }

    /** A schema is listed once everything it depends on has been visited. */
    method Finish(name: string)
      requires Valid() && name in Open() && (forall d :: DependsOn(schemas, name, d) ==> d in visited)
      requires forall g :: g in Open() ==> Reaches(schemas, g, name)
      modifies this`ordered
      ensures Valid() && ordered == old(ordered) + [name] && Open() == old(Open()) - {name}
    {
      assert DepsHandled(schemas, ordered, name) by {
        assert forall d :: DependsOn(schemas, name, d) ==> d in ordered || d in Open();
      }
      AppendKeepsOrder(schemas, ordered, name);
      ordered := ordered + [name];
    }

    /** The loop of a visit over the names its schema refers to. */
    method VisitDeps(ghost name: string, depNames: seq<string>)
      requires Valid() && (forall d :: d in depNames && d in schemas ==> DependsOn(schemas, name, d))
      requires forall g :: g in Open() ==> Reaches(schemas, g, name)
      modifies this
      ensures Valid() && old(ordered) <= ordered && old(visited) <= visited
      ensures Open() == old(Open())
      ensures forall d :: d in depNames && d in schemas ==> d in visited
      ensures forall x :: x in visited ==> x in old(visited) || Reaches(schemas, name, x)
      decreases schemas.Keys - visited, 1
    {
      for i := 0 to |depNames|
        invariant Valid() && old(ordered) <= ordered && old(visited) <= visited
        invariant Open() == old(Open())
        invariant forall j :: 0 <= j < i && depNames[j] in schemas ==> depNames[j] in visited
        invariant forall x :: x in visited ==> x in old(visited) || Reaches(schemas, name, x)
      {
        if depNames[i] in schemas {
          OpenReachDep(schemas, Open(), name, depNames[i]);
          Visit(depNames[i]);
          ReachedThroughDep(schemas, name, depNames[i]);
        }
      }
    }

    /** The first `i` names have been visited. */
    ghost predicate VisitedRoots(names: seq<string>, i: nat)
      reads this
    {
      && i <= |names| && Valid() && Open() == {}
      && (forall n :: n in names[..i] ==> n in visited)
      && (forall x :: x in visited ==> FromRoots(schemas, names[..i], x))
      && (forall k: nat :: k < i ==> InNameOrder(schemas, names, ordered, k))
    }

    /** One round of the loop over all names. */
    method VisitRoot(names: seq<string>, i: nat)
      requires VisitedRoots(names, i) && i < |names| && names[i] in schemas
      modifies this
      ensures VisitedRoots(names, i + 1)
    {
      ghost var before := ordered;
      forall k: nat | k < i ensures names[k] in before {
        assert names[k] in names[..i] && names[k] !in Open();
      }
      Visit(names[i]);
      forall x | x in visited ensures FromRoots(schemas, names[..i + 1], x) { MoreRoots(schemas, names, i, x); }
      forall k: nat | k <= i ensures InNameOrder(schemas, names, ordered, k) {
        NextRootOrdered(schemas, names, before, ordered, i, k);
      }
    }

    method VisitAll(names: seq<string>)
      requires VisitedRoots(names, 0) && forall n :: n in names ==> n in schemas
      modifies this
      ensures VisitedRoots(names, |names|)
    {
      for i := 0 to |names|
        invariant VisitedRoots(names, i)
      {
        VisitRoot(names, i);
      }
    }

    /** When all names have been visited, all are listed. */
    lemma AllListed(names: seq<string>)
      requires VisitedRoots(names, |names|) && forall n :: n in names <==> n in schemas
      ensures forall x :: x in ordered <==> x in schemas
    {
      assert names[..|names|] == names;
      forall x | x in schemas ensures x in ordered { assert x in visited && x !in Open(); }
    }
  }

  method SortSchemasTopologically(schemas: Schemas) returns (ordered: seq<string>)
    ensures NoDuplicates(ordered) && (forall x :: x in ordered <==> x in schemas)
    ensures DepsFirst(schemas, ordered)
    ensures forall a, b :: 0 <= a < b < |ordered| ==> ReachedFrom(schemas, ordered[b], ordered[a])
  {
    var names := Sorting.SortedKeys(schemas.Keys);
    assert forall n :: n in names <==> n in multiset(names);
    var sorter := new Sorter(schemas);
    sorter.VisitAll(names);
    ordered := sorter.ordered;
    sorter.AllListed(names);
    NamesInOrder(schemas, names, ordered);
  }

  lemma NamesInOrder(schemas: Schemas, names: seq<string>, ordered: seq<string>)
    requires Sorting.Sorted(names, Sorting.LexLe) && forall x :: x in ordered ==> x in names
    requires forall k: nat :: k < |names| ==> InNameOrder(schemas, names, ordered, k)
    ensures forall a, b :: 0 <= a < b < |ordered| ==> ReachedFrom(schemas, ordered[b], ordered[a])
  {
    forall a, b | 0 <= a < b < |ordered| ensures ReachedFrom(schemas, ordered[b], ordered[a]) {
      assert ordered[b] in names;
      var k: nat :| k < |names| && names[k] == ordered[b];
      assert InNameOrder(schemas, names, ordered, k);
      var j :| 0 <= j < k + 1 && Reaches(schemas, names[..k + 1][j], ordered[a]);
      Sorting.LexReflexive(names[k]);
      assert Sorting.LexLe(names[j], ordered[b]);
    }
  }

  // ----- acyclic graphs -----

  lemma {:induction false} PathGoesBack(schemas: Schemas, ordered: seq<string>, p: seq<string>, i: nat, j: nat)
    requires Topological(schemas, ordered) && NoDuplicates(ordered)
    requires i < |ordered| && j < |ordered| && PathBetween(schemas, p, ordered[i], ordered[j])
    ensures j <= i
    decreases |p|
  {
    if |p| > 1 {
      assert DependsOn(schemas, p[0], p[1]);
      assert p[1] in ordered[..i];
      var k :| 0 <= k < i && ordered[k] == p[1];
      assert PathBetween(schemas, p[1..], ordered[k], ordered[j]);
      PathGoesBack(schemas, ordered, p[1..], k, j);
    }
  }

  /** The emitted order is a topological order exactly when the schemas have one. */
  lemma TopologicalIffAcyclic(schemas: Schemas, ordered: seq<string>)
    requires NoDuplicates(ordered) && (forall x :: x in ordered <==> x in schemas)
    requires DepsFirst(schemas, ordered)
    ensures Topological(schemas, ordered) <==> Acyclic(schemas)
  {
    if Topological(schemas, ordered) {
      forall a, b | DependsOn(schemas, a, b) ensures !Reaches(schemas, b, a) {
        if Reaches(schemas, b, a) {
          var p :| PathBetween(schemas, p, b, a);
          var i :| 0 <= i < |ordered| && ordered[i] == a;
          var k :| 0 <= k < i && ordered[k] == b;
          PathGoesBack(schemas, ordered, p, k, i);
        }
      }
    }
    if Acyclic(schemas) {
      forall i, d | 0 <= i < |ordered| && DependsOn(schemas, ordered[i], d) ensures d in ordered[..i] {
        assert DepsHandled(schemas, ordered[..i], ordered[i]);
      }
    }
  }
}
