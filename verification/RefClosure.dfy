/** `_referenced` and `_closure` (backend/routes/openapi_documents.py): the component
    schemas reachable from a document's paths through `$ref` chains. */
module RefClosure {
  import opened Hoisting

  type Schemas = map<string, Json>

  predicate StartsWith(s: string, prefix: string) {
    |prefix| <= |s| && s[..|prefix|] == prefix
  }

  /** The component an object itself refers to. */
  function Named(fields: map<string, Json>): set<string> {
    if "$ref" in fields && fields["$ref"].Str? && StartsWith(fields["$ref"].text, REF_PREFIX)
    then {fields["$ref"].text[|REF_PREFIX|..]} else {}
  }

  /** Every component name occurring in a reference anywhere in the node. */
  function Refs(node: Json): set<string>
    decreases node
  {
    match node
    case Obj(fields) => Named(fields) + set key, name | key in fields.Keys && name in Refs(fields[key]) :: name
    case Arr(items) => set i, name | 0 <= i < |items| && name in Refs(items[i]) :: name
    case _ => {}
  }

  /** A step into a document. */
  datatype Into = Field(name: string) | Index(i: nat)

  /** Where these steps lead, there is this node. */
  predicate Holds(node: Json, steps: seq<Into>, inner: Json)
    decreases |steps|
  {
    if steps == [] then inner == node
    else
      match steps[0]
      case Field(name) => node.Obj? && name in node.fields && Holds(node.fields[name], steps[1..], inner)
      case Index(i) => node.Arr? && i < |node.items| && Holds(node.items[i], steps[1..], inner)
  }

  /** An object whose "$ref" is this component. */
  predicate RefersTo(node: Json, name: string) {
    node.Obj? && "$ref" in node.fields && node.fields["$ref"] == Str("#/components/schemas/" + name)
  }

  ghost predicate Occurs(node: Json, name: string) {
    exists steps, inner :: Holds(node, steps, inner) && RefersTo(inner, name)
  }

  lemma OccursInside(node: Json, step: Into, child: Json, name: string)
    requires Occurs(child, name) && Holds(node, [step], child)
    ensures Occurs(node, name)
  {
    var steps, inner :| Holds(child, steps, inner) && RefersTo(inner, name);
    assert Holds(node, [step] + steps, inner) by {
      assert ([step] + steps)[1..] == steps && [step][1..] == [];
    }
  }

  lemma NamedIsReferredTo(node: Json, name: string)
    requires node.Obj?
    ensures name in Named(node.fields) <==> RefersTo(node, name)
  {
    assert (REF_PREFIX + name)[..|REF_PREFIX|] == REF_PREFIX && (REF_PREFIX + name)[|REF_PREFIX|..] == name;
    if name in Named(node.fields) {
      var text := node.fields["$ref"].text;
      assert text == text[..|REF_PREFIX|] + text[|REF_PREFIX|..];
    }
  }

  lemma {:induction false} RefsOccur(node: Json, name: string)
    requires name in Refs(node)
    ensures Occurs(node, name)
    decreases node
  {
    match node
    case Obj(fields) =>
      NamedIsReferredTo(node, name);
      if name in Named(fields) {
        assert Holds(node, [], node);
      } else {
        var key :| key in fields && name in Refs(fields[key]);
        RefsOccur(fields[key], name);
        assert [Field(key)][1..] == [];
        OccursInside(node, Field(key), fields[key], name);
      }
    case Arr(items) =>
      var i :| 0 <= i < |items| && name in Refs(items[i]);
      RefsOccur(items[i], name);
      assert [Index(i)][1..] == [];
      OccursInside(node, Index(i), items[i], name);
  }

  lemma {:induction false} HeldRefsCount(node: Json, steps: seq<Into>, inner: Json, name: string)
    requires Holds(node, steps, inner) && RefersTo(inner, name)
    ensures name in Refs(node)
    decreases |steps|
  {
    if steps == [] {
      NamedIsReferredTo(node, name);
    } else if steps[0].Field? {
      HeldRefsCount(node.fields[steps[0].name], steps[1..], inner, name);
    } else {
      HeldRefsCount(node.items[steps[0].i], steps[1..], inner, name);
    }
  }

  /** The names collected are exactly those of the "$ref"s of some object somewhere in the document. */
  lemma RefsAreTheOccurrences(node: Json, name: string)
    ensures name in Refs(node) <==> Occurs(node, name)
  {
    if name in Refs(node) { RefsOccur(node, name); }
    forall steps, inner | Holds(node, steps, inner) && RefersTo(inner, name) ensures name in Refs(node) {
      HeldRefsCount(node, steps, inner, name);
    }
  }

  method Referenced(node: Json, found: set<string>) returns (grown: set<string>)
    ensures grown == found + Refs(node)
    decreases node
  {
    grown := found;
    match node
    case Obj(fields) =>
      grown := grown + Named(fields);
      var keys := fields.Keys;
      while keys != {}
        invariant keys <= fields.Keys
        invariant forall name :: name in grown <==>
          name in found || name in Named(fields) || exists key :: key in fields.Keys - keys && name in Refs(fields[key])
        decreases |keys|
      {
        var key :| key in keys;
        grown := Referenced(fields[key], grown);
        keys := keys - {key};
      }
    case Arr(items) =>
      for i := 0 to |items|
        invariant forall name :: name in grown <==>
          name in found || exists j :: 0 <= j < i && name in Refs(items[j])
      {
        grown := Referenced(items[i], grown);
      }
    case _ =>
  }

  /** `schemas.get(name, {})`. */
  function Declared(schemas: Schemas, name: string): Json {
    if name in schemas then schemas[name] else Obj(map[])
  }

  // ── reachability in the graph of references ───────────────────────────────

  type Edges = string -> set<string>

  /** What each component refers to. */
  function Uses(schemas: Schemas): Edges {
    name => Refs(Declared(schemas, name))
  }

  /** A chain of references from the roots, each name used by the one before. */
  predicate RefChain(roots: set<string>, edges: Edges, chain: seq<string>) {
    var last := |chain| - 1;
    && chain != []
    && if last == 0 then chain[0] in roots
       else RefChain(roots, edges, chain[..last]) && chain[last] in edges(chain[last - 1])
  }

  ghost predicate Reachable(roots: set<string>, edges: Edges, name: string) {
    exists chain :: RefChain(roots, edges, chain) && chain[|chain| - 1] == name
  }

  /** A set of names holding the roots and everything its own members use. */
  predicate Closed(roots: set<string>, edges: Edges, names: set<string>) {
    roots <= names && forall name :: name in names ==> edges(name) <= names
  }

  lemma FirstIsReachable(roots: set<string>, edges: Edges, name: string)
    requires name in roots
    ensures Reachable(roots, edges, name)
  {
    assert RefChain(roots, edges, [name]);
    assert [name][|[name]| - 1] == name;
  }

  lemma NextIsReachable(roots: set<string>, edges: Edges, name: string, next: string)
    requires Reachable(roots, edges, name) && next in edges(name)
    ensures Reachable(roots, edges, next)
  {
    var chain :| RefChain(roots, edges, chain) && chain[|chain| - 1] == name;
    var longer := chain + [next];
    assert longer[..|chain|] == chain;
    assert RefChain(roots, edges, longer) && longer[|longer| - 1] == next;
  }

  lemma {:induction false} ChainStaysInClosed(
      roots: set<string>, edges: Edges, names: set<string>, chain: seq<string>)
    requires Closed(roots, edges, names) && RefChain(roots, edges, chain)
    ensures chain[|chain| - 1] in names
    decreases |chain|
  {
    if |chain| > 1 { ChainStaysInClosed(roots, edges, names, chain[..|chain| - 1]); }
  }

  /** Reachable names lie in every closed set: reachability is the least closed set. */
  lemma ReachableIsLeast(roots: set<string>, edges: Edges, names: set<string>, name: string)
    requires Closed(roots, edges, names) && Reachable(roots, edges, name)
    ensures name in names
  {
    var chain :| RefChain(roots, edges, chain) && chain[|chain| - 1] == name;
    ChainStaysInClosed(roots, edges, names, chain);
  }

  /** Every name the document can mention: the bound that makes the worklist finite. */
  function Mentioned(roots: set<string>, schemas: Schemas): set<string> {
    roots + set key, name | key in schemas.Keys && name in Refs(schemas[key]) :: name
  }

  lemma MentionedHoldsUses(roots: set<string>, schemas: Schemas, name: string)
    ensures Uses(schemas)(name) <= Mentioned(roots, schemas)
  {
  }

  /** What the worklist has: only reachable names, among them the roots and everything
      used by a name already seen. */
  ghost predicate Progress(roots: set<string>, edges: Edges, all: set<string>, found: set<string>, seen: set<string>) {
    && seen <= found <= all && roots <= found
    && (forall name :: name in found ==> Reachable(roots, edges, name))
    && (forall name :: name in seen ==> edges(name) <= found)
  }

  lemma Starts(roots: set<string>, edges: Edges, all: set<string>)
    requires roots <= all
    ensures Progress(roots, edges, all, roots, {})
  {
    forall name | name in roots ensures Reachable(roots, edges, name) { FirstIsReachable(roots, edges, name); }
  }

  lemma Visits(roots: set<string>, edges: Edges, all: set<string>, found: set<string>, seen: set<string>, name: string)
    requires Progress(roots, edges, all, found, seen) && name in found && edges(name) <= all
    ensures Progress(roots, edges, all, found + edges(name), seen + {name})
  {
    forall next | next in edges(name) ensures Reachable(roots, edges, next) {
      NextIsReachable(roots, edges, name, next);
    }
  }

  lemma Finishes(roots: set<string>, edges: Edges, all: set<string>, found: set<string>)
    requires Progress(roots, edges, all, found, found)
    ensures forall name :: Reachable(roots, edges, name) <==> name in found
  {
    forall name | Reachable(roots, edges, name) ensures name in found {
      ReachableIsLeast(roots, edges, found, name);
    }
  }

  lemma SmallerRest(all: set<string>, a: set<string>, b: set<string>, x: string)
    requires a <= b <= all && x in b && x !in a
    ensures |all - b| < |all - a|
  {
    var rest := all - a - {x};
    assert all - a == rest + {x};
    assert all - b <= rest;
    FewerOrEqual(all - b, rest);
  }

  lemma FewerOrEqual(a: set<string>, b: set<string>)
    requires a <= b
    ensures |a| <= |b|
  {
    assert b == a + (b - a);
  }

  /** Exactly the declared schemas reachable from the paths, with their declared values. */
  ghost predicate IsClosure(paths: Json, schemas: Schemas, r: Schemas) {
    && (forall name :: name in r <==> name in schemas && Reachable(Refs(paths), Uses(schemas), name))
    && (forall name :: name in r ==> r[name] == schemas[name])
  }

  /** One pass over the names found and not yet seen. */
  method VisitRound(ghost roots: set<string>, ghost edges: Edges, ghost all: set<string>,
                    schemas: Schemas, found0: set<string>, seen0: set<string>)
      returns (found: set<string>, seen: set<string>)
    requires Progress(roots, edges, all, found0, seen0) && found0 - seen0 != {}
    requires edges == Uses(schemas) && all == Mentioned(roots, schemas)
    ensures Progress(roots, edges, all, found, seen)
    ensures |all - seen| < |all - seen0|
  {
    found, seen := found0, seen0;
    var round := found - seen;
    ghost var first :| first in round;
    while round != {}
      invariant Progress(roots, edges, all, found, seen)
      invariant round <= found && seen0 <= seen && first in round + seen && first !in seen0
      decreases |round|
    {
      var name :| name in round;
      round := round - {name};
      MentionedHoldsUses(roots, schemas, name);
      Visits(roots, edges, all, found, seen, name);
      seen := seen + {name};
      found := Referenced(Declared(schemas, name), found);
    }
    SmallerRest(all, seen0, seen, first);
  }

  method Closure(paths: Json, schemas: Schemas) returns (r: Schemas)
    ensures IsClosure(paths, schemas, r)
  {
    ghost var roots, edges, all := Refs(paths), Uses(schemas), Mentioned(Refs(paths), schemas);
    var found := Referenced(paths, {});
    var seen: set<string> := {};
    Starts(roots, edges, all);
    assert found == roots;
    while found - seen != {}
      invariant Progress(roots, edges, all, found, seen)
      decreases |all - seen|
    {
      found, seen := VisitRound(roots, edges, all, schemas, found, seen);
    }
    assert found == seen;
    Finishes(roots, edges, all, found);
    r := map name | name in found && name in schemas :: schemas[name];
  }

  /** The closure holds what the paths refer to and what any model in it refers to, so far as it is
      declared; and it is the least such: every set of names that holds as much holds it. */
  lemma ClosureIsTheLeastClosed(paths: Json, schemas: Schemas, r: Schemas, names: set<string>, name: string)
    requires IsClosure(paths, schemas, r)
    ensures name in schemas && Occurs(paths, name) ==> name in r
    ensures forall user :: user in r && name in schemas && Occurs(r[user], name) ==> name in r
    ensures && (forall n :: n in schemas && Occurs(paths, n) ==> n in names)
            && (forall user, n :: user in names && user in schemas && n in schemas && Occurs(schemas[user], n) ==> n in names)
            ==> r.Keys <= names
  {
    var roots, edges := Refs(paths), Uses(schemas);
    RefsAreTheOccurrences(paths, name);
    if name in roots { FirstIsReachable(roots, edges, name); }
    forall user | user in r && Occurs(r[user], name) ensures Reachable(roots, edges, name) {
      RefsAreTheOccurrences(r[user], name);
      NextIsReachable(roots, edges, user, name);
    }
    if && (forall n :: n in schemas && Occurs(paths, n) ==> n in names)
       && (forall user, n :: user in names && user in schemas && n in schemas && Occurs(schemas[user], n) ==> n in names) {
      forall n | n in r ensures n in names { ReachedIsAmong(paths, schemas, names, n); }
    }
  }

  /** A name declared and reachable is in every such set: the undeclared ones refer to nothing. */
  lemma ReachedIsAmong(paths: Json, schemas: Schemas, names: set<string>, name: string)
    requires forall n :: n in schemas && Occurs(paths, n) ==> n in names
    requires forall user, n :: user in names && user in schemas && n in schemas && Occurs(schemas[user], n) ==> n in names
    requires name in schemas && Reachable(Refs(paths), Uses(schemas), name)
    ensures name in names
  {
    var roots, edges := Refs(paths), Uses(schemas);
    var all := Mentioned(roots, schemas);
    var inside := set n | n in all && (n in schemas ==> n in names);
    forall n | n in roots ensures n in inside { RefsAreTheOccurrences(paths, n); }
    forall user, n | user in inside && n in edges(user) ensures n in inside {
      MentionedHoldsUses(roots, schemas, user);
      if user in schemas { RefsAreTheOccurrences(schemas[user], n); }
    }
    ReachableIsLeast(roots, edges, inside, name);
  }

  lemma {:induction false} ChainFromMoreRoots(small: set<string>, large: set<string>, edges: Edges, chain: seq<string>)
    requires small <= large && RefChain(small, edges, chain)
    ensures RefChain(large, edges, chain)
    decreases |chain|
  {
    if |chain| > 1 { ChainFromMoreRoots(small, large, edges, chain[..|chain| - 1]); }
  }

  /** A document that refers to less needs no more: closures grow with the paths. */
  lemma ClosureGrowsWithPaths(small: Json, large: Json, schemas: Schemas, r: Schemas, s: Schemas)
    requires Refs(small) <= Refs(large)
    requires IsClosure(small, schemas, r) && IsClosure(large, schemas, s)
    ensures r.Keys <= s.Keys && forall name :: name in r ==> r[name] == s[name]
  {
    var edges := Uses(schemas);
    forall name | name in r ensures name in s {
      var chain :| RefChain(Refs(small), edges, chain) && chain[|chain| - 1] == name;
      ChainFromMoreRoots(Refs(small), Refs(large), edges, chain);
    }
  }
}
