/**
 Can a value of one type be part of a value of another (compiler/aliases.nim)?
 A depth-first search over types that may refer to each other in cycles, with
 one shared set of visited types and early returns.
 */
module PartOf {
  import opened Basics

  datatype Record =
    | RecList(items: seq<Record>)
    | RecCase(disc: nat, branches: seq<Record>)
    | Sym(typ: nat)
    | Nothing

  /** Types refer to each other by their ids. `Parts`: arrays, sets and tuples. */
  datatype Type =
    | Object(base: Option<nat>, rec: Record)
    | Wrapper(last: nat)
    | Parts(parts: seq<nat>)
    | Other

  type Graph = map<nat, Type>

  datatype AnalysisResult = No | Maybe | Yes

  // ---------- the meaning ----------

  function RecordTypes(r: Record): set<nat>
    decreases r, 0
  {
    match r
    case RecList(items) => AllTypes(items)
    case RecCase(disc, branches) => {disc} + AllTypes(branches)
    case Sym(t) => {t}
    case Nothing => {}
  }

  function AllTypes(rs: seq<Record>): set<nat>
    decreases rs, 1
  {
    if rs == [] then {} else RecordTypes(rs[0]) + AllTypes(rs[1..])
  }

  /** The types of the parts of a value, one level down. */
  function PartTypes(t: Type): set<nat> {
    match t
    case Object(base, rec) => (if base.Some? then {base.value} else {}) + RecordTypes(rec)
    case Wrapper(last) => {last}
    case Parts(parts) => set p | p in parts
    case Other => {}
  }

  /** A field of type `x`, or a discriminator of it, somewhere in the record. */
  predicate Occurs(r: Record, x: nat) {
    match r
    case RecList(items) => exists i :: 0 <= i < |items| && Occurs(items[i], x)
    case RecCase(disc, branches) => disc == x || exists i :: 0 <= i < |branches| && Occurs(branches[i], x)
    case Sym(t) => t == x
    case Nothing => false
  }

  /** Parts are the base and all fields of an object, what an alias stands for, and the elements of a tuple. */
  lemma PartTypesIff(t: Type, x: nat)
    ensures x in PartTypes(t) <==>
      || (t.Object? && (t.base == Some(x) || Occurs(t.rec, x)))
      || (t.Wrapper? && t.last == x)
      || (t.Parts? && exists i :: 0 <= i < |t.parts| && t.parts[i] == x)
  {
    if t.Object? {
      OccursIff(t.rec, x);
    }
  }

  lemma {:induction false} OccursIff(r: Record, x: nat)
    ensures x in RecordTypes(r) <==> Occurs(r, x)
    decreases r, 0
  {
    match r
    case RecList(items) => OccursAll(items, x);
    case RecCase(_, branches) => OccursAll(branches, x);
    case _ =>
  }

  lemma {:induction false} OccursAll(rs: seq<Record>, x: nat)
    ensures x in AllTypes(rs) <==> exists i :: 0 <= i < |rs| && Occurs(rs[i], x)
    decreases rs, 1
  {
    if rs != [] {
      OccursIff(rs[0], x);
      OccursAll(rs[1..], x);
      if i :| 0 <= i < |rs[1..]| && Occurs(rs[1..][i], x) {
        assert Occurs(rs[i + 1], x);
      }
      if i :| 0 <= i < |rs| && Occurs(rs[i], x) {
        assert i > 0 ==> rs[1..][i - 1] == rs[i];
      }
    }
  }

  ghost predicate Closed(g: Graph) {
    forall t | t in g :: PartTypes(g[t]) <= g.Keys
  }

  /** `path` leads from `a` to `x` through parts. */
  ghost predicate Leads(g: Graph, path: seq<nat>, a: nat, x: nat) {
    && path != [] && path[0] == a && path[|path| - 1] == x
    && forall i | 0 <= i < |path| - 1 :: path[i] in g && path[i + 1] in PartTypes(g[path[i]])
  }

  ghost predicate Reaches(g: Graph, a: nat, x: nat) {
    exists path :: Leads(g, path, a, x)
  }

  lemma ReachesSelf(g: Graph, a: nat)
    ensures Reaches(g, a, a)
  {
    assert Leads(g, [a], a, a);
  }

  lemma ReachesThrough(g: Graph, a: nat, b: nat, x: nat)
    requires a in g && b in PartTypes(g[a]) && Reaches(g, b, x)
    ensures Reaches(g, a, x)
  {
    var path :| Leads(g, path, b, x);
    var longer := [a] + path;
    forall i | 0 <= i < |longer| - 1 ensures longer[i] in g && longer[i + 1] in PartTypes(g[longer[i]]) {
      assert i > 0 ==> longer[i] == path[i - 1] && longer[i + 1] == path[i];
    }
    assert Leads(g, longer, a, x);
  }

  /** Some type equal to the target is part of `a`, at any depth. */
  ghost predicate Contains(g: Graph, hit: nat -> bool, a: nat) {
    exists x :: Reaches(g, a, x) && hit(x)
  }

  /** Every type visited since `before` has been dealt with: no hit, and its parts were visited too. */
  ghost predicate Finished(g: Graph, hit: nat -> bool, before: set<nat>, after: set<nat>) {
    && before <= after <= g.Keys
    && forall t | t in after && t !in before :: !hit(t) && PartTypes(g[t]) <= after
  }

  lemma FinishedTrans(g: Graph, hit: nat -> bool, a: set<nat>, b: set<nat>, c: set<nat>)
    requires Finished(g, hit, a, b) && Finished(g, hit, b, c)
    ensures Finished(g, hit, a, c)
  {
  }

  // ---------- the search ----------

  /** `isPartOfAux` for types; `hit` compares with the type that is looked for. */
  method IsPartOfAux(g: Graph, a: nat, hit: nat -> bool, marker: set<nat>)
    returns (result: AnalysisResult, visited: set<nat>)
    requires Closed(g) && a in g && marker <= g.Keys
    ensures result != Maybe && marker <= visited <= g.Keys
    ensures result == Yes ==> Contains(g, hit, a)
    ensures result == No ==> a in visited && Finished(g, hit, marker, visited)
    decreases |g.Keys - marker|, 0, 0
  {
    hide Contains;
    result, visited := No, marker;
    if a in marker {
      return;
    }
    visited := marker + {a};
    Shrinks(g.Keys, marker, a);
    if hit(a) {
      HitItself(g, hit, a);
      return Yes, visited;
    }
    var t := g[a];
    ghost var inner := visited;
    if t.Object? {
      if t.base.Some? {
        result, visited := IsPartOfAux(g, t.base.value, hit, visited);
        if result == Yes {
          Through(g, hit, a, t.base.value);
        }
      }
      if result == No {
        ghost var mid := visited;
        SmallerStill(g.Keys, inner, mid);
        assert RecordTypes(t.rec) <= PartTypes(t);
        result, visited := IsPartOfRecord(g, t.rec, hit, visited);
        if result == Yes {
          ghost var x :| x in RecordTypes(t.rec) && Contains(g, hit, x);
          Through(g, hit, a, x);
        } else if t.base.Some? {
          FinishedTrans(g, hit, inner, mid, visited);
        }
      }
    } else if t.Wrapper? {
      result, visited := IsPartOfAux(g, t.last, hit, visited);
      if result == Yes {
        Through(g, hit, a, t.last);
      }
    } else if t.Parts? {
      result, visited := IsPartOfParts(g, t.parts, hit, visited);
      if result == Yes {
        ghost var x :| x in t.parts && Contains(g, hit, x);
        Through(g, hit, a, x);
      }
    }
  }

  /** The loop over the parts of an array, set or tuple. */
  method IsPartOfParts(g: Graph, parts: seq<nat>, hit: nat -> bool, marker: set<nat>)
    returns (result: AnalysisResult, visited: set<nat>)
    requires Closed(g) && (forall i | 0 <= i < |parts| :: parts[i] in g) && marker <= g.Keys
    ensures result != Maybe && marker <= visited <= g.Keys
    ensures result == Yes ==> exists x :: x in parts && Contains(g, hit, x)
    ensures result == No ==> (forall i | 0 <= i < |parts| :: parts[i] in visited) && Finished(g, hit, marker, visited)
    decreases |g.Keys - marker|, 1, 0
  {
    hide Contains;
    result, visited := No, marker;
    for i := 0 to |parts|
      invariant result == No && Finished(g, hit, marker, visited)
      invariant forall j | 0 <= j < i :: parts[j] in visited
    {
      SmallerStill(g.Keys, marker, visited);
      ghost var mid := visited;
      result, visited := IsPartOfAux(g, parts[i], hit, visited);
      if result == Yes {
        return;
      }
      FinishedTrans(g, hit, marker, mid, visited);
    }
  }

  /** `isPartOfAux` for record nodes. */
  method IsPartOfRecord(g: Graph, r: Record, hit: nat -> bool, marker: set<nat>)
    returns (result: AnalysisResult, visited: set<nat>)
    requires Closed(g) && RecordTypes(r) <= g.Keys && marker <= g.Keys
    ensures result != Maybe && marker <= visited <= g.Keys
    ensures result == Yes ==> exists x :: x in RecordTypes(r) && Contains(g, hit, x)
    ensures result == No ==> RecordTypes(r) <= visited && Finished(g, hit, marker, visited)
    decreases |g.Keys - marker|, 1, r
  {
    result, visited := No, marker;
    if r.RecList? {
      result, visited := IsPartOfRecords(g, r.items, hit, marker);
    } else if r.RecCase? {
      result, visited := IsPartOfAux(g, r.disc, hit, marker);
      if result == Yes {
        return;
      }
      ghost var mid := visited;
      SmallerStill(g.Keys, marker, mid);
      result, visited := IsPartOfRecords(g, r.branches, hit, visited);
      if result == No {
        FinishedTrans(g, hit, marker, mid, visited);
      }
    } else if r.Sym? {
      result, visited := IsPartOfAux(g, r.typ, hit, marker);
    }
  }

  /** The loop over the parts of a record node. */
  method IsPartOfRecords(g: Graph, rs: seq<Record>, hit: nat -> bool, marker: set<nat>)
    returns (result: AnalysisResult, visited: set<nat>)
    requires Closed(g) && AllTypes(rs) <= g.Keys && marker <= g.Keys
    ensures result != Maybe && marker <= visited <= g.Keys
    ensures result == Yes ==> exists x :: x in AllTypes(rs) && Contains(g, hit, x)
    ensures result == No ==> AllTypes(rs) <= visited && Finished(g, hit, marker, visited)
    decreases |g.Keys - marker|, 1, rs
  {
    result, visited := No, marker;
    assert rs[0..] == rs;
    for i := 0 to |rs|
      invariant result == No && Finished(g, hit, marker, visited)
      invariant AllTypes(rs) <= AllTypes(rs[i..]) + visited && AllTypes(rs[i..]) <= AllTypes(rs)
    {
      assert rs[i..][0] == rs[i] && rs[i..][1..] == rs[i + 1..];
      SmallerStill(g.Keys, marker, visited);
      ghost var mid := visited;
      result, visited := IsPartOfRecord(g, rs[i], hit, visited);
      if result == Yes {
        return;
      }
      FinishedTrans(g, hit, marker, mid, visited);
    }
    assert rs[|rs|..] == [];
  }

  lemma Shrinks(u: set<nat>, m: set<nat>, a: nat)
    requires a in u && a !in m
    ensures |u - (m + {a})| < |u - m|
  {
    assert u - m == (u - (m + {a})) + {a};
  }

  lemma SmallerStill(u: set<nat>, m: set<nat>, v: set<nat>)
    requires m <= v
    ensures |u - v| <= |u - m|
  {
    assert u - m == (u - v) + ((u - m) * v);
  }

  lemma HitItself(g: Graph, hit: nat -> bool, a: nat)
    requires hit(a)
    ensures Contains(g, hit, a)
  {
    ReachesSelf(g, a);
  }

  lemma Through(g: Graph, hit: nat -> bool, a: nat, b: nat)
    requires a in g && b in PartTypes(g[a]) && Contains(g, hit, b)
    ensures Contains(g, hit, a)
  {
    var x :| Reaches(g, b, x) && hit(x);
    ReachesThrough(g, a, b, x);
  }

  // ---------- the whole search ----------

  /** A visited set that is closed under parts holds all that is reachable from it. */
  lemma {:induction false} StaysInside(g: Graph, s: set<nat>, path: seq<nat>, a: nat, x: nat)
    requires Leads(g, path, a, x) && a in s && forall t | t in s && t in g :: PartTypes(g[t]) <= s
    ensures x in s
    decreases |path|
  {
    if |path| > 1 {
      var rest := path[1..];
      assert rest[|rest| - 1] == x;
      forall i | 0 <= i < |rest| - 1 ensures rest[i] in g && rest[i + 1] in PartTypes(g[rest[i]]) {
        assert rest[i] == path[i + 1] && rest[i + 1] == path[i + 2];
      }
      StaysInside(g, s, rest, path[1], x);
    }
  }

  /** The search ends and says yes exactly when an equal type is among the parts, at any depth. */
  method IsPartOf(g: Graph, b: nat, hit: nat -> bool) returns (result: AnalysisResult)
    requires Closed(g) && b in g
    ensures result == if Contains(g, hit, b) then Yes else No
  {
    var visited;
    result, visited := IsPartOfAux(g, b, hit, {});
    if result == No {
      forall x | Reaches(g, b, x) ensures !hit(x) {
        var path :| Leads(g, path, b, x);
        StaysInside(g, visited, path, b, x);
      }
    }
  }
}
