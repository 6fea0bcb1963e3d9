/** When schema generation ends (runtime/openapi/schema.go): exactly if the types have no cycle that it
    follows without looking at what it has seen. */
module SchemaEnds {
  import opened Text
  import opened Schema

  // ----- the traversal, with a bound on its depth --------------------------------------------------

  /** Every type that a type mentions is in the graph. */
  predicate TypeWhole(g: Graph, t: TypeId)
    requires t in g.types
  {
    match g.types[t]
    case Pointer(elem) => elem in g.types
    case List(elem) => elem in g.types
    case Map(key, elem) => key in g.types && elem in g.types
    case Struct(_, _, fields) => t != g.time ==> forall i :: 0 <= i < |fields| ==> fields[i].typ in g.types
    case _ => true
  }

  predicate Whole(g: Graph) {
    forall t :: t in g.types ==> TypeWhole(g, t)
  }

  /** A call of schemaForType for a type, or of addStructFields for a struct. */
  datatype Call = Describe(t: TypeId) | Expand(t: TypeId)

  predicate IsCall(g: Graph, x: Call) {
    match x
    case Describe(t) => t in g.types
    case Expand(t) => IsStruct(g, t)
  }

  /** The call that schemaForType makes for a type, and the types seen by then. */
  function NextCall(g: Graph, seen: set<TypeId>, t: TypeId): (next: Option<(set<TypeId>, Call)>)
    requires Whole(g) && t in g.types
    ensures next.Some? ==> IsCall(g, next.value.1)
  {
    assert TypeWhole(g, t);
    match g.types[t]
    case Pointer(elem) => Some((seen, Describe(elem)))
    case List(elem) => if g.types[elem].Uint8? then None else Some((seen, Describe(elem)))
    case Map(key, elem) => if g.types[key].Str? then Some((seen, Describe(elem))) else None
    case Struct(name, _, _) =>
      if t == g.time then None
      else if name == "" then Some((seen, Expand(t)))
      else if t in seen then None
      else Some((seen + {t}, Expand(t)))
    case _ => None
  }

  function FieldsOf(g: Graph, t: TypeId): seq<Field>
    requires IsStruct(g, t)
  {
    g.types[t].fields
  }

  /** The call that addStructFields makes for a field: an embedded struct is expanded, a property described. */
  function FieldCall(g: Graph, f: Field): Option<Call> {
    if IsEmbedded(g, f) then Some(Expand(f.typ))
    else if IsProperty(g, f) then Some(Describe(f.typ))
    else None
  }

  lemma FieldCallIsCall(g: Graph, t: TypeId, i: nat)
    requires Whole(g) && IsStruct(g, t) && i < |FieldsOf(g, t)|
    ensures var next := FieldCall(g, FieldsOf(g, t)[i]); next.Some? ==> IsCall(g, next.value)
  {
    assert TypeWhole(g, t);
    hide JsonName;
  }

  /** The types seen after a call, or None if it nests more than `fuel` calls. */
  function Visit(g: Graph, seen: set<TypeId>, x: Call, fuel: nat): Option<set<TypeId>>
    requires Whole(g) && IsCall(g, x)
    decreases fuel, 1
  {
    match x
    case Describe(t) =>
      var next := NextCall(g, seen, t);
      if next.None? then Some(seen) else Nested(g, next.value.0, next.value.1, fuel)
    case Expand(t) => VisitFields(g, seen, t, |FieldsOf(g, t)|, fuel)
  }

  /** A call one level further down. */
  function Nested(g: Graph, seen: set<TypeId>, x: Call, fuel: nat): Option<set<TypeId>>
    requires Whole(g) && IsCall(g, x)
    decreases fuel, 0, 0
  {
    if fuel == 0 then None else Visit(g, seen, x, fuel - 1)
  }

  /** The first `n` fields of a struct, one after the other. */
  function VisitFields(g: Graph, seen: set<TypeId>, t: TypeId, n: nat, fuel: nat): Option<set<TypeId>>
    requires Whole(g) && IsStruct(g, t) && n <= |FieldsOf(g, t)|
    decreases fuel, 0, n
  {
    if n == 0 then Some(seen)
    else
      FieldCallIsCall(g, t, n - 1);
      var before, next := VisitFields(g, seen, t, n - 1, fuel), FieldCall(g, FieldsOf(g, t)[n - 1]);
      if before.None? || next.None? then before else Nested(g, before.value, next.value, fuel)
  }

  /** Generation for a type ends, from no types seen. */
  ghost predicate Ends(g: Graph, t: TypeId)
    requires Whole(g) && t in g.types
  {
    exists fuel :: Visit(g, {}, Describe(t), fuel).Some?
  }

  // ----- cycles ------------------------------------------------------------------------------------------

  /** The first call makes the second, whatever was seen: what a type holds without a reference (the element
      of a pointer, of a list, of a map with string keys, the properties of a literal struct), and what a
      struct embeds. A named struct is described by a reference, so it leads nowhere. */
  predicate Leads(g: Graph, x: Call, y: Call) {
    match x
    case Describe(t) =>
      t in g.types &&
      (match g.types[t]
       case Pointer(elem) => y == Describe(elem)
       case List(elem) => elem in g.types && !g.types[elem].Uint8? && y == Describe(elem)
       case Map(key, elem) => key in g.types && g.types[key].Str? && y == Describe(elem)
       case Struct(name, _, _) => t != g.time && name == "" && y == Expand(t)
       case _ => false)
    case Expand(t) =>
      IsStruct(g, t) && exists i :: 0 <= i < |FieldsOf(g, t)| && FieldCall(g, FieldsOf(g, t)[i]) == Some(y)
  }

  /** Each call leads to the next. */
  ghost predicate IsPath(g: Graph, path: seq<Call>) {
    forall i, j :: 0 <= i && j == i + 1 && j < |path| ==> Leads(g, path[i], path[j])
  }

  /** Calls that lead from the first back to itself. */
  ghost predicate IsCycle(g: Graph, path: seq<Call>) {
    |path| >= 2 && path[0] == path[|path| - 1] && IsPath(g, path)
  }

  ghost predicate Acyclic(g: Graph) {
    forall path :: !IsCycle(g, path)
  }

  lemma LeadsToCall(g: Graph, x: Call, y: Call)
    requires Whole(g) && Leads(g, x, y)
    ensures IsCall(g, x) && IsCall(g, y)
  {
    assert x.t in g.types && TypeWhole(g, x.t);
    hide Whole, JsonName;
  }

  /** What a type leads to is what schemaForType calls for it; a named struct it meets first it expands. */
  lemma NextCallLeads(g: Graph, seen: set<TypeId>, t: TypeId)
    requires Whole(g) && t in g.types
    ensures forall y :: Leads(g, Describe(t), y) ==> NextCall(g, seen, t) == Some((seen, y))
    ensures var next := NextCall(g, seen, t);
      || next.None?
      || (next.value.0 == seen && Leads(g, Describe(t), next.value.1))
      || (t !in seen && IsNamed(g, t) && next.value == (seen + {t}, Expand(t)))
  {
    assert TypeWhole(g, t);
    hide Whole;
  }

  // ----- a cycle never ends ------------------------------------------------------------------------------

  /** Each of these calls makes another of them. */
  ghost predicate Loops(g: Graph, calls: set<Call>) {
    forall x :: x in calls ==> LeadsInto(g, x, calls)
  }

  ghost predicate LeadsInto(g: Graph, x: Call, calls: set<Call>) {
    exists y :: y in calls && Leads(g, x, y)
  }

  lemma LeadsOn(g: Graph, calls: set<Call>, x: Call) returns (y: Call)
    requires Loops(g, calls) && x in calls
    ensures y in calls && Leads(g, x, y)
  {
    hide Leads;
    assert LeadsInto(g, x, calls);
    y :| y in calls && Leads(g, x, y);
  }

  lemma LeadingField(g: Graph, t: TypeId, y: Call) returns (i: nat)
    requires Leads(g, Expand(t), y)
    ensures IsStruct(g, t) && i < |FieldsOf(g, t)| && FieldCall(g, FieldsOf(g, t)[i]) == Some(y)
  {
    hide FieldCall;
    i :| 0 <= i < |FieldsOf(g, t)| && FieldCall(g, FieldsOf(g, t)[i]) == Some(y);
  }

  lemma FieldsStep(g: Graph, t: TypeId, i: nat, seen: set<TypeId>, fuel: nat)
    requires Whole(g) && IsStruct(g, t) && i < |FieldsOf(g, t)|
    ensures var before, next := VisitFields(g, seen, t, i, fuel), FieldCall(g, FieldsOf(g, t)[i]);
      var after := VisitFields(g, seen, t, i + 1, fuel);
      && (next.Some? ==> IsCall(g, next.value))
      && (before.None? || next.None? ==> after == before)
      && (before.Some? && next.Some? ==> after == Nested(g, before.value, next.value, fuel))
  {
    FieldCallIsCall(g, t, i);
    hide Whole, IsStruct, FieldCall, Nested, FieldsOf;
  }

  /** A loop over fields that did not get past some field does not get past the rest. */
  lemma {:induction false} FieldsStuck(g: Graph, t: TypeId, n: nat, m: nat, seen: set<TypeId>, fuel: nat)
    requires Whole(g) && IsStruct(g, t) && n <= m <= |FieldsOf(g, t)|
    requires VisitFields(g, seen, t, n, fuel).None?
    ensures VisitFields(g, seen, t, m, fuel).None?
    decreases m
  {
    hide *;
    if n < m {
      FieldsStuck(g, t, n, m - 1, seen, fuel);
      FieldsStep(g, t, m - 1, seen, fuel);
    }
  }

  lemma VisitStruct(g: Graph, seen: set<TypeId>, t: TypeId, fuel: nat)
    requires Whole(g) && IsStruct(g, t)
    ensures IsCall(g, Expand(t)) && Visit(g, seen, Expand(t), fuel) == VisitFields(g, seen, t, |FieldsOf(g, t)|, fuel)
  {
    hide Whole, IsStruct, VisitFields, FieldsOf;
  }

  lemma VisitDescribe(g: Graph, seen: set<TypeId>, t: TypeId, fuel: nat)
    requires Whole(g) && t in g.types
    ensures IsCall(g, Describe(t))
    ensures var next, after := NextCall(g, seen, t), Visit(g, seen, Describe(t), fuel);
      && (next.None? ==> after == Some(seen))
      && (next.Some? ==> IsCall(g, next.value.1) && after == Nested(g, next.value.0, next.value.1, fuel))
  {
    hide Whole, NextCall, VisitFields, Nested;
  }

  lemma DescribeNeverEnds(g: Graph, t: TypeId, y: Call, seen: set<TypeId>, fuel: nat)
    requires Whole(g) && IsCall(g, Describe(t)) && Leads(g, Describe(t), y) && IsCall(g, y)
    requires Nested(g, seen, y, fuel).None?
    ensures Visit(g, seen, Describe(t), fuel).None?
  {
    VisitDescribe(g, seen, t, fuel);
    NextCallLeads(g, seen, t);
    hide *;
  }

  lemma ExpandNeverEnds(g: Graph, t: TypeId, i: nat, seen: set<TypeId>, fuel: nat)
    requires Whole(g) && IsStruct(g, t) && i < |FieldsOf(g, t)|
    requires var before, next := VisitFields(g, seen, t, i, fuel), FieldCall(g, FieldsOf(g, t)[i]);
      next.Some? && IsCall(g, next.value) && (before.Some? ==> Nested(g, before.value, next.value, fuel).None?)
    ensures IsCall(g, Expand(t)) && Visit(g, seen, Expand(t), fuel).None?
  {
    hide *;
    VisitStruct(g, seen, t, fuel);
    FieldsStep(g, t, i, seen, fuel);
    FieldsStuck(g, t, i + 1, |FieldsOf(g, t)|, seen, fuel);
  }

  /** However deep it may go, a call of a loop does not end. */
  lemma {:induction false} LoopNeverEnds(g: Graph, calls: set<Call>, x: Call, seen: set<TypeId>, fuel: nat)
    requires Whole(g) && Loops(g, calls) && x in calls && IsCall(g, x)
    ensures Visit(g, seen, x, fuel).None?
    decreases fuel, 1
  {
    var y := LeadsOn(g, calls, x);
    LeadsToCall(g, x, y);
    match x
    case Describe(t) =>
      NestedNeverEnds(g, calls, y, seen, fuel);
      DescribeNeverEnds(g, t, y, seen, fuel);
      hide *;
    case Expand(t) =>
      var i := LeadingField(g, t, y);
      var before := VisitFields(g, seen, t, i, fuel);
      if before.Some? {
        NestedNeverEnds(g, calls, y, before.value, fuel);
      }
      ExpandNeverEnds(g, t, i, seen, fuel);
      hide *;
  }

  lemma {:induction false} NestedNeverEnds(g: Graph, calls: set<Call>, x: Call, seen: set<TypeId>, fuel: nat)
    requires Whole(g) && Loops(g, calls) && x in calls && IsCall(g, x)
    ensures Nested(g, seen, x, fuel).None?
    decreases fuel, 0
  {
    if fuel > 0 {
      LoopNeverEnds(g, calls, x, seen, fuel - 1);
    }
    hide Loops, Whole, IsCall, Visit;
  }

  lemma CycleLoops(g: Graph, path: seq<Call>)
    requires IsCycle(g, path)
    ensures Loops(g, set x | x in path)
  {
    hide Leads;
    forall x | x in path
      ensures LeadsInto(g, x, set y | y in path)
    {
      var i :| 0 <= i < |path| && path[i] == x;
      var next := if i + 1 < |path| then i + 1 else 1;
      assert Leads(g, path[next - 1], path[next]) && path[next] in path;
    }
  }

  // ----- without a cycle, calls can be ordered -------------------------------------------------------------

  /** Some call leads to none of these. */
  lemma {:induction false} Sink(g: Graph, calls: set<Call>, path: seq<Call>) returns (x: Call)
    requires Acyclic(g) && path != [] && IsPath(g, path) && forall y :: y in path ==> y in calls
    requires forall i, j :: 0 <= i < j < |path| ==> path[i] != path[j]
    ensures x in calls && forall y :: y in calls ==> !Leads(g, x, y)
    decreases |calls| - |path|
  {
    hide Leads, IsPath, Acyclic;
    DistinctAtMost(calls, path);
    x := path[|path| - 1];
    if exists y :: y in calls && Leads(g, x, y) {
      var y :| y in calls && Leads(g, x, y);
      PathOn(g, path, y);
      if y in path {
        NoWayBack(g, path, y);
      }
      x := Sink(g, calls, path + [y]);
    }
  }

  lemma {:induction false} DistinctAtMost(calls: set<Call>, path: seq<Call>)
    requires forall y :: y in path ==> y in calls
    requires forall i, j :: 0 <= i < j < |path| ==> path[i] != path[j]
    ensures |path| <= |calls|
    decreases |path|
  {
    if path != [] {
      var last, front := path[|path| - 1], path[..|path| - 1];
      assert last !in front && last in calls;
      DistinctAtMost(calls - {last}, front);
    }
  }

  lemma PathOn(g: Graph, path: seq<Call>, y: Call)
    requires path != [] && IsPath(g, path) && Leads(g, path[|path| - 1], y)
    ensures IsPath(g, path + [y])
  {
    hide Leads;
  }

  lemma NoWayBack(g: Graph, path: seq<Call>, y: Call)
    requires Acyclic(g) && IsPath(g, path + [y])
    ensures y !in path
  {
    hide Leads, IsPath, IsCycle;
    if y in path {
      var i :| 0 <= i < |path| && path[i] == y;
      CycleCut(g, path, y, i);
    }
  }

  lemma CycleCut(g: Graph, path: seq<Call>, y: Call, i: nat)
    requires IsPath(g, path + [y]) && i < |path| && path[i] == y
    ensures IsCycle(g, (path + [y])[i..])
  {
    CutPath(g, path + [y], i);
    hide Leads, IsPath;
  }

  lemma CutPath(g: Graph, path: seq<Call>, i: nat)
    requires IsPath(g, path) && i < |path|
    ensures IsPath(g, path[i..])
  {
    hide Leads;
    forall j, k | 0 <= j && k == j + 1 && k < |path[i..]|
      ensures Leads(g, path[i..][j], path[i..][k])
    {
      assert path[i..][j] == path[i + j] && path[i..][k] == path[i + k];
    }
  }

  /** A call has a higher number than any it leads to. */
  ghost predicate IsOrder(g: Graph, order: map<Call, nat>) {
    forall x, y :: x in order && y in order && Leads(g, x, y) ==> order[y] < order[x]
  }

  lemma {:induction false} OrderExists(g: Graph, calls: set<Call>) returns (order: map<Call, nat>)
    requires Acyclic(g)
    ensures order.Keys == calls && IsOrder(g, order)
  {
    hide Leads, Acyclic;
    if calls == {} {
      order := map[];
    } else {
      var some :| some in calls;
      var x := Sink(g, calls, [some]);
      var rest := OrderExists(g, calls - {x});
      order := map c | c in calls :: if c == x then 0 else rest[c] + 1;
    }
  }

  // ----- and generation ends -------------------------------------------------------------------------------

  ghost function AllCalls(g: Graph): (calls: set<Call>)
    ensures forall x :: x in calls <==> IsCall(g, x)
  {
    (set t | t in g.types :: Describe(t)) + (set t | t in g.types && IsStruct(g, t) :: Expand(t))
  }

  /** More depth does not change where a call that ends gets to. */
  lemma {:induction false} MoreFuel(g: Graph, seen: set<TypeId>, x: Call, fuel: nat, more: nat)
    requires Whole(g) && IsCall(g, x) && Visit(g, seen, x, fuel).Some? && fuel <= more
    ensures Visit(g, seen, x, more) == Visit(g, seen, x, fuel)
    decreases fuel, 1
  {
    match x
    case Describe(t) =>
      VisitDescribe(g, seen, t, fuel);
      VisitDescribe(g, seen, t, more);
      hide Whole, NextCall, Visit, Nested, IsCall;
      var next := NextCall(g, seen, t);
      if next.Some? {
        MoreFuelNested(g, next.value.0, next.value.1, fuel, more);
      }
    case Expand(t) =>
      MoreFuelFields(g, seen, t, |FieldsOf(g, t)|, fuel, more);
      hide Whole, IsStruct, VisitFields;
  }

  lemma {:induction false} MoreFuelNested(g: Graph, seen: set<TypeId>, x: Call, fuel: nat, more: nat)
    requires Whole(g) && IsCall(g, x) && Nested(g, seen, x, fuel).Some? && fuel <= more
    ensures Nested(g, seen, x, more) == Nested(g, seen, x, fuel)
    decreases fuel, 0, 0
  {
    MoreFuel(g, seen, x, fuel - 1, more - 1);
    hide Whole, Visit, IsCall;
  }

  lemma {:induction false} MoreFuelFields(g: Graph, seen: set<TypeId>, t: TypeId, n: nat, fuel: nat, more: nat)
    requires Whole(g) && IsStruct(g, t) && n <= |FieldsOf(g, t)| && fuel <= more
    requires VisitFields(g, seen, t, n, fuel).Some?
    ensures VisitFields(g, seen, t, n, more) == VisitFields(g, seen, t, n, fuel)
    decreases fuel, 0, n
  {
    if n > 0 {
      FieldsStep(g, t, n - 1, seen, fuel);
      FieldsStep(g, t, n - 1, seen, more);
      hide Whole, IsStruct, VisitFields, Nested, FieldsOf, FieldCall, IsCall;
      MoreFuelFields(g, seen, t, n - 1, fuel, more);
      var before, next := VisitFields(g, seen, t, n - 1, fuel), FieldCall(g, FieldsOf(g, t)[n - 1]);
      if next.Some? {
        MoreFuelNested(g, before.value, next.value, fuel, more);
      }
    }
  }

  /** A call adds to what was seen. */
  lemma {:induction false} SeenGrows(g: Graph, seen: set<TypeId>, x: Call, fuel: nat)
    requires Whole(g) && IsCall(g, x) && Visit(g, seen, x, fuel).Some?
    ensures seen <= Visit(g, seen, x, fuel).value
    decreases fuel, 1
  {
    match x
    case Describe(t) =>
      VisitDescribe(g, seen, t, fuel);
      NextCallLeads(g, seen, t);
      hide Whole, NextCall, Visit, IsCall, Leads;
      var next := NextCall(g, seen, t);
      if next.Some? {
        SeenGrows(g, next.value.0, next.value.1, fuel - 1);
      }
    case Expand(t) =>
      SeenGrowsFields(g, seen, t, |FieldsOf(g, t)|, fuel);
      hide Whole, IsStruct, VisitFields;
  }

  lemma {:induction false} SeenGrowsFields(g: Graph, seen: set<TypeId>, t: TypeId, n: nat, fuel: nat)
    requires Whole(g) && IsStruct(g, t) && n <= |FieldsOf(g, t)| && VisitFields(g, seen, t, n, fuel).Some?
    ensures seen <= VisitFields(g, seen, t, n, fuel).value
    decreases fuel, 0, n
  {
    if n > 0 {
      FieldsStep(g, t, n - 1, seen, fuel);
      hide Whole, IsStruct, VisitFields, Visit, FieldsOf, FieldCall, IsCall;
      SeenGrowsFields(g, seen, t, n - 1, fuel);
      var before, next := VisitFields(g, seen, t, n - 1, fuel), FieldCall(g, FieldsOf(g, t)[n - 1]);
      if next.Some? {
        SeenGrows(g, before.value, next.value, fuel - 1);
      }
    }
  }

  /** The types that can still be met for the first time. */
  ghost function Unseen(g: Graph, seen: set<TypeId>): nat {
    |g.types.Keys - seen|
  }

  lemma FewerUnseen(g: Graph, seen: set<TypeId>, more: set<TypeId>)
    requires seen <= more
    ensures Unseen(g, more) <= Unseen(g, seen)
    ensures (exists t :: t in g.types && t in more && t !in seen) ==> Unseen(g, more) < Unseen(g, seen)
  {
    var x, y := g.types.Keys - more, g.types.Keys - seen;
    assert y == x + (y - x);
    if t :| t in g.types && t in more && t !in seen {
      assert t in y - x;
    }
  }

  /** How deep a call goes, when the calls are in order: what it leads to is lower, and a named struct that it
      meets is one type less to meet. */
  lemma {:induction false} CallEnds(g: Graph, order: map<Call, nat>, seen: set<TypeId>, x: Call) returns (fuel: nat)
    requires Whole(g) && order.Keys == AllCalls(g) && IsOrder(g, order) && IsCall(g, x)
    ensures Visit(g, seen, x, fuel).Some?
    decreases Unseen(g, seen), order[x], 0
  {
    hide Leads, AllCalls, IsOrder, Whole, Unseen;
    match x
    case Describe(t) =>
      VisitDescribe(g, seen, t, 0);
      NextCallLeads(g, seen, t);
      var next := NextCall(g, seen, t);
      fuel := 0;
      if next.Some? {
        var s, y := next.value.0, next.value.1;
        NextIsLess(g, order, seen, t);
        var f := CallEnds(g, order, s, y);
        fuel := f + 1;
        VisitDescribe(g, seen, t, fuel);
      }
      hide *;
    case Expand(t) =>
      fuel := FieldsEnd(g, order, seen, t, |FieldsOf(g, t)|);
      VisitStruct(g, seen, t, fuel);
      hide *;
  }

  lemma NextIsLess(g: Graph, order: map<Call, nat>, seen: set<TypeId>, t: TypeId)
    requires Whole(g) && t in g.types && order.Keys == AllCalls(g) && IsOrder(g, order) && NextCall(g, seen, t).Some?
    ensures var (s, y) := NextCall(g, seen, t).value;
      && Describe(t) in order && y in order && seen <= s
      && (Unseen(g, s) < Unseen(g, seen) || (Unseen(g, s) == Unseen(g, seen) && order[y] < order[Describe(t)]))
  {
    NextCallLeads(g, seen, t);
    var (s, y) := NextCall(g, seen, t).value;
    assert IsCall(g, Describe(t)) && IsCall(g, y);
    hide Leads, NextCall, Whole, AllCalls;
    FewerUnseen(g, seen, s);
    hide Unseen;
    assert s != seen ==> t in g.types && t in s && t !in seen;
  }

  lemma {:induction false} FieldsEnd(g: Graph, order: map<Call, nat>, seen: set<TypeId>, t: TypeId, n: nat)
      returns (fuel: nat)
    requires Whole(g) && order.Keys == AllCalls(g) && IsOrder(g, order) && IsStruct(g, t) && n <= |FieldsOf(g, t)|
    requires Expand(t) in order
    ensures VisitFields(g, seen, t, n, fuel).Some?
    decreases Unseen(g, seen), order[Expand(t)], 0, n
  {
    hide *;
    fuel := 0;
    if n == 0 {
      NoFieldEnds(g, seen, t);
    } else {
      fuel := FieldsEnd(g, order, seen, t, n - 1);
      FieldsStep(g, t, n - 1, seen, fuel);
      var before, next := VisitFields(g, seen, t, n - 1, fuel), FieldCall(g, FieldsOf(g, t)[n - 1]);
      if next.Some? {
        SeenGrowsFields(g, seen, t, n - 1, fuel);
        FewerUnseen(g, seen, before.value);
        FieldIsLess(g, order, t, n - 1);
        var inner := CallEnds(g, order, before.value, next.value);
        fuel := FieldEnds(g, seen, t, n - 1, before.value, fuel, inner);
      }
    }
  }

  lemma NoFieldEnds(g: Graph, seen: set<TypeId>, t: TypeId)
    requires Whole(g) && IsStruct(g, t)
    ensures VisitFields(g, seen, t, 0, 0) == Some(seen)
  {
    hide Whole;
  }

  /** A depth that is enough for the fields before, and for the call of the next field. */
  lemma FieldEnds(g: Graph, seen: set<TypeId>, t: TypeId, i: nat, before: set<TypeId>, fuel: nat, inner: nat)
      returns (all: nat)
    requires Whole(g) && IsStruct(g, t) && i < |FieldsOf(g, t)| && VisitFields(g, seen, t, i, fuel) == Some(before)
    requires var next := FieldCall(g, FieldsOf(g, t)[i]);
      next.Some? && IsCall(g, next.value) && Visit(g, before, next.value, inner).Some?
    ensures VisitFields(g, seen, t, i + 1, all) == Visit(g, before, FieldCall(g, FieldsOf(g, t)[i]).value, inner)
  {
    hide *;
    var next := FieldCall(g, FieldsOf(g, t)[i]).value;
    all := if fuel > inner + 1 then fuel else inner + 1;
    MoreFuelFields(g, seen, t, i, fuel, all);
    MoreFuel(g, before, next, inner, all - 1);
    FieldsStep(g, t, i, seen, all);
    NestedIs(g, before, next, all);
  }

  lemma NestedIs(g: Graph, seen: set<TypeId>, x: Call, fuel: nat)
    requires Whole(g) && IsCall(g, x) && fuel > 0
    ensures Nested(g, seen, x, fuel) == Visit(g, seen, x, fuel - 1)
  {
    hide Whole, IsCall, Visit;
  }

  lemma FieldIsLess(g: Graph, order: map<Call, nat>, t: TypeId, i: nat)
    requires Whole(g) && order.Keys == AllCalls(g) && IsOrder(g, order) && IsStruct(g, t) && i < |FieldsOf(g, t)|
    requires FieldCall(g, FieldsOf(g, t)[i]).Some?
    ensures var y := FieldCall(g, FieldsOf(g, t)[i]).value;
      Expand(t) in order && y in order && order[y] < order[Expand(t)]
  {
    var y := FieldCall(g, FieldsOf(g, t)[i]).value;
    FieldCallIsCall(g, t, i);
    assert Leads(g, Expand(t), y);
    assert IsCall(g, Expand(t)) && IsCall(g, y);
    hide Leads, FieldCall, Whole, AllCalls, IsCall;
  }

  /** Without a cycle, generation ends for every type. */
  lemma AcyclicEnds(g: Graph)
    requires Whole(g) && Acyclic(g)
    ensures forall t :: t in g.types ==> Ends(g, t)
  {
    hide Acyclic, Whole, IsOrder, Visit, AllCalls;
    var order := OrderExists(g, AllCalls(g));
    forall t | t in g.types
      ensures Ends(g, t)
    {
      var fuel := CallEnds(g, order, {}, Describe(t));
    }
  }

  /** With a cycle, it does not for some type on it. */
  lemma CycleDoesNotEnd(g: Graph, path: seq<Call>)
    requires Whole(g) && IsCycle(g, path)
    ensures path[0].t in g.types && !Ends(g, path[0].t)
  {
    var calls := set x | x in path;
    CycleLoops(g, path);
    assert path[0] in calls && Leads(g, path[0], path[1]);
    LeadsToCall(g, path[0], path[1]);
    hide Loops, IsCycle, Whole, Leads, Visit;
    forall fuel
      ensures Visit(g, {}, Describe(path[0].t), fuel).None?
    {
      OnCycleNeverEnds(g, calls, path[0], fuel);
    }
  }

  lemma OnCycleNeverEnds(g: Graph, calls: set<Call>, x: Call, fuel: nat)
    requires Whole(g) && Loops(g, calls) && x in calls && IsCall(g, x)
    ensures x.t in g.types && Visit(g, {}, Describe(x.t), fuel).None?
  {
    hide Loops, Whole, Visit;
    if x.Describe? {
      LoopNeverEnds(g, calls, x, {}, fuel);
    } else {
      VisitDescribe(g, {}, x.t, fuel);
      StructIsExpanded(g, x.t);
      NestedNeverEnds(g, calls, x, NextCall(g, {}, x.t).value.0, fuel);
    }
  }

  lemma StructIsExpanded(g: Graph, t: TypeId)
    requires Whole(g) && IsStruct(g, t)
    ensures NextCall(g, {}, t).Some? && NextCall(g, {}, t).value.1 == Expand(t)
  {
    hide Whole;
  }

  /** Generation ends for every type of a program exactly if no call of it leads back to itself. */
  lemma GenerationEndsExactly(g: Graph)
    requires Whole(g)
    ensures (forall t :: t in g.types ==> Ends(g, t)) <==> Acyclic(g)
  {
    hide Whole, Ends, IsCycle;
    if Acyclic(g) {
      AcyclicEnds(g);
    } else {
      var path :| IsCycle(g, path);
      CycleDoesNotEnd(g, path);
    }
  }

  // ----- ranks exist exactly then ----------------------------------------------------------------------------

  lemma {:induction false} TopExists(order: map<Call, nat>) returns (top: nat)
    ensures forall x :: x in order ==> order[x] < top
  {
    if order == map[] {
      top := 0;
    } else {
      var x :| x in order;
      var rest := TopExists(order - {x});
      top := if rest > order[x] then rest else order[x] + 1;
      forall y | y in order
        ensures order[y] < top
      {
        assert y == x || (y in order - {x} && (order - {x})[y] == order[y]);
      }
    }
  }

  function RanksOf(order: map<Call, nat>, top: nat): Ranks {
    Ranks(t => if Describe(t) in order then order[Describe(t)] else 0,
          t => if Expand(t) in order then order[Expand(t)] else 0,
          top)
  }

  ghost predicate Orders(g: Graph, order: map<Call, nat>) {
    Whole(g) && order.Keys == AllCalls(g) && IsOrder(g, order)
  }

  lemma OrderedIsSized(g: Graph, order: map<Call, nat>, top: nat)
    requires Orders(g, order)
    ensures Sized(g, RanksOf(order, top))
  {
    forall t, i | IsStruct(g, t) && 0 <= i < |g.types[t].fields|
      ensures FieldSized(g, RanksOf(order, top), t, g.types[t].fields[i])
    {
      assert TypeWhole(g, t) && FieldsOf(g, t)[i] == g.types[t].fields[i];
      hide Whole, IsOrder, AllCalls, JsonName;
      if IsEmbedded(g, g.types[t].fields[i]) {
        FieldIsLess(g, order, t, i);
      }
    }
  }

  lemma {:induction false} FlatIsLower(g: Graph, order: map<Call, nat>, top: nat, t: TypeId, n: nat)
    requires Orders(g, order) && Sized(g, RanksOf(order, top)) && IsStruct(g, t) && n <= |g.types[t].fields|
    requires Expand(t) in order
    ensures Below(g, RanksOf(order, top), Flat(g, RanksOf(order, top), t, n), order[Expand(t)])
    decreases order[Expand(t)], n
  {
    hide *;
    var r := RanksOf(order, top);
    if n == 0 {
      FlatNone(g, r, t, []);
      NoneBelow(g, r, Flat(g, r, t, 0), order[Expand(t)]);
    } else {
      FlatIsLower(g, order, top, t, n - 1);
      AddsAreLower(g, order, top, t, n - 1);
      FlatStep(g, r, t, n - 1, []);
      BelowOn(g, r, Flat(g, r, t, n - 1), FieldAdds(g, r, t, n - 1), Flat(g, r, t, n), order[Expand(t)]);
    }
  }

  lemma NoneBelow(g: Graph, r: Ranks, fields: seq<Property>, limit: nat)
    requires [] + fields == []
    ensures Below(g, r, fields, limit)
  {}

  lemma BelowOn(g: Graph, r: Ranks, before: seq<Property>, added: seq<Property>, all: seq<Property>, limit: nat)
    requires Below(g, r, before, limit) && Below(g, r, added, limit) && [] + all == [] + before + added
    ensures Below(g, r, all, limit)
  {
    assert all == [] + all && before == [] + before;
  }

  lemma {:induction false} AddsAreLower(g: Graph, order: map<Call, nat>, top: nat, t: TypeId, i: nat)
    requires Orders(g, order) && Sized(g, RanksOf(order, top)) && IsStruct(g, t) && i < |g.types[t].fields|
    requires Expand(t) in order
    ensures Below(g, RanksOf(order, top), FieldAdds(g, RanksOf(order, top), t, i), order[Expand(t)])
    decreases order[Expand(t)], 0
  {
    var f := g.types[t].fields[i];
    assert FieldsOf(g, t)[i] == f;
    hide Whole, IsOrder, AllCalls, Sized, Flat, JsonName, Quoted;
    if FieldCall(g, f).Some? {
      FieldIsLess(g, order, t, i);
      FieldCallIsCall(g, t, i);
      if IsEmbedded(g, f) {
        FlatIsLower(g, order, top, f.typ, |g.types[f.typ].fields|);
      }
    }
  }

  lemma OrderedIsRanked(g: Graph, order: map<Call, nat>, top: nat)
    requires Orders(g, order) && forall x :: x in order ==> order[x] < top
    ensures Ranked(g, RanksOf(order, top))
  {
    OrderedIsSized(g, order, top);
    forall t | t in g.types
      ensures TypeRanked(g, RanksOf(order, top), t)
    {
      OrderedTypeIsRanked(g, order, top, t);
    }
    hide Orders, Sized, TypeRanked;
  }

  lemma OrderedTypeIsRanked(g: Graph, order: map<Call, nat>, top: nat, t: TypeId)
    requires Orders(g, order) && Sized(g, RanksOf(order, top)) && t in g.types
    requires forall x :: x in order ==> order[x] < top
    ensures TypeRanked(g, RanksOf(order, top), t)
  {
    assert IsCall(g, Describe(t)) && TypeWhole(g, t);
    if g.types[t].Struct? {
      if t != g.time && g.types[t].name == "" {
        assert Leads(g, Describe(t), Expand(t)) && IsCall(g, Expand(t));
        FlatIsLower(g, order, top, t, |g.types[t].fields|);
        BelowMore(g, RanksOf(order, top), AllFields(g, RanksOf(order, top), t), order[Expand(t)], order[Describe(t)]);
      }
      hide Sized, Flat, AllFields, Below, Whole, AllCalls;
    } else {
      ElementIsLower(g, order, t);
      hide Sized, Flat, Below, AllFields, Whole, AllCalls, IsOrder;
    }
  }

  lemma BelowMore(g: Graph, r: Ranks, fields: seq<Property>, limit: nat, more: nat)
    requires Below(g, r, fields, limit) && limit <= more
    ensures Below(g, r, fields, more)
  {}

  lemma ElementIsLower(g: Graph, order: map<Call, nat>, t: TypeId)
    requires Orders(g, order) && t in g.types
    ensures forall u :: Leads(g, Describe(t), Describe(u)) ==>
      Describe(u) in order && Describe(t) in order && order[Describe(u)] < order[Describe(t)]
  {
    forall u | Leads(g, Describe(t), Describe(u))
      ensures Describe(u) in order && Describe(t) in order && order[Describe(u)] < order[Describe(t)]
    {
      LeadsToCall(g, Describe(t), Describe(u));
      hide Leads, Whole, AllCalls;
    }
  }

  /** Without a cycle there are ranks. */
  lemma RanksExist(g: Graph) returns (r: Ranks)
    requires Whole(g) && Acyclic(g)
    ensures Ranked(g, r)
  {
    hide Acyclic, Whole, IsOrder, AllCalls, Ranked;
    var order := OrderExists(g, AllCalls(g));
    var top := TopExists(order);
    OrderedIsRanked(g, order, top);
    r := RanksOf(order, top);
  }

  // ----- what ranks leave out is a cycle --------------------------------------------------------------------------

  /** One more than the highest rank of some properties. */
  ghost function Ceiling(r: Ranks, fields: seq<Property>): nat {
    if fields == [] then 0
    else
      var before, rank := Ceiling(r, fields[..|fields| - 1]), r.rank(fields[|fields| - 1].typ) + 1;
      if before > rank then before else rank
  }

  lemma {:induction false} CeilingBelow(g: Graph, r: Ranks, fields: seq<Property>, limit: nat)
    requires Below(g, r, fields, limit)
    ensures Ceiling(r, fields) <= limit
  {
    if fields != [] {
      CeilingBelow(g, r, fields[..|fields| - 1], limit);
    }
  }

  lemma {:induction false} CeilingOf(r: Ranks, fields: seq<Property>, i: nat)
    requires i < |fields|
    ensures r.rank(fields[i].typ) < Ceiling(r, fields)
  {
    if i < |fields| - 1 {
      CeilingOf(r, fields[..|fields| - 1], i);
    }
  }

  lemma {:induction false} CeilingPart(r: Ranks, part: seq<Property>, fields: seq<Property>)
    requires forall p :: p in part ==> p in fields
    ensures Ceiling(r, part) <= Ceiling(r, fields)
  {
    if part != [] {
      CeilingPart(r, part[..|part| - 1], fields);
      assert part[|part| - 1] in fields;
      var i :| 0 <= i < |fields| && fields[i] == part[|part| - 1];
      CeilingOf(r, fields, i);
    }
  }

  /** What a call costs, in ranks: a pair that falls from each call to those it leads to. */
  ghost function Cost(g: Graph, r: Ranks, x: Call): (nat, nat)
    requires Ranked(g, r) && IsCall(g, x)
  {
    match x
    case Describe(t) => (r.rank(t) + 1, 0)
    case Expand(t) => (Ceiling(r, AllFields(g, r, t)), r.size(t) + 1)
  }

  predicate Less(x: (nat, nat), y: (nat, nat)) {
    x.0 < y.0 || (x.0 == y.0 && x.1 < y.1)
  }

  lemma RankedIsWhole(g: Graph, r: Ranks)
    requires Ranked(g, r)
    ensures Whole(g)
  {
    forall t | t in g.types
      ensures TypeWhole(g, t)
    {
      assert TypeRanked(g, r, t);
      if IsStruct(g, t) {
        assert forall i :: 0 <= i < |g.types[t].fields| ==> FieldSized(g, r, t, g.types[t].fields[i]);
      }
      hide Flat, Below, AllFields;
    }
  }

  /** The properties that a field adds are among those of its struct. */
  lemma AddedAreFields(g: Graph, r: Ranks, t: TypeId, i: nat)
    requires Sized(g, r) && IsStruct(g, t) && i < |g.types[t].fields|
    ensures forall p :: p in FieldAdds(g, r, t, i) ==> p in AllFields(g, r, t)
  {
    FlatStep(g, r, t, i, []);
    FlatPrefix(g, r, t, i + 1, |g.types[t].fields|);
    hide Sized, Flat, FieldAdds, IsStruct;
    var part, added := Flat(g, r, t, i + 1), FieldAdds(g, r, t, i);
    assert [] + part == part;
    LastIn([] + Flat(g, r, t, i), added, part);
  }

  lemma LastIn(before: seq<Property>, added: seq<Property>, all: seq<Property>)
    requires all == before + added
    ensures forall p :: p in added ==> p in all
  {}

  lemma LeadsCostsLess(g: Graph, r: Ranks, x: Call, y: Call)
    requires Ranked(g, r) && Leads(g, x, y)
    ensures IsCall(g, x) && IsCall(g, y) && Less(Cost(g, r, y), Cost(g, r, x))
  {
    RankedIsWhole(g, r);
    LeadsToCall(g, x, y);
    match x
    case Describe(t) =>
      assert TypeRanked(g, r, t);
      if y.Expand? {
        CeilingBelow(g, r, AllFields(g, r, t), r.rank(t));
      }
      hide Sized, Flat, AllFields, Below, Ceiling, Whole;
    case Expand(t) =>
      var i := LeadingField(g, t, y);
      FieldCostsLess(g, r, t, i);
      hide *;
  }

  lemma FieldCostsLess(g: Graph, r: Ranks, t: TypeId, i: nat)
    requires Ranked(g, r) && Whole(g) && IsStruct(g, t) && i < |FieldsOf(g, t)|
    requires FieldCall(g, FieldsOf(g, t)[i]).Some?
    ensures var y := FieldCall(g, FieldsOf(g, t)[i]).value;
      IsCall(g, Expand(t)) && IsCall(g, y) && Less(Cost(g, r, y), Cost(g, r, Expand(t)))
  {
    var f := g.types[t].fields[i];
    assert FieldSized(g, r, t, f);
    FieldCallIsCall(g, t, i);
    AddedAreFields(g, r, t, i);
    hide Sized, TypeRanked, AllFields, Ceiling, JsonName, Quoted;
    CeilingPart(r, FieldAdds(g, r, t, i), AllFields(g, r, t));
    if !IsEmbedded(g, f) {
      CeilingOf(r, FieldAdds(g, r, t, i), 0);
    }
  }

  lemma {:induction false} PathCostsLess(g: Graph, r: Ranks, path: seq<Call>, k: nat)
    requires Ranked(g, r) && IsPath(g, path) && 0 < k < |path|
    ensures IsCall(g, path[0]) && IsCall(g, path[k]) && Less(Cost(g, r, path[k]), Cost(g, r, path[0]))
  {
    hide Ranked, Leads, Cost, IsCall;
    LeadsCostsLess(g, r, path[k - 1], path[k]);
    if k > 1 {
      PathCostsLess(g, r, path, k - 1);
    }
  }

  /** With ranks there is no cycle. */
  lemma RankedIsAcyclic(g: Graph, r: Ranks)
    requires Ranked(g, r)
    ensures Whole(g) && Acyclic(g)
  {
    RankedIsWhole(g, r);
    hide Ranked, Leads, Cost, Whole;
    forall path
      ensures !IsCycle(g, path)
    {
      if IsCycle(g, path) {
        PathCostsLess(g, r, path, |path| - 1);
      }
    }
  }

  /** The measure by which the traversal is shown to end exists for a graph exactly if it is whole and has no
      cycle: nothing that ends is left out. */
  lemma RanksExistExactly(g: Graph)
    ensures (exists r: Ranks :: Ranked(g, r)) <==> Whole(g) && Acyclic(g)
  {
    hide Ranked, Whole, Acyclic;
    if Whole(g) && Acyclic(g) {
      var r := RanksExist(g);
    }
    if r: Ranks :| Ranked(g, r) {
      RankedIsAcyclic(g, r);
    }
  }

  /** Some ranks of a whole graph without a cycle. */
  ghost function RanksFor(g: Graph): (r: Ranks)
    requires Whole(g) && Acyclic(g)
    ensures Ranked(g, r)
  {
    RanksExistExactly(g);
    hide Ranked, Whole, Acyclic;
    var r: Ranks :| Ranked(g, r);
    r
  }

  // ----- where a call gets to ---------------------------------------------------------------------------------

  /** The call ends, and has seen these types then. */
  ghost predicate Reaches(g: Graph, x: Call, seen: set<TypeId>, after: set<TypeId>) {
    Whole(g) && IsCall(g, x) && exists fuel :: Visit(g, seen, x, fuel) == Some(after)
  }

  /** The same, for the first `n` fields of a struct. */
  ghost predicate ReachesFields(g: Graph, t: TypeId, n: nat, seen: set<TypeId>, after: set<TypeId>) {
    && Whole(g) && IsStruct(g, t) && n <= |FieldsOf(g, t)|
    && exists fuel :: VisitFields(g, seen, t, n, fuel) == Some(after)
  }

  lemma ReachesNothing(g: Graph, t: TypeId, seen: set<TypeId>)
    requires Whole(g) && t in g.types && NextCall(g, seen, t).None?
    ensures Reaches(g, Describe(t), seen, seen)
  {
    VisitDescribe(g, seen, t, 0);
    hide Whole, NextCall, Visit;
  }

  lemma ReachesNext(g: Graph, t: TypeId, seen: set<TypeId>, after: set<TypeId>)
    requires Whole(g) && t in g.types && NextCall(g, seen, t).Some?
    requires Reaches(g, NextCall(g, seen, t).value.1, NextCall(g, seen, t).value.0, after)
    ensures Reaches(g, Describe(t), seen, after)
  {
    var (s, y) := NextCall(g, seen, t).value;
    var fuel: nat :| Visit(g, s, y, fuel) == Some(after);
    VisitDescribe(g, seen, t, fuel + 1);
    NestedIs(g, s, y, fuel + 1);
    hide Whole, NextCall, Visit, Nested;
    assert Visit(g, seen, Describe(t), fuel + 1) == Some(after);
  }

  lemma ReachesNoFields(g: Graph, t: TypeId, seen: set<TypeId>)
    requires Whole(g) && IsStruct(g, t)
    ensures ReachesFields(g, t, 0, seen, seen)
  {
    NoFieldEnds(g, seen, t);
    hide Whole, VisitFields;
  }

  lemma ReachesField(g: Graph, t: TypeId, i: nat, seen: set<TypeId>, before: set<TypeId>, after: set<TypeId>)
    requires ReachesFields(g, t, i, seen, before) && i < |FieldsOf(g, t)|
    requires var next := FieldCall(g, FieldsOf(g, t)[i]);
      if next.None? then after == before else Reaches(g, next.value, before, after)
    ensures ReachesFields(g, t, i + 1, seen, after)
  {
    hide Whole, Visit, VisitFields, FieldCall, Nested;
    var next := FieldCall(g, FieldsOf(g, t)[i]);
    var fuel: nat :| VisitFields(g, seen, t, i, fuel) == Some(before);
    if next.None? {
      FieldsStep(g, t, i, seen, fuel);
      assert VisitFields(g, seen, t, i + 1, fuel) == Some(after);
    } else {
      var inner: nat :| Visit(g, before, next.value, inner) == Some(after);
      var all := FieldEnds(g, seen, t, i, before, fuel, inner);
      assert VisitFields(g, seen, t, i + 1, all) == Some(after);
    }
  }

  lemma ReachesStruct(g: Graph, t: TypeId, seen: set<TypeId>, after: set<TypeId>)
    requires IsStruct(g, t) && ReachesFields(g, t, |g.types[t].fields|, seen, after)
    ensures Reaches(g, Expand(t), seen, after)
  {
    hide Whole, Visit, VisitFields;
    var fuel: nat :| VisitFields(g, seen, t, |g.types[t].fields|, fuel) == Some(after);
    VisitStruct(g, seen, t, fuel);
    assert Visit(g, seen, Expand(t), fuel) == Some(after);
  }

  // ----- an embedded struct is not enough ----------------------------------------------------------------------------

  /** The cycle of type E struct { F *struct { E } }: the pointer, the literal struct, its fields, those of
      the embedded E, and the pointer again. */
  function EmbeddedPath(): seq<Call> {
    [Describe(1), Describe(2), Expand(2), Expand(0), Describe(1)]
  }

  lemma EmbeddedPathIsCycle()
    ensures Whole(EmbeddedCycle()) && IsCycle(EmbeddedCycle(), EmbeddedPath())
  {
    var g, path := EmbeddedCycle(), EmbeddedPath();
    hide Quoted;
    assert JsonName("") == "";
    assert FieldCall(g, FieldsOf(g, 2)[0]) == Some(Expand(0)) && FieldCall(g, FieldsOf(g, 0)[0]) == Some(Describe(1));
    assert Leads(g, path[0], path[1]) && Leads(g, path[1], path[2]);
    assert Leads(g, path[2], path[3]) && Leads(g, path[3], path[4]);
    hide Leads;
  }

  /** Though its only cycle passes through the named struct E, generation ends for none of its types: E is met
      by its fields alone, where nothing asks whether it was seen. */
  lemma EmbeddedCycleNeverEnds(t: TypeId, fuel: nat)
    requires t in EmbeddedCycle().types
    ensures Whole(EmbeddedCycle()) && Visit(EmbeddedCycle(), {}, Describe(t), fuel).None?
  {
    var g, calls := EmbeddedCycle(), set x | x in EmbeddedPath();
    EmbeddedPathIsCycle();
    CycleLoops(g, EmbeddedPath());
    var x := if t == 0 then Expand(0) else Describe(t);
    assert x in EmbeddedPath() && IsCall(g, x);
    hide Visit, Whole, Loops, IsCycle;
    OnCycleNeverEnds(g, calls, x, fuel);
  }

  /** A map with keys that are no strings is an object at once, whatever its elements: type T map[int]T. */
  lemma IntegerMapIsRanked()
    ensures Ranked(Graph(map[0 := Map(1, 0), 1 := Integer], 2), Ranks(_ => 0, _ => 0, 1))
  {}
}
