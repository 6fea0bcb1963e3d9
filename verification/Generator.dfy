/** runtime/openapi/schema.go and openapi.go: schema generation over a shared component map. */
module Generator {
  import opened Text
  import opened Numbers
  import opened Schema
  import opened SchemaEnds

  /** components.schemas; a name is reserved with None before its schema is known. */
  type Components = map<string, Option<Schema>>

  // ----- component names ---------------------------------------------------------------------------

  function Upper(c: char): char {
    if 'a' <= c <= 'z' then c - 'a' + 'A' else c
  }

  function Capitalized(s: string): string {
    if s == "" then "" else [Upper(s[0])] + s[1..]
  }

  /** The last element of a package path, without `-`, `_` and `.`. */
  function Cleaned(s: string): string {
    if s == "" then ""
    else if s[0] == '-' || s[0] == '_' || s[0] == '.' then Cleaned(s[1..])
    else [s[0]] + Cleaned(s[1..])
  }

  function ExportedName(pkg: string): string {
    Capitalized(Cleaned(pkg))
  }

  function QualifiedName(name: string, pkg: string): string {
    var parts := Split(pkg, '/');
    ExportedName(parts[|parts| - 1]) + Capitalized(name)
  }

  function Numbered(name: string, i: nat): string {
    Capitalized(name) + Decimal(i)
  }

  lemma NumberedInjective(name: string, i: nat, j: nat)
    requires Numbered(name, i) == Numbered(name, j)
    ensures i == j
  {
    var prefix := Capitalized(name);
    assert Numbered(name, i)[|prefix|..] == Decimal(i) && Numbered(name, j)[|prefix|..] == Decimal(j);
    DecimalInjective(i, j);
  }

  /** More numbered names than taken ones: one of them is free. */
  lemma {:induction false} TakenNames(name: string, taken: set<string>, from: nat, bound: nat)
    requires from <= bound && forall i :: from <= i < bound ==> Numbered(name, i) in taken
    ensures bound - from <= |taken|
    decreases bound
  {
    if from < bound {
      var last := Numbered(name, bound - 1);
      forall i | from <= i < bound - 1
        ensures Numbered(name, i) in taken - {last}
      {
        if Numbered(name, i) == last {
          NumberedInjective(name, i, bound - 1);
        }
      }
      hide Numbered;
      TakenNames(name, taken - {last}, from, bound - 1);
    }
  }

  /** A free name: the type's, the qualified one, or the first free numbered one from 2 on. */
  method ComponentName(typeName: string, pkg: string, defs: Components) returns (name: string)
    ensures name !in defs
    ensures if Capitalized(typeName) !in defs then name == Capitalized(typeName)
      else if QualifiedName(typeName, pkg) !in defs then name == QualifiedName(typeName, pkg)
      else exists i: nat ::
        i >= 2 && name == Numbered(typeName, i) && forall k :: 2 <= k < i ==> Numbered(typeName, k) in defs
  {
    hide Numbered, Capitalized, QualifiedName;
    name := Capitalized(typeName);
    if name !in defs {
      return;
    }
    name := QualifiedName(typeName, pkg);
    if name !in defs {
      return;
    }
    var i := 2;
    name := Numbered(typeName, i);
    while name in defs
      invariant i >= 2 && name == Numbered(typeName, i)
      invariant forall k :: 2 <= k < i ==> Numbered(typeName, k) in defs.Keys
      decreases |defs.Keys| + 2 - i
    {
      TakenNames(typeName, defs.Keys, 2, i + 1);
      i := i + 1;
      name := Numbered(typeName, i);
    }
  }

  // ----- what a traversal does to the maps -----------------------------------------------------------

  ghost predicate Injective(seen: Names) {
    forall t, u :: t in seen && u in seen && seen[t] == seen[u] ==> t == u
  }

  /** The names given so far are those of named structs, all different, and all reserved. */
  ghost predicate SeenSafe(g: Graph, defs: Components, seen: Names) {
    && Injective(seen)
    && forall t :: t in seen ==> IsNamed(g, t) && seen[t] in defs
  }

  /** A component that was added describes the type it was added for. */
  ghost predicate Describes(g: Graph, r: Ranks, defs: Components, seen: Names, t: TypeId)
    requires Ranked(g, r)
  {
    t in seen && IsStruct(g, t) && seen[t] in defs && defs[seen[t]].Some? && Component(g, r, seen, t) == defs[seen[t]]
  }

  /** From one pair of maps to another: nothing is replaced, and everything new is the component of a new
      type, under a name that was free. */
  ghost predicate Grows(g: Graph, r: Ranks, defs: Components, seen: Names, defs': Components, seen': Names)
    requires Ranked(g, r)
  {
    && Extends(seen, seen')
    && (forall n :: n in defs ==> n in defs' && defs'[n] == defs[n])
    && (forall t :: t in seen' && t !in seen ==> seen'[t] !in defs && Describes(g, r, defs', seen', t))
    && (forall n :: n in defs' && n !in defs ==> exists t :: t in seen' && t !in seen && seen'[t] == n)
  }

  lemma GrowsItself(g: Graph, r: Ranks, defs: Components, seen: Names)
    requires Ranked(g, r)
    ensures Grows(g, r, defs, seen, defs, seen)
  {
    hide Ranked;
  }

  lemma DescribesLater(g: Graph, r: Ranks, defs: Components, seen: Names, defs': Components, seen': Names, t: TypeId)
    requires Ranked(g, r) && Describes(g, r, defs, seen, t) && Grows(g, r, defs, seen, defs', seen')
    ensures Describes(g, r, defs', seen', t)
  {
    ComponentStays(g, r, seen, seen', t);
    hide Ranked, Component, IsStruct;
  }

  lemma GrowsOnType(g: Graph, r: Ranks, d0: Components, s0: Names, d1: Components, s1: Names, d2: Components,
                    s2: Names, t: TypeId)
    requires Ranked(g, r) && Grows(g, r, d0, s0, d1, s1) && Grows(g, r, d1, s1, d2, s2)
    requires t in s2 && t !in s0
    ensures s2[t] !in d0 && Describes(g, r, d2, s2, t)
  {
    if t in s1 {
      DescribesLater(g, r, d1, s1, d2, s2, t);
    }
    hide Ranked, Describes;
  }

  lemma GrowsOnName(g: Graph, r: Ranks, d0: Components, s0: Names, d1: Components, s1: Names, d2: Components,
                    s2: Names, n: string)
    requires Ranked(g, r) && Grows(g, r, d0, s0, d1, s1) && Grows(g, r, d1, s1, d2, s2)
    requires n in d2 && n !in d0
    ensures exists t :: t in s2 && t !in s0 && s2[t] == n
  {
    hide Ranked, Describes;
    if n in d1 {
      var t :| t in s1 && t !in s0 && s1[t] == n;
      assert t in s2 && s2[t] == n;
    } else {
      var t :| t in s2 && t !in s1 && s2[t] == n;
      assert t !in s0;
    }
  }

  lemma GrowsOn(g: Graph, r: Ranks, d0: Components, s0: Names, d1: Components, s1: Names, d2: Components, s2: Names)
    requires Ranked(g, r) && Grows(g, r, d0, s0, d1, s1) && Grows(g, r, d1, s1, d2, s2)
    ensures Grows(g, r, d0, s0, d2, s2)
  {
    hide Ranked, Describes, Grows;
    forall t | t in s2 && t !in s0
      ensures s2[t] !in d0 && Describes(g, r, d2, s2, t)
    {
      GrowsOnType(g, r, d0, s0, d1, s1, d2, s2, t);
    }
    forall n | n in d2 && n !in d0
      ensures exists t :: t in s2 && t !in s0 && s2[t] == n
    {
      GrowsOnName(g, r, d0, s0, d1, s1, d2, s2, n);
    }
    GrowsKeeps(g, r, d0, s0, d1, s1);
    GrowsKeeps(g, r, d1, s1, d2, s2);
    GrowsIf(g, r, d0, s0, d2, s2);
  }

  lemma GrowsKeeps(g: Graph, r: Ranks, d0: Components, s0: Names, d1: Components, s1: Names)
    requires Ranked(g, r) && Grows(g, r, d0, s0, d1, s1)
    ensures Extends(s0, s1) && forall n :: n in d0 ==> n in d1 && d1[n] == d0[n]
  {
    hide Ranked, Describes;
  }

  lemma GrowsIf(g: Graph, r: Ranks, d0: Components, s0: Names, d1: Components, s1: Names)
    requires Ranked(g, r) && Extends(s0, s1) && forall n :: n in d0 ==> n in d1 && d1[n] == d0[n]
    requires forall t :: t in s1 && t !in s0 ==> s1[t] !in d0 && Describes(g, r, d1, s1, t)
    requires forall n :: n in d1 && n !in d0 ==> exists t :: t in s1 && t !in s0 && s1[t] == n
    ensures Grows(g, r, d0, s0, d1, s1)
  {
    hide Ranked, Describes;
  }

  /** Reserving a name for `t`, describing it, and storing the component. */
  lemma GrowsNamed(g: Graph, r: Ranks, d0: Components, s0: Names, t: TypeId, name: string,
                   d1: Components, s1: Names, body: Schema)
    requires Ranked(g, r) && IsNamed(g, t) && t !in s0 && name !in d0
    requires Grows(g, r, d0[name := None], s0[t := name], d1, s1)
    requires Component(g, r, s1, t) == Some(body)
    ensures Grows(g, r, d0, s0, d1[name := Some(body)], s1)
  {
    hide Ranked, Component, IsStruct, Grows, Describes, Extends;
    GrowsKeeps(g, r, d0[name := None], s0[t := name], d1, s1);
    ExtendsBack(s0, t, name, s1);
    forall u | u in s1 && u !in s0
      ensures s1[u] !in d0 && Describes(g, r, d1[name := Some(body)], s1, u)
    {
      NamedDescribes(g, r, d0, s0, t, name, d1, s1, body, u);
    }
    forall n | n in d1[name := Some(body)] && n !in d0
      ensures exists u :: u in s1 && u !in s0 && s1[u] == n
    {
      NamedNames(g, r, d0, s0, t, name, d1, s1, n);
    }
    GrowsIf(g, r, d0, s0, d1[name := Some(body)], s1);
  }

  lemma ExtendsBack(names: Names, t: TypeId, name: string, more: Names)
    requires Extends(names[t := name], more) && t !in names
    ensures Extends(names, more) && t in more && more[t] == name
  {
    assert t in names[t := name];
  }

  lemma NamedDescribes(g: Graph, r: Ranks, d0: Components, s0: Names, t: TypeId, name: string,
                       d1: Components, s1: Names, body: Schema, u: TypeId)
    requires Ranked(g, r) && IsNamed(g, t) && t !in s0 && name !in d0
    requires Grows(g, r, d0[name := None], s0[t := name], d1, s1)
    requires Component(g, r, s1, t) == Some(body) && u in s1 && u !in s0
    ensures s1[u] !in d0 && Describes(g, r, d1[name := Some(body)], s1, u)
  {
    hide Ranked, Component;
    if u != t {
      assert Describes(g, r, d1, s1, u) && s1[u] != name;
    }
    hide Grows;
  }

  lemma NamedNames(g: Graph, r: Ranks, d0: Components, s0: Names, t: TypeId, name: string,
                   d1: Components, s1: Names, n: string)
    requires Ranked(g, r) && t !in s0 && t in s1 && s1[t] == name
    requires Grows(g, r, d0[name := None], s0[t := name], d1, s1)
    requires (n == name || n in d1) && n !in d0
    ensures exists u :: u in s1 && u !in s0 && s1[u] == n
  {
    hide Ranked, Describes, Extends;
    if n != name {
      var u :| u in s1 && u !in s0[t := name] && s1[u] == n;
      assert u !in s0;
    }
  }

  // ----- properties of a struct ------------------------------------------------------------------------

  lemma AddsBelow(g: Graph, r: Ranks, t: TypeId, i: nat, limit: nat)
    requires Sized(g, r) && IsStruct(g, t) && i < |g.types[t].fields|
    requires Below(g, r, AllFields(g, r, t), limit)
    ensures Below(g, r, FieldAdds(g, r, t, i), limit)
  {
    FlatBelow(g, r, t, i + 1, [], limit);
    FlatStep(g, r, t, i, []);
    hide Sized, Flat, FieldAdds;
    LastBelow(g, r, [] + Flat(g, r, t, i), FieldAdds(g, r, t, i), limit);
  }

  lemma LastBelow(g: Graph, r: Ranks, before: seq<Property>, added: seq<Property>, limit: nat)
    requires Below(g, r, before + added, limit)
    ensures Below(g, r, added, limit)
  {
    assert forall k :: 0 <= k < |added| ==> added[k] == (before + added)[|before| + k];
  }

  lemma PropertiesAppend(g: Graph, r: Ranks, names: Names, fields: seq<Property>, f: Property, limit: nat)
    requires Ranked(g, r) && Below(g, r, fields, limit) && Below(g, r, fields + [f], limit) && f.typ in g.types
    requires Properties(g, r, names, fields, limit).Some? && Expected(g, r, names, f.typ).Some?
    ensures Properties(g, r, names, fields + [f], limit) ==
      Some(WithProperty(Properties(g, r, names, fields, limit).value, f, Expected(g, r, names, f.typ).value))
  {
    hide Ranked, Expected, WithProperty;
    assert (fields + [f])[..|fields|] == fields;
  }

  lemma ComponentIs(g: Graph, r: Ranks, names: Names, t: TypeId, schema: Schema)
    requires Ranked(g, r) && IsStruct(g, t) && Below(g, r, AllFields(g, r, t), r.top)
    requires Properties(g, r, names, AllFields(g, r, t), r.top).Some?
    requires schema == Properties(g, r, names, AllFields(g, r, t), r.top).value
    ensures Component(g, r, names, t) == Some(schema)
  {
    hide Sized, TypeRanked, IsStruct, AllFields, Below, Properties;
  }

  lemma ReserveSafe(g: Graph, defs: Components, seen: Names, t: TypeId, name: string)
    requires SeenSafe(g, defs, seen) && IsNamed(g, t) && t !in seen && name !in defs
    ensures SeenSafe(g, defs[name := None], seen[t := name])
  {
    hide IsNamed;
  }

  lemma StoreSafe(g: Graph, defs: Components, seen: Names, name: string, body: Schema)
    requires SeenSafe(g, defs, seen)
    ensures SeenSafe(g, defs[name := Some(body)], seen)
  {
    hide IsNamed, Injective;
  }

  /** What is left after a named struct is described and its component stored. */
  lemma NamedDone(g: Graph, r: Ranks, d0: Components, s0: Names, t: TypeId, name: string,
                  d1: Components, s1: Names, body: Schema)
    requires Ranked(g, r) && Whole(g) && IsNamed(g, t) && t !in s0 && name !in d0 && SeenSafe(g, d1, s1)
    requires Grows(g, r, d0[name := None], s0[t := name], d1, s1)
    requires Below(g, r, AllFields(g, r, t), r.top)
    requires Properties(g, r, s1, AllFields(g, r, t), r.top) == Some(body)
    requires Reaches(g, Expand(t), s0.Keys + {t}, s1.Keys)
    ensures Grows(g, r, d0, s0, d1[name := Some(body)], s1) && SeenSafe(g, d1[name := Some(body)], s1)
    ensures t in s1 && s1[t] == name && Reaches(g, Describe(t), s0.Keys, s1.Keys)
  {
    NamedIsStruct(g, t);
    hide *;
    ComponentIs(g, r, s1, t, body);
    GrowsNamed(g, r, d0, s0, t, name, d1, s1, body);
    StoreSafe(g, d1, s1, name, body);
    GrowsKeeps(g, r, d0[name := None], s0[t := name], d1, s1);
    ExtendsAt(s0[t := name], s1, t);
    NamedReaches(g, t, s0.Keys, s1.Keys);
  }

  lemma NamedIsStruct(g: Graph, t: TypeId)
    requires IsNamed(g, t)
    ensures IsStruct(g, t)
  {}

  lemma ExtendsAt(names: Names, more: Names, t: TypeId)
    requires Extends(names, more) && t in names
    ensures t in more && more[t] == names[t]
  {}

  lemma UnseenFalls(g: Graph, seen: Names, more: Names, t: TypeId)
    requires more.Keys == seen.Keys + {t} && IsNamed(g, t) && t !in seen
    ensures Unseen(g, more.Keys) < Unseen(g, seen.Keys)
  {
    FewerUnseen(g, seen.Keys, more.Keys);
    hide Unseen;
    assert t in g.types && t in more.Keys && t !in seen.Keys;
  }

  lemma UnseenShrinks(g: Graph, seen: Names, more: Names)
    requires Extends(seen, more)
    ensures Unseen(g, more.Keys) <= Unseen(g, seen.Keys)
  {
    FewerUnseen(g, seen.Keys, more.Keys);
  }

  // ----- how the traversal goes on ----------------------------------------------------------------------

  /** Where a type leads to at once: nowhere, or to one call, with the same types seen unless it is a named
      struct that is new. */
  lemma TypeReaches(g: Graph, t: TypeId, seen: set<TypeId>)
    requires Whole(g) && t in g.types
    ensures NextCall(g, seen, t).None? ==> Reaches(g, Describe(t), seen, seen)
  {
    hide Whole, NextCall, Reaches;
    if NextCall(g, seen, t).None? {
      ReachesNothing(g, t, seen);
    }
  }

  lemma NamedReaches(g: Graph, t: TypeId, seen: set<TypeId>, after: set<TypeId>)
    requires Whole(g) && IsNamed(g, t) && t !in seen && Reaches(g, Expand(t), seen + {t}, after)
    ensures Reaches(g, Describe(t), seen, after)
  {
    assert NextCall(g, seen, t) == Some((seen + {t}, Expand(t)));
    hide Whole, NextCall, Reaches;
    ReachesNext(g, t, seen, after);
  }

  // ----- the generator -------------------------------------------------------------------------------

  /** The component map that one document shares, and the types named in the current traversal. */
  class Traversal {
    var defs: Components
    var seen: Names

    constructor (defs: Components)
      ensures this.defs == defs && seen == map[]
    {
      this.defs, seen := defs, map[];
    }

    ghost predicate Valid(g: Graph, r: Ranks)
      reads this
    {
      Ranked(g, r) && Whole(g) && SeenSafe(g, defs, seen)
    }

    /** schemaForType. */
    method SchemaForType(g: Graph, ghost r: Ranks, t: TypeId) returns (schema: Schema)
      requires Valid(g, r) && t in g.types
      modifies this
      ensures Valid(g, r) && Grows(g, r, old(defs), old(seen), defs, seen)
      ensures Expected(g, r, seen, t) == Some(schema)
      ensures Reaches(g, Describe(t), old(seen.Keys), seen.Keys)
      decreases Unseen(g, seen.Keys), r.rank(t) + 1, 0, 0
    {
      assert TypeRanked(g, r, t) && TypeWhole(g, t);
      GrowsItself(g, r, defs, seen);
      TypeReaches(g, t, seen.Keys);
      hide Sized, Whole, SeenSafe, Grows, Flat, WithNull, RefTo, Simple, Object, Reaches;
      match g.types[t] {
        case Pointer(elem) =>
          var inner := SchemaForType(g, r, elem);
          schema := WithNull(inner);
          ReachesNext(g, t, old(seen.Keys), seen.Keys);
        case Bool => schema := Simple("boolean", "");
        case Integer => schema := Simple("integer", "");
        case Uint8 => schema := Simple("integer", "");
        case Int64 => schema := Simple("integer", "int64");
        case Float32 => schema := Simple("number", "float");
        case Float64 => schema := Simple("number", "double");
        case Str => schema := Simple("string", "");
        case List(elem) =>
          if g.types[elem].Uint8? {
            return Simple("string", "byte");
          }
          var items := SchemaForType(g, r, elem);
          schema := ANY.(kind := "array", items := Some(items));
          ReachesNext(g, t, old(seen.Keys), seen.Keys);
        case Map(key, elem) =>
          if g.types[key].Str? {
            var values := SchemaForType(g, r, elem);
            ReachesNext(g, t, old(seen.Keys), seen.Keys);
            return ANY.(kind := "object", additional := Some(values));
          }
          schema := Simple("object", "");
        case Struct(name, pkg, _) =>
          if t == g.time {
            return Simple("string", "date-time");
          }
          if name == "" {
            schema := StructSchema(g, r, t, r.rank(t));
            ReachesNext(g, t, old(seen.Keys), seen.Keys);
            return;
          }
          if t in seen {
            return RefTo(seen[t]);
          }
          schema := NamedSchema(g, r, t);
        case Other => schema := ANY;
      }
    }

    /** The branch of schemaForType for a named struct that was not met before: its name is reserved
        before its fields are looked at, so that a type that refers to itself terminates. */
    method NamedSchema(g: Graph, ghost r: Ranks, t: TypeId) returns (schema: Schema)
      requires Valid(g, r) && IsNamed(g, t) && t !in seen
      modifies this
      ensures Valid(g, r) && Grows(g, r, old(defs), old(seen), defs, seen)
      ensures t in seen && schema == RefTo(seen[t])
      ensures Reaches(g, Describe(t), old(seen.Keys), seen.Keys)
      decreases Unseen(g, seen.Keys), r.rank(t), 0, 0
    {
      hide Sized, Whole, SeenSafe, Grows, TypeRanked, RefTo, Below, Reaches, Properties, AllFields, Unseen;
      var name := Reserve(g, r, t);
      var body := StructSchema(g, r, t, r.top);
      NamedDone(g, r, old(defs), old(seen), t, name, defs, seen, body);
      defs := defs[name := Some(body)];
      schema := RefTo(name);
    }

    method Reserve(g: Graph, ghost r: Ranks, t: TypeId) returns (name: string)
      requires Valid(g, r) && IsNamed(g, t) && t !in seen
      modifies this
      ensures Valid(g, r) && Below(g, r, AllFields(g, r, t), r.top)
      ensures name !in old(defs) && defs == old(defs)[name := None] && seen == old(seen)[t := name]
      ensures Unseen(g, seen.Keys) < old(Unseen(g, seen.Keys)) && seen.Keys == old(seen.Keys) + {t}
    {
      hide Sized, Whole, SeenSafe, TypeRanked, AllFields, Below, Unseen, Capitalized, QualifiedName, Numbered;
      name := ComponentName(g.types[t].name, g.types[t].pkg, defs);
      ReserveSafe(g, defs, seen, t, name);
      NamedFieldsBelow(g, r, t);
      assert seen[t := name].Keys == seen.Keys + {t};
      UnseenFalls(g, seen, seen[t := name], t);
      seen := seen[t := name];
      defs := defs[name := None];
    }

    /** structSchema. */
    method StructSchema(g: Graph, ghost r: Ranks, t: TypeId, ghost limit: nat) returns (schema: Schema)
      requires Valid(g, r) && IsStruct(g, t) && Below(g, r, AllFields(g, r, t), limit)
      modifies this
      ensures Valid(g, r) && Grows(g, r, old(defs), old(seen), defs, seen)
      ensures Properties(g, r, seen, AllFields(g, r, t), limit) == Some(schema)
      ensures Reaches(g, Expand(t), old(seen.Keys), seen.Keys)
      decreases Unseen(g, seen.Keys), limit, r.size(t) + 1, 1
    {
      hide Sized, Whole, SeenSafe, Grows, Flat, Object, AllFields, Reaches;
      schema := AddStructFields(g, r, t, limit, [], Object(map[]));
      assert [] + AllFields(g, r, t) == AllFields(g, r, t);
    }

    /** addStructFields: what the fields of `t` add to an object made of earlier fields. */
    method AddStructFields(g: Graph, ghost r: Ranks, t: TypeId, ghost limit: nat, ghost done: seq<Property>,
                           parent: Schema)
        returns (schema: Schema)
      requires Valid(g, r) && IsStruct(g, t) && Below(g, r, AllFields(g, r, t), limit)
      requires Below(g, r, done, limit) && Properties(g, r, seen, done, limit) == Some(parent)
      modifies this
      ensures Valid(g, r) && Grows(g, r, old(defs), old(seen), defs, seen)
      ensures Below(g, r, done + AllFields(g, r, t), limit)
      ensures Properties(g, r, seen, done + AllFields(g, r, t), limit) == Some(schema)
      ensures Reaches(g, Expand(t), old(seen.Keys), seen.Keys)
      decreases Unseen(g, seen.Keys), limit, r.size(t) + 1, 0
    {
      hide Sized, Whole, SeenSafe, Grows, Flat, TypeRanked, FieldAdds, Properties, Expected, Below, Extends,
        FieldCall, Reaches, ReachesFields, IsCall, Unseen;
      schema := parent;
      GrowsItself(g, r, defs, seen);
      FlatNone(g, r, t, done);
      FlatBelow(g, r, t, 0, done, limit);
      FlatBelow(g, r, t, |g.types[t].fields|, done, limit);
      ReachesNoFields(g, t, seen.Keys);
      var i := 0;
      while i < |g.types[t].fields|
        invariant 0 <= i <= |g.types[t].fields|
        invariant Valid(g, r) && Grows(g, r, old(defs), old(seen), defs, seen)
        invariant Below(g, r, done + Flat(g, r, t, i), limit)
        invariant Properties(g, r, seen, done + Flat(g, r, t, i), limit) == Some(schema)
        invariant ReachesFields(g, t, i, old(seen.Keys), seen.Keys)
      {
        FlatStep(g, r, t, i, done);
        FlatBelow(g, r, t, i + 1, done, limit);
        AddsBelow(g, r, t, i, limit);
        ghost var d1, s1 := defs, seen;
        GrowsKeeps(g, r, old(defs), old(seen), defs, seen);
        UnseenShrinks(g, old(seen), seen);
        schema := AddField(g, r, t, i, limit, done + Flat(g, r, t, i), schema);
        ReachesField(g, t, i, old(seen.Keys), s1.Keys, seen.Keys);
        GrowsOn(g, r, old(defs), old(seen), d1, s1, defs, seen);
        i := i + 1;
      }
      ReachesStruct(g, t, old(seen.Keys), seen.Keys);
    }

    /** The body of the loop over fields. */
    method AddField(g: Graph, ghost r: Ranks, t: TypeId, i: nat, ghost limit: nat, ghost done: seq<Property>,
                    parent: Schema)
        returns (schema: Schema)
      requires Valid(g, r) && IsStruct(g, t) && i < |g.types[t].fields|
      requires Below(g, r, done, limit) && Below(g, r, FieldAdds(g, r, t, i), limit)
      requires Below(g, r, done + FieldAdds(g, r, t, i), limit)
      requires Properties(g, r, seen, done, limit) == Some(parent)
      modifies this
      ensures Valid(g, r) && Grows(g, r, old(defs), old(seen), defs, seen)
      ensures Properties(g, r, seen, done + FieldAdds(g, r, t, i), limit) == Some(schema)
      ensures var next := FieldCall(g, g.types[t].fields[i]);
        if next.None? then seen == old(seen) else Reaches(g, next.value, old(seen.Keys), seen.Keys)
      decreases Unseen(g, seen.Keys), limit, r.size(t), 1
    {
      hide Whole, SeenSafe, Grows, Flat, TypeRanked, Properties, Expected, AllFields, JsonName, Quoted, Reaches,
        AllConstrained, RequiredBy, Tokens, Simple;
      schema := parent;
      var field := g.types[t].fields[i];
      assert FieldSized(g, r, t, field);
      GrowsItself(g, r, defs, seen);
      assert done + [] == done;
      if !field.exported {
        return;
      }
      if IsEmbedded(g, field) {
        schema := AddStructFields(g, r, field.typ, limit, done, parent);
        return;
      }
      var name := JsonName(field.json);
      if name == "-" {
        return;
      }
      if name == "" {
        name := field.name;
      }
      assert FieldAdds(g, r, t, i)[0].typ == field.typ;
      ghost var s0 := seen;
      var fieldSchema := SchemaForType(g, r, field.typ);
      GrowsKeeps(g, r, old(defs), old(seen), defs, seen);
      PropertiesStay(g, r, s0, seen, done, limit);
      PropertiesAppend(g, r, seen, done, PropertyOf(field), limit);
      if Quoted(field.json) {
        fieldSchema := Simple("string", "");
      }
      fieldSchema, schema := ApplyValidateTag(field.validate, fieldSchema, schema, name);
      schema := schema.(properties := schema.properties[name := fieldSchema]);
    }
  }

  // ----- validate tags -------------------------------------------------------------------------------

  lemma OneMoreToken(schema: Schema, name: string, tokens: seq<string>, i: nat)
    requires i < |tokens|
    ensures AllConstrained(schema, tokens[..i + 1]) == Constrained(AllConstrained(schema, tokens[..i]), tokens[i])
    ensures RequiredBy(name, tokens[..i + 1]) ==
      if Cut(tokens[i]).0 == "required" then RequiredBy(name, tokens[..i]) + [name] else RequiredBy(name, tokens[..i])
  {
    assert tokens[..i + 1][..i] == tokens[..i];
    hide Constrained, Cut;
  }

  lemma NoTokens(schema: Schema, name: string, tokens: seq<string>)
    ensures AllConstrained(schema, tokens[..0]) == schema && RequiredBy(name, tokens[..0]) == []
  {}

  /** applyValidateTag: each constraint in turn, on the schemas of the field and of its struct. */
  method ApplyValidateTag(tag: string, fieldSchema: Schema, parent: Schema, name: string)
      returns (field: Schema, more: Schema)
    ensures field == AllConstrained(fieldSchema, Tokens(tag))
    ensures more == parent.(required := parent.required + RequiredBy(name, Tokens(tag)))
  {
    hide AllConstrained, RequiredBy, Fields, ParseInt, Cut;
    field, more := fieldSchema, parent;
    if tag == "" {
      NoTokens(fieldSchema, name, []);
      return;
    }
    var tokens := Split(tag, ',');
    NoTokens(fieldSchema, name, tokens);
    var i := 0;
    while i < |tokens|
      invariant 0 <= i <= |tokens|
      invariant field == AllConstrained(fieldSchema, tokens[..i])
      invariant more == parent.(required := parent.required + RequiredBy(name, tokens[..i]))
    {
      OneMoreToken(fieldSchema, name, tokens, i);
      var (key, value) := Cut(tokens[i]);
      if key == "required" {
        more := more.(required := more.required + [name]);
      } else if key == "min" && field.kind == "string" {
        if ParseInt(value).Some? {
          field := field.(minLength := ParseInt(value));
        }
      } else if key == "max" && field.kind == "string" {
        if ParseInt(value).Some? {
          field := field.(maxLength := ParseInt(value));
        }
      } else if key == "oneof" && field.kind == "string" {
        field := field.(choices := Fields(value));
      }
      i := i + 1;
    }
    assert tokens[..i] == tokens;
  }
}
