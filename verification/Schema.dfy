/** runtime/openapi/schema.go: Go types, and the OpenAPI schemas that describe them. */
module Schema {
  import opened Text
  import opened Numbers

  type TypeId = nat

  datatype Field = Field(name: string, typ: TypeId, exported: bool, anonymous: bool, json: string, form: string,
                         validate: string)

  /** A Go type, as reflection shows it. A struct without a name is a literal one. */
  datatype GoType =
    | Bool | Integer | Uint8 | Int64 | Float32 | Float64 | Str
    | Pointer(elem: TypeId)
    | List(elem: TypeId)
    | Map(key: TypeId, elem: TypeId)
    | Struct(name: string, pkg: string, fields: seq<Field>)
    | Other

  /** The types of a program, which may refer to one another in cycles; one of them is time.Time. */
  datatype Graph = Graph(types: map<TypeId, GoType>, time: TypeId)

  datatype Schema = Schema(
    kind: string, format: string, ref: string, nullable: bool,
    items: Option<Schema>, additional: Option<Schema>, properties: map<string, Schema>, required: seq<string>,
    allOf: seq<Schema>, minLength: Option<int64>, maxLength: Option<int64>, choices: seq<string>)

  const ANY := Schema("", "", "", false, None, None, map[], [], [], None, None, [])

  const PREFIX := "#/components/schemas/"

  function Simple(kind: string, format: string): Schema {
    ANY.(kind := kind, format := format)
  }

  function RefTo(name: string): Schema {
    ANY.(ref := PREFIX + name)
  }

  function Object(properties: map<string, Schema>): Schema {
    ANY.(kind := "object", properties := properties)
  }

  /** The schema of a pointer: a reference cannot be nullable itself. */
  function WithNull(inner: Schema): Schema {
    if inner.ref != "" then ANY.(nullable := true, allOf := [ANY.(ref := inner.ref)])
    else inner.(nullable := true)
  }

  // ----- fields ---------------------------------------------------------------------------------------

  predicate IsStruct(g: Graph, t: TypeId) {
    t in g.types && g.types[t].Struct? && t != g.time
  }

  predicate IsNamed(g: Graph, t: TypeId) {
    IsStruct(g, t) && g.types[t].name != ""
  }

  /** The name in a json tag. */
  function JsonName(tag: string): string {
    tag[..IndexOf(tag, ',')]
  }

  /** The options in a json tag hold `string`. */
  predicate Quoted(tag: string) {
    IndexOf(tag, ',') < |tag| && "string" in Split(tag[IndexOf(tag, ',') + 1..], ',')
  }

  /** A property: its name, its type, whether the tag makes it a string, and its constraints. */
  datatype Property = Property(name: string, typ: TypeId, quoted: bool, validate: string)

  /** strings.Cut at `=`: what stands before it, and after it. */
  function Cut(token: string): (string, string) {
    var i := IndexOf(token, '=');
    (token[..i], if i < |token| then token[i + 1..] else "")
  }

  /** One constraint of a validate tag, on a field's schema. */
  function Constrained(schema: Schema, token: string): Schema {
    var (key, value) := Cut(token);
    if schema.kind != "string" then schema
    else if key == "min" && ParseInt(value).Some? then schema.(minLength := ParseInt(value))
    else if key == "max" && ParseInt(value).Some? then schema.(maxLength := ParseInt(value))
    else if key == "oneof" then schema.(choices := Fields(value))
    else schema
  }

  /** All of them, in order. */
  function AllConstrained(schema: Schema, tokens: seq<string>): Schema {
    if tokens == [] then schema
    else Constrained(AllConstrained(schema, tokens[..|tokens| - 1]), tokens[|tokens| - 1])
  }

  /** `name`, once for each `required` in a tag. */
  function RequiredBy(name: string, tokens: seq<string>): seq<string> {
    if tokens == [] then []
    else
      var before := RequiredBy(name, tokens[..|tokens| - 1]);
      if Cut(tokens[|tokens| - 1]).0 == "required" then before + [name] else before
  }

  function Tokens(tag: string): seq<string> {
    if tag == "" then [] else Split(tag, ',')
  }

  /** An object with one property more. */
  function WithProperty(parent: Schema, p: Property, schema: Schema): Schema {
    var field := if p.quoted then Simple("string", "") else schema;
    parent.(properties := parent.properties[p.name := AllConstrained(field, Tokens(p.validate))],
            required := parent.required + RequiredBy(p.name, Tokens(p.validate)))
  }

  /** Does addStructFields go into the field instead of describing it? */
  predicate IsEmbedded(g: Graph, f: Field) {
    f.exported && f.anonymous && IsStruct(g, f.typ)
  }

  predicate IsProperty(g: Graph, f: Field) {
    f.exported && !IsEmbedded(g, f) && JsonName(f.json) != "-"
  }

  function PropertyOf(f: Field): Property {
    Property(if JsonName(f.json) == "" then f.name else JsonName(f.json), f.typ, Quoted(f.json), f.validate)
  }

  /** Why traversals end: `size` falls from a struct to the structs it embeds, and `rank`, always below
      `top`, from a type to the types that its description holds without a reference. */
  datatype Ranks = Ranks(rank: TypeId -> nat, size: TypeId -> nat, top: nat)

  ghost predicate FieldSized(g: Graph, r: Ranks, t: TypeId, f: Field) {
    f.typ in g.types && (IsEmbedded(g, f) ==> r.size(f.typ) < r.size(t))
  }

  /** Every type is there, and no struct holds itself by value. */
  ghost predicate Sized(g: Graph, r: Ranks) {
    forall t :: IsStruct(g, t) ==>
      forall i :: 0 <= i < |g.types[t].fields| ==> FieldSized(g, r, t, g.types[t].fields[i])
  }

  /** The properties that the first `n` fields of a struct give, those of embedded structs in place. */
  ghost function Flat(g: Graph, r: Ranks, t: TypeId, n: nat): (fields: seq<Property>)
    requires Sized(g, r) && IsStruct(g, t) && n <= |g.types[t].fields|
    ensures forall i :: 0 <= i < |fields| ==> fields[i].typ in g.types
    decreases r.size(t), n
  {
    if n == 0 then []
    else
      var f := g.types[t].fields[n - 1];
      assert FieldSized(g, r, t, f);
      if IsEmbedded(g, f) then Flat(g, r, t, n - 1) + Flat(g, r, f.typ, |g.types[f.typ].fields|)
      else if IsProperty(g, f) then Flat(g, r, t, n - 1) + [PropertyOf(f)]
      else Flat(g, r, t, n - 1)
  }

  ghost function AllFields(g: Graph, r: Ranks, t: TypeId): (fields: seq<Property>)
    requires Sized(g, r) && IsStruct(g, t)
    ensures forall i :: 0 <= i < |fields| ==> fields[i].typ in g.types
  {
    Flat(g, r, t, |g.types[t].fields|)
  }

  ghost predicate Below(g: Graph, r: Ranks, fields: seq<Property>, limit: nat) {
    forall i :: 0 <= i < |fields| ==> fields[i].typ in g.types && r.rank(fields[i].typ) < limit
  }

  ghost predicate TypeRanked(g: Graph, r: Ranks, t: TypeId)
    requires Sized(g, r) && t in g.types
  {
    && r.rank(t) < r.top
    && match g.types[t]
       case Pointer(elem) => elem in g.types && r.rank(elem) < r.rank(t)
       case List(elem) => elem in g.types && (!g.types[elem].Uint8? ==> r.rank(elem) < r.rank(t))
       case Map(key, elem) => key in g.types && elem in g.types && (g.types[key].Str? ==> r.rank(elem) < r.rank(t))
       case Struct(name, _, _) => t != g.time && name == "" ==> Below(g, r, AllFields(g, r, t), r.rank(t))
       case _ => true
  }

  /** Every cycle of the type graph passes through a named struct that is not just embedded. */
  ghost predicate Ranked(g: Graph, r: Ranks) {
    Sized(g, r) && forall t :: t in g.types ==> TypeRanked(g, r, t)
  }

  // ----- fields of a struct, one after the other ------------------------------------------------------

  lemma {:induction false} FlatPrefix(g: Graph, r: Ranks, t: TypeId, i: nat, n: nat)
    requires Sized(g, r) && IsStruct(g, t) && i <= n <= |g.types[t].fields|
    ensures Flat(g, r, t, i) <= Flat(g, r, t, n)
    decreases n
  {
    hide Sized, IsEmbedded, IsProperty, PropertyOf, IsStruct;
    if i < n {
      FlatPrefix(g, r, t, i, n - 1);
      FlatGrows(g, r, t, n);
    }
  }

  lemma FlatGrows(g: Graph, r: Ranks, t: TypeId, n: nat)
    requires Sized(g, r) && IsStruct(g, t) && 0 < n <= |g.types[t].fields|
    ensures Flat(g, r, t, n - 1) <= Flat(g, r, t, n)
  {
    hide Sized, IsEmbedded, IsProperty, PropertyOf, IsStruct;
  }

  /** The properties up to field `i`, after earlier ones, are below the limit. */
  lemma FlatBelow(g: Graph, r: Ranks, t: TypeId, i: nat, done: seq<Property>, limit: nat)
    requires Sized(g, r) && IsStruct(g, t) && i <= |g.types[t].fields|
    requires Below(g, r, done, limit) && Below(g, r, AllFields(g, r, t), limit)
    ensures Below(g, r, done + Flat(g, r, t, i), limit)
  {
    FlatPrefix(g, r, t, i, |g.types[t].fields|);
    var part, whole := Flat(g, r, t, i), AllFields(g, r, t);
    hide Sized, Flat, IsStruct;
    assert forall k :: 0 <= k < |part| ==> part[k] == whole[k];
  }

  lemma FlatNone(g: Graph, r: Ranks, t: TypeId, done: seq<Property>)
    requires Sized(g, r) && IsStruct(g, t)
    ensures done + Flat(g, r, t, 0) == done
  {
    hide Sized;
  }

  /** What field `i` adds. */
  ghost function FieldAdds(g: Graph, r: Ranks, t: TypeId, i: nat): seq<Property>
    requires Sized(g, r) && IsStruct(g, t) && i < |g.types[t].fields|
  {
    var f := g.types[t].fields[i];
    assert FieldSized(g, r, t, f);
    if IsEmbedded(g, f) then AllFields(g, r, f.typ) else if IsProperty(g, f) then [PropertyOf(f)] else []
  }

  lemma FlatStep(g: Graph, r: Ranks, t: TypeId, i: nat, done: seq<Property>)
    requires Sized(g, r) && IsStruct(g, t) && i < |g.types[t].fields|
    ensures done + Flat(g, r, t, i + 1) == done + Flat(g, r, t, i) + FieldAdds(g, r, t, i)
  {
    hide IsEmbedded, IsProperty, PropertyOf, Sized, IsStruct;
    var added := FieldAdds(g, r, t, i);
    assert Flat(g, r, t, i + 1) == Flat(g, r, t, i) + added;
  }

  // ----- what describes a type -------------------------------------------------------------------------------

  type Names = map<TypeId, string>

  /** The schema of a type, when the named structs have these component names; None if one is missing. */
  ghost function Expected(g: Graph, r: Ranks, names: Names, t: TypeId): Option<Schema>
    requires Ranked(g, r) && t in g.types
    decreases r.rank(t) + 1, 0
  {
    assert TypeRanked(g, r, t);
    match g.types[t]
    case Bool => Some(Simple("boolean", ""))
    case Integer => Some(Simple("integer", ""))
    case Uint8 => Some(Simple("integer", ""))
    case Int64 => Some(Simple("integer", "int64"))
    case Float32 => Some(Simple("number", "float"))
    case Float64 => Some(Simple("number", "double"))
    case Str => Some(Simple("string", ""))
    case Pointer(elem) =>
      var inner := Expected(g, r, names, elem);
      if inner.None? then None else Some(WithNull(inner.value))
    case List(elem) =>
      if g.types[elem].Uint8? then Some(Simple("string", "byte"))
      else
        var items := Expected(g, r, names, elem);
        if items.None? then None else Some(ANY.(kind := "array", items := items))
    case Map(key, elem) =>
      if !g.types[key].Str? then Some(Simple("object", ""))
      else
        var values := Expected(g, r, names, elem);
        if values.None? then None else Some(ANY.(kind := "object", additional := values))
    case Struct(name, _, _) =>
      if t == g.time then Some(Simple("string", "date-time"))
      else if name == "" then
        Properties(g, r, names, AllFields(g, r, t), r.rank(t))
      else if t in names then Some(RefTo(names[t]))
      else None
    case Other => Some(ANY)
  }

  /** The object with these properties. */
  ghost function Properties(g: Graph, r: Ranks, names: Names, fields: seq<Property>, limit: nat): Option<Schema>
    requires Ranked(g, r) && Below(g, r, fields, limit)
    decreases limit, |fields|
  {
    if fields == [] then Some(Object(map[]))
    else
      var f := fields[|fields| - 1];
      var before := Properties(g, r, names, fields[..|fields| - 1], limit);
      var schema := Expected(g, r, names, f.typ);
      if before.None? || schema.None? then None else Some(WithProperty(before.value, f, schema.value))
  }

  lemma NamedFieldsBelow(g: Graph, r: Ranks, t: TypeId)
    requires Ranked(g, r) && IsStruct(g, t)
    ensures Below(g, r, AllFields(g, r, t), r.top)
  {
    hide Sized, Flat;
    var fields := AllFields(g, r, t);
    forall i | 0 <= i < |fields|
      ensures r.rank(fields[i].typ) < r.top
    {
      assert TypeRanked(g, r, fields[i].typ);
    }
  }

  /** The component of a named struct. */
  ghost function Component(g: Graph, r: Ranks, names: Names, t: TypeId): Option<Schema>
    requires Ranked(g, r) && IsStruct(g, t)
  {
    NamedFieldsBelow(g, r, t);
    Properties(g, r, names, AllFields(g, r, t), r.top)
  }

  // ----- names only ever grow ----------------------------------------------------------------------------------

  predicate Extends(names: Names, more: Names) {
    forall t :: t in names ==> t in more && more[t] == names[t]
  }

  lemma {:induction false} ExpectedStays(g: Graph, r: Ranks, names: Names, more: Names, t: TypeId)
    requires Ranked(g, r) && t in g.types && Extends(names, more) && Expected(g, r, names, t).Some?
    ensures Expected(g, r, more, t) == Expected(g, r, names, t)
    decreases r.rank(t) + 1, 0
  {
    assert TypeRanked(g, r, t);
    hide Sized, Flat, Simple, Object, WithNull, RefTo;
    match g.types[t]
    case Pointer(elem) => ExpectedStays(g, r, names, more, elem);
    case List(elem) =>
      if !g.types[elem].Uint8? {
        ExpectedStays(g, r, names, more, elem);
      }
    case Map(key, elem) =>
      if g.types[key].Str? {
        ExpectedStays(g, r, names, more, elem);
      }
    case Struct(name, _, _) =>
      if t != g.time && name == "" {
        PropertiesStay(g, r, names, more, AllFields(g, r, t), r.rank(t));
      }
    case _ =>
  }

  lemma {:induction false} PropertiesStay(g: Graph, r: Ranks, names: Names, more: Names, fields: seq<Property>,
                                          limit: nat)
    requires Ranked(g, r) && Below(g, r, fields, limit) && Extends(names, more)
    requires Properties(g, r, names, fields, limit).Some?
    ensures Properties(g, r, more, fields, limit) == Properties(g, r, names, fields, limit)
    decreases limit, |fields|
  {
    hide Ranked, Expected, WithProperty, Extends;
    if fields != [] {
      PropertiesStay(g, r, names, more, fields[..|fields| - 1], limit);
      ExpectedStays(g, r, names, more, fields[|fields| - 1].typ);
    }
  }

  lemma ComponentStays(g: Graph, r: Ranks, names: Names, more: Names, t: TypeId)
    requires Ranked(g, r) && IsStruct(g, t) && Extends(names, more) && Component(g, r, names, t).Some?
    ensures Component(g, r, more, t) == Component(g, r, names, t)
  {
    hide Sized, TypeRanked, Properties, Extends, IsStruct, Object, AllFields;
    NamedFieldsBelow(g, r, t);
    PropertiesStay(g, r, names, more, AllFields(g, r, t), r.top);
  }

  // ----- references --------------------------------------------------------------------------------------------------

  /** Every reference in the schema is to one of these components. */
  predicate RefsIn(s: Schema, components: set<string>)
    decreases s
  {
    && (s.ref != "" ==> PREFIX <= s.ref && s.ref[|PREFIX|..] in components)
    && (s.items.Some? ==> RefsIn(s.items.value, components))
    && (s.additional.Some? ==> RefsIn(s.additional.value, components))
    && (forall name :: name in s.properties ==> RefsIn(s.properties[name], components))
    && (forall i :: 0 <= i < |s.allOf| ==> RefsIn(s.allOf[i], components))
  }

  lemma {:induction false} RefsInMore(s: Schema, components: set<string>, more: set<string>)
    requires RefsIn(s, components) && components <= more
    ensures RefsIn(s, more)
    decreases s
  {
    if s.items.Some? {
      RefsInMore(s.items.value, components, more);
    }
    if s.additional.Some? {
      RefsInMore(s.additional.value, components, more);
    }
    forall name | name in s.properties
      ensures RefsIn(s.properties[name], more)
    {
      RefsInMore(s.properties[name], components, more);
    }
    forall i | 0 <= i < |s.allOf|
      ensures RefsIn(s.allOf[i], more)
    {
      RefsInMore(s.allOf[i], components, more);
    }
  }

  lemma WithNullRefs(inner: Schema, components: set<string>)
    requires RefsIn(inner, components)
    ensures RefsIn(WithNull(inner), components)
  {}

  lemma RefToRefs(name: string, components: set<string>)
    requires name in components
    ensures RefsIn(RefTo(name), components)
  {}

  lemma {:induction false} ExpectedRefs(g: Graph, r: Ranks, names: Names, t: TypeId)
    requires Ranked(g, r) && t in g.types && Expected(g, r, names, t).Some?
    ensures RefsIn(Expected(g, r, names, t).value, names.Values)
    decreases r.rank(t) + 1, 0
  {
    assert TypeRanked(g, r, t);
    hide Sized, Flat, WithNull, RefTo;
    match g.types[t]
    case Pointer(elem) =>
      ExpectedRefs(g, r, names, elem);
      WithNullRefs(Expected(g, r, names, elem).value, names.Values);
    case List(elem) =>
      if !g.types[elem].Uint8? {
        ExpectedRefs(g, r, names, elem);
      }
    case Map(key, elem) =>
      if g.types[key].Str? {
        ExpectedRefs(g, r, names, elem);
      }
    case Struct(name, _, _) =>
      if t != g.time {
        if name == "" {
          PropertiesRefs(g, r, names, AllFields(g, r, t), r.rank(t));
        } else {
          RefToRefs(names[t], names.Values);
        }
      }
    case _ =>
  }

  lemma {:induction false} ConstrainedRefs(schema: Schema, tokens: seq<string>, components: set<string>)
    requires RefsIn(schema, components)
    ensures RefsIn(AllConstrained(schema, tokens), components)
  {
    hide Constrained, RefsIn;
    if tokens != [] {
      var before, last := AllConstrained(schema, tokens[..|tokens| - 1]), tokens[|tokens| - 1];
      ConstrainedRefs(schema, tokens[..|tokens| - 1], components);
      TokenRefs(before, last, components);
    }
  }

  lemma TokenRefs(schema: Schema, token: string, components: set<string>)
    requires RefsIn(schema, components)
    ensures RefsIn(Constrained(schema, token), components)
  {
    hide RefsIn, ParseInt, Fields, Cut;
    SameRefs(schema, Constrained(schema, token), components);
  }

  lemma SameRefs(s: Schema, like: Schema, components: set<string>)
    requires RefsIn(s, components) && like.ref == s.ref && like.items == s.items && like.additional == s.additional
    requires like.properties == s.properties && like.allOf == s.allOf
    ensures RefsIn(like, components)
  {}

  lemma WithPropertyRefs(parent: Schema, p: Property, schema: Schema, components: set<string>)
    requires RefsIn(parent, components) && RefsIn(schema, components)
    ensures RefsIn(WithProperty(parent, p, schema), components)
  {
    var field := if p.quoted then Simple("string", "") else schema;
    assert RefsIn(field, components);
    ConstrainedRefs(field, Tokens(p.validate), components);
    hide AllConstrained, Tokens, RequiredBy;
  }

  lemma {:induction false} PropertiesRefs(g: Graph, r: Ranks, names: Names, fields: seq<Property>, limit: nat)
    requires Ranked(g, r) && Below(g, r, fields, limit) && Properties(g, r, names, fields, limit).Some?
    ensures RefsIn(Properties(g, r, names, fields, limit).value, names.Values)
    decreases limit, |fields|
  {
    hide Ranked, Expected, WithProperty;
    if fields != [] {
      var f := fields[|fields| - 1];
      PropertiesRefs(g, r, names, fields[..|fields| - 1], limit);
      ExpectedRefs(g, r, names, f.typ);
      WithPropertyRefs(Properties(g, r, names, fields[..|fields| - 1], limit).value, f,
                       Expected(g, r, names, f.typ).value, names.Values);
    }
  }

  lemma ComponentRefs(g: Graph, r: Ranks, names: Names, t: TypeId)
    requires Ranked(g, r) && IsStruct(g, t) && Component(g, r, names, t).Some?
    ensures RefsIn(Component(g, r, names, t).value, names.Values)
  {
    hide Sized, TypeRanked, Properties, Object, AllFields, IsStruct;
    NamedFieldsBelow(g, r, t);
    PropertiesRefs(g, r, names, AllFields(g, r, t), r.top);
  }

  // ----- what ranks leave out --------------------------------------------------------------------------------------

  /** type E struct { F *struct { E } }: its only cycle passes through the named struct E, but through its
      fields alone, where addStructFields does not look at `seen`. */
  function EmbeddedCycle(): Graph {
    Graph(map[0 := Struct("E", "p", [Field("F", 1, true, false, "", "", "")]),
              1 := Pointer(2),
              2 := Struct("", "p", [Field("E", 0, true, true, "", "", "")])], 3)
  }

  lemma EmbeddedCycleFields(r: Ranks)
    requires Sized(EmbeddedCycle(), r)
    ensures |AllFields(EmbeddedCycle(), r, 2)| == 1 && AllFields(EmbeddedCycle(), r, 2)[0].typ == 1
  {
    var g := EmbeddedCycle();
    hide Quoted, Sized;
    assert JsonName("") == "";
    assert Flat(g, r, 0, 0) == [] && Flat(g, r, 2, 0) == [];
    assert Flat(g, r, 0, 1) == [PropertyOf(g.types[0].fields[0])];
    assert Flat(g, r, 2, 1) == [] + Flat(g, r, 0, 1);
  }

  /** So a cycle through a named struct does not do: no struct of this graph contains itself by value, and
      yet it has no ranks. */
  lemma EmbeddedCycleHasNoRanks(r: Ranks)
    ensures !Ranked(EmbeddedCycle(), r)
    ensures r.size(0) < r.size(2) ==> Sized(EmbeddedCycle(), r)
  {
    var g := EmbeddedCycle();
    if Sized(g, r) {
      EmbeddedCycleFields(r);
      NotBothRanked(r);
    }
    hide TypeRanked;
  }

  lemma NotBothRanked(r: Ranks)
    requires Sized(EmbeddedCycle(), r)
    requires |AllFields(EmbeddedCycle(), r, 2)| == 1 && AllFields(EmbeddedCycle(), r, 2)[0].typ == 1
    ensures !(TypeRanked(EmbeddedCycle(), r, 1) && TypeRanked(EmbeddedCycle(), r, 2))
  {
    hide Flat, AllFields, Sized;
  }

  /** A struct that refers to itself through a pointer has ranks: type Node struct { Next *Node }. */
  lemma SelfReferenceIsRanked()
    ensures var node := Struct("Node", "p", [Field("Next", 1, true, false, "", "", "")]);
      var g := Graph(map[0 := node, 1 := Pointer(0)], 2);
      Ranked(g, Ranks(t => if t == 1 then 1 else 0, _ => 0, 2))
  {
    hide Flat, Quoted, JsonName;
  }
}
