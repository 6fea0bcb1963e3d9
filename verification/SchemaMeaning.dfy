/** What the schema of a type says, kind by kind and field by field, and what components are called. */
module SchemaMeaning {
  import opened Text
  import opened Numbers
  import opened Schema
  import opened Generator

  // ----- tags ------------------------------------------------------------------------------------------

  /** The name in a tag: what stands before the first comma. */
  predicate IsTagName(tag: string, name: string) {
    ',' !in name && (tag == name || name + "," <= tag)
  }

  lemma TagNameIs(tag: string, name: string)
    ensures tag[..IndexOf(tag, ',')] == name <==> IsTagName(tag, name)
  {
    var i := IndexOf(tag, ',');
    assert i < |tag| ==> tag[..i] + "," == tag[..i + 1];
    if IsTagName(tag, name) {
      if tag != name {
        IndexOfFirst(name, ',', tag[|name| + 1..]);
        assert tag == name + [','] + tag[|name| + 1..];
        assert tag[..|name|] == name;
      } else {
        assert tag[..|tag|] == tag;
      }
    }
    hide IndexOf;
  }

  /** One of the options in a tag: what stands between two commas, or behind the last. */
  ghost predicate HasOption(tag: string, option: string) {
    exists name, rest :: IsTagName(tag, name) && tag == name + "," + rest && option in Split(rest, ',')
  }

  lemma QuotedIs(tag: string)
    ensures Quoted(tag) <==> HasOption(tag, "string")
  {
    var i := IndexOf(tag, ',');
    hide Split;
    TagNameIs(tag, tag[..i]);
    if Quoted(tag) {
      assert tag == tag[..i] + "," + tag[i + 1..];
    }
    if name, rest :| IsTagName(tag, name) && tag == name + "," + rest && "string" in Split(rest, ',') {
      TagNameIs(tag, name);
      assert tag[|name| + 1..] == rest;
    }
    hide IndexOf;
  }

  // ----- the schema of a type ------------------------------------------------------------------------------

  /** A type and a format, and nothing else. */
  predicate IsBare(s: Schema, kind: string, format: string) {
    && s.kind == kind && s.format == format && s.ref == "" && !s.nullable && s.items == None && s.additional == None
    && s.properties == map[] && s.required == [] && s.allOf == [] && s.minLength == None && s.maxLength == None
    && s.choices == []
  }

  /** A reference, and nothing else. */
  predicate IsRef(s: Schema, name: string) {
    s.ref == "#/components/schemas/" + name && IsBare(s.(ref := ""), "", "")
  }

  /** A pointer admits null: what it points to becomes nullable, a reference by way of allOf. */
  predicate IsNullable(s: Schema, inner: Schema) {
    if inner.ref == "" then s.nullable && s.(nullable := inner.nullable) == inner
    else
      && s.nullable && |s.allOf| == 1 && s.allOf[0].ref == inner.ref && IsBare(s.allOf[0].(ref := ""), "", "")
      && IsBare(s.(nullable := false, allOf := []), "", "")
  }

  /** What the schema of a type says by itself, given those of what it holds. */
  ghost predicate Says(g: Graph, r: Ranks, names: Names, t: TypeId, s: Schema)
    requires Ranked(g, r) && t in g.types
  {
    match g.types[t]
    case Bool => IsBare(s, "boolean", "")
    case Integer => IsBare(s, "integer", "")
    case Uint8 => IsBare(s, "integer", "")
    case Int64 => IsBare(s, "integer", "int64")
    case Float32 => IsBare(s, "number", "float")
    case Float64 => IsBare(s, "number", "double")
    case Str => IsBare(s, "string", "")
    case Other => IsBare(s, "", "")
    case Pointer(elem) =>
      elem in g.types && Expected(g, r, names, elem).Some? && IsNullable(s, Expected(g, r, names, elem).value)
    case List(elem) =>
      elem in g.types &&
      if g.types[elem].Uint8? then IsBare(s, "string", "byte")
      else s.items.Some? && s.items == Expected(g, r, names, elem) && IsBare(s.(items := None), "array", "")
    case Map(key, elem) =>
      key in g.types && elem in g.types &&
      if g.types[key].Str? then
        && s.additional.Some? && s.additional == Expected(g, r, names, elem)
        && IsBare(s.(additional := None), "object", "")
      else IsBare(s, "object", "")
    case Struct(name, _, _) =>
      if t == g.time then IsBare(s, "string", "date-time")
      else if name != "" then t in names && IsRef(s, names[t])
      else s.kind == "object" && s.ref == "" && !s.nullable
  }

  lemma {:induction false} ObjectsAre(g: Graph, r: Ranks, names: Names, fields: seq<Property>, limit: nat)
    requires Ranked(g, r) && Below(g, r, fields, limit) && Properties(g, r, names, fields, limit).Some?
    ensures var s := Properties(g, r, names, fields, limit).value;
      IsBare(s.(properties := map[], required := []), "object", "")
  {
    hide Ranked, Expected, AllConstrained, RequiredBy, Tokens;
    if fields != [] {
      ObjectsAre(g, r, names, fields[..|fields| - 1], limit);
    }
  }

  lemma SchemaSays(g: Graph, r: Ranks, names: Names, t: TypeId)
    requires Ranked(g, r) && t in g.types && Expected(g, r, names, t).Some?
    ensures Says(g, r, names, t, Expected(g, r, names, t).value)
  {
    assert TypeRanked(g, r, t);
    if g.types[t].Struct? && t != g.time && g.types[t].name == "" {
      ObjectsAre(g, r, names, AllFields(g, r, t), r.rank(t));
    }
    hide Sized, Flat, AllFields, Properties, Below;
  }

  // ----- the fields of a struct ----------------------------------------------------------------------------

  /** What a field is for an object: nothing, a struct whose fields take its place, or a property. */
  ghost predicate IsLeftOut(g: Graph, f: Field) {
    !f.exported || (!IsInlined(g, f) && IsTagName(f.json, "-"))
  }

  /** An exported embedded struct other than time.Time. */
  predicate IsInlined(g: Graph, f: Field) {
    f.exported && f.anonymous && f.typ in g.types && g.types[f.typ].Struct? && f.typ != g.time
  }

  /** A property is called by its json tag, or by its field if there is no name in the tag. */
  ghost predicate IsPropertyFor(f: Field, p: Property) {
    && p.typ == f.typ && p.validate == f.validate && (p.quoted <==> HasOption(f.json, "string"))
    && if IsTagName(f.json, "") then p.name == f.name else IsTagName(f.json, p.name)
  }

  /** What one field adds to the properties of its struct. */
  lemma FieldSays(g: Graph, r: Ranks, t: TypeId, i: nat)
    requires Sized(g, r) && IsStruct(g, t) && i < |g.types[t].fields|
    ensures var f, adds := g.types[t].fields[i], FieldAdds(g, r, t, i);
      && (IsLeftOut(g, f) ==> adds == [])
      && (IsInlined(g, f) ==> IsStruct(g, f.typ) && adds == AllFields(g, r, f.typ))
      && (!IsLeftOut(g, f) && !IsInlined(g, f) ==> |adds| == 1 && IsPropertyFor(f, adds[0]))
  {
    var f := g.types[t].fields[i];
    assert FieldSized(g, r, t, f);
    TagNameIs(f.json, "-");
    TagNameIs(f.json, "");
    TagNameIs(f.json, JsonName(f.json));
    QuotedIs(f.json);
    hide IndexOf, Quoted, HasOption, IsTagName, Sized, AllFields;
  }

  // ----- the properties of an object -----------------------------------------------------------------------

  /** The constraint of a token, on the schema of a field. */
  ghost predicate ConstrainsTo(before: Schema, token: string, after: Schema) {
    if before.kind != "string" then after == before
    else
      && (forall n :: "min=" <= token && ParseInt(token[4..]) == Some(n) ==> after == before.(minLength := Some(n)))
      && (forall n :: "max=" <= token && ParseInt(token[4..]) == Some(n) ==> after == before.(maxLength := Some(n)))
      && ("oneof=" <= token ==> after == before.(choices := Fields(token[6..])))
      && (token == "oneof" ==> after == before.(choices := []))
      && (!("min=" <= token) && !("max=" <= token) && !("oneof=" <= token) && token != "oneof" ==> after == before)
      && (("min=" <= token || "max=" <= token) && ParseInt(token[4..]) == None ==> after == before)
  }

  lemma CutAt(key: string, value: string)
    requires '=' !in key
    ensures Cut(key + "=" + value) == (key, value) && Cut(key) == (key, "")
  {
    IndexOfFirst(key, '=', value);
    assert key + "=" + value == key + ['='] + value;
    assert (key + "=" + value)[..|key|] == key && (key + "=" + value)[|key| + 1..] == value;
    assert key[..|key|] == key;
    hide IndexOf;
  }

  lemma CutBack(token: string)
    ensures token == Cut(token).0 || token == Cut(token).0 + "=" + Cut(token).1
    ensures '=' !in Cut(token).0 && (token == Cut(token).0 ==> Cut(token).1 == "")
  {
    var i := IndexOf(token, '=');
    assert token[..|token|] == token;
    hide IndexOf;
    assert i < |token| ==> token == token[..i] + "=" + token[i + 1..];
  }

  lemma CutKey(token: string, key: string)
    requires '=' !in key
    ensures key + "=" <= token ==> Cut(token) == (key, token[|key| + 1..])
    ensures Cut(token).0 == key ==> token == key || key + "=" <= token
  {
    if key + "=" <= token {
      CutAt(key, token[|key| + 1..]);
      assert token == key + "=" + token[|key| + 1..];
    }
    CutBack(token);
    hide Cut;
  }

  /** Without `=`, a length is no number, and the choices are none. */
  lemma TokenSays(schema: Schema, token: string)
    ensures ConstrainsTo(schema, token, Constrained(schema, token))
  {
    KeyIs(token, "min", "min=");
    KeyIs(token, "max", "max=");
    KeyIs(token, "oneof", "oneof=");
    assert ParseInt("") == None && Fields("") == [];
    hide Cut, ParseInt, Fields;
  }

  lemma KeyIs(token: string, key: string, start: string)
    requires '=' !in key && start == key + "="
    ensures Cut(token).0 == key <==> token == key || start <= token
    ensures start <= token ==> Cut(token).1 == token[|start|..]
    ensures token == key ==> Cut(token).1 == ""
  {
    CutKey(token, key);
    CutAt(key, "");
    hide Cut;
  }

  /** A token asks for the field if it is `required`, whatever stands behind an equals sign. */
  predicate AsksFor(token: string) {
    token == "required" || "required=" <= token
  }

  lemma AsksForIs(token: string)
    ensures Cut(token).0 == "required" <==> AsksFor(token)
  {
    KeyIs(token, "required", "required=");
    hide Cut;
  }

  /** How often a tag asks for its field. */
  function Asks(tokens: seq<string>): nat {
    if tokens == [] then 0 else (if AsksFor(tokens[0]) then 1 else 0) + Asks(tokens[1..])
  }

  lemma {:induction false} AsksSnoc(tokens: seq<string>, token: string)
    ensures Asks(tokens + [token]) == Asks(tokens) + if AsksFor(token) then 1 else 0
  {
    hide AsksFor;
    if tokens == [] {
      assert ([] + [token])[1..] == [] && Asks([]) == 0;
    } else {
      assert (tokens + [token])[1..] == tokens[1..] + [token];
      AsksSnoc(tokens[1..], token);
    }
  }

  lemma RequiredNext(name: string, tokens: seq<string>)
    requires tokens != []
    ensures var front, last := tokens[..|tokens| - 1], tokens[|tokens| - 1];
      RequiredBy(name, tokens) == RequiredBy(name, front) + if AsksFor(last) then [name] else []
  {
    AsksForIs(tokens[|tokens| - 1]);
    hide Cut, AsksFor;
  }

  /** The field is named once for each time. */
  lemma {:induction false} RequiredSays(name: string, tokens: seq<string>)
    ensures |RequiredBy(name, tokens)| == Asks(tokens) && AllAre(RequiredBy(name, tokens), name)
  {
    if tokens == [] {
      NothingRequired(name);
    } else {
      var front, last := tokens[..|tokens| - 1], tokens[|tokens| - 1];
      hide *;
      RequiredSays(name, front);
      RequiredNext(name, tokens);
      AsksSnoc(front, last);
      assert tokens == front + [last];
      OneMore(RequiredBy(name, front), name);
    }
  }

  predicate AllAre(names: seq<string>, name: string) {
    forall i :: 0 <= i < |names| ==> names[i] == name
  }

  lemma OneMore(names: seq<string>, name: string)
    requires AllAre(names, name)
    ensures AllAre(names + [name], name) && AllAre(names + [], name)
  {}

  lemma NothingRequired(name: string)
    ensures RequiredBy(name, []) == [] && Asks([]) == 0
  {}

  predicate IsProperty(fields: seq<Property>, name: string) {
    exists i :: 0 <= i < |fields| && fields[i].name == name
  }

  ghost predicate IsLastProperty(fields: seq<Property>, name: string, i: int) {
    0 <= i < |fields| && fields[i].name == name && forall j :: i < j < |fields| ==> fields[j].name != name
  }

  /** The schema of a property: that of its type, or a plain string if the tag quotes it, constrained by one token
      of the validate tag after the other. */
  ghost predicate IsConstrained(base: Schema, tokens: seq<string>, s: Schema) {
    exists chain :: IsChain(chain, tokens) && chain[0] == base && chain[|tokens|] == s
  }

  ghost predicate IsChain(chain: seq<Schema>, tokens: seq<string>) {
    && |chain| == |tokens| + 1
    && forall j, k :: 0 <= j < |tokens| && k == j + 1 ==> ConstrainsTo(chain[j], tokens[j], chain[k])
  }

  function TagTokens(tag: string): seq<string> {
    if tag == "" then [] else Split(tag, ',')
  }

  ghost predicate IsSchemaFor(g: Graph, r: Ranks, names: Names, p: Property, s: Schema)
    requires Ranked(g, r) && p.typ in g.types
  {
    var schema := Expected(g, r, names, p.typ);
    schema.Some? && exists base ::
      && (if p.quoted then IsBare(base, "string", "") else base == schema.value)
      && IsConstrained(base, TagTokens(p.validate), s)
  }

  lemma {:induction false} ConstrainedSays(base: Schema, tokens: seq<string>) returns (chain: seq<Schema>)
    ensures IsChain(chain, tokens) && chain[0] == base && chain[|tokens|] == AllConstrained(base, tokens)
  {
    hide Constrained, ConstrainsTo;
    if tokens == [] {
      chain := [base];
    } else {
      var front, last := tokens[..|tokens| - 1], tokens[|tokens| - 1];
      var before := ConstrainedSays(base, front);
      TokenSays(AllConstrained(base, front), last);
      chain := before + [AllConstrained(base, tokens)];
      assert forall j :: 0 <= j < |front| ==> tokens[j] == front[j];
    }
  }

  lemma ChainConstrains(chain: seq<Schema>, tokens: seq<string>)
    requires IsChain(chain, tokens)
    ensures IsConstrained(chain[0], tokens, chain[|tokens|])
  {}

  lemma PropertySays(g: Graph, r: Ranks, names: Names, p: Property, parent: Schema)
    requires Ranked(g, r) && p.typ in g.types && Expected(g, r, names, p.typ).Some?
    ensures var after := WithProperty(parent, p, Expected(g, r, names, p.typ).value);
      && after.properties.Keys == parent.properties.Keys + {p.name}
      && IsSchemaFor(g, r, names, p, after.properties[p.name])
      && (forall name :: name in parent.properties && name != p.name ==>
            after.properties[name] == parent.properties[name])
      && after.required == parent.required + RequiredBy(p.name, TagTokens(p.validate))
  {
    hide Ranked, Expected, AllConstrained, RequiredBy, IsConstrained, Split;
    var schema := Expected(g, r, names, p.typ).value;
    var base := if p.quoted then Simple("string", "") else schema;
    var chain := ConstrainedSays(base, TagTokens(p.validate));
    hide IsChain;
    assert IsConstrained(base, TagTokens(p.validate), AllConstrained(base, TagTokens(p.validate))) by {
      ChainConstrains(chain, TagTokens(p.validate));
    }
  }

  /** How often the tags of some properties ask for one of this name. */
  function TimesAsked(fields: seq<Property>, name: string): nat {
    if fields == [] then 0
    else
      var p := fields[|fields| - 1];
      TimesAsked(fields[..|fields| - 1], name) + if p.name == name then Asks(TagTokens(p.validate)) else 0
  }

  lemma RequiredCount(before: seq<string>, p: Property, name: string)
    ensures multiset(before + RequiredBy(p.name, TagTokens(p.validate)))[name] ==
      multiset(before)[name] + if p.name == name then Asks(TagTokens(p.validate)) else 0
  {
    var more := RequiredBy(p.name, TagTokens(p.validate));
    RequiredSays(p.name, TagTokens(p.validate));
    hide RequiredBy, Asks, TagTokens;
    AllTheSame(more, p.name, name);
  }

  lemma {:induction false} AllTheSame(names: seq<string>, n: string, name: string)
    requires AllAre(names, n)
    ensures multiset(names)[name] == if n == name then |names| else 0
  {
    if names != [] {
      AllTheSame(names[1..], n, name);
      assert names == [names[0]] + names[1..];
    }
  }

  /** The object made of some properties: under each name the schema of the last property with it, and each name
      required as often as tags ask for it. */
  lemma {:induction false} ObjectSays(g: Graph, r: Ranks, names: Names, fields: seq<Property>, limit: nat, name: string)
    requires Ranked(g, r) && Below(g, r, fields, limit) && Properties(g, r, names, fields, limit).Some?
    ensures var s := Properties(g, r, names, fields, limit).value;
      && (name in s.properties <==> IsProperty(fields, name))
      && (name in s.properties ==> exists i ::
            IsLastProperty(fields, name, i) && IsSchemaFor(g, r, names, fields[i], s.properties[name]))
      && multiset(s.required)[name] == TimesAsked(fields, name)
  {
    hide Ranked, Expected, WithProperty, IsSchemaFor, TagTokens, Asks, RequiredBy;
    if fields != [] {
      var front, p := fields[..|fields| - 1], fields[|fields| - 1];
      var parent := Properties(g, r, names, front, limit).value;
      ObjectSays(g, r, names, front, limit, name);
      PropertySays(g, r, names, p, parent);
      RequiredCount(parent.required, p, name);
      LastPropertyNext(front, p, name);
      assert fields == front + [p];
      if name in parent.properties && name != p.name {
        var i :| IsLastProperty(front, name, i) && IsSchemaFor(g, r, names, front[i], parent.properties[name]);
        assert fields[i] == front[i];
      }
      hide IsProperty, IsLastProperty, Below;
    }
  }

  lemma LastPropertyNext(front: seq<Property>, p: Property, name: string)
    ensures IsProperty(front + [p], name) <==> IsProperty(front, name) || p.name == name
    ensures p.name == name ==> IsLastProperty(front + [p], name, |front|)
    ensures forall i :: p.name != name && IsLastProperty(front, name, i) ==> IsLastProperty(front + [p], name, i)
  {
    var all := front + [p];
    assert all[|front|] == p && forall i :: 0 <= i < |front| ==> all[i] == front[i];
  }

  // ----- names of components ---------------------------------------------------------------------------------

  /** The first letter is a capital one, and the rest is as it was. */
  lemma CapitalizedSays(s: string)
    ensures |Capitalized(s)| == |s| && (s != "" ==> Capitalized(s)[1..] == s[1..])
    ensures s != "" && !('a' <= s[0] <= 'z') ==> Capitalized(s) == s
    ensures s != "" && 'a' <= s[0] <= 'z' ==> Capitalized(s)[0] as int - 'A' as int == s[0] as int - 'a' as int
  {}

  /** Hyphens, underscores and dots go, everything else stays in order. */
  lemma {:induction false} CleanedHolds(s: string, c: char)
    ensures c in Cleaned(s) <==> c in s && c != '-' && c != '_' && c != '.'
  {
    if s != "" {
      CleanedHolds(s[1..], c);
      assert s == [s[0]] + s[1..];
    }
  }

  lemma {:induction false} CleanedJoins(x: string, y: string)
    ensures Cleaned(x + y) == Cleaned(x) + Cleaned(y)
  {
    if x == "" {
      assert x + y == y;
    } else {
      hide Cleaned;
      CleanedJoins(x[1..], y);
      CleanedStep(x[0], x[1..]);
      CleanedStep(x[0], x[1..] + y);
      assert [x[0]] + x[1..] == x && [x[0]] + (x[1..] + y) == x + y;
      Nested(if x[0] in "-_." then [] else [x[0]], Cleaned(x[1..]), Cleaned(y));
    }
  }

  lemma CleanedStep(c: char, s: string)
    ensures Cleaned([c] + s) == (if c in "-_." then [] else [c]) + Cleaned(s)
  {
    assert ([c] + s)[1..] == s;
    assert c in "-_." <==> c == '-' || c == '_' || c == '.';
  }

  lemma Nested(x: string, y: string, z: string)
    ensures x + y + z == x + (y + z)
  {}

  lemma {:induction false} CleanedAlready(s: string)
    requires '-' !in s && '_' !in s && '.' !in s
    ensures Cleaned(s) == s
  {
    if s != "" {
      CleanedAlready(s[1..]);
      assert s == [s[0]] + s[1..];
    }
  }

  /** The last element of the package path, cleaned, in front of the name. */
  lemma QualifiedSays(name: string, prefix: string, last: string)
    requires '/' !in last
    ensures QualifiedName(name, prefix + "/" + last) == Capitalized(Cleaned(last)) + Capitalized(name)
    ensures QualifiedName(name, last) == Capitalized(Cleaned(last)) + Capitalized(name)
  {
    LastPart(prefix, last);
    SplitWhole(last, '/');
    hide Split, Capitalized, Cleaned;
  }

  lemma {:induction false} LastPart(prefix: string, last: string)
    requires '/' !in last
    ensures var parts := Split(prefix + "/" + last, '/'); parts[|parts| - 1] == last
    decreases |prefix|
  {
    hide Split;
    var i := IndexOf(prefix, '/');
    var head := prefix[..i];
    hide IndexOf;
    if i == |prefix| {
      SplitWhole(last, '/');
      SplitHead(head, '/', last);
      assert prefix + "/" + last == head + ['/'] + last;
    } else {
      var rest := prefix[i + 1..] + "/" + last;
      LastPart(prefix[i + 1..], last);
      SplitHead(head, '/', rest);
      assert prefix + "/" + last == head + ['/'] + rest;
    }
  }
}
