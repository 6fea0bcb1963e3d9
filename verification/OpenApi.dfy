/** runtime/openapi/openapi.go: the schemas of a whole document, built over one component map. */
module OpenApi {
  import opened Text
  import opened Routes
  import opened Schema
  import opened SchemaEnds
  import opened Generator

  // ----- a finished component map -----------------------------------------------------------------

  /** Every component is there, and so is every component it refers to. */
  ghost predicate Complete(defs: Components) {
    forall n :: n in defs ==> defs[n].Some? && RefsIn(defs[n].value, defs.Keys)
  }

  /** Nothing is replaced. */
  ghost predicate Kept(defs: Components, defs': Components) {
    forall n :: n in defs ==> n in defs' && defs'[n] == defs[n]
  }

  /** Different types have different names, and the component under a type's name describes it. */
  ghost predicate NamesComponents(g: Graph, r: Ranks, defs: Components, names: Names)
    requires Ranked(g, r)
  {
    Injective(names) && forall t :: t in names ==> Describes(g, r, defs, names, t)
  }

  /** The schema describes the type, by way of the component map. */
  ghost predicate IsSchemaOf(g: Graph, r: Ranks, defs: Components, t: TypeId, schema: Schema)
    requires Ranked(g, r) && t in g.types
  {
    exists names: Names :: NamesComponents(g, r, defs, names) && Expected(g, r, names, t) == Some(schema)
  }

  lemma KeptOn(d0: Components, d1: Components, d2: Components)
    requires Kept(d0, d1) && Kept(d1, d2)
    ensures Kept(d0, d2)
  {}

  lemma NamesKept(g: Graph, r: Ranks, defs: Components, defs': Components, names: Names)
    requires Ranked(g, r) && Kept(defs, defs') && NamesComponents(g, r, defs, names)
    ensures NamesComponents(g, r, defs', names)
  {
    hide Ranked, Component, Injective, IsStruct;
    forall t | t in names
      ensures Describes(g, r, defs', names, t)
    {
      assert Describes(g, r, defs, names, t);
    }
  }

  lemma SchemaKept(g: Graph, r: Ranks, defs: Components, defs': Components, t: TypeId, schema: Schema)
    requires Ranked(g, r) && t in g.types && Kept(defs, defs') && IsSchemaOf(g, r, defs, t, schema)
    ensures IsSchemaOf(g, r, defs', t, schema)
  {
    hide Ranked, NamesComponents, Expected, Kept;
    var names: Names :| NamesComponents(g, r, defs, names) && Expected(g, r, names, t) == Some(schema);
    NamesKept(g, r, defs, defs', names);
  }

  lemma NamesAreComponents(g: Graph, r: Ranks, defs: Components, names: Names)
    requires Ranked(g, r) && NamesComponents(g, r, defs, names)
    ensures names.Values <= defs.Keys
  {
    hide Ranked, Component, Injective, IsStruct;
    forall n | n in names.Values
      ensures n in defs
    {
      var t :| t in names && names[t] == n;
      assert Describes(g, r, defs, names, t);
    }
  }

  /** A schema that describes a type refers to components only. */
  lemma SchemaRefs(g: Graph, r: Ranks, defs: Components, t: TypeId, schema: Schema)
    requires Ranked(g, r) && t in g.types && IsSchemaOf(g, r, defs, t, schema)
    ensures RefsIn(schema, defs.Keys)
  {
    hide Ranked, NamesComponents, Expected, RefsIn;
    var names: Names :| NamesComponents(g, r, defs, names) && Expected(g, r, names, t) == Some(schema);
    ExpectedRefs(g, r, names, t);
    NamesAreComponents(g, r, defs, names);
    RefsInMore(schema, names.Values, defs.Keys);
  }

  /** What one traversal, from no names, leaves. */
  lemma TraversalNames(g: Graph, r: Ranks, d0: Components, d1: Components, names: Names)
    requires Ranked(g, r) && Grows(g, r, d0, map[], d1, names) && SeenSafe(g, d1, names)
    ensures NamesComponents(g, r, d1, names) && Kept(d0, d1)
    ensures forall n :: n in d1 && n !in d0 ==> exists t :: t in names && names[t] == n
  {
    hide Ranked, Describes, IsNamed, Injective;
  }

  lemma TraversalCompletes(g: Graph, r: Ranks, d0: Components, d1: Components, names: Names)
    requires Ranked(g, r) && Complete(d0) && Kept(d0, d1) && NamesComponents(g, r, d1, names)
    requires forall n :: n in d1 && n !in d0 ==> exists t :: t in names && names[t] == n
    ensures Complete(d1)
  {
    NamesAreComponents(g, r, d1, names);
    forall n | n in d1
      ensures d1[n].Some? && RefsIn(d1[n].value, d1.Keys)
    {
      hide Ranked, Component, RefsIn, Injective, IsStruct;
      if n in d0 {
        RefsInMore(d1[n].value, d0.Keys, d1.Keys);
      } else {
        var t :| t in names && names[t] == n;
        ComponentOfName(g, r, d1, names, t);
        RefsInMore(d1[n].value, names.Values, d1.Keys);
      }
    }
  }

  lemma ComponentOfName(g: Graph, r: Ranks, defs: Components, names: Names, t: TypeId)
    requires Ranked(g, r) && NamesComponents(g, r, defs, names) && t in names
    ensures names[t] in defs && defs[names[t]].Some? && RefsIn(defs[names[t]].value, names.Values)
  {
    assert Describes(g, r, defs, names, t);
    ComponentRefs(g, r, names, t);
    hide Ranked, Component, RefsIn;
  }

  // ----- documents ---------------------------------------------------------------------------------------

  /** An operation as described; types instead of values, and None for nil. */
  datatype Operation = Operation(
    method_: string, path: string, hidden: bool,
    request: Option<TypeId>, query: Option<TypeId>, response: Option<TypeId>, list: bool,
    status: nat, filters: seq<string>, sorts: seq<string>, paginated: bool, errorCodes: seq<string>, security: bool)

  datatype Parameter = Parameter(name: string, required: bool, schema: Schema)

  /** The schemas of an operation object; a response without content has none. */
  datatype OperationObject = OperationObject(
    request: Option<Schema>, parameters: seq<Parameter>, responses: map<string, Option<Schema>>)

  datatype Documented = Documented(route: Route, operation: Option<Operation>, spec: OperationObject)

  /** One field for each method that a document shows. */
  datatype PathItem = PathItem(
    get: Option<OperationObject>, post: Option<OperationObject>, put: Option<OperationObject>,
    patch: Option<OperationObject>, delete: Option<OperationObject>)

  datatype Document = Document(schemas: Components, paths: map<string, PathItem>)

  function ErrorStatus(code: string): string {
    match code
    case "not_found" => "404"
    case "task_not_found" => "404"
    case "method_not_allowed" => "405"
    case "invalid_json" => "400"
    case "invalid_query" => "400"
    case "invalid_path" => "400"
    case "body_too_large" => "413"
    case "validation_failed" => "422"
    case "not_ready" => "503"
    case "invalid_token" => "401"
    case "missing_token" => "401"
    case "invalid_credentials" => "401"
    case "invalid_refresh_token" => "401"
    case "email_taken" => "409"
    case "internal_error" => "500"
    case _ => if HasSuffix(code, "_not_found") then "404" else "400"
  }

  function ErrorComponent(): Schema {
    Object(map["error" := ErrorFields()])
  }

  function ErrorFields(): Schema {
    Object(map[
      "code" := Simple("string", ""), "message" := Simple("string", ""),
      "details" := ANY, "request_id" := Simple("string", "")]).(required := ["code", "message"])
  }

  function MetaComponent(): Schema {
    Object(map["page" := Simple("integer", ""), "per_page" := Simple("integer", ""),
               "total" := Simple("integer", "int64"), "total_pages" := Simple("integer", "int64")])
  }

  /** The envelope of a success response. */
  function Envelope(data: Schema, list: bool): Schema {
    if list then Object(map["data" := ANY.(kind := "array", items := Some(data)), "meta" := RefTo("Meta")])
    else Object(map["data" := data])
  }

  /** Error and Meta are the pre-inserted components. */
  ghost predicate Seeded(defs: Components) {
    && "Error" in defs && defs["Error"] == Some(ErrorComponent())
    && "Meta" in defs && defs["Meta"] == Some(MetaComponent())
  }

  lemma SeedIsComplete()
    ensures Complete(map["Error" := Some(ErrorComponent()), "Meta" := Some(MetaComponent())])
  {
    PlainRefs("string", "", {"Error", "Meta"});
    PlainRefs("integer", "", {"Error", "Meta"});
    PlainRefs("integer", "int64", {"Error", "Meta"});
    assert RefsIn(ANY, {"Error", "Meta"});
    ErrorRefs({"Error", "Meta"});
    MetaRefs({"Error", "Meta"});
    hide RefsIn, ErrorComponent, MetaComponent;
    var seed: Components := map["Error" := Some(ErrorComponent()), "Meta" := Some(MetaComponent())];
    assert seed.Keys == {"Error", "Meta"};
  }

  lemma PlainRefs(kind: string, format: string, keys: set<string>)
    ensures RefsIn(Simple(kind, format), keys)
  {}

  lemma ObjectRefs(properties: map<string, Schema>, keys: set<string>)
    requires forall n :: n in properties ==> RefsIn(properties[n], keys)
    ensures RefsIn(Object(properties), keys)
  {}

  lemma RequiredRefs(s: Schema, required: seq<string>, keys: set<string>)
    requires RefsIn(s, keys)
    ensures RefsIn(s.(required := required), keys)
  {}

  lemma ErrorRefs(keys: set<string>)
    ensures RefsIn(ErrorComponent(), keys)
  {
    PlainRefs("string", "", keys);
    assert RefsIn(ANY, keys);
    hide RefsIn, Simple;
    var inner := map["code" := Simple("string", ""), "message" := Simple("string", ""),
                     "details" := ANY, "request_id" := Simple("string", "")];
    ObjectRefs(inner, keys);
    RequiredRefs(Object(inner), ["code", "message"], keys);
    ObjectRefs(map["error" := ErrorFields()], keys);
  }

  lemma MetaRefs(keys: set<string>)
    ensures RefsIn(MetaComponent(), keys)
  {
    PlainRefs("integer", "", keys);
    PlainRefs("integer", "int64", keys);
    hide RefsIn, Simple;
    var inner := map["page" := Simple("integer", ""), "per_page" := Simple("integer", ""),
                     "total" := Simple("integer", "int64"), "total_pages" := Simple("integer", "int64")];
    ObjectRefs(inner, keys);
  }

  lemma EnvelopeRefs(data: Schema, list: bool, keys: set<string>)
    requires RefsIn(data, keys) && "Meta" in keys
    ensures RefsIn(Envelope(data, list), keys)
  {
    RefToRefs("Meta", keys);
    assert RefsIn(ANY.(kind := "array", items := Some(data)), keys);
    hide RefsIn, RefTo;
    if list {
      ObjectRefs(map["data" := ANY.(kind := "array", items := Some(data)), "meta" := RefTo("Meta")], keys);
    } else {
      ObjectRefs(map["data" := data], keys);
    }
  }

  /** Every reference in the operation object is to one of these components. */
  predicate ObjectRefsIn(o: OperationObject, keys: set<string>) {
    && (o.request.Some? ==> RefsIn(o.request.value, keys))
    && (forall i :: 0 <= i < |o.parameters| ==> RefsIn(o.parameters[i].schema, keys))
    && (forall status :: status in o.responses && o.responses[status].Some? ==> RefsIn(o.responses[status].value, keys))
  }

  // ----- the schemas of one operation --------------------------------------------------------------------

  /** Every field type is a type. */
  ghost predicate Closed(g: Graph) {
    forall t :: t in g.types && g.types[t].Struct? ==>
      forall i :: 0 <= i < |g.types[t].fields| ==> g.types[t].fields[i].typ in g.types
  }

  predicate Known(g: Graph, t: Option<TypeId>) {
    t.Some? ==> t.value in g.types
  }

  predicate OperationKnown(g: Graph, op: Operation) {
    Known(g, op.request) && Known(g, op.query) && Known(g, op.response)
  }

  /** What a call that uses the component map keeps. */
  ghost predicate Continues(defs: Components, defs': Components) {
    Complete(defs') && Kept(defs, defs')
  }

  lemma ContinuesOn(d0: Components, d1: Components, d2: Components)
    requires Continues(d0, d1) && Continues(d1, d2)
    ensures Continues(d0, d2)
  {
    hide Complete, Kept;
    KeptOn(d0, d1, d2);
  }

  lemma KeptKeys(d0: Components, d1: Components)
    requires Kept(d0, d1)
    ensures d0.Keys <= d1.Keys
    ensures Seeded(d0) ==> Seeded(d1)
  {
    hide ErrorComponent, MetaComponent;
  }

  method SchemaFor(gen: Traversal, g: Graph, ghost r: Ranks, value: Option<TypeId>) returns (schema: Schema)
    requires Ranked(g, r) && Complete(gen.defs) && Known(g, value)
    modifies gen
    ensures Continues(old(gen.defs), gen.defs) && RefsIn(schema, gen.defs.Keys)
    ensures if value.None? then schema == ANY else IsSchemaOf(g, r, gen.defs, value.value, schema)
  {
    hide Ranked, RefsIn, Grows, SeenSafe, NamesComponents, Expected, Reaches;
    if value.None? {
      AnyRefs(gen.defs.Keys);
      return ANY;
    }
    RankedIsWhole(g, r);
    hide Whole;
    gen.seen := map[];
    NothingSeen(g, gen.defs);
    ghost var before := gen.defs;
    schema := gen.SchemaForType(g, r, value.value);
    TraversalNames(g, r, before, gen.defs, gen.seen);
    TraversalCompletes(g, r, before, gen.defs, gen.seen);
    SchemaRefs(g, r, gen.defs, value.value, schema);
  }

  lemma AnyRefs(keys: set<string>)
    ensures RefsIn(ANY, keys)
  {}

  lemma NothingSeen(g: Graph, defs: Components)
    ensures SeenSafe(g, defs, map[])
  {}

  /** The name that a form tag gives a query parameter; the empty name and `-` give none. */
  function FormName(f: Field): string {
    f.form[..IndexOf(f.form, ',')]
  }

  /** The validate tag of a query field asks for a value. */
  predicate IsRequired(f: Field) {
    "required" in Split(f.validate, ',')
  }

  predicate IsQueryField(f: Field) {
    f.exported && FormName(f) != "" && FormName(f) != "-"
  }

  function QueryFields(fields: seq<Field>): seq<Field> {
    if fields == [] then []
    else
      var before, f := QueryFields(fields[..|fields| - 1]), fields[|fields| - 1];
      if IsQueryField(f) then before + [f] else before
  }

  /** The parameters describe these fields, one each. */
  ghost predicate AreParametersOf(g: Graph, r: Ranks, defs: Components, fields: seq<Field>, ps: seq<Parameter>)
    requires Ranked(g, r)
  {
    |ps| == |fields| && forall i :: 0 <= i < |ps| ==>
      && fields[i].typ in g.types && ps[i].name == FormName(fields[i]) && ps[i].required == IsRequired(fields[i])
      && IsSchemaOf(g, r, defs, fields[i].typ, ps[i].schema)
  }

  lemma ParametersKept(g: Graph, r: Ranks, defs: Components, defs': Components, fields: seq<Field>, ps: seq<Parameter>)
    requires Ranked(g, r) && Kept(defs, defs') && AreParametersOf(g, r, defs, fields, ps)
    ensures AreParametersOf(g, r, defs', fields, ps)
  {
    hide Ranked, IsSchemaOf, FormName, Kept;
    forall i | 0 <= i < |ps|
      ensures IsSchemaOf(g, r, defs', fields[i].typ, ps[i].schema)
    {
      SchemaKept(g, r, defs, defs', fields[i].typ, ps[i].schema);
    }
  }

  /** The struct a query value points to. */
  function Pointee(g: Graph, r: Ranks, t: TypeId): (u: TypeId)
    requires Ranked(g, r) && t in g.types
    ensures u in g.types
    decreases r.rank(t)
  {
    assert TypeRanked(g, r, t);
    if g.types[t].Pointer? then Pointee(g, r, g.types[t].elem) else t
  }

  method QueryParameters(gen: Traversal, g: Graph, ghost r: Ranks, value: TypeId) returns (ps: seq<Parameter>)
    requires Ranked(g, r) && Closed(g) && Complete(gen.defs) && value in g.types
    modifies gen
    ensures Continues(old(gen.defs), gen.defs)
    ensures var t := Pointee(g, r, value);
      if g.types[t].Struct? then AreParametersOf(g, r, gen.defs, QueryFields(g.types[t].fields), ps) else ps == []
  {
    hide Sized, TypeRanked, Complete, IsSchemaOf, IsQueryField, FormName, RefsIn;
    var t := value;
    while g.types[t].Pointer?
      modifies {}
      invariant t in g.types && Pointee(g, r, t) == Pointee(g, r, value)
      decreases r.rank(t)
    {
      PointerRank(g, r, t);
      t := g.types[t].elem;
    }
    ps := [];
    if !g.types[t].Struct? {
      return;
    }
    var fields, i := g.types[t].fields, 0;
    while i < |fields|
      invariant 0 <= i <= |fields|
      invariant Continues(old(gen.defs), gen.defs)
      invariant AreParametersOf(g, r, gen.defs, QueryFields(fields[..i]), ps)
    {
      assert fields[..i + 1][..i] == fields[..i];
      if IsQueryField(fields[i]) {
        ghost var before := gen.defs;
        assert Known(g, Some(fields[i].typ));
        var schema := SchemaFor(gen, g, r, Some(fields[i].typ));
        ContinuesOn(old(gen.defs), before, gen.defs);
        ParametersKept(g, r, before, gen.defs, QueryFields(fields[..i]), ps);
        ps := ps + [Parameter(FormName(fields[i]), IsRequired(fields[i]), schema)];
      }
      i := i + 1;
    }
    assert fields[..i] == fields;
  }

  lemma PointerRank(g: Graph, r: Ranks, t: TypeId)
    requires Ranked(g, r) && t in g.types && g.types[t].Pointer?
    ensures g.types[t].elem in g.types && r.rank(g.types[t].elem) < r.rank(t)
  {
    assert TypeRanked(g, r, t);
    hide Sized;
  }

  lemma ParametersRefs(g: Graph, r: Ranks, defs: Components, fields: seq<Field>, ps: seq<Parameter>)
    requires Ranked(g, r) && AreParametersOf(g, r, defs, fields, ps)
    ensures forall i :: 0 <= i < |ps| ==> RefsIn(ps[i].schema, defs.Keys)
  {
    hide Ranked, IsSchemaOf, FormName, RefsIn;
    forall i | 0 <= i < |ps|
      ensures RefsIn(ps[i].schema, defs.Keys)
    {
      SchemaRefs(g, r, defs, fields[i].typ, ps[i].schema);
    }
  }

  // ----- operation objects ------------------------------------------------------------------------------------

  function SuccessStatus(op: Operation): string {
    Decimal(if op.status == 0 then 200 else op.status)
  }

  function Codes(codes: seq<string>): set<string> {
    set i | 0 <= i < |codes| :: ErrorStatus(codes[i])
  }

  /** The statuses of the operation's error responses. */
  function ErrorStatuses(op: Operation): set<string> {
    {"500"} +
    (if op.request.Some? then {"400", "422"} else {}) +
    (if op.filters != [] || op.sorts != [] || op.paginated || op.list || op.query.Some? then {"400"} else {}) +
    (if op.security then {"401"} else {}) +
    Codes(op.errorCodes)
  }

  function WithErrors(responses: map<string, Option<Schema>>, statuses: set<string>): map<string, Option<Schema>> {
    responses + map status | status in statuses :: Some(RefTo("Error"))
  }

  /** The responses of an operation: its success response, unless an error has its status. */
  ghost predicate AreResponsesOf(g: Graph, r: Ranks, defs: Components, op: Operation,
                                 responses: map<string, Option<Schema>>)
    requires Ranked(g, r) && Known(g, op.response)
  {
    if op.status == 204 then responses == WithErrors(map["204" := None], ErrorStatuses(op))
    else exists data: Schema ::
      && (if op.response.None? then data == ANY else IsSchemaOf(g, r, defs, op.response.value, data))
      && responses == WithErrors(map[SuccessStatus(op) := Some(Envelope(data, op.list))], ErrorStatuses(op))
  }

  function FilterParameter(filter: string): Parameter {
    Parameter("filter[" + filter + "]", false, Simple("string", ""))
  }

  function FilterParameters(filters: seq<string>): seq<Parameter> {
    seq(|filters|, i requires 0 <= i < |filters| => FilterParameter(filters[i]))
  }

  function FixedParameters(op: Operation): seq<Parameter> {
    FilterParameters(op.filters) +
    (if op.sorts != [] then [Parameter("sort", false, Simple("string", ""))] else []) +
    (if op.paginated || op.list
     then [Parameter("page", false, Simple("integer", "")), Parameter("per_page", false, Simple("integer", ""))]
     else [])
  }

  /** The parameters of an operation: those of its query struct, then the fixed ones. */
  ghost predicate AreAllParametersOf(g: Graph, r: Ranks, defs: Components, op: Operation, ps: seq<Parameter>)
    requires Ranked(g, r) && Known(g, op.query)
  {
    exists query: seq<Parameter> ::
      && ps == query + FixedParameters(op)
      && if op.query.None? then query == []
         else
           var t := Pointee(g, r, op.query.value);
           if g.types[t].Struct? then AreParametersOf(g, r, defs, QueryFields(g.types[t].fields), query)
           else query == []
  }

  ghost predicate IsRequestOf(g: Graph, r: Ranks, defs: Components, op: Operation, request: Option<Schema>)
    requires Ranked(g, r) && Known(g, op.request)
  {
    if op.request.None? then request == None
    else request.Some? && IsSchemaOf(g, r, defs, op.request.value, request.value)
  }

  /** The object says what the operation describes, by way of the component map. */
  ghost predicate IsObjectOf(g: Graph, r: Ranks, defs: Components, op: Operation, o: OperationObject)
    requires Ranked(g, r) && OperationKnown(g, op)
  {
    && IsRequestOf(g, r, defs, op, o.request)
    && AreAllParametersOf(g, r, defs, op, o.parameters)
    && AreResponsesOf(g, r, defs, op, o.responses)
  }

  lemma RequestKept(g: Graph, r: Ranks, d0: Components, d1: Components, op: Operation, request: Option<Schema>)
    requires Ranked(g, r) && Known(g, op.request) && Kept(d0, d1) && IsRequestOf(g, r, d0, op, request)
    ensures IsRequestOf(g, r, d1, op, request)
  {
    hide Ranked, IsSchemaOf, Kept;
    if op.request.Some? {
      SchemaKept(g, r, d0, d1, op.request.value, request.value);
    }
  }

  lemma AllParametersKept(g: Graph, r: Ranks, d0: Components, d1: Components, op: Operation, ps: seq<Parameter>)
    requires Ranked(g, r) && Known(g, op.query) && Kept(d0, d1) && AreAllParametersOf(g, r, d0, op, ps)
    ensures AreAllParametersOf(g, r, d1, op, ps)
  {
    hide Ranked, AreParametersOf, Kept, FixedParameters, Pointee, QueryFields;
    var query: seq<Parameter> :| ps == query + FixedParameters(op) &&
      if op.query.None? then query == []
      else
        var t := Pointee(g, r, op.query.value);
        if g.types[t].Struct? then AreParametersOf(g, r, d0, QueryFields(g.types[t].fields), query) else query == [];
    if op.query.Some? {
      var t := Pointee(g, r, op.query.value);
      if g.types[t].Struct? {
        ParametersKept(g, r, d0, d1, QueryFields(g.types[t].fields), query);
      }
    }
  }

  lemma ResponsesKept(g: Graph, r: Ranks, d0: Components, d1: Components, op: Operation,
                      responses: map<string, Option<Schema>>)
    requires Ranked(g, r) && Known(g, op.response) && Kept(d0, d1) && AreResponsesOf(g, r, d0, op, responses)
    ensures AreResponsesOf(g, r, d1, op, responses)
  {
    hide Ranked, IsSchemaOf, Kept, WithErrors, ErrorStatuses, SuccessStatus, Envelope;
    if op.status != 204 {
      var data: Schema :|
        && (if op.response.None? then data == ANY else IsSchemaOf(g, r, d0, op.response.value, data))
        && responses == WithErrors(map[SuccessStatus(op) := Some(Envelope(data, op.list))], ErrorStatuses(op));
      if op.response.Some? {
        SchemaKept(g, r, d0, d1, op.response.value, data);
      }
    }
  }

  lemma ObjectKept(g: Graph, r: Ranks, d0: Components, d1: Components, op: Operation, o: OperationObject)
    requires Ranked(g, r) && OperationKnown(g, op) && Kept(d0, d1) && IsObjectOf(g, r, d0, op, o)
    ensures IsObjectOf(g, r, d1, op, o)
  {
    hide Ranked, IsRequestOf, AreAllParametersOf, AreResponsesOf, Kept, Known;
    RequestKept(g, r, d0, d1, op, o.request);
    AllParametersKept(g, r, d0, d1, op, o.parameters);
    ResponsesKept(g, r, d0, d1, op, o.responses);
  }

  // ----- references of operation objects ------------------------------------------------------------------------

  lemma FixedRefs(op: Operation, keys: set<string>)
    ensures forall i :: 0 <= i < |FixedParameters(op)| ==> RefsIn(FixedParameters(op)[i].schema, keys)
  {
    PlainRefs("string", "", keys);
    PlainRefs("integer", "", keys);
    hide RefsIn, Simple;
  }

  lemma AllParametersRefs(g: Graph, r: Ranks, defs: Components, op: Operation, ps: seq<Parameter>)
    requires Ranked(g, r) && Known(g, op.query) && AreAllParametersOf(g, r, defs, op, ps)
    ensures forall i :: 0 <= i < |ps| ==> RefsIn(ps[i].schema, defs.Keys)
  {
    hide Ranked, AreParametersOf, FixedParameters, Pointee, QueryFields, RefsIn;
    var query: seq<Parameter> :| ps == query + FixedParameters(op) &&
      if op.query.None? then query == []
      else
        var t := Pointee(g, r, op.query.value);
        if g.types[t].Struct? then AreParametersOf(g, r, defs, QueryFields(g.types[t].fields), query)
           else query == [];
    FixedRefs(op, defs.Keys);
    if op.query.Some? {
      var t := Pointee(g, r, op.query.value);
      if g.types[t].Struct? {
        ParametersRefs(g, r, defs, QueryFields(g.types[t].fields), query);
      }
    }
  }

  lemma WithErrorsRefs(responses: map<string, Option<Schema>>, statuses: set<string>, keys: set<string>)
    requires "Error" in keys && forall s :: s in responses && responses[s].Some? ==> RefsIn(responses[s].value, keys)
    ensures var all := WithErrors(responses, statuses);
      forall s :: s in all && all[s].Some? ==> RefsIn(all[s].value, keys)
  {
    RefToRefs("Error", keys);
    hide RefsIn, RefTo;
  }

  lemma ResponsesRefs(g: Graph, r: Ranks, defs: Components, op: Operation, responses: map<string, Option<Schema>>)
    requires Ranked(g, r) && Known(g, op.response) && Seeded(defs) && AreResponsesOf(g, r, defs, op, responses)
    ensures forall s :: s in responses && responses[s].Some? ==> RefsIn(responses[s].value, defs.Keys)
  {
    hide Ranked, IsSchemaOf, RefsIn, WithErrors, ErrorStatuses, SuccessStatus, Envelope, ErrorComponent, MetaComponent;
    if op.status == 204 {
      WithErrorsRefs(map["204" := None], ErrorStatuses(op), defs.Keys);
    } else {
      var data: Schema :|
        && (if op.response.None? then data == ANY else IsSchemaOf(g, r, defs, op.response.value, data))
        && responses == WithErrors(map[SuccessStatus(op) := Some(Envelope(data, op.list))], ErrorStatuses(op));
      if op.response.Some? {
        SchemaRefs(g, r, defs, op.response.value, data);
      } else {
        AnyRefs(defs.Keys);
      }
      EnvelopeRefs(data, op.list, defs.Keys);
      WithErrorsRefs(map[SuccessStatus(op) := Some(Envelope(data, op.list))], ErrorStatuses(op), defs.Keys);
    }
  }

  /** An object that says what its operation describes refers to components only. */
  lemma ObjectOfRefs(g: Graph, r: Ranks, defs: Components, op: Operation, o: OperationObject)
    requires Ranked(g, r) && OperationKnown(g, op) && Seeded(defs) && IsObjectOf(g, r, defs, op, o)
    ensures ObjectRefsIn(o, defs.Keys)
  {
    hide Ranked, AreAllParametersOf, AreResponsesOf, Seeded, IsSchemaOf, RefsIn;
    AllParametersRefs(g, r, defs, op, o.parameters);
    ResponsesRefs(g, r, defs, op, o.responses);
    if op.request.Some? {
      SchemaRefs(g, r, defs, op.request.value, o.request.value);
    }
  }

  /** operationObject. */
  method ObjectFor(gen: Traversal, g: Graph, ghost r: Ranks, op: Operation) returns (o: OperationObject)
    requires Ranked(g, r) && Closed(g) && Complete(gen.defs) && OperationKnown(g, op)
    modifies gen
    ensures Continues(old(gen.defs), gen.defs) && IsObjectOf(g, r, gen.defs, op, o)
  {
    hide Ranked, Closed, Complete, Kept, IsSchemaOf, RefsIn, IsRequestOf, AreAllParametersOf, AreResponsesOf;
    var request := RequestFor(gen, g, r, op);
    ghost var d1 := gen.defs;
    var parameters := ParametersFor(gen, g, r, op);
    ghost var d2 := gen.defs;
    ContinuesOn(old(gen.defs), d1, d2);
    var responses := ResponsesFor(gen, g, r, op);
    ContinuesOn(old(gen.defs), d2, gen.defs);
    ContinuesOn(d1, d2, gen.defs);
    RequestKept(g, r, d1, gen.defs, op, request);
    AllParametersKept(g, r, d2, gen.defs, op, parameters);
    o := OperationObject(request, parameters, responses);
  }

  method RequestFor(gen: Traversal, g: Graph, ghost r: Ranks, op: Operation) returns (request: Option<Schema>)
    requires Ranked(g, r) && Complete(gen.defs) && Known(g, op.request)
    modifies gen
    ensures Continues(old(gen.defs), gen.defs) && IsRequestOf(g, r, gen.defs, op, request)
  {
    hide Ranked, Complete, IsSchemaOf, RefsIn;
    request := None;
    if op.request.Some? {
      var schema := SchemaFor(gen, g, r, op.request);
      request := Some(schema);
    }
  }

  method ParametersFor(gen: Traversal, g: Graph, ghost r: Ranks, op: Operation) returns (ps: seq<Parameter>)
    requires Ranked(g, r) && Closed(g) && Complete(gen.defs) && Known(g, op.query)
    modifies gen
    ensures Continues(old(gen.defs), gen.defs) && AreAllParametersOf(g, r, gen.defs, op, ps)
  {
    hide Ranked, Closed, Complete, AreParametersOf, Pointee, QueryFields;
    var query := [];
    if op.query.Some? {
      query := QueryParameters(gen, g, r, op.query.value);
    }
    hide AreAllParametersOf;
    ps := query;
    var i := 0;
    while i < |op.filters|
      modifies {}
      invariant 0 <= i <= |op.filters|
      invariant ps == query + FilterParameters(op.filters[..i])
    {
      assert FilterParameters(op.filters[..i + 1]) ==
        FilterParameters(op.filters[..i]) + [FilterParameter(op.filters[i])];
      ps := ps + [FilterParameter(op.filters[i])];
      i := i + 1;
    }
    assert op.filters[..i] == op.filters;
    hide FilterParameters;
    if |op.sorts| > 0 {
      ps := ps + [Parameter("sort", false, Simple("string", ""))];
    }
    if op.paginated || op.list {
      ps := ps + [Parameter("page", false, Simple("integer", "")), Parameter("per_page", false, Simple("integer", ""))];
    }
    AllParameters(g, r, gen.defs, op, query, ps);
  }

  lemma AllParameters(g: Graph, r: Ranks, defs: Components, op: Operation, query: seq<Parameter>, ps: seq<Parameter>)
    requires Ranked(g, r) && Known(g, op.query) && ps == query + FixedParameters(op)
    requires if op.query.None? then query == []
      else
        var t := Pointee(g, r, op.query.value);
        if g.types[t].Struct? then AreParametersOf(g, r, defs, QueryFields(g.types[t].fields), query)
        else query == []
    ensures AreAllParametersOf(g, r, defs, op, ps)
  {
    hide Ranked, AreParametersOf, Pointee, QueryFields, FixedParameters;
  }

  method ResponsesFor(gen: Traversal, g: Graph, ghost r: Ranks, op: Operation)
      returns (responses: map<string, Option<Schema>>)
    requires Ranked(g, r) && Complete(gen.defs) && Known(g, op.response)
    modifies gen
    ensures Continues(old(gen.defs), gen.defs) && AreResponsesOf(g, r, gen.defs, op, responses)
  {
    hide Ranked, Complete, IsSchemaOf, RefsIn, Envelope, ErrorStatuses, SuccessStatus, WithErrors;
    var success;
    if op.status == 204 {
      success := map["204" := None];
    } else {
      var data := SchemaFor(gen, g, r, op.response);
      success := map[SuccessStatus(op) := Some(Envelope(data, op.list))];
    }
    var statuses := StatusesOf(op);
    responses := AddErrors(success, statuses);
  }

  /** The loop over byStatus. */
  method AddErrors(success: map<string, Option<Schema>>, statuses: set<string>)
      returns (responses: map<string, Option<Schema>>)
    ensures responses == WithErrors(success, statuses)
  {
    responses := success;
    var rest := statuses;
    while rest != {}
      invariant rest <= statuses
      invariant responses == WithErrors(success, statuses - rest)
    {
      var status :| status in rest;
      responses := responses[status := Some(RefTo("Error"))];
      rest := rest - {status};
    }
    assert statuses - rest == statuses;
  }

  /** The keys of byStatus. */
  method StatusesOf(op: Operation) returns (statuses: set<string>)
    ensures statuses == ErrorStatuses(op)
  {
    hide ErrorStatus;
    statuses := {"500"};
    if op.request.Some? {
      statuses := statuses + {"400"};
      statuses := statuses + {"422"};
    }
    if |op.filters| > 0 || |op.sorts| > 0 || op.paginated || op.list || op.query.Some? {
      statuses := statuses + {"400"};
    }
    if op.security {
      statuses := statuses + {"401"};
    }
    ghost var fixed := statuses;
    var i := 0;
    while i < |op.errorCodes|
      invariant 0 <= i <= |op.errorCodes|
      invariant statuses == fixed + Codes(op.errorCodes[..i])
    {
      CodesStep(op.errorCodes, i);
      statuses := statuses + {ErrorStatus(op.errorCodes[i])};
      i := i + 1;
    }
    assert op.errorCodes[..i] == op.errorCodes;
  }

  lemma CodesStep(codes: seq<string>, i: nat)
    requires i < |codes|
    ensures Codes(codes[..i + 1]) == Codes(codes[..i]) + {ErrorStatus(codes[i])}
  {
    hide ErrorStatus;
    assert codes[..i + 1] == codes[..i] + [codes[i]];
    forall s | s in Codes(codes[..i]) + {ErrorStatus(codes[i])}
      ensures s in Codes(codes[..i + 1])
    {
      if s == ErrorStatus(codes[i]) {
        assert codes[..i + 1][i] == codes[i];
      } else {
        var k :| 0 <= k < i && ErrorStatus(codes[..i][k]) == s;
        assert codes[..i + 1][k] == codes[..i][k];
      }
    }
  }

  // ----- documents ---------------------------------------------------------------------------------------------

  function Key(method_: string, path: string): string {
    method_ + " " + path
  }

  /** The operation described last for each method and path. */
  function Described(operations: seq<Operation>): map<string, Operation> {
    if operations == [] then map[]
    else
      var op := operations[|operations| - 1];
      Described(operations[..|operations| - 1])[Key(op.method_, op.path) := op]
  }

  predicate Excluded(path: string, exact: seq<string>, prefixes: seq<string>) {
    path in exact || exists i :: 0 <= i < |prefixes| && prefixes[i] != "" && HasPrefix(path, prefixes[i])
  }

  function DescriptionOf(described: map<string, Operation>, route: Route): Option<Operation> {
    var key := Key(route.method_, route.path);
    if key in described then Some(described[key]) else None
  }

  predicate IsDocumented(described: map<string, Operation>, route: Route, exact: seq<string>, prefixes: seq<string>) {
    var op := DescriptionOf(described, route);
    !Excluded(route.path, exact, prefixes) && !(op.Some? && op.value.hidden)
  }

  /** The routes that the document shows, in order. */
  function DocumentedRoutes(described: map<string, Operation>, routes: seq<Route>, exact: seq<string>,
                            prefixes: seq<string>): seq<Route> {
    if routes == [] then []
    else
      var before := DocumentedRoutes(described, routes[..|routes| - 1], exact, prefixes);
      var route := routes[|routes| - 1];
      if IsDocumented(described, route, exact, prefixes) then before + [route] else before
  }

  /** The object of a route that nobody described. */
  function DefaultObject(): OperationObject {
    OperationObject(None, [], map["200" := Some(Object(map["data" := ANY])), "500" := Some(RefTo("Error"))])
  }

  ghost predicate IsEntryFor(g: Graph, r: Ranks, defs: Components, described: map<string, Operation>, route: Route,
                             d: Documented)
    requires Ranked(g, r)
  {
    && d.route == route && d.operation == DescriptionOf(described, route)
    && if d.operation.None? then d.spec == DefaultObject()
       else OperationKnown(g, d.operation.value) && IsObjectOf(g, r, defs, d.operation.value, d.spec)
  }

  /** The objects describe these routes. */
  ghost predicate AreEntriesFor(g: Graph, r: Ranks, defs: Components, described: map<string, Operation>,
                                routes: seq<Route>, objects: seq<Documented>)
    requires Ranked(g, r)
  {
    |objects| == |routes| && forall i :: 0 <= i < |routes| ==> IsEntryFor(g, r, defs, described, routes[i], objects[i])
  }

  lemma EntriesKept(g: Graph, r: Ranks, d0: Components, d1: Components, described: map<string, Operation>,
                    routes: seq<Route>, objects: seq<Documented>)
    requires Ranked(g, r) && Kept(d0, d1) && AreEntriesFor(g, r, d0, described, routes, objects)
    ensures AreEntriesFor(g, r, d1, described, routes, objects)
  {
    hide Ranked, Kept, IsObjectOf, DescriptionOf, DefaultObject, OperationKnown;
    forall i | 0 <= i < |routes|
      ensures IsEntryFor(g, r, d1, described, routes[i], objects[i])
    {
      assert IsEntryFor(g, r, d0, described, routes[i], objects[i]);
      if objects[i].operation.Some? {
        ObjectKept(g, r, d0, d1, objects[i].operation.value, objects[i].spec);
      }
    }
  }

  lemma DefaultRefs(keys: set<string>)
    requires "Error" in keys
    ensures ObjectRefsIn(DefaultObject(), keys)
  {
    RefToRefs("Error", keys);
    AnyRefs(keys);
    ObjectRefs(map["data" := ANY], keys);
    hide RefsIn, RefTo, Object;
  }

  lemma EntriesRefs(g: Graph, r: Ranks, defs: Components, described: map<string, Operation>,
                    routes: seq<Route>, objects: seq<Documented>)
    requires Ranked(g, r) && Seeded(defs) && AreEntriesFor(g, r, defs, described, routes, objects)
    ensures forall i :: 0 <= i < |objects| ==> ObjectRefsIn(objects[i].spec, defs.Keys)
  {
    hide Ranked, IsObjectOf, DescriptionOf, ObjectRefsIn, DefaultObject, OperationKnown, ErrorComponent, MetaComponent;
    forall i | 0 <= i < |objects|
      ensures ObjectRefsIn(objects[i].spec, defs.Keys)
    {
      assert IsEntryFor(g, r, defs, described, routes[i], objects[i]);
      if objects[i].operation.Some? {
        ObjectOfRefs(g, r, defs, objects[i].operation.value, objects[i].spec);
      } else {
        DefaultRefs(defs.Keys);
      }
    }
  }

  predicate AllKnown(g: Graph, operations: seq<Operation>) {
    forall i :: 0 <= i < |operations| ==> OperationKnown(g, operations[i])
  }

  lemma {:induction false} DescribedKnown(g: Graph, operations: seq<Operation>, key: string)
    requires AllKnown(g, operations) && key in Described(operations)
    ensures OperationKnown(g, Described(operations)[key])
  {
    hide OperationKnown, Key;
    var op := operations[|operations| - 1];
    if key != Key(op.method_, op.path) {
      DescribedKnown(g, operations[..|operations| - 1], key);
    }
  }

  // ----- paths ---------------------------------------------------------------------------------------------

  function EmptyItem(): PathItem {
    PathItem(None, None, None, None, None)
  }

  /** attach: a document has no place for other methods than these five. */
  function Attached(item: PathItem, method_: string, o: OperationObject): PathItem {
    match method_
    case "GET" => item.(get := Some(o))
    case "POST" => item.(post := Some(o))
    case "PUT" => item.(put := Some(o))
    case "PATCH" => item.(patch := Some(o))
    case "DELETE" => item.(delete := Some(o))
    case _ => item
  }

  /** Path parameters, each put before all others. */
  function WithParameters(o: OperationObject, names: seq<string>): OperationObject {
    if names == [] then o
    else
      var before, name := WithParameters(o, names[..|names| - 1]), names[|names| - 1];
      before.(parameters := [Parameter(name, true, Simple("string", ""))] + before.parameters)
  }

  function ItemAt(paths: map<string, PathItem>, path: string): PathItem {
    if path in paths then paths[path] else EmptyItem()
  }

  function WithEntry(paths: map<string, PathItem>, entry: Documented): map<string, PathItem> {
    var path := SpecPath(entry.route.path);
    var o := WithParameters(entry.spec, PathParameters(entry.route.path));
    paths[path := Attached(ItemAt(paths, path), entry.route.method_, o)]
  }

  /** The paths of a document with these operation objects. */
  function PathsOf(objects: seq<Documented>): map<string, PathItem> {
    if objects == [] then map[]
    else WithEntry(PathsOf(objects[..|objects| - 1]), objects[|objects| - 1])
  }

  /** What Build does with one operation object. */
  method AttachEntry(paths: map<string, PathItem>, entry: Documented) returns (more: map<string, PathItem>)
    ensures more == WithEntry(paths, entry)
  {
    hide SpecPath, PathParameters, Attached;
    var specPath, names := ConvertPath(entry.route.path);
    var item := if specPath in paths then paths[specPath] else EmptyItem();
    var o := entry.spec;
    NoParameters(o, names);
    var i := 0;
    while i < |names|
      invariant 0 <= i <= |names|
      invariant o == WithParameters(entry.spec, names[..i])
    {
      assert names[..i + 1][..i] == names[..i];
      o := o.(parameters := [Parameter(names[i], true, Simple("string", ""))] + o.parameters);
      i := i + 1;
    }
    assert names[..i] == names;
    more := paths[specPath := Attached(item, entry.route.method_, o)];
  }

  lemma NoParameters(o: OperationObject, names: seq<string>)
    ensures WithParameters(o, names[..0]) == o
  {}

  lemma OneMorePath(objects: seq<Documented>, entry: Documented)
    ensures PathsOf(objects + [entry]) == WithEntry(PathsOf(objects), entry)
  {
    hide WithEntry;
    assert (objects + [entry])[..|objects|] == objects;
  }

  /** Every reference in the path item is to one of these components. */
  predicate ItemRefsIn(item: PathItem, keys: set<string>) {
    && (item.get.Some? ==> ObjectRefsIn(item.get.value, keys))
    && (item.post.Some? ==> ObjectRefsIn(item.post.value, keys))
    && (item.put.Some? ==> ObjectRefsIn(item.put.value, keys))
    && (item.patch.Some? ==> ObjectRefsIn(item.patch.value, keys))
    && (item.delete.Some? ==> ObjectRefsIn(item.delete.value, keys))
  }

  lemma {:induction false} WithParametersRefs(o: OperationObject, names: seq<string>, keys: set<string>)
    requires ObjectRefsIn(o, keys)
    ensures ObjectRefsIn(WithParameters(o, names), keys)
  {
    PlainRefs("string", "", keys);
    hide RefsIn, Simple;
    if names != [] {
      WithParametersRefs(o, names[..|names| - 1], keys);
    }
  }

  lemma AttachedRefs(item: PathItem, method_: string, o: OperationObject, keys: set<string>)
    requires ItemRefsIn(item, keys) && ObjectRefsIn(o, keys)
    ensures ItemRefsIn(Attached(item, method_, o), keys)
  {
    hide ObjectRefsIn;
  }

  lemma {:induction false} PathsRefs(objects: seq<Documented>, keys: set<string>)
    requires forall i :: 0 <= i < |objects| ==> ObjectRefsIn(objects[i].spec, keys)
    ensures forall path :: path in PathsOf(objects) ==> ItemRefsIn(PathsOf(objects)[path], keys)
  {
    hide ObjectRefsIn, Attached, WithParameters, SpecPath, PathParameters;
    if objects != [] {
      var entry := objects[|objects| - 1];
      PathsRefs(objects[..|objects| - 1], keys);
      WithParametersRefs(entry.spec, PathParameters(entry.route.path), keys);
      var item := ItemAt(PathsOf(objects[..|objects| - 1]), SpecPath(entry.route.path));
      assert ItemRefsIn(item, keys);
      AttachedRefs(item, entry.route.method_, WithParameters(entry.spec, PathParameters(entry.route.path)), keys);
      hide ItemRefsIn;
    }
  }

  /** The paths are those of objects that describe these routes, in order. */
  ghost predicate ArePathsFor(g: Graph, r: Ranks, defs: Components, described: map<string, Operation>,
                              routes: seq<Route>, paths: map<string, PathItem>)
    requires Ranked(g, r)
  {
    exists objects :: AreEntriesFor(g, r, defs, described, routes, objects) && paths == PathsOf(objects)
  }

  lemma NoPaths(g: Graph, r: Ranks, defs: Components, described: map<string, Operation>)
    requires Ranked(g, r)
    ensures ArePathsFor(g, r, defs, described, [], map[])
  {
    hide Ranked;
    assert AreEntriesFor(g, r, defs, described, [], []);
    assert PathsOf([]) == map[];
  }

  lemma PathAdded(g: Graph, r: Ranks, d0: Components, d1: Components, described: map<string, Operation>,
                  routes: seq<Route>, paths: map<string, PathItem>, route: Route, entry: Documented)
    requires Ranked(g, r) && Kept(d0, d1) && ArePathsFor(g, r, d0, described, routes, paths)
    requires IsEntryFor(g, r, d1, described, route, entry)
    ensures ArePathsFor(g, r, d1, described, routes + [route], WithEntry(paths, entry))
  {
    hide Ranked, Kept, AreEntriesFor, IsEntryFor, WithEntry, PathsOf;
    var objects :| AreEntriesFor(g, r, d0, described, routes, objects) && paths == PathsOf(objects);
    EntriesKept(g, r, d0, d1, described, routes, objects);
    EntryAdded(g, r, d1, described, routes, objects, route, entry);
    OneMorePath(objects, entry);
  }

  lemma ResolvedPaths(g: Graph, r: Ranks, defs: Components, described: map<string, Operation>, routes: seq<Route>,
                      paths: map<string, PathItem>)
    requires Ranked(g, r) && Seeded(defs) && ArePathsFor(g, r, defs, described, routes, paths)
    ensures forall path :: path in paths ==> ItemRefsIn(paths[path], defs.Keys)
  {
    hide Ranked, Seeded, AreEntriesFor, PathsOf, ObjectRefsIn, ItemRefsIn;
    var objects :| AreEntriesFor(g, r, defs, described, routes, objects) && paths == PathsOf(objects);
    EntriesRefs(g, r, defs, described, routes, objects);
    PathsRefs(objects, defs.Keys);
  }

  class Registry {
    var operations: seq<Operation>

    constructor ()
      ensures operations == []
    {
      operations := [];
    }

    method Describe(more: seq<Operation>)
      modifies this
      ensures operations == old(operations) + more
    {
      operations := operations + more;
    }

    /** Build. Every reference in the document resolves to a component; its paths are those of the documented
        routes, in order, each with the object that describes its operation; Error and Meta are what they
        were at the start. It ends for every program whose types have no cycle that generation follows. */
    method Build(g: Graph, allRoutes: seq<Route>, exact: seq<string>, prefixes: seq<string>) returns (doc: Document)
      requires Whole(g) && Acyclic(g) && Closed(g) && AllKnown(g, operations)
      ensures Complete(doc.schemas) && Seeded(doc.schemas)
      ensures var described := Described(operations);
        var routes := DocumentedRoutes(described, Sorted(allRoutes), exact, prefixes);
        ArePathsFor(g, RanksFor(g), doc.schemas, described, routes, doc.paths)
      ensures forall path :: path in doc.paths ==> ItemRefsIn(doc.paths[path], doc.schemas.Keys)
    {
      ghost var r := RanksFor(g);
      hide *;
      hide Whole, Acyclic, Closed;
      var described := DescribedMap();
      var gen := new Traversal(map["Error" := Some(ErrorComponent()), "Meta" := Some(MetaComponent())]);
      StartDocument(g, r, gen.defs);
      var routes := SortRoutes(allRoutes);
      var paths := PathsFor(gen, g, r, described, routes, exact, prefixes);
      doc := Document(gen.defs, paths);
      ResolvedPaths(g, r, gen.defs, described, DocumentedRoutes(described, routes, exact, prefixes), paths);
    }

    /** The loop over the sorted routes. */
    method PathsFor(gen: Traversal, g: Graph, ghost r: Ranks, described: map<string, Operation>, routes: seq<Route>,
                    exact: seq<string>, prefixes: seq<string>) returns (paths: map<string, PathItem>)
      requires Ranked(g, r) && Closed(g) && AllKnown(g, operations) && described == Described(operations)
      requires Complete(gen.defs) && Seeded(gen.defs)
      modifies gen
      ensures Complete(gen.defs) && Seeded(gen.defs)
      ensures var shown := DocumentedRoutes(described, routes, exact, prefixes);
        ArePathsFor(g, r, gen.defs, described, shown, paths)
    {
      hide Ranked, Closed, Complete, Kept, AllKnown, Described, IsDocumented, Seeded, ArePathsFor, WithEntry,
        IsEntryFor;
      paths := map[];
      NoPaths(g, r, gen.defs, described);
      var i := 0;
      assert routes[..0] == [];
      while i < |routes|
        modifies gen
        invariant 0 <= i <= |routes|
        invariant Complete(gen.defs) && Seeded(gen.defs)
        invariant var shown := DocumentedRoutes(described, routes[..i], exact, prefixes);
          ArePathsFor(g, r, gen.defs, described, shown, paths)
      {
        assert routes[..i + 1][..i] == routes[..i] && routes[..i + 1][i] == routes[i];
        var route := routes[i];
        ghost var shown := DocumentedRoutes(described, routes[..i], exact, prefixes);
        i := i + 1;
        if !IsDocumented(described, route, exact, prefixes) {
          continue;
        }
        ghost var before := gen.defs;
        var entry := EntryFor(gen, g, r, described, route);
        KeptKeys(before, gen.defs);
        PathAdded(g, r, before, gen.defs, described, shown, paths, route, entry);
        paths := AttachEntry(paths, entry);
      }
      assert routes[..i] == routes;
    }

    method DescribedMap() returns (described: map<string, Operation>)
      ensures described == Described(operations)
    {
      described := map[];
      var i := 0;
      while i < |operations|
        invariant 0 <= i <= |operations|
        invariant described == Described(operations[..i])
      {
        assert operations[..i + 1][..i] == operations[..i];
        described := described[Key(operations[i].method_, operations[i].path) := operations[i]];
        i := i + 1;
      }
      assert operations[..i] == operations;
    }

    method EntryFor(gen: Traversal, g: Graph, ghost r: Ranks, described: map<string, Operation>, route: Route)
        returns (entry: Documented)
      requires Ranked(g, r) && Closed(g) && AllKnown(g, operations) && described == Described(operations)
      requires Complete(gen.defs)
      modifies gen
      ensures Continues(old(gen.defs), gen.defs) && IsEntryFor(g, r, gen.defs, described, route, entry)
    {
      hide Ranked, Closed, Complete, AllKnown, Described, IsObjectOf, DefaultObject, OperationKnown;
      var key := Key(route.method_, route.path);
      if key in described {
        DescribedKnown(g, operations, key);
        var spec := ObjectFor(gen, g, r, described[key]);
        entry := Documented(route, Some(described[key]), spec);
      } else {
        entry := Documented(route, None, DefaultObject());
      }
    }
  }

  lemma StartDocument(g: Graph, r: Ranks, defs: Components)
    requires Ranked(g, r) && defs == map["Error" := Some(ErrorComponent()), "Meta" := Some(MetaComponent())]
    ensures Complete(defs) && Seeded(defs)
  {
    SeedIsComplete();
    hide Ranked, Complete, ErrorComponent, MetaComponent;
  }

  lemma EntryAdded(g: Graph, r: Ranks, defs: Components, described: map<string, Operation>, routes: seq<Route>,
                   objects: seq<Documented>, route: Route, entry: Documented)
    requires Ranked(g, r) && AreEntriesFor(g, r, defs, described, routes, objects)
    requires IsEntryFor(g, r, defs, described, route, entry)
    ensures AreEntriesFor(g, r, defs, described, routes + [route], objects + [entry])
  {
    hide Ranked, IsEntryFor;
  }
}
