/** What a built document shows, in terms of the routes, the described operations and the type graph alone. */
module DocumentMeaning {
  import opened Text
  import opened Routes
  import opened Schema
  import opened SchemaMeaning
  import opened Generator
  import opened OpenApi

  /** The elements with a property, in order. */
  function Filtered<T>(all: seq<T>, keep: T -> bool): seq<T> {
    if all == [] then [] else (if keep(all[0]) then [all[0]] else []) + Filtered(all[1..], keep)
  }

  lemma {:induction false} FilteredAppend<T>(x: seq<T>, y: T, keep: T -> bool)
    ensures Filtered(x + [y], keep) == Filtered(x, keep) + if keep(y) then [y] else []
  {
    FilteredStep(y, [], keep);
    if x == [] {
      assert x + [y] == [y] + [] && Filtered([], keep) == [];
    } else {
      FilteredStep(x[0], x[1..], keep);
      FilteredStep(x[0], x[1..] + [y], keep);
      hide Filtered;
      FilteredAppend(x[1..], y, keep);
      assert [x[0]] + x[1..] == x && [x[0]] + (x[1..] + [y]) == x + [y];
    }
  }

  lemma FilteredStep<T>(x: T, rest: seq<T>, keep: T -> bool)
    ensures Filtered([x] + rest, keep) == (if keep(x) then [x] else []) + Filtered(rest, keep)
  {
    assert ([x] + rest)[1..] == rest;
  }

  // ----- paths -----------------------------------------------------------------------------------------

  /** A segment with a colon or an asterisk in front. */
  predicate IsParam(segment: string) {
    segment != "" && (segment[0] == ':' || segment[0] == '*')
  }

  /** Segment by segment, parameters go into braces and everything else stays. */
  predicate ConvertsTo(path: string, spec: string) {
    var from, to_ := Split(path, '/'), Split(spec, '/');
    |from| == |to_| && forall i :: 0 <= i < |from| ==>
      to_[i] == if IsParam(from[i]) then "{" + from[i][1..] + "}" else from[i]
  }

  function NamesIn(segments: seq<string>): seq<string> {
    if segments == [] then []
    else (if IsParam(segments[0]) then [segments[0][1..]] else []) + NamesIn(segments[1..])
  }

  lemma ParamIs(segment: string)
    ensures IsParameter(segment) <==> IsParam(segment)
    ensures Converted(segment) == if IsParam(segment) then "{" + segment[1..] + "}" else segment
  {}

  lemma ConvertsExactly(path: string, spec: string)
    ensures ConvertsTo(path, spec) <==> SpecPath(path) == spec
  {
    var segments := Split(path, '/');
    SegmentsConverted(path);
    JoinSplit(spec, '/');
    hide Split, Join, Converted;
    forall i | 0 <= i < |segments|
      ensures ConvertedAll(segments)[i] == if IsParam(segments[i]) then "{" + segments[i][1..] + "}" else segments[i]
    {
      ParamIs(segments[i]);
    }
    if ConvertsTo(path, spec) {
      assert Split(spec, '/') == ConvertedAll(segments);
      assert "/" == ['/'];
    }
  }

  lemma {:induction false} NamesAppend(segments: seq<string>, last: string)
    ensures NamesIn(segments + [last]) == NamesIn(segments) + if IsParam(last) then [last[1..]] else []
  {
    hide IsParam;
    if segments == [] {
      assert ([] + [last])[1..] == [] && NamesIn([]) == [];
    } else {
      assert (segments + [last])[1..] == segments[1..] + [last];
      NamesAppend(segments[1..], last);
    }
  }

  lemma {:induction false} NamesAre(segments: seq<string>)
    ensures ParameterNames(segments) == NamesIn(segments)
  {
    if segments != [] {
      var front, last := segments[..|segments| - 1], segments[|segments| - 1];
      NamesAre(front);
      NamesAppend(front, last);
      ParamIs(last);
      hide IsParam, IsParameter, NamesIn;
      assert segments == front + [last];
    }
  }

  /** `o` is `spec` with a required string parameter in front for each of these names, the last one first. */
  ghost predicate WithFront(names: seq<string>, spec: OperationObject, o: OperationObject) {
    && o.request == spec.request && o.responses == spec.responses
    && |o.parameters| == |names| + |spec.parameters|
    && o.parameters[|names|..] == spec.parameters
    && forall k :: 0 <= k < |names| ==> IsPathParameter(o.parameters[k], names[|names| - 1 - k])
  }

  predicate IsPathParameter(p: Parameter, name: string) {
    p.name == name && p.required && p.schema == ANY.(kind := "string")
  }

  lemma {:induction false} FrontIs(o: OperationObject, names: seq<string>)
    ensures WithFront(names, o, WithParameters(o, names))
  {
    if names != [] {
      var front, last := names[..|names| - 1], names[|names| - 1];
      FrontIs(o, front);
      var before := WithParameters(o, front);
      var head := [Parameter(last, true, Simple("string", ""))];
      assert WithParameters(o, names) == before.(parameters := head + before.parameters);
      hide WithParameters;
      assert (head + before.parameters)[|names|..] == before.parameters[|front|..];
    }
  }

  // ----- one field of a path item ------------------------------------------------------------------------

  /** The object is for this path and method. */
  predicate IsFor(d: Documented, path: string, method_: string) {
    d.route.method_ == method_ && ConvertsTo(d.route.path, path)
  }

  /** A field of a path item: empty exactly if no object is for this path and method, and otherwise the last
      one that is, with the parameters of its route in front. */
  ghost predicate SlotIs(objects: seq<Documented>, path: string, method_: string, slot: Option<OperationObject>) {
    match slot
    case None => forall i :: 0 <= i < |objects| ==> !IsFor(objects[i], path, method_)
    case Some(o) => exists i :: IsLastFor(objects, path, method_, i) && Shows(objects[i], o)
  }

  ghost predicate IsLastFor(objects: seq<Documented>, path: string, method_: string, i: int) {
    && 0 <= i < |objects| && IsFor(objects[i], path, method_)
    && forall j :: i < j < |objects| ==> !IsFor(objects[j], path, method_)
  }

  ghost predicate Shows(d: Documented, o: OperationObject) {
    WithFront(NamesIn(Split(d.route.path, '/')), d.spec, o)
  }

  lemma SlotNext(objects: seq<Documented>, d: Documented, path: string, method_: string,
                 before: Option<OperationObject>, after: Option<OperationObject>)
    requires SlotIs(objects, path, method_, before)
    requires if IsFor(d, path, method_)
      then after.Some? && Shows(d, after.value)
      else after == before
    ensures SlotIs(objects + [d], path, method_, after)
  {
    hide IsFor, Shows;
    var all := objects + [d];
    assert all[|objects|] == d;
    if IsFor(d, path, method_) {
      assert IsLastFor(all, path, method_, |objects|);
    } else if before.Some? {
      var i :| IsLastFor(objects, path, method_, i) && Shows(objects[i], before.value);
      assert IsLastFor(all, path, method_, i);
    }
  }

  ghost predicate ItemIs(objects: seq<Documented>, path: string, item: PathItem) {
    && SlotIs(objects, path, "GET", item.get)
    && SlotIs(objects, path, "POST", item.post)
    && SlotIs(objects, path, "PUT", item.put)
    && SlotIs(objects, path, "PATCH", item.patch)
    && SlotIs(objects, path, "DELETE", item.delete)
  }

  predicate HasPath(objects: seq<Documented>, path: string) {
    exists i :: 0 <= i < |objects| && ConvertsTo(objects[i].route.path, path)
  }

  lemma HasPathNext(objects: seq<Documented>, d: Documented, path: string)
    ensures HasPath(objects + [d], path) <==> HasPath(objects, path) || ConvertsTo(d.route.path, path)
  {
    hide ConvertsTo;
    var all := objects + [d];
    assert all[|objects|] == d;
    if HasPath(objects, path) {
      var i :| 0 <= i < |objects| && ConvertsTo(objects[i].route.path, path);
      assert all[i] == objects[i];
    }
  }

  lemma ItemNext(objects: seq<Documented>, d: Documented, path: string, before: PathItem, o: OperationObject)
    requires ItemIs(objects, path, before) && ConvertsTo(d.route.path, path)
    requires Shows(d, o)
    ensures ItemIs(objects + [d], path, Attached(before, d.route.method_, o))
  {
    var after := Attached(before, d.route.method_, o);
    hide SlotIs, Shows, ConvertsTo;
    SlotNext(objects, d, path, "GET", before.get, after.get);
    SlotNext(objects, d, path, "POST", before.post, after.post);
    SlotNext(objects, d, path, "PUT", before.put, after.put);
    SlotNext(objects, d, path, "PATCH", before.patch, after.patch);
    SlotNext(objects, d, path, "DELETE", before.delete, after.delete);
  }

  lemma ItemStays(objects: seq<Documented>, d: Documented, path: string, item: PathItem)
    requires ItemIs(objects, path, item) && !ConvertsTo(d.route.path, path)
    ensures ItemIs(objects + [d], path, item)
  {
    hide SlotIs, ConvertsTo, Shows;
    SlotNext(objects, d, path, "GET", item.get, item.get);
    SlotNext(objects, d, path, "POST", item.post, item.post);
    SlotNext(objects, d, path, "PUT", item.put, item.put);
    SlotNext(objects, d, path, "PATCH", item.patch, item.patch);
    SlotNext(objects, d, path, "DELETE", item.delete, item.delete);
  }

  lemma NothingShown(objects: seq<Documented>, path: string)
    requires !HasPath(objects, path)
    ensures ItemIs(objects, path, EmptyItem())
  {
    hide ConvertsTo;
  }

  /** The paths made of some objects, field by field. */
  lemma {:induction false} ItemsAre(objects: seq<Documented>, path: string)
    ensures path in PathsOf(objects) <==> HasPath(objects, path)
    ensures path in PathsOf(objects) ==> ItemIs(objects, path, PathsOf(objects)[path])
  {
    hide ItemIs, HasPath, ConvertsTo, Attached, WithParameters, SpecPath, NamesIn, WithFront, Split;
    if objects == [] {
      NoPath(path);
    } else {
      var front, d := objects[..|objects| - 1], objects[|objects| - 1];
      ItemsAre(front, path);
      assert objects == front + [d];
      HasPathNext(front, d, path);
      ConvertsExactly(d.route.path, path);
      var names := PathParameters(d.route.path);
      NamesAre(Split(d.route.path, '/'));
      FrontIs(d.spec, names);
      if !HasPath(front, path) {
        NothingShown(front, path);
      }
      if ConvertsTo(d.route.path, path) {
        ItemNext(front, d, path, ItemAt(PathsOf(front), path), WithParameters(d.spec, names));
      } else if HasPath(front, path) {
        ItemStays(front, d, path, PathsOf(front)[path]);
      }
    }
  }

  lemma NoPath(path: string)
    ensures !HasPath([], path)
  {}

  // ----- which routes are shown, and with what -----------------------------------------------------------

  /** The operation is the last one described for the method and path of the route. */
  ghost predicate IsDescription(operations: seq<Operation>, route: Route, op: Operation) {
    exists i :: 0 <= i < |operations| && operations[i] == op && Names(op, route) &&
      forall j :: i < j < |operations| ==> !Names(operations[j], route)
  }

  predicate Names(op: Operation, route: Route) {
    op.method_ + " " + op.path == route.method_ + " " + route.path
  }

  /** Not excluded, neither by its whole path nor by a prefix, and not hidden by its last description. */
  ghost predicate IsShown(operations: seq<Operation>, route: Route, exact: seq<string>, prefixes: seq<string>) {
    && route.path !in exact
    && (forall i :: 0 <= i < |prefixes| && prefixes[i] != "" ==> !(prefixes[i] <= route.path))
    && (forall op :: IsDescription(operations, route, op) ==> !op.hidden)
  }

  lemma {:induction false} DescriptionIs(operations: seq<Operation>, route: Route, op: Operation)
    ensures DescriptionOf(Described(operations), route) == Some(op) <==> IsDescription(operations, route, op)
  {
    if operations != [] {
      var front, last := operations[..|operations| - 1], operations[|operations| - 1];
      DescriptionIs(front, route, op);
      LastDescription(front, last, route, op);
      assert operations == front + [last];
      hide IsDescription;
    }
  }

  lemma LastDescription(front: seq<Operation>, last: Operation, route: Route, op: Operation)
    ensures IsDescription(front + [last], route, op) <==>
      if Names(last, route) then op == last else IsDescription(front, route, op)
  {
    hide Names;
    var all := front + [last];
    assert all[|front|] == last;
    if IsDescription(all, route, op) {
      var i :| 0 <= i < |all| && all[i] == op && Names(op, route) &&
        forall j :: i < j < |all| ==> !Names(all[j], route);
      if i < |front| {
        assert front[i] == op && forall j :: i < j < |front| ==> front[j] == all[j];
      }
    }
    if !Names(last, route) && IsDescription(front, route, op) {
      var i :| 0 <= i < |front| && front[i] == op && Names(op, route) &&
        forall j :: i < j < |front| ==> !Names(front[j], route);
      assert all[i] == op;
    }
  }

  lemma ShownExactly(operations: seq<Operation>, route: Route, exact: seq<string>, prefixes: seq<string>)
    ensures IsDocumented(Described(operations), route, exact, prefixes) <==> IsShown(operations, route, exact, prefixes)
  {
    hide Described, IsDescription;
    var op := DescriptionOf(Described(operations), route);
    if op.Some? {
      DescriptionIs(operations, route, op.value);
    }
    forall o | IsDescription(operations, route, o)
      ensures op == Some(o)
    {
      DescriptionIs(operations, route, o);
    }
  }

  lemma {:induction false} RoutesShown(operations: seq<Operation>, routes: seq<Route>, exact: seq<string>,
                                       prefixes: seq<string>, keep: Route -> bool)
    requires forall route :: keep(route) <==> IsShown(operations, route, exact, prefixes)
    ensures DocumentedRoutes(Described(operations), routes, exact, prefixes) == Filtered(routes, keep)
  {
    hide Described, IsShown, IsDocumented;
    if routes != [] {
      var front, last := routes[..|routes| - 1], routes[|routes| - 1];
      RoutesShown(operations, front, exact, prefixes, keep);
      FilteredAppend(front, last, keep);
      ShownExactly(operations, last, exact, prefixes);
      hide Filtered;
      assert routes == front + [last];
    }
  }

  // ----- what an object says ---------------------------------------------------------------------------------

  /** The codes with a status of their own. */
  predicate IsListed(code: string, status: string) {
    || (status == "400" && (code == "invalid_json" || code == "invalid_query" || code == "invalid_path"))
    || (status == "401" && (code == "invalid_token" || code == "missing_token"))
    || (status == "401" && (code == "invalid_credentials" || code == "invalid_refresh_token"))
    || (status == "404" && (code == "not_found" || code == "task_not_found"))
    || (status == "405" && code == "method_not_allowed")
    || (status == "409" && code == "email_taken")
    || (status == "413" && code == "body_too_large")
    || (status == "422" && code == "validation_failed")
    || (status == "500" && code == "internal_error")
    || (status == "503" && code == "not_ready")
  }

  /** The status of a code: its own, or 404 for those that end in `_not_found`, or 400. */
  ghost predicate HasStatus(code: string, status: string) {
    || IsListed(code, status)
    || ((forall s :: !IsListed(code, s)) &&
        status == if |code| >= 10 && code[|code| - 10..] == "_not_found" then "404" else "400")
  }

  lemma StatusIs(code: string, status: string)
    ensures ErrorStatus(code) == status <==> HasStatus(code, status)
  {
    ListedIs(code, status);
    forall s
      ensures IsListed(code, s) ==> ErrorStatus(code) == s
    {
      ListedIs(code, s);
    }
    OwnIsListed(code);
    if !HasOwn(code) {
      UnlistedIs(code);
    }
    hide ErrorStatus, IsListed, HasOwn;
  }

  predicate HasOwn(code: string) {
    || code == "invalid_json" || code == "invalid_query" || code == "invalid_path" || code == "invalid_token"
    || code == "missing_token" || code == "invalid_credentials" || code == "invalid_refresh_token"
    || code == "not_found" || code == "task_not_found" || code == "method_not_allowed" || code == "email_taken"
    || code == "body_too_large" || code == "validation_failed" || code == "internal_error" || code == "not_ready"
  }

  lemma ListedIs(code: string, status: string)
    ensures IsListed(code, status) ==> ErrorStatus(code) == status
  {}

  lemma OwnIsListed(code: string)
    ensures (exists status :: IsListed(code, status)) <==> HasOwn(code)
  {
    assert IsListed("invalid_json", "400") && IsListed("invalid_query", "400") && IsListed("invalid_path", "400");
    assert IsListed("invalid_token", "401") && IsListed("missing_token", "401");
    assert IsListed("invalid_credentials", "401") && IsListed("invalid_refresh_token", "401");
    assert IsListed("not_found", "404") && IsListed("task_not_found", "404");
    assert IsListed("method_not_allowed", "405") && IsListed("email_taken", "409");
    assert IsListed("body_too_large", "413") && IsListed("validation_failed", "422");
    assert IsListed("internal_error", "500") && IsListed("not_ready", "503");
  }

  lemma UnlistedIs(code: string)
    requires !HasOwn(code)
    ensures ErrorStatus(code) == if |code| >= 10 && code[|code| - 10..] == "_not_found" then "404" else "400"
  {}

  /** The operation can fail with this status. */
  ghost predicate FailsWith(op: Operation, status: string) {
    || status == "500"
    || (op.request.Some? && status in ["400", "422"])
    || ((op.filters != [] || op.sorts != [] || op.paginated || op.list || op.query.Some?) && status == "400")
    || (op.security && status == "401")
    || exists code :: code in op.errorCodes && HasStatus(code, status)
  }

  lemma FailsExactly(op: Operation, status: string)
    ensures status in ErrorStatuses(op) <==> FailsWith(op, status)
  {
    hide HasStatus, ErrorStatus;
    forall code
      ensures ErrorStatus(code) == status <==> HasStatus(code, status)
    {
      StatusIs(code, status);
    }
    assert forall i :: 0 <= i < |op.errorCodes| ==> op.errorCodes[i] in op.errorCodes;
  }

  predicate IsRefTo(s: Schema, name: string) {
    s == ANY.(ref := "#/components/schemas/" + name)
  }

  /** An object schema with the data and, for a list, the metadata. */
  predicate IsEnvelope(s: Schema, data: Schema, list: bool) {
    && s.kind == "object" && s.ref == "" && !s.nullable
    && (if list then
          && s.properties.Keys == {"data", "meta"} && IsRefTo(s.properties["meta"], "Meta")
          && s.properties["data"] == ANY.(kind := "array", items := Some(data))
        else s.properties == map["data" := data])
  }

  /** The responses: the success response under its status, unless the operation can fail with that one, and
      under each status it can fail with a reference to Error. */
  ghost predicate ResponsesAre(op: Operation, responses: map<string, Option<Schema>>, data: Schema) {
    var success := if op.status == 204 then "204" else if op.status == 0 then "200" else Decimal(op.status);
    && (forall status :: status in responses <==> status == success || FailsWith(op, status))
    && (forall status :: status in responses && FailsWith(op, status) ==>
          responses[status].Some? && IsRefTo(responses[status].value, "Error"))
    && (!FailsWith(op, success) ==>
          if op.status == 204 then responses[success] == None
          else responses[success].Some? && IsEnvelope(responses[success].value, data, op.list))
  }

  lemma TwoHundred()
    ensures Decimal(200) == "200"
  {
    assert Decimal(2) == "2" && Decimal(20) == "20";
  }

  lemma WithErrorsIs(op: Operation, success: string, body: Option<Schema>, status: string)
    ensures var responses := WithErrors(map[success := body], ErrorStatuses(op));
      && (status in responses <==> status == success || FailsWith(op, status))
      && (status in responses && FailsWith(op, status) ==>
            responses[status].Some? && IsRefTo(responses[status].value, "Error"))
      && (status == success && !FailsWith(op, success) ==> responses[success] == body)
  {
    FailsExactly(op, status);
    hide FailsWith, ErrorStatuses;
  }

  lemma EnvelopeIs(data: Schema, list: bool)
    ensures IsEnvelope(Envelope(data, list), data, list)
  {}

  /** The responses of a described operation, with the schema of its response value. */
  lemma ResponsesMean(g: Graph, r: Ranks, defs: Components, op: Operation, responses: map<string, Option<Schema>>)
    requires Ranked(g, r) && Known(g, op.response) && AreResponsesOf(g, r, defs, op, responses)
    ensures exists data: Schema ::
      && ResponsesAre(op, responses, data)
      && (op.status != 204 ==>
            if op.response.None? then data == ANY else IsSchemaOf(g, r, defs, op.response.value, data))
  {
    hide Ranked, IsSchemaOf, WithErrors, FailsWith, ErrorStatuses, IsRefTo, Envelope, IsEnvelope, Decimal;
    if op.status == 204 {
      forall status {
        WithErrorsIs(op, "204", None, status);
      }
      assert ResponsesAre(op, responses, ANY);
    } else {
      TwoHundred();
      var data: Schema :|
        && (if op.response.None? then data == ANY else IsSchemaOf(g, r, defs, op.response.value, data))
        && responses == WithErrors(map[SuccessStatus(op) := Some(Envelope(data, op.list))], ErrorStatuses(op));
      EnvelopeIs(data, op.list);
      forall status {
        WithErrorsIs(op, SuccessStatus(op), Some(Envelope(data, op.list)), status);
      }
      assert ResponsesAre(op, responses, data);
    }
  }

  // ----- parameters -----------------------------------------------------------------------------------------

  predicate IsText(p: Parameter, name: string) {
    p.name == name && !p.required && p.schema == ANY.(kind := "string")
  }

  predicate IsNumber(p: Parameter, name: string) {
    p.name == name && !p.required && p.schema == ANY.(kind := "integer")
  }

  /** Behind the parameters of the query struct: one for each filter, one if there are sorts, two if there are
      pages. */
  predicate FixedAre(op: Operation, ps: seq<Parameter>) {
    var n := |op.filters|;
    var m := if op.sorts != [] then n + 1 else n;
    && |ps| == (if op.paginated || op.list then m + 2 else m)
    && (forall i :: 0 <= i < n ==> IsText(ps[i], "filter[" + op.filters[i] + "]"))
    && (op.sorts != [] ==> IsText(ps[n], "sort"))
    && (op.paginated || op.list ==> IsNumber(ps[m], "page") && IsNumber(ps[m + 1], "per_page"))
  }

  lemma FixedMeans(op: Operation)
    ensures FixedAre(op, FixedParameters(op))
  {}

  /** One parameter of a query struct. */
  ghost predicate IsFieldParameter(g: Graph, r: Ranks, defs: Components, f: Field, p: Parameter)
    requires Ranked(g, r)
  {
    && f.typ in g.types && IsTagName(f.form, p.name) && IsSchemaOf(g, r, defs, f.typ, p.schema)
    && (p.required <==> "required" in Split(f.validate, ','))
  }

  /** A field gives a parameter if it is exported and its form tag has a name other than `-`. */
  ghost predicate GivesParameter(f: Field) {
    f.exported && !IsTagName(f.form, "") && !IsTagName(f.form, "-")
  }

  lemma {:induction false} QueryFieldsAre(fields: seq<Field>, keep: Field -> bool)
    requires forall f :: keep(f) <==> GivesParameter(f)
    ensures QueryFields(fields) == Filtered(fields, keep)
  {
    hide GivesParameter, IsQueryField;
    if fields != [] {
      var front, last := fields[..|fields| - 1], fields[|fields| - 1];
      QueryFieldsAre(front, keep);
      FilteredAppend(front, last, keep);
      QueryFieldIs(last);
      hide Filtered;
      assert fields == front + [last];
    }
  }

  lemma QueryFieldIs(f: Field)
    ensures IsQueryField(f) <==> GivesParameter(f)
  {
    TagNameIs(f.form, "");
    TagNameIs(f.form, "-");
    hide IndexOf, IsTagName;
  }

  /** The parameters of a query struct, one for each field that gives one; other values give none. */
  ghost predicate QueryAre(g: Graph, r: Ranks, defs: Components, op: Operation, ps: seq<Parameter>, keep: Field -> bool)
    requires Ranked(g, r) && Known(g, op.query)
  {
    if op.query.None? || !g.types[Pointee(g, r, op.query.value)].Struct? then ps == []
    else
      var fields := Filtered(g.types[Pointee(g, r, op.query.value)].fields, keep);
      |fields| == |ps| && forall i :: 0 <= i < |ps| ==> IsFieldParameter(g, r, defs, fields[i], ps[i])
  }

  /** The parameters of a described operation. */
  lemma ParametersMean(g: Graph, r: Ranks, defs: Components, op: Operation, ps: seq<Parameter>, keep: Field -> bool)
    requires Ranked(g, r) && Known(g, op.query) && AreAllParametersOf(g, r, defs, op, ps)
    requires forall f :: keep(f) <==> GivesParameter(f)
    ensures exists n: nat :: n <= |ps| && FixedAre(op, ps[n..]) && QueryAre(g, r, defs, op, ps[..n], keep)
  {
    hide Ranked, FixedParameters, FixedAre, Pointee, QueryFields, IsSchemaOf, GivesParameter, Filtered, Split;
    FixedMeans(op);
    var query: seq<Parameter> :| ps == query + FixedParameters(op) &&
      if op.query.None? then query == []
      else
        var t := Pointee(g, r, op.query.value);
        if g.types[t].Struct? then AreParametersOf(g, r, defs, QueryFields(g.types[t].fields), query)
        else query == [];
    assert ps[|query|..] == FixedParameters(op) && ps[..|query|] == query;
    if op.query.Some? && g.types[Pointee(g, r, op.query.value)].Struct? {
      var all := g.types[Pointee(g, r, op.query.value)].fields;
      QueryFieldsAre(all, keep);
      var fields := Filtered(all, keep);
      forall i | 0 <= i < |query|
        ensures IsFieldParameter(g, r, defs, fields[i], ps[i])
      {
        TagNameIs(fields[i].form, FormName(fields[i]));
        hide IndexOf, IsTagName;
      }
    }
  }

  // ----- the components that are always there ---------------------------------------------------------------

  predicate IsPlain(s: Schema, kind: string, format: string) {
    s == ANY.(kind := kind, format := format)
  }

  /** An error has a code, a message, details of any form and a request id; the first two are required. */
  lemma ErrorSays()
    ensures ErrorComponent() == ANY.(kind := "object", properties := map["error" := ErrorFields()])
    ensures var fields := ErrorFields();
      && fields.kind == "object" && fields.required == ["code", "message"]
      && fields.properties.Keys == {"code", "message", "details", "request_id"}
      && IsPlain(fields.properties["code"], "string", "") && IsPlain(fields.properties["message"], "string", "")
      && IsPlain(fields.properties["details"], "", "") && IsPlain(fields.properties["request_id"], "string", "")
  {}

  /** The metadata of a list has four integers, two of them with 64 bits. */
  lemma MetaSays()
    ensures var s := MetaComponent();
      && s.kind == "object" && s.properties.Keys == {"page", "per_page", "total", "total_pages"}
      && IsPlain(s.properties["page"], "integer", "") && IsPlain(s.properties["per_page"], "integer", "")
      && IsPlain(s.properties["total"], "integer", "int64")
      && IsPlain(s.properties["total_pages"], "integer", "int64")
  {}

  // ----- the document ------------------------------------------------------------------------------------------

  lemma {:induction false} FilteredHolds<T>(all: seq<T>, keep: T -> bool, x: T)
    ensures x in Filtered(all, keep) <==> x in all && keep(x)
  {
    if all != [] {
      FilteredHolds(all[1..], keep, x);
      assert all == [all[0]] + all[1..];
    }
  }

  /** What a route that nobody described is shown with. */
  predicate IsDefault(o: OperationObject) {
    && o.request == None && o.parameters == [] && o.responses.Keys == {"200", "500"}
    && o.responses["200"].Some? && IsEnvelope(o.responses["200"].value, ANY, false)
    && o.responses["500"].Some? && IsRefTo(o.responses["500"].value, "Error")
  }

  /** The object is that of the last description of its route, if there is one. */
  ghost predicate IsObjectFor(g: Graph, r: Ranks, defs: Components, operations: seq<Operation>, d: Documented)
    requires Ranked(g, r)
  {
    && (forall op :: IsDescription(operations, d.route, op) ==>
          OperationKnown(g, op) && IsObjectOf(g, r, defs, op, d.spec))
    && ((forall op :: !IsDescription(operations, d.route, op)) ==> IsDefault(d.spec))
  }

  lemma ObjectForIs(g: Graph, r: Ranks, defs: Components, operations: seq<Operation>, route: Route, d: Documented)
    requires Ranked(g, r) && IsEntryFor(g, r, defs, Described(operations), route, d)
    ensures d.route == route && IsObjectFor(g, r, defs, operations, d)
  {
    if DescriptionOf(Described(operations), route).None? {
      DefaultIs();
    } else {
      DescriptionIs(operations, route, DescriptionOf(Described(operations), route).value);
    }
    hide Ranked, IsObjectOf, Described, IsDescription, DescriptionOf, DefaultObject, IsDefault, OperationKnown;
    forall op | IsDescription(operations, route, op)
      ensures DescriptionOf(Described(operations), route) == Some(op)
    {
      DescriptionIs(operations, route, op);
    }
  }

  lemma DefaultIs()
    ensures IsDefault(DefaultObject())
  {}

  /** The objects of a document: one for each shown route, in the order of paths and then methods. */
  ghost predicate ShowsRoutes(g: Graph, r: Ranks, defs: Components, operations: seq<Operation>, routes: seq<Route>,
                              objects: seq<Documented>)
    requires Ranked(g, r)
  {
    |objects| == |routes| &&
    forall i :: 0 <= i < |routes| ==> objects[i].route == routes[i] && IsObjectFor(g, r, defs, operations, objects[i])
  }

  lemma ObjectsShow(g: Graph, r: Ranks, defs: Components, operations: seq<Operation>, routes: seq<Route>,
                    objects: seq<Documented>)
    requires Ranked(g, r) && AreEntriesFor(g, r, defs, Described(operations), routes, objects)
    ensures ShowsRoutes(g, r, defs, operations, routes, objects)
  {
    hide Ranked, Described, IsEntryFor, IsObjectFor;
    forall i | 0 <= i < |routes|
      ensures objects[i].route == routes[i] && IsObjectFor(g, r, defs, operations, objects[i])
    {
      assert IsEntryFor(g, r, defs, Described(operations), routes[i], objects[i]);
      ObjectForIs(g, r, defs, operations, routes[i], objects[i]);
    }
  }

  ghost predicate ItemsShow(objects: seq<Documented>, paths: map<string, PathItem>) {
    forall path :: (path in paths <==> HasPath(objects, path)) &&
      (path in paths ==> ItemIs(objects, path, paths[path]))
  }

  /** The paths of a built document: those of the shown routes, and under each, method by method, the object of
      the last shown route that converts to it. */
  lemma DocumentShows(g: Graph, r: Ranks, defs: Components, operations: seq<Operation>, allRoutes: seq<Route>,
                      exact: seq<string>, prefixes: seq<string>, paths: map<string, PathItem>, keep: Route -> bool)
    requires Ranked(g, r) && forall route :: keep(route) <==> IsShown(operations, route, exact, prefixes)
    requires var shown := DocumentedRoutes(Described(operations), Sorted(allRoutes), exact, prefixes);
      ArePathsFor(g, r, defs, Described(operations), shown, paths)
    ensures exists objects ::
      && ItemsShow(objects, paths)
      && ShowsRoutes(g, r, defs, operations, Filtered(Sorted(allRoutes), keep), objects)
  {
    hide Ranked, DocumentedRoutes, Described, AreEntriesFor, IsShown, Sorted, Filtered, ShowsRoutes, PathsOf, HasPath,
      ItemIs;
    RoutesShown(operations, Sorted(allRoutes), exact, prefixes, keep);
    var shown := Filtered(Sorted(allRoutes), keep);
    var objects :| AreEntriesFor(g, r, defs, Described(operations), shown, objects) && paths == PathsOf(objects);
    ObjectsShow(g, r, defs, operations, shown, objects);
    forall path
      ensures path in paths <==> HasPath(objects, path)
      ensures path in paths ==> ItemIs(objects, path, paths[path])
    {
      ItemsAre(objects, path);
    }
    assert ItemsShow(objects, paths);
  }

  /** A shown route has this method and converts to this path. */
  ghost predicate IsServed(operations: seq<Operation>, allRoutes: seq<Route>, exact: seq<string>,
                           prefixes: seq<string>, path: string, method_: string) {
    exists route :: route in allRoutes && route.method_ == method_ && ConvertsTo(route.path, path) &&
      IsShown(operations, route, exact, prefixes)
  }

  /** A path item is there exactly if a shown route converts to its path, and each of its five fields exactly
      if one with that method does. */
  lemma FieldsExactly(g: Graph, r: Ranks, defs: Components, operations: seq<Operation>, allRoutes: seq<Route>,
                      exact: seq<string>, prefixes: seq<string>, paths: map<string, PathItem>, keep: Route -> bool,
                      path: string)
    requires Ranked(g, r) && forall route :: keep(route) <==> IsShown(operations, route, exact, prefixes)
    requires var shown := DocumentedRoutes(Described(operations), Sorted(allRoutes), exact, prefixes);
      ArePathsFor(g, r, defs, Described(operations), shown, paths)
    ensures path in paths <==> exists method_ :: IsServed(operations, allRoutes, exact, prefixes, path, method_)
    ensures path in paths ==>
      && (paths[path].get.Some? <==> IsServed(operations, allRoutes, exact, prefixes, path, "GET"))
      && (paths[path].post.Some? <==> IsServed(operations, allRoutes, exact, prefixes, path, "POST"))
      && (paths[path].put.Some? <==> IsServed(operations, allRoutes, exact, prefixes, path, "PUT"))
      && (paths[path].patch.Some? <==> IsServed(operations, allRoutes, exact, prefixes, path, "PATCH"))
      && (paths[path].delete.Some? <==> IsServed(operations, allRoutes, exact, prefixes, path, "DELETE"))
  {
    DocumentShows(g, r, defs, operations, allRoutes, exact, prefixes, paths, keep);
    hide Ranked, ArePathsFor, DocumentedRoutes, Sorted, Filtered, IsServed, IsShown, HasPath, SlotIs, ShowsRoutes;
    var objects :| ItemsShow(objects, paths) &&
      ShowsRoutes(g, r, defs, operations, Filtered(Sorted(allRoutes), keep), objects);
    ServedPath(g, r, defs, operations, allRoutes, exact, prefixes, keep, objects, path);
    if path in paths {
      var item := paths[path];
      ServedField(g, r, defs, operations, allRoutes, exact, prefixes, keep, objects, path, "GET", item.get);
      ServedField(g, r, defs, operations, allRoutes, exact, prefixes, keep, objects, path, "POST", item.post);
      ServedField(g, r, defs, operations, allRoutes, exact, prefixes, keep, objects, path, "PUT", item.put);
      ServedField(g, r, defs, operations, allRoutes, exact, prefixes, keep, objects, path, "PATCH", item.patch);
      ServedField(g, r, defs, operations, allRoutes, exact, prefixes, keep, objects, path, "DELETE", item.delete);
    }
  }

  lemma ShownRoute(g: Graph, r: Ranks, defs: Components, operations: seq<Operation>, allRoutes: seq<Route>,
                   keep: Route -> bool, objects: seq<Documented>, route: Route)
    requires Ranked(g, r) && ShowsRoutes(g, r, defs, operations, Filtered(Sorted(allRoutes), keep), objects)
    ensures (exists i :: 0 <= i < |objects| && objects[i].route == route) <==> route in allRoutes && keep(route)
  {
    hide Ranked, Sorted, IsObjectFor;
    var shown := Filtered(Sorted(allRoutes), keep);
    FilteredHolds(Sorted(allRoutes), keep, route);
    SortedInOrder(allRoutes);
    assert route in Sorted(allRoutes) <==> route in multiset(Sorted(allRoutes));
    hide Filtered;
    if route in shown {
      var i :| 0 <= i < |shown| && shown[i] == route;
      assert objects[i].route == route;
    }
    if i :| 0 <= i < |objects| && objects[i].route == route {
      assert shown[i] == route;
    }
  }

  lemma ServedField(g: Graph, r: Ranks, defs: Components, operations: seq<Operation>, allRoutes: seq<Route>,
                    exact: seq<string>, prefixes: seq<string>, keep: Route -> bool, objects: seq<Documented>,
                    path: string, method_: string, slot: Option<OperationObject>)
    requires Ranked(g, r) && forall route :: keep(route) <==> IsShown(operations, route, exact, prefixes)
    requires ShowsRoutes(g, r, defs, operations, Filtered(Sorted(allRoutes), keep), objects)
    requires SlotIs(objects, path, method_, slot)
    ensures slot.Some? <==> IsServed(operations, allRoutes, exact, prefixes, path, method_)
  {
    hide Ranked, Sorted, Filtered, ShowsRoutes, IsShown, ConvertsTo, Shows;
    if slot.Some? {
      var i :| IsLastFor(objects, path, method_, i) && Shows(objects[i], slot.value);
      ShownRoute(g, r, defs, operations, allRoutes, keep, objects, objects[i].route);
    }
    if IsServed(operations, allRoutes, exact, prefixes, path, method_) {
      var route :| route in allRoutes && route.method_ == method_ && ConvertsTo(route.path, path) &&
        IsShown(operations, route, exact, prefixes);
      ShownRoute(g, r, defs, operations, allRoutes, keep, objects, route);
      var i :| 0 <= i < |objects| && objects[i].route == route;
      assert IsFor(objects[i], path, method_);
    }
  }

  lemma ServedPath(g: Graph, r: Ranks, defs: Components, operations: seq<Operation>, allRoutes: seq<Route>,
                   exact: seq<string>, prefixes: seq<string>, keep: Route -> bool, objects: seq<Documented>,
                   path: string)
    requires Ranked(g, r) && forall route :: keep(route) <==> IsShown(operations, route, exact, prefixes)
    requires ShowsRoutes(g, r, defs, operations, Filtered(Sorted(allRoutes), keep), objects)
    ensures HasPath(objects, path) <==>
      exists method_ :: IsServed(operations, allRoutes, exact, prefixes, path, method_)
  {
    hide Ranked, Sorted, Filtered, ShowsRoutes, IsShown, ConvertsTo;
    if HasPath(objects, path) {
      var i :| 0 <= i < |objects| && ConvertsTo(objects[i].route.path, path);
      ShownRoute(g, r, defs, operations, allRoutes, keep, objects, objects[i].route);
      assert IsServed(operations, allRoutes, exact, prefixes, path, objects[i].route.method_);
    }
    if method_ :| IsServed(operations, allRoutes, exact, prefixes, path, method_) {
      var route :| route in allRoutes && route.method_ == method_ && ConvertsTo(route.path, path) &&
        IsShown(operations, route, exact, prefixes);
      ShownRoute(g, r, defs, operations, allRoutes, keep, objects, route);
    }
  }
}
