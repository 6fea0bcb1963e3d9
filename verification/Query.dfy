/** runtime/query/query.go: from request parameters to a validated Result. */
module Query {
  import opened Text
  import opened Numbers

  // ----- declarations ---------------------------------------------------------------

  datatype Op = OpEq | OpLike | OpIn | OpGte | OpLte | OpGt | OpLt

  datatype FilterKind = KindExact | KindPartial | KindIn | KindCompare

  const MAX_IN_VALUES := 100

  datatype Filter = Filter(name: string, column: string, kind: FilterKind, isBool: bool)

  datatype Sort = Sort(name: string, column: string)

  datatype Options = Options(
    allowedFilters: seq<Filter>, allowedSorts: seq<Sort>, defaultSort: string,
    defaultPerPage: int64, maxPerPage: int64, cursorSort: string)

  datatype FilterValue = FilterValue(name: string, column: string, op: Op, values: seq<string>, isBool: bool)

  datatype SortValue = SortValue(column: string, desc: bool)

  datatype Cursor = Cursor(value: string, id: string)

  datatype Result = Result(filters: seq<FilterValue>, sorts: seq<SortValue>, page: int64, perPage: int64,
                           cursorMode: bool, cursor: Option<Cursor>)

  /** Parse answers a result, the offending parameters (status 400), or a configuration mistake
      (status 500). */
  datatype Outcome = Accepted(result: Result) | Rejected(invalid: seq<string>) | Misconfigured

  /** URL query parameters: every present key has at least one value. */
  type Values = m: map<string, seq<string>> | forall k :: k in m ==> m[k] != []

  function FirstValue(values: Values, key: string): string {
    if key in values then values[key][0] else ""
  }

  predicate IsIdentStart(c: char) {
    'A' <= c <= 'Z' || 'a' <= c <= 'z' || c == '_'
  }

  predicate IsIdentChar(c: char) {
    IsIdentStart(c) || IsDigit(c) || c == '.'
  }

  /** identifierPattern. */
  predicate IsIdentifier(s: string) {
    s != "" && IsIdentStart(s[0]) && forall i :: 0 <= i < |s| ==> IsIdentChar(s[i])
  }

  // ----- filter keys ------------------------------------------------------------------

  function BracketIndex(s: string): (i: nat)
    ensures i <= |s|
    ensures forall k :: 0 <= k < i ==> s[k] != '[' && s[k] != ']'
    ensures i < |s| ==> s[i] == '[' || s[i] == ']'
  {
    if s == "" || s[0] == '[' || s[0] == ']' then 0 else 1 + BracketIndex(s[1..])
  }

  predicate IsBracketed(s: string) {
    s != "" && forall k :: 0 <= k < |s| ==> s[k] != '[' && s[k] != ']'
  }

  /** What follows the name: nothing, or an operator in brackets. */
  function MatchOperator(after: string): Option<string> {
    if after == "" then Some("")
    else if after[0] != '[' then None
    else
      var inner := after[1..];
      var j := BracketIndex(inner);
      if j == 0 || j == |inner| || inner[j] != ']' || j + 1 != |inner| then None else Some(inner[..j])
  }

  /** filterKeyPattern: the name and, if there is one, the operator. */
  function MatchFilterKey(key: string): Option<(string, string)> {
    var rest := Strip(key, "filter[");
    if rest == None then None else
    var i := BracketIndex(rest.value);
    if i == 0 || i == |rest.value| || rest.value[i] != ']' then None else
    var operator := MatchOperator(rest.value[i + 1..]);
    if operator == None then None else Some((rest.value[..i], operator.value))
  }

  function OperatorSuffix(operator: string): string {
    if operator == "" then "" else "[" + (operator + "]")
  }

  function FilterKey(name: string, operator: string): string {
    "filter[" + (name + ("]" + OperatorSuffix(operator)))
  }

  lemma BracketIndexOf(s: string, rest: string)
    requires forall k :: 0 <= k < |s| ==> s[k] != '[' && s[k] != ']'
    requires rest != "" && (rest[0] == '[' || rest[0] == ']')
    ensures BracketIndex(s + rest) == |s|
  {
    var t := s + rest;
    assert t[|s|] == rest[0];
    assert forall k :: 0 <= k < |s| ==> t[k] == s[k];
  }

  /** A key is read as a name and an operator exactly when it is written from them. */
  lemma FilterKeyRead(key: string, name: string, operator: string)
    ensures MatchFilterKey(key) == Some((name, operator)) <==>
      IsBracketed(name) && (operator == "" || IsBracketed(operator)) && key == FilterKey(name, operator)
  {
    if MatchFilterKey(key) == Some((name, operator)) {
      KeyWritten(key);
    }
    if IsBracketed(name) && (operator == "" || IsBracketed(operator)) && key == FilterKey(name, operator) {
      KeyReadBack(name, operator);
    }
  }

  lemma OperatorWritten(after: string)
    requires MatchOperator(after).Some?
    ensures var operator := MatchOperator(after).value;
      (operator == "" || IsBracketed(operator)) && after == OperatorSuffix(operator)
  {
    if after != "" {
      var inner := after[1..];
      var j := BracketIndex(inner);
      hide BracketIndex;
      assert inner == inner[..j] + "]";
      assert after == "[" + inner;
    }
  }

  lemma KeyWritten(key: string)
    requires MatchFilterKey(key).Some?
    ensures var (name, operator) := MatchFilterKey(key).value;
      IsBracketed(name) && (operator == "" || IsBracketed(operator)) && key == FilterKey(name, operator)
  {
    hide BracketIndex, MatchOperator, OperatorSuffix;
    var rest := Strip(key, "filter[").value;
    var i := BracketIndex(rest);
    OperatorWritten(rest[i + 1..]);
    assert rest == rest[..i] + ("]" + rest[i + 1..]);
  }

  lemma OperatorReadBack(operator: string)
    requires operator == "" || IsBracketed(operator)
    ensures MatchOperator(OperatorSuffix(operator)) == Some(operator)
  {
    if operator != "" {
      var inner := operator + "]";
      BracketIndexOf(operator, "]");
      hide BracketIndex;
      assert OperatorSuffix(operator)[1..] == inner;
      assert inner[..|operator|] == operator;
    }
  }

  lemma MatchStep(rest: string, operator: string)
    requires var i := BracketIndex(rest);
      && 0 < i < |rest| && rest[i] == ']' && MatchOperator(rest[i + 1..]) == Some(operator)
    ensures MatchFilterKey("filter[" + rest) == Some((rest[..BracketIndex(rest)], operator))
  {
    hide BracketIndex, MatchOperator;
    StripPrinted("filter[", rest);
  }

  lemma KeyReadBack(name: string, operator: string)
    requires IsBracketed(name) && (operator == "" || IsBracketed(operator))
    ensures MatchFilterKey(FilterKey(name, operator)) == Some((name, operator))
  {
    var after := OperatorSuffix(operator);
    var rest := name + ("]" + after);
    BracketIndexOf(name, "]" + after);
    OperatorReadBack(operator);
    hide BracketIndex, MatchOperator, OperatorSuffix, MatchFilterKey, Strip, IsBracketed;
    assert rest[..|name|] == name && rest[|name| + 1..] == after;
    MatchStep(rest, operator);
  }

  // ----- filter values -----------------------------------------------------------------

  /** strconv.ParseBool. */
  function ParseBool(s: string): Option<bool> {
    if s == "1" || s == "t" || s == "T" || s == "true" || s == "TRUE" || s == "True" then Some(true)
    else if s == "0" || s == "f" || s == "F" || s == "false" || s == "FALSE" || s == "False" then Some(false)
    else None
  }

  /** The non-empty trimmed parts, in order. */
  function NonEmptyParts(parts: seq<string>): seq<string> {
    if parts == [] then []
    else
      var trimmed := TrimSpace(parts[0]);
      (if trimmed != "" then [trimmed] else []) + NonEmptyParts(parts[1..])
  }

  lemma {:induction false} NonEmptyPartsAppend(x: seq<string>, y: seq<string>)
    ensures NonEmptyParts(x + y) == NonEmptyParts(x) + NonEmptyParts(y)
  {
    if x == [] {
      assert x + y == y;
    } else {
      assert (x + y)[1..] == x[1..] + y;
      NonEmptyPartsAppend(x[1..], y);
    }
  }

  function SplitNonEmpty(value: string): seq<string> {
    NonEmptyParts(Split(value, ','))
  }

  /** splitNonEmpty. */
  method SplitNonEmptyLoop(value: string) returns (items: seq<string>)
    ensures items == SplitNonEmpty(value)
  {
    items := [];
    var parts := Split(value, ',');
    for k := 0 to |parts|
      invariant items == NonEmptyParts(parts[..k])
    {
      assert parts[..k + 1] == parts[..k] + [parts[k]];
      NonEmptyPartsAppend(parts[..k], [parts[k]]);
      var trimmed := TrimSpace(parts[k]);
      if trimmed != "" {
        items := items + [trimmed];
      }
    }
    assert parts[..|parts|] == parts;
  }

  function OperatorOp(operator: string): Option<Op> {
    if operator == "" then Some(OpEq)
    else if operator == "gte" then Some(OpGte)
    else if operator == "lte" then Some(OpLte)
    else if operator == "gt" then Some(OpGt)
    else if operator == "lt" then Some(OpLt)
    else None
  }

  predicate AllBools(values: seq<string>) {
    forall i :: 0 <= i < |values| ==> ParseBool(values[i]).Some?
  }

  /** buildFilterValue; None stands for its error. */
  function BuildFilterValue(filter: Filter, operator: string, value: string): Option<FilterValue> {
    if filter.kind != KindCompare && operator != "" then None
    else if filter.kind == KindCompare && OperatorOp(operator) == None then None
    else
      var op := match filter.kind
        case KindExact => OpEq
        case KindPartial => OpLike
        case KindIn => OpIn
        case KindCompare => OperatorOp(operator).value;
      var values := if filter.kind == KindIn then SplitNonEmpty(value) else [value];
      if filter.kind == KindIn && !(1 <= |values| <= MAX_IN_VALUES) then None
      else if filter.isBool && !AllBools(values) then None
      else Some(FilterValue(filter.name, filter.column, op, values, filter.isBool))
  }

  // ----- what Parse decides about each parameter -----------------------------------------

  /** The filters by name; a later declaration replaces an earlier one. */
  function FilterTable(filters: seq<Filter>): map<string, Filter> {
    if filters == [] then map[]
    else FilterTable(filters[..|filters| - 1])[filters[|filters| - 1].name := filters[|filters| - 1]]
  }

  function SortTable(sorts: seq<Sort>): map<string, Sort> {
    if sorts == [] then map[]
    else SortTable(sorts[..|sorts| - 1])[sorts[|sorts| - 1].name := sorts[|sorts| - 1]]
  }

  /** `f` is the last of these filters with this name. */
  ghost predicate IsFilter(filters: seq<Filter>, name: string, f: Filter) {
    exists i :: 0 <= i < |filters| && filters[i] == f && f.name == name &&
      forall j :: i < j < |filters| ==> filters[j].name != name
  }

  ghost predicate IsSort(sorts: seq<Sort>, name: string, s: Sort) {
    exists i :: 0 <= i < |sorts| && sorts[i] == s && s.name == name &&
      forall j :: i < j < |sorts| ==> sorts[j].name != name
  }

  lemma {:induction false} FilterTableHolds(filters: seq<Filter>, name: string, f: Filter)
    ensures name in FilterTable(filters) && FilterTable(filters)[name] == f <==> IsFilter(filters, name, f)
    ensures name in FilterTable(filters) ==> IsFilter(filters, name, FilterTable(filters)[name])
  {
    if filters != [] {
      var front, last := filters[..|filters| - 1], filters[|filters| - 1];
      FilterTableHolds(front, name, f);
      LastFilter(front, last, name, f);
      if name in FilterTable(front) {
        LastFilter(front, last, name, FilterTable(front)[name]);
      }
      LastFilter(front, last, name, last);
      assert filters == front + [last];
      hide IsFilter;
    }
  }

  lemma LastFilter(front: seq<Filter>, last: Filter, name: string, f: Filter)
    ensures IsFilter(front + [last], name, f) <==> if last.name == name then f == last else IsFilter(front, name, f)
  {
    var all := front + [last];
    assert all[|front|] == last;
    if IsFilter(all, name, f) {
      var i :| 0 <= i < |all| && all[i] == f && forall j :: i < j < |all| ==> all[j].name != name;
      if i < |front| {
        assert front[i] == f && forall j :: i < j < |front| ==> front[j] == all[j];
      }
    }
    if last.name != name && IsFilter(front, name, f) {
      var i :| 0 <= i < |front| && front[i] == f && forall j :: i < j < |front| ==> front[j].name != name;
      assert all[i] == f;
    }
  }

  lemma {:induction false} SortTableHolds(sorts: seq<Sort>, name: string, s: Sort)
    ensures name in SortTable(sorts) && SortTable(sorts)[name] == s <==> IsSort(sorts, name, s)
    ensures name in SortTable(sorts) ==> IsSort(sorts, name, SortTable(sorts)[name])
  {
    if sorts != [] {
      var front, last := sorts[..|sorts| - 1], sorts[|sorts| - 1];
      SortTableHolds(front, name, s);
      LastSort(front, last, name, s);
      if name in SortTable(front) {
        LastSort(front, last, name, SortTable(front)[name]);
      }
      LastSort(front, last, name, last);
      assert sorts == front + [last];
      hide IsSort;
    }
  }

  lemma LastSort(front: seq<Sort>, last: Sort, name: string, s: Sort)
    ensures IsSort(front + [last], name, s) <==> if last.name == name then s == last else IsSort(front, name, s)
  {
    var all := front + [last];
    assert all[|front|] == last;
    if IsSort(all, name, s) {
      var i :| 0 <= i < |all| && all[i] == s && forall j :: i < j < |all| ==> all[j].name != name;
      if i < |front| {
        assert front[i] == s && forall j :: i < j < |front| ==> front[j] == all[j];
      }
    }
    if last.name != name && IsSort(front, name, s) {
      var i :| 0 <= i < |front| && front[i] == s && forall j :: i < j < |front| ==> front[j].name != name;
      assert all[i] == s;
    }
  }

  datatype Verdict = Skipped | Offending | Good(value: FilterValue)

  function FilterVerdict(table: map<string, Filter>, key: string, value: string): Verdict {
    if key != "filter" && !HasPrefix(key, "filter[") then Skipped
    else
      match MatchFilterKey(key)
      case None => Offending
      case Some((name, operator)) =>
        if name !in table then Offending
        else if value == "" then Skipped
        else
          match BuildFilterValue(table[name], operator, value)
          case None => Offending
          case Some(filterValue) => Good(filterValue)
  }

  predicate IsDescending(field: string) {
    HasPrefix(field, "-")
  }

  function SortName(field: string): string {
    if IsDescending(field) then field[1..] else field
  }

  function SortValues(table: map<string, Sort>, fields: seq<string>): seq<SortValue> {
    if fields == [] then []
    else
      var name := SortName(fields[0]);
      (if name in table then [SortValue(table[name].column, IsDescending(fields[0]))] else [])
      + SortValues(table, fields[1..])
  }

  ghost predicate AllSortable(table: map<string, Sort>, fields: seq<string>) {
    forall i :: 0 <= i < |fields| ==> SortName(fields[i]) in table
  }

  function SortParameter(values: Values, options: Options): string {
    if FirstValue(values, "sort") == "" then options.defaultSort else FirstValue(values, "sort")
  }

  /** A page or per_page parameter: absent, or an integer of at least one. */
  predicate IsCount(raw: string) {
    raw == "" || (ParseInt(raw).Some? && ParseInt(raw).value >= 1)
  }

  function CountOr(raw: string, default: int64): int64 {
    if raw != "" && ParseInt(raw).Some? then ParseInt(raw).value else default
  }

  function DefaultPerPage(options: Options): int64 {
    if options.defaultPerPage < 1 then 25 else options.defaultPerPage
  }

  function MaxPerPage(options: Options): int64 {
    if options.maxPerPage < 1 then 100 else options.maxPerPage
  }

  function Min(x: int, y: int): int {
    if x <= y then x else y
  }

  function PerPage(values: Values, options: Options): int64 {
    if FirstValue(values, "per_page") == "" then DefaultPerPage(options)
    else Min(CountOr(FirstValue(values, "per_page"), 1), MaxPerPage(options))
  }

  /** The configuration is usable for this request. */
  ghost predicate WellConfigured(values: Values, options: Options) {
    && (forall i :: 0 <= i < |options.allowedFilters| ==> IsIdentifier(options.allowedFilters[i].column))
    && (forall i :: 0 <= i < |options.allowedSorts| ==> IsIdentifier(options.allowedSorts[i].column))
    && (FirstValue(values, "sort") == "" ==>
          AllSortable(SortTable(options.allowedSorts), SplitNonEmpty(options.defaultSort)))
    && (options.cursorSort != "" ==> options.cursorSort in SortTable(options.allowedSorts))
  }

  ghost predicate HasOffendingFilter(values: Values, table: map<string, Filter>, keys: set<string>) {
    exists k :: k in keys && k in values && FilterVerdict(table, k, values[k][0]) == Offending
  }

  /** Some parameter of the request is one Parse has to reject. */
  ghost predicate Offends(values: Values, options: Options, decode: string -> Option<Cursor>) {
    || HasOffendingFilter(values, FilterTable(options.allowedFilters), values.Keys)
    || !AllSortable(SortTable(options.allowedSorts), SplitNonEmpty(SortParameter(values, options)))
    || !IsCount(FirstValue(values, "page"))
    || !IsCount(FirstValue(values, "per_page"))
    || (options.cursorSort != "" &&
         (FirstValue(values, "sort") != "" || FirstValue(values, "page") != "" ||
          (FirstValue(values, "cursor") != "" && decode(FirstValue(values, "cursor")) == None)))
  }

  /** `bad` lists the filter keys among `keys` that have to be rejected, each once. */
  ghost predicate ListsOffenders(values: Values, table: map<string, Filter>, keys: set<string>, bad: seq<string>) {
    && (forall i, j :: 0 <= i < j < |bad| ==> bad[i] != bad[j])
    && (forall k :: k in bad <==> k in keys && k in values && FilterVerdict(table, k, values[k][0]) == Offending)
  }

  /** The sort fields to be rejected, as they are reported. */
  function UnknownSorts(table: map<string, Sort>, fields: seq<string>): seq<string> {
    if fields == [] then []
    else (if SortName(fields[0]) in table then [] else ["sort=" + fields[0]]) + UnknownSorts(table, fields[1..])
  }

  function If(condition: bool, name: string): seq<string> {
    if condition then [name] else []
  }

  /** What is rejected beside the filters, in the order of the report. */
  function OtherOffenders(values: Values, options: Options, decode: string -> Option<Cursor>): seq<string> {
    UnknownSorts(SortTable(options.allowedSorts), SplitNonEmpty(SortParameter(values, options)))
    + If(!IsCount(FirstValue(values, "page")), "page")
    + If(!IsCount(FirstValue(values, "per_page")), "per_page")
    + If(options.cursorSort != "" && FirstValue(values, "sort") != "", "sort")
    + If(options.cursorSort != "" && FirstValue(values, "page") != "", "page")
    + If(options.cursorSort != "" && FirstValue(values, "cursor") != ""
           && decode(FirstValue(values, "cursor")) == None, "cursor")
  }

  /** The report of a rejection: the offending filter keys, in the order they were met, then the rest. */
  ghost predicate Reports(values: Values, options: Options, decode: string -> Option<Cursor>, invalid: seq<string>) {
    exists bad :: ListsOffenders(values, FilterTable(options.allowedFilters), values.Keys, bad) &&
      invalid == bad + OtherOffenders(values, options, decode)
  }

  /** `met` lists the accepted filter keys among `keys`, each once, and `filters` holds what they
      stand for, in the same order. */
  ghost predicate FiltersMet(values: Values, table: map<string, Filter>, keys: set<string>, met: seq<string>,
                             filters: seq<FilterValue>) {
    && |filters| == |met|
    && (forall i, j :: 0 <= i < j < |met| ==> met[i] != met[j])
    && (forall i :: 0 <= i < |met| ==> met[i] in keys && met[i] in values)
    && (forall i :: 0 <= i < |met| ==> FilterVerdict(table, met[i], values[met[i]][0]) == Good(filters[i]))
    && (forall k :: k in keys && k in values && FilterVerdict(table, k, values[k][0]).Good? ==> k in met)
  }

  /** The result Parse accepts a request with, given the order in which it met the filters. */
  ghost predicate Describes(values: Values, options: Options, decode: string -> Option<Cursor>, r: Result,
                            met: seq<string>) {
    && FiltersMet(values, FilterTable(options.allowedFilters), values.Keys, met, r.filters)
    && r.page == CountOr(FirstValue(values, "page"), 1)
    && r.perPage == PerPage(values, options)
    && r.cursorMode == (options.cursorSort != "")
    && (if options.cursorSort != "" && options.cursorSort in SortTable(options.allowedSorts) then
          var desc := IsDescending(options.defaultSort);
          var column := SortTable(options.allowedSorts)[options.cursorSort].column;
          && r.sorts == [SortValue(column, desc), SortValue("id", desc)]
          && r.cursor == (if FirstValue(values, "cursor") == "" then None else decode(FirstValue(values, "cursor")))
        else
          && r.sorts == SortValues(SortTable(options.allowedSorts), SplitNonEmpty(SortParameter(values, options)))
          && r.cursor == None)
  }

  // ----- Parse ---------------------------------------------------------------------------

  /** The first loop: rejects a filter on a column that is no identifier, collects the others by name. */
  method CollectFilters(allowed: seq<Filter>) returns (ok: bool, table: map<string, Filter>)
    ensures ok <==> forall i :: 0 <= i < |allowed| ==> IsIdentifier(allowed[i].column)
    ensures ok ==> table == FilterTable(allowed)
  {
    table := map[];
    for k := 0 to |allowed|
      invariant forall i :: 0 <= i < k ==> IsIdentifier(allowed[i].column)
      invariant table == FilterTable(allowed[..k])
    {
      if !IsIdentifier(allowed[k].column) {
        return false, table;
      }
      assert allowed[..k + 1][..k] == allowed[..k];
      table := table[allowed[k].name := allowed[k]];
    }
    assert allowed[..|allowed|] == allowed;
    ok := true;
  }

  method CollectSorts(allowed: seq<Sort>) returns (ok: bool, table: map<string, Sort>)
    ensures ok <==> forall i :: 0 <= i < |allowed| ==> IsIdentifier(allowed[i].column)
    ensures ok ==> table == SortTable(allowed)
  {
    table := map[];
    for k := 0 to |allowed|
      invariant forall i :: 0 <= i < k ==> IsIdentifier(allowed[i].column)
      invariant table == SortTable(allowed[..k])
    {
      if !IsIdentifier(allowed[k].column) {
        return false, table;
      }
      assert allowed[..k + 1][..k] == allowed[..k];
      table := table[allowed[k].name := allowed[k]];
    }
    assert allowed[..|allowed|] == allowed;
    ok := true;
  }

  lemma NothingMet(values: Values, table: map<string, Filter>)
    ensures FiltersMet(values, table, {}, [], []) && ListsOffenders(values, table, {}, [])
  {}

  /** One more parameter, whose verdict is `verdict`. */
  lemma MetOneMore(values: Values, table: map<string, Filter>, seen: set<string>, key: string, verdict: Verdict,
                   met: seq<string>, filters: seq<FilterValue>)
    requires key in values && key !in seen && verdict == FilterVerdict(table, key, values[key][0])
    requires FiltersMet(values, table, seen, met, filters)
    ensures verdict.Good? ==> FiltersMet(values, table, seen + {key}, met + [key], filters + [verdict.value])
    ensures !verdict.Good? ==> FiltersMet(values, table, seen + {key}, met, filters)
  {
    hide FilterVerdict;
  }

  lemma OffendersOneMore(values: Values, table: map<string, Filter>, seen: set<string>, key: string, verdict: Verdict,
                         bad: seq<string>)
    requires key in values && key !in seen && verdict == FilterVerdict(table, key, values[key][0])
    requires ListsOffenders(values, table, seen, bad)
    ensures ListsOffenders(values, table, seen + {key}, if verdict.Offending? then bad + [key] else bad)
  {
    hide FilterVerdict;
  }

  lemma SomeOffender(values: Values, table: map<string, Filter>, keys: set<string>, bad: seq<string>)
    requires ListsOffenders(values, table, keys, bad)
    ensures bad != [] <==> HasOffendingFilter(values, table, keys)
  {
    hide FilterVerdict;
    if bad != [] {
      assert bad[0] in bad;
    }
  }

  /** The loop over the request's parameters. Go visits the map in no fixed order, so any order is
      possible here too; `met` is the one it took through the accepted filters. */
  method ParseFilters(values: Values, table: map<string, Filter>)
    returns (filters: seq<FilterValue>, invalid: seq<string>, ghost met: seq<string>)
    ensures FiltersMet(values, table, values.Keys, met, filters)
    ensures ListsOffenders(values, table, values.Keys, invalid)
  {
    hide FilterVerdict, FiltersMet, ListsOffenders;
    filters, invalid, met := [], [], [];
    NothingMet(values, table);
    var left := values.Keys;
    assert values.Keys - left == {};
    while left != {}
      invariant left <= values.Keys
      invariant FiltersMet(values, table, values.Keys - left, met, filters)
      invariant ListsOffenders(values, table, values.Keys - left, invalid)
    {
      ghost var seen := values.Keys - left;
      var key :| key in left;
      left := left - {key};
      assert values.Keys - left == seen + {key};
      var verdict := FilterVerdict(table, key, values[key][0]);
      MetOneMore(values, table, seen, key, verdict, met, filters);
      OffendersOneMore(values, table, seen, key, verdict, invalid);
      match verdict {
        case Skipped =>
        case Offending =>
          invalid := invalid + [key];
        case Good(filterValue) =>
          filters := filters + [filterValue];
          met := met + [key];
      }
    }
    assert values.Keys - left == values.Keys;
  }

  lemma {:induction false} SortValuesAppend(table: map<string, Sort>, x: seq<string>, y: seq<string>)
    ensures SortValues(table, x + y) == SortValues(table, x) + SortValues(table, y)
  {
    if x == [] {
      assert x + y == y;
    } else {
      assert (x + y)[1..] == x[1..] + y;
      SortValuesAppend(table, x[1..], y);
    }
  }

  lemma {:induction false} UnknownSortsAppend(table: map<string, Sort>, x: seq<string>, y: seq<string>)
    ensures UnknownSorts(table, x + y) == UnknownSorts(table, x) + UnknownSorts(table, y)
  {
    if x == [] {
      assert x + y == y;
    } else {
      assert (x + y)[1..] == x[1..] + y;
      UnknownSortsAppend(table, x[1..], y);
    }
  }

  lemma {:induction false} NoUnknownSort(table: map<string, Sort>, fields: seq<string>)
    ensures UnknownSorts(table, fields) == [] <==> AllSortable(table, fields)
  {
    hide SortName;
    if fields != [] {
      NoUnknownSort(table, fields[1..]);
      assert fields == [fields[0]] + fields[1..];
    }
  }

  /** One more sort field. */
  lemma SortOneMore(table: map<string, Sort>, fields: seq<string>, k: nat)
    requires k < |fields|
    ensures SortValues(table, fields[..k + 1]) == if SortName(fields[k]) in table
      then SortValues(table, fields[..k]) + [SortValue(table[SortName(fields[k])].column, IsDescending(fields[k]))]
      else SortValues(table, fields[..k])
    ensures UnknownSorts(table, fields[..k + 1]) == if SortName(fields[k]) in table
      then UnknownSorts(table, fields[..k])
      else UnknownSorts(table, fields[..k]) + ["sort=" + fields[k]]
  {
    assert fields[..k + 1] == fields[..k] + [fields[k]];
    SortValuesAppend(table, fields[..k], [fields[k]]);
    UnknownSortsAppend(table, fields[..k], [fields[k]]);
    hide SortName;
    assert [fields[k]][1..] == [];
  }

  /** The loop over the sort fields; it stops at the first unknown field of the default sort. */
  method ParseSorts(fields: seq<string>, table: map<string, Sort>, requested: bool)
    returns (configured: bool, sorts: seq<SortValue>, invalid: seq<string>)
    ensures configured <==> requested || AllSortable(table, fields)
    ensures configured ==> sorts == SortValues(table, fields)
    ensures configured ==> invalid == UnknownSorts(table, fields)
  {
    hide SortValues, UnknownSorts;
    sorts, invalid := [], [];
    NoSorts(table, fields);
    for k := 0 to |fields|
      invariant sorts == SortValues(table, fields[..k])
      invariant invalid == UnknownSorts(table, fields[..k])
      invariant !requested ==> invalid == []
    {
      SortOneMore(table, fields, k);
      var desc := HasPrefix(fields[k], "-");
      var name := if desc then fields[k][1..] else fields[k];
      if name !in table {
        if !requested {
          return false, sorts, invalid;
        }
        invalid := invalid + ["sort=" + fields[k]];
      } else {
        sorts := sorts + [SortValue(table[name].column, desc)];
      }
    }
    assert fields[..|fields|] == fields;
    NoUnknownSort(table, fields);
    configured := true;
  }

  lemma NoSorts(table: map<string, Sort>, fields: seq<string>)
    ensures SortValues(table, fields[..0]) == [] && UnknownSorts(table, fields[..0]) == []
  {}

  /** A request offends exactly if the report of its offenders is not empty. */
  lemma OffendsExactly(values: Values, options: Options, decode: string -> Option<Cursor>, bad: seq<string>)
    requires ListsOffenders(values, FilterTable(options.allowedFilters), values.Keys, bad)
    ensures bad + OtherOffenders(values, options, decode) != [] <==> Offends(values, options, decode)
  {
    SomeOffender(values, FilterTable(options.allowedFilters), values.Keys, bad);
    NoUnknownSort(SortTable(options.allowedSorts), SplitNonEmpty(SortParameter(values, options)));
    hide ListsOffenders, HasOffendingFilter, AllSortable, UnknownSorts, SplitNonEmpty, FilterTable, SortTable, IsCount,
      FirstValue;
  }

  lemma Regrouped(bad: seq<string>, u: seq<string>, v: seq<string>, w: seq<string>, x: seq<string>, y: seq<string>,
                  z: seq<string>)
    ensures bad + u + (v + w) + (x + y + z) == bad + (u + v + w + x + y + z)
  {}

  /** The part of Parse for page and per_page. */
  method ParsePages(values: Values, options: Options) returns (page: int64, perPage: int64, invalid: seq<string>)
    ensures invalid ==
      If(!IsCount(FirstValue(values, "page")), "page") + If(!IsCount(FirstValue(values, "per_page")), "per_page")
    ensures IsCount(FirstValue(values, "page")) ==> page == CountOr(FirstValue(values, "page"), 1)
    ensures IsCount(FirstValue(values, "per_page")) ==> perPage == PerPage(values, options)
  {
    hide ParseInt;
    page, perPage, invalid := 1, DefaultPerPage(options), [];
    var raw := FirstValue(values, "page");
    if raw != "" {
      var parsed := ParseInt(raw);
      if parsed == None || parsed.value < 1 {
        invalid := invalid + ["page"];
      } else {
        page := parsed.value;
      }
    }
    raw := FirstValue(values, "per_page");
    if raw != "" {
      var parsed := ParseInt(raw);
      if parsed == None || parsed.value < 1 {
        invalid := invalid + ["per_page"];
      } else {
        perPage := Min(parsed.value, MaxPerPage(options));
      }
    }
  }

  /** The part of Parse for cursor mode: no sort and no page, and a cursor that can be read. */
  method ParseCursor(values: Values, decode: string -> Option<Cursor>)
      returns (cursor: Option<Cursor>, invalid: seq<string>)
    ensures cursor == if FirstValue(values, "cursor") == "" then None else decode(FirstValue(values, "cursor"))
    ensures invalid == If(FirstValue(values, "sort") != "", "sort") + If(FirstValue(values, "page") != "", "page")
      + If(FirstValue(values, "cursor") != "" && decode(FirstValue(values, "cursor")) == None, "cursor")
  {
    cursor, invalid := None, [];
    if FirstValue(values, "sort") != "" {
      invalid := invalid + ["sort"];
    }
    if FirstValue(values, "page") != "" {
      invalid := invalid + ["page"];
    }
    var raw := FirstValue(values, "cursor");
    if raw != "" {
      cursor := decode(raw);
      if cursor == None {
        invalid := invalid + ["cursor"];
      }
    }
  }

  lemma OtherOffendersAre(values: Values, options: Options, decode: string -> Option<Cursor>, bad: seq<string>,
                          badSorts: seq<string>, badPages: seq<string>, badCursor: seq<string>)
    requires badSorts == UnknownSorts(SortTable(options.allowedSorts), SplitNonEmpty(SortParameter(values, options)))
    requires badPages ==
      If(!IsCount(FirstValue(values, "page")), "page") + If(!IsCount(FirstValue(values, "per_page")), "per_page")
    requires badCursor == if options.cursorSort == "" then [] else
      If(FirstValue(values, "sort") != "", "sort") + If(FirstValue(values, "page") != "", "page")
      + If(FirstValue(values, "cursor") != "" && decode(FirstValue(values, "cursor")) == None, "cursor")
    ensures bad + badSorts + badPages + badCursor == bad + OtherOffenders(values, options, decode)
  {
    var c := options.cursorSort != "";
    Regrouped(bad, badSorts, If(!IsCount(FirstValue(values, "page")), "page"),
              If(!IsCount(FirstValue(values, "per_page")), "per_page"),
      If(c && FirstValue(values, "sort") != "", "sort"), If(c && FirstValue(values, "page") != "", "page"),
      If(c && FirstValue(values, "cursor") != "" && decode(FirstValue(values, "cursor")) == None, "cursor"));
    hide UnknownSorts, SortTable, SplitNonEmpty, IsCount, FirstValue;
    assert !c ==> badCursor == [] + [] + [];
  }

  /** Parse. `decode` is DecodeCursor. */
  method Parse(values: Values, options: Options, decode: string -> Option<Cursor>)
      returns (outcome: Outcome, ghost met: seq<string>)
    ensures outcome.Misconfigured? <==> !WellConfigured(values, options)
    ensures outcome.Rejected? <==> WellConfigured(values, options) && Offends(values, options, decode)
    ensures outcome.Accepted? ==> Describes(values, options, decode, outcome.result, met)
    ensures outcome.Rejected? ==> outcome.invalid != [] && Reports(values, options, decode, outcome.invalid)
  {
    hide FiltersMet, ListsOffenders, AllSortable, SplitNonEmpty, IsIdentifier, FilterTable, SortTable, SortValues,
      UnknownSorts, OtherOffenders, Offends, IsCount, CountOr, PerPage, SortParameter, Reports, If;
    met := [];
    var filtersOk, filterTable := CollectFilters(options.allowedFilters);
    if !filtersOk {
      return Misconfigured, met;
    }
    var sortsOk, sortTable := CollectSorts(options.allowedSorts);
    if !sortsOk {
      return Misconfigured, met;
    }
    var filters, invalid, metFilters := ParseFilters(values, filterTable);
    met := metFilters;
    var fields := SplitNonEmptyLoop(SortParameter(values, options));
    SortParameterIs(values, options);
    var configured, sorts, badSorts := ParseSorts(fields, sortTable, FirstValue(values, "sort") != "");
    if !configured {
      return Misconfigured, met;
    }
    var page, perPage, badPages := ParsePages(values, options);
    var cursor, badCursor: seq<string> := None, [];
    if options.cursorSort != "" {
      if options.cursorSort !in sortTable {
        return Misconfigured, met;
      }
      var desc := HasPrefix(options.defaultSort, "-");
      sorts := [SortValue(sortTable[options.cursorSort].column, desc), SortValue("id", desc)];
      cursor, badCursor := ParseCursor(values, decode);
    }
    OtherOffendersAre(values, options, decode, invalid, badSorts, badPages, badCursor);
    OffendsExactly(values, options, decode, invalid);
    ReportsThese(values, options, decode, invalid);
    invalid := invalid + badSorts + badPages + badCursor;
    if invalid != [] {
      return Rejected(invalid), met;
    }
    GoodCounts(values, options, decode);
    outcome := Accepted(Result(filters, sorts, page, perPage, options.cursorSort != "", cursor));
  }

  lemma SortParameterIs(values: Values, options: Options)
    ensures FirstValue(values, "sort") == "" ==> SortParameter(values, options) == options.defaultSort
  {}

  lemma ReportsThese(values: Values, options: Options, decode: string -> Option<Cursor>, bad: seq<string>)
    requires ListsOffenders(values, FilterTable(options.allowedFilters), values.Keys, bad)
    ensures Reports(values, options, decode, bad + OtherOffenders(values, options, decode))
  {
    hide ListsOffenders, OtherOffenders;
  }

  lemma GoodCounts(values: Values, options: Options, decode: string -> Option<Cursor>)
    requires !Offends(values, options, decode)
    ensures IsCount(FirstValue(values, "page")) && IsCount(FirstValue(values, "per_page"))
  {
    hide HasOffendingFilter, AllSortable, IsCount, FirstValue, SortParameter, SplitNonEmpty;
  }
}
