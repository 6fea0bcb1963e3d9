/** runtime/query/sql.go and the statement half of runtime/query/cursor.go: SQL text and bound
    arguments for a Result. */
module Sql {
  import opened Text
  import opened Numbers
  import opened Query
  import Like

  /** A bound argument, or what a row holds in a column. */
  datatype Arg = Str(text: string) | Flag(value: bool) | Num(n: int64)

  // ----- results Parse can return ---------------------------------------------------

  ghost predicate SoundFilter(f: FilterValue) {
    && IsIdentifier(f.column)
    && (if f.op == OpIn then |f.values| >= 1 else |f.values| == 1)
    && (f.isBool ==> AllBools(f.values))
  }

  /** What Parse guarantees of a Result. */
  ghost predicate Sound(r: Result) {
    && (forall i :: 0 <= i < |r.filters| ==> SoundFilter(r.filters[i]))
    && (forall i :: 0 <= i < |r.sorts| ==> IsIdentifier(r.sorts[i].column))
    && r.page >= 1 && r.perPage >= 1
    && (r.cursor.Some? ==> r.cursorMode)
    && (r.cursorMode ==> |r.sorts| == 2 && r.sorts[1] == SortValue("id", r.sorts[0].desc))
  }

  lemma {:induction false} TableColumns(filters: seq<Filter>, name: string)
    requires forall i :: 0 <= i < |filters| ==> IsIdentifier(filters[i].column)
    requires name in FilterTable(filters)
    ensures IsIdentifier(FilterTable(filters)[name].column)
  {
    if filters != [] && name != filters[|filters| - 1].name {
      TableColumns(filters[..|filters| - 1], name);
    }
  }

  lemma {:induction false} SortTableColumns(sorts: seq<Sort>, name: string)
    requires forall i :: 0 <= i < |sorts| ==> IsIdentifier(sorts[i].column)
    requires name in SortTable(sorts)
    ensures IsIdentifier(SortTable(sorts)[name].column)
  {
    if sorts != [] && name != sorts[|sorts| - 1].name {
      SortTableColumns(sorts[..|sorts| - 1], name);
    }
  }

  lemma {:induction false} SortValueColumns(sorts: seq<Sort>, fields: seq<string>)
    requires forall i :: 0 <= i < |sorts| ==> IsIdentifier(sorts[i].column)
    ensures var values := SortValues(SortTable(sorts), fields);
      forall v :: v in values ==> IsIdentifier(v.column)
  {
    if fields != [] {
      SortValueColumns(sorts, fields[1..]);
      if SortName(fields[0]) in SortTable(sorts) {
        SortTableColumns(sorts, SortName(fields[0]));
      }
    }
  }

  lemma BuiltIsSound(filter: Filter, operator: string, value: string)
    requires IsIdentifier(filter.column) && BuildFilterValue(filter, operator, value).Some?
    ensures SoundFilter(BuildFilterValue(filter, operator, value).value)
  {
    hide SplitNonEmpty, AllBools, IsIdentifier;
  }

  lemma VerdictIsSound(filters: seq<Filter>, key: string, value: string)
    requires forall i :: 0 <= i < |filters| ==> IsIdentifier(filters[i].column)
    requires FilterVerdict(FilterTable(filters), key, value).Good?
    ensures SoundFilter(FilterVerdict(FilterTable(filters), key, value).value)
  {
    hide BuildFilterValue, IsIdentifier, FilterTable, MatchFilterKey, SoundFilter;
    var (name, operator) := MatchFilterKey(key).value;
    TableColumns(filters, name);
    BuiltIsSound(FilterTable(filters)[name], operator, value);
  }

  /** Every result Parse accepts a request with is sound. */
  lemma ParsedIsSound(values: Values, options: Options, decode: string -> Option<Cursor>, r: Result, met: seq<string>)
    requires WellConfigured(values, options) && !Offends(values, options, decode)
    requires Describes(values, options, decode, r, met)
    ensures Sound(r)
  {
    hide FilterVerdict, SplitNonEmpty, AllSortable, HasOffendingFilter, SoundFilter, FilterTable;
    forall i | 0 <= i < |r.filters|
      ensures SoundFilter(r.filters[i])
    {
      VerdictIsSound(options.allowedFilters, met[i], values[met[i]][0]);
    }
    if options.cursorSort != "" {
      SortTableColumns(options.allowedSorts, options.cursorSort);
    } else {
      SortValueColumns(options.allowedSorts, SplitNonEmpty(SortParameter(values, options)));
    }
  }

  // ----- text and arguments ------------------------------------------------------------

  /** FilterValue.arg. */
  function BindArg(f: FilterValue, value: string): Arg {
    if f.isBool then Flag(ParseBool(value) == Some(true)) else Str(value)
  }

  function BindArgs(f: FilterValue, values: seq<string>): (args: seq<Arg>)
    ensures |args| == |values|
    ensures forall i :: 0 <= i < |values| ==> args[i] == BindArg(f, values[i])
  {
    seq(|values|, i requires 0 <= i < |values| => BindArg(f, values[i]))
  }

  /** comparison, for the four range operators. */
  function Comparison(op: Op): string {
    match op
    case OpGte => ">="
    case OpLte => "<="
    case OpGt => ">"
    case _ => "<"
  }

  /** "?, ?, ... ?". */
  function Placeholders(n: nat): string {
    if n == 0 then "" else if n == 1 then "?" else "?, " + Placeholders(n - 1)
  }

  function Condition(f: FilterValue): string {
    match f.op
    case OpEq => f.column + " = ?"
    case OpLike => f.column + " LIKE ? ESCAPE '!'"
    case OpIn => f.column + (" IN (" + (Placeholders(|f.values|) + ")"))
    case _ => f.column + (" " + Comparison(f.op) + " ?")
  }

  function ConditionArgs(f: FilterValue): seq<Arg>
    requires |f.values| >= 1
  {
    match f.op
    case OpLike => [Str(Like.ContainsPattern(f.values[0]))]
    case OpIn => BindArgs(f, f.values)
    case _ => [BindArg(f, f.values[0])]
  }

  function Conditions(filters: seq<FilterValue>): (c: seq<string>)
    ensures |c| == |filters|
  {
    seq(|filters|, i requires 0 <= i < |filters| => Condition(filters[i]))
  }

  function Args(filters: seq<FilterValue>): seq<Arg>
    requires forall i :: 0 <= i < |filters| ==> |filters[i].values| >= 1
  {
    if filters == [] then []
    else Args(filters[..|filters| - 1]) + ConditionArgs(filters[|filters| - 1])
  }

  /** strings.Repeat. */
  function Repeat(s: string, n: nat): string {
    if n == 0 then "" else s + Repeat(s, n - 1)
  }

  /** strings.TrimSuffix. */
  function TrimSuffix(s: string, suffix: string): string {
    if HasSuffix(s, suffix) then s[..|s| - |suffix|] else s
  }

  lemma {:induction false} RepeatedPlaceholders(n: nat)
    requires n >= 1
    ensures Repeat("?, ", n) == Placeholders(n) + ", "
  {
    if n > 1 {
      RepeatedPlaceholders(n - 1);
    } else {
      assert Repeat("?, ", 0) == "";
    }
  }

  /** The body of the loop of WhereSQL: one condition and its arguments. */
  method OneCondition(filter: FilterValue) returns (condition: string, args: seq<Arg>)
    requires SoundFilter(filter)
    ensures condition == Condition(filter) && args == ConditionArgs(filter)
  {
    hide IsIdentifier, AllBools, Placeholders, BindArg;
    match filter.op {
      case OpEq =>
        condition := filter.column + " = ?";
        args := [BindArg(filter, filter.values[0])];
      case OpLike =>
        condition := filter.column + " LIKE ? ESCAPE '!'";
        args := [Str("%" + Like.Escape(filter.values[0]) + "%")];
      case OpIn =>
        var placeholders := InPlaceholders(|filter.values|);
        condition := filter.column + (" IN (" + (placeholders + ")"));
        args := BindAll(filter);
      case _ =>
        condition := filter.column + (" " + Comparison(filter.op) + " ?");
        args := [BindArg(filter, filter.values[0])];
    }
  }

  /** WhereSQL. */
  method WhereSQL(r: Result) returns (where: string, args: seq<Arg>)
    requires Sound(r)
    ensures where == Join(Conditions(r.filters), " AND ")
    ensures args == Args(r.filters)
  {
    if |r.filters| == 0 {
      return "", [];
    }
    hide Condition, ConditionArgs, SoundFilter, Conditions, Args, Join;
    FiltersHaveValues(r.filters);
    NoConditions(r.filters);
    var conditions: seq<string> := [];
    args := [];
    for k := 0 to |r.filters|
      invariant conditions == Conditions(r.filters[..k])
      invariant args == Args(r.filters[..k])
    {
      OneMoreCondition(r.filters, k);
      var condition, bound := OneCondition(r.filters[k]);
      conditions := conditions + [condition];
      args := args + bound;
    }
    assert r.filters[..|r.filters|] == r.filters;
    where := Join(conditions, " AND ");
  }

  lemma FiltersHaveValues(filters: seq<FilterValue>)
    requires forall i :: 0 <= i < |filters| ==> SoundFilter(filters[i])
    ensures forall i :: 0 <= i < |filters| ==> |filters[i].values| >= 1
  {
    hide IsIdentifier, AllBools;
  }

  lemma NoConditions(filters: seq<FilterValue>)
    ensures Conditions(filters[..0]) == [] && Args(filters[..0]) == []
  {}

  lemma OneMoreCondition(filters: seq<FilterValue>, k: nat)
    requires k < |filters| && forall i :: 0 <= i < |filters| ==> |filters[i].values| >= 1
    ensures Conditions(filters[..k + 1]) == Conditions(filters[..k]) + [Condition(filters[k])]
    ensures Args(filters[..k + 1]) == Args(filters[..k]) + ConditionArgs(filters[k])
  {
    hide Condition, ConditionArgs;
    assert filters[..k + 1][..k] == filters[..k];
  }

  method InPlaceholders(n: nat) returns (s: string)
    requires n >= 1
    ensures s == Placeholders(n)
  {
    RepeatedPlaceholders(n);
    s := TrimSuffix(Repeat("?, ", n), ", ");
    assert HasSuffix(Placeholders(n) + ", ", ", ");
  }

  /** The inner loop of WhereSQL. */
  method BindAll(f: FilterValue) returns (args: seq<Arg>)
    ensures args == BindArgs(f, f.values)
  {
    args := [];
    for k := 0 to |f.values|
      invariant args == BindArgs(f, f.values)[..k]
    {
      args := args + [BindArg(f, f.values[k])];
    }
  }

  function SortField(s: SortValue): string {
    s.column + if s.desc then " DESC" else " ASC"
  }

  function SortFields(sorts: seq<SortValue>): (fields: seq<string>)
    ensures |fields| == |sorts|
  {
    seq(|sorts|, i requires 0 <= i < |sorts| => SortField(sorts[i]))
  }

  function OrderText(sorts: seq<SortValue>): string {
    if sorts == [] then "" else "ORDER BY " + Join(SortFields(sorts), ", ")
  }

  /** OrderSQL. */
  method OrderSQL(r: Result) returns (order: string)
    ensures order == OrderText(r.sorts)
  {
    if |r.sorts| == 0 {
      return "";
    }
    var fields: seq<string> := [];
    for k := 0 to |r.sorts|
      invariant fields == SortFields(r.sorts[..k])
    {
      var direction := " ASC";
      if r.sorts[k].desc {
        direction := " DESC";
      }
      fields := fields + [r.sorts[k].column + direction];
    }
    assert r.sorts[..|r.sorts|] == r.sorts;
    order := "ORDER BY " + Join(fields, ", ");
  }

  // The keyset predicate, "(c > ? OR (c = ? AND id > ?))" or the same with "<", from its end to its
  // beginning: the comparison of ids, the conjunction around it, and all but the first parenthesis.

  function TieText(op: string, tail: string): string {
    "id" + (" " + op + " ?" + ("))" + tail))
  }

  function InnerText(column: string, op: string, tail: string): string {
    column + (" " + "=" + " ?" + (" AND " + TieText(op, tail)))
  }

  function KeysetText(column: string, op: string, tail: string): string {
    column + (" " + op + " ?" + (" OR " + ("(" + InnerText(column, op, tail))))
  }

  /** keysetSQL. */
  function KeysetSQL(r: Result): (string, seq<Arg>)
    requires Sound(r)
  {
    if r.cursor == None || |r.sorts| == 0 then ("", [])
    else
      var op := if r.sorts[0].desc then "<" else ">";
      var column := r.sorts[0].column;
      ("(" + KeysetText(column, op, ""),
       [Str(r.cursor.value.value), Str(r.cursor.value.value), Str(r.cursor.value.id)])
  }

  /** Offset. */
  function Offset(r: Result): int64 {
    Wrap64((r.page - 1) * r.perPage)
  }

  /** CursorLimit. */
  function CursorLimit(r: Result): int64 {
    Wrap64(r.perPage + 1)
  }

  /** The limit leaves room for the probe row exactly if the page size is not the largest integer; with
      that one, the limit is the smallest integer instead. */
  lemma CursorLimitProbesExactly(r: Result)
    requires r.perPage >= 1
    ensures CursorLimit(r) == r.perPage + 1 <==> r.perPage < MAX_INT64
    ensures r.perPage == MAX_INT64 ==> CursorLimit(r) == MIN_INT64
  {}

  /** The WHERE conditions of a cursor statement and their arguments. */
  function CursorWhere(r: Result): string
    requires Sound(r)
  {
    var where, keyset := Join(Conditions(r.filters), " AND "), KeysetSQL(r).0;
    if keyset == "" then where else if where == "" then keyset else where + " AND " + keyset
  }

  function WhereClause(where: string): string {
    if where == "" then "" else " WHERE " + where
  }

  function OrderClause(sorts: seq<SortValue>): string {
    if sorts == [] then "" else " ORDER BY " + Join(SortFields(sorts), ", ")
  }

  /** The two appends every statement makes after its WHERE clause. */
  method AppendOrderLimit(statement: string, r: Result, limit: string) returns (s: string)
    ensures s == statement + (OrderClause(r.sorts) + limit)
  {
    s := statement;
    var order := OrderSQL(r);
    OrderNotEmpty(r.sorts);
    if order != "" {
      s := s + " " + order;
    }
    s := s + limit;
  }

  lemma OrderNotEmpty(sorts: seq<SortValue>)
    ensures OrderText(sorts) == "" <==> sorts == []
    ensures sorts != [] ==> OrderClause(sorts) == " " + OrderText(sorts)
  {
    hide Join, SortFields;
    assert "ORDER BY "[0] == 'O';
    assert " ORDER BY " == " " + "ORDER BY ";
  }

  /** BuildCursorSQL. */
  method BuildCursorSQL(r: Result, base: string) returns (statement: string, args: seq<Arg>)
    requires Sound(r)
    ensures statement == base + WhereClause(CursorWhere(r)) + (OrderClause(r.sorts) + " LIMIT ?")
    ensures args == Args(r.filters) + KeysetSQL(r).1 + [Num(CursorLimit(r))]
  {
    var where;
    where, args := WhereSQL(r);
    hide Sound, Join, Conditions, Args, OrderClause, KeysetSQL;
    var (keyset, keysetArgs) := KeysetSQL(r);
    KeysetArgs(r);
    if keyset != "" {
      if where != "" {
        where := where + " AND " + keyset;
      } else {
        where := keyset;
      }
      args := args + keysetArgs;
    }
    statement := base;
    if where != "" {
      statement := statement + " WHERE " + where;
    }
    assert statement == base + WhereClause(where);
    statement := AppendOrderLimit(statement, r, " LIMIT ?");
    args := args + [Num(CursorLimit(r))];
  }

  lemma KeysetArgs(r: Result)
    requires Sound(r)
    ensures KeysetSQL(r).0 == "" ==> KeysetSQL(r).1 == []
  {
    assert r.cursor.Some? ==> KeysetSQL(r).0[0] == '(';
  }

  /** appendWhere, which is all of BuildCountSQL. */
  method AppendWhere(r: Result, base: string) returns (statement: string, args: seq<Arg>)
    requires Sound(r)
    ensures statement == base + WhereClause(Join(Conditions(r.filters), " AND "))
    ensures args == Args(r.filters)
  {
    var where;
    where, args := WhereSQL(r);
    statement := base;
    if where != "" {
      statement := statement + " WHERE " + where;
    }
  }

  /** BuildSQL. */
  method BuildSQL(r: Result, base: string) returns (statement: string, args: seq<Arg>)
    requires Sound(r)
    ensures statement ==
      base + WhereClause(Join(Conditions(r.filters), " AND ")) + (OrderClause(r.sorts) + " LIMIT ? OFFSET ?")
    ensures args == Args(r.filters) + [Num(r.perPage), Num(Offset(r))]
  {
    statement, args := AppendWhere(r, base);
    statement := AppendOrderLimit(statement, r, " LIMIT ? OFFSET ?");
    args := args + [Num(r.perPage), Num(Offset(r))];
  }
}
