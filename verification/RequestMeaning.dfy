/** What the parameters of a request mean, from the text of their keys to the rows selected, and which
    requests are accepted. */
module RequestMeaning {
  import opened Text
  import opened Numbers
  import opened Query
  import opened Sql
  import opened SqlReader
  import opened SqlMeaning
  import Like

  /** The texts that strconv.ParseBool takes for true, and those it takes for false. */
  predicate MeansTrue(s: string) {
    s in ["1", "t", "T", "TRUE", "true", "True"]
  }

  predicate MeansFalse(s: string) {
    s in ["0", "f", "F", "FALSE", "false", "False"]
  }

  /** A value as a filter compares it. */
  function Bound(filter: Filter, value: string): Arg {
    if filter.isBool then Flag(MeansTrue(value)) else Str(value)
  }

  /** What a parameter asks of a row, by the filter's declaration and the operator in its key. */
  ghost predicate Wants(filter: Filter, operator: string, value: string, row: Row, lt: Order) {
    var cell, bound := Cell(row, filter.column), Bound(filter, value);
    match filter.kind
    case KindExact => cell == bound
    case KindPartial => cell.Str? && Like.Contains(cell.text, value)
    case KindIn => exists v :: v in SplitNonEmpty(value) && cell == Bound(filter, v)
    case KindCompare =>
      if operator == "" then cell == bound
      else if operator == "gte" then cell == bound || lt(bound, cell)
      else if operator == "lte" then cell == bound || lt(cell, bound)
      else if operator == "gt" then lt(bound, cell)
      else lt(cell, bound)
  }

  /** The values a parameter lists. */
  function ValuesOf(filter: Filter, value: string): seq<string> {
    if filter.kind == KindIn then SplitNonEmpty(value) else [value]
  }

  /** What buildFilterValue lets through: the operator fits the kind, a list is neither empty nor too long,
      and every value of a boolean filter is a boolean. */
  predicate Accepts(filter: Filter, operator: string, value: string) {
    && (operator == "" || (filter.kind == KindCompare && operator in ["gte", "lte", "gt", "lt"]))
    && (filter.kind == KindIn ==> 1 <= |SplitNonEmpty(value)| <= 100)
    && (filter.isBool ==> forall v :: v in ValuesOf(filter, value) ==> MeansTrue(v) || MeansFalse(v))
  }

  lemma BoolsAre(values: seq<string>)
    ensures AllBools(values) <==> forall v :: v in values ==> MeansTrue(v) || MeansFalse(v)
  {
    forall v
      ensures ParseBool(v).Some? <==> MeansTrue(v) || MeansFalse(v)
    {}
    hide ParseBool, MeansTrue, MeansFalse;
    assert forall i :: 0 <= i < |values| ==> values[i] in values;
  }

  lemma BuildsExactly(filter: Filter, operator: string, value: string)
    ensures BuildFilterValue(filter, operator, value).Some? <==> Accepts(filter, operator, value)
  {
    BoolsAre(ValuesOf(filter, value));
    hide SplitNonEmpty, AllBools, MeansTrue, MeansFalse;
  }

  lemma BoundIs(f: FilterValue, filter: Filter, v: string)
    requires f.isBool == filter.isBool
    ensures BindArg(f, v) == Bound(filter, v)
  {}

  /** A filter value means what its parameter asks for. */
  lemma FilterMeans(filter: Filter, operator: string, value: string, row: Row, lt: Order)
    requires IsIdentifier(filter.column) && BuildFilterValue(filter, operator, value).Some?
    ensures var f := BuildFilterValue(filter, operator, value).value;
      SoundFilter(f) && (Meets(f, row, lt) <==> Wants(filter, operator, value, row, lt))
  {
    BuiltIsSound(filter, operator, value);
    hide SplitNonEmpty, AllBools, IsIdentifier, SoundFilter, Like.Contains;
    var f := BuildFilterValue(filter, operator, value).value;
    hide BindArg, Bound;
    forall v
      ensures BindArg(f, v) == Bound(filter, v)
    {
      BoundIs(f, filter, v);
    }
  }

  /** The request has a value for this filter and operator. */
  predicate Asks(values: Values, table: map<string, Filter>, name: string, operator: string) {
    && name in table && IsBracketed(name) && (operator == "" || IsBracketed(operator))
    && FilterKey(name, operator) in values && values[FilterKey(name, operator)][0] != ""
  }

  ghost predicate WantsTable(values: Values, table: map<string, Filter>, row: Row, lt: Order) {
    forall name, operator :: Asks(values, table, name, operator) ==>
      Wants(table[name], operator, values[FilterKey(name, operator)][0], row, lt)
  }

  /** The text of the parameter for a filter and an operator. */
  predicate IsKey(key: string, name: string, operator: string) {
    && IsBracketed(name) && (operator == "" || IsBracketed(operator))
    && key == "filter[" + name + "]" + if operator == "" then "" else "[" + operator + "]"
  }

  lemma KeysAre(key: string, name: string, operator: string)
    ensures IsKey(key, name, operator) <==>
      IsBracketed(name) && (operator == "" || IsBracketed(operator)) && key == FilterKey(name, operator)
  {
    hide IsBracketed;
    var close := if operator == "" then "" else "[" + operator + "]";
    assert "filter[" + name + "]" + close == "filter[" + (name + ("]" + close));
    assert "[" + operator + "]" == "[" + (operator + "]");
  }

  /** The row is one that every parameter filter[name] or filter[name][operator] with a value asks for, by
      the last declaration of a filter with this name. */
  ghost predicate WantsAll(values: Values, filters: seq<Filter>, row: Row, lt: Order) {
    forall key, name, operator, f ::
      key in values && values[key][0] != "" && IsKey(key, name, operator) && IsFilter(filters, name, f) ==>
        Wants(f, operator, values[key][0], row, lt)
  }

  lemma WantsAllOfTable(values: Values, filters: seq<Filter>, row: Row, lt: Order)
    ensures WantsTable(values, FilterTable(filters), row, lt) <==> WantsAll(values, filters, row, lt)
  {
    hide FilterTable, FilterKey, IsBracketed, IsFilter, Wants, IsKey;
    var table := FilterTable(filters);
    if WantsTable(values, table, row, lt) {
      forall key, name, operator, f |
        key in values && values[key][0] != "" && IsKey(key, name, operator) && IsFilter(filters, name, f)
        ensures Wants(f, operator, values[key][0], row, lt)
      {
        KeysAre(key, name, operator);
        FilterTableHolds(filters, name, f);
        assert Asks(values, table, name, operator);
      }
    }
    if WantsAll(values, filters, row, lt) {
      forall name, operator | Asks(values, table, name, operator)
        ensures Wants(table[name], operator, values[FilterKey(name, operator)][0], row, lt)
      {
        KeysAre(FilterKey(name, operator), name, operator);
        FilterTableHolds(filters, name, table[name]);
      }
    }
  }

  lemma KeyIsFilter(name: string, operator: string)
    ensures HasPrefix(FilterKey(name, operator), "filter[")
  {}

  /** What is asked for is met with a good verdict, unless it offends. */
  lemma AskedIsGood(values: Values, table: map<string, Filter>, name: string, operator: string)
    requires Asks(values, table, name, operator) && !HasOffendingFilter(values, table, values.Keys)
    ensures var key := FilterKey(name, operator);
      && BuildFilterValue(table[name], operator, values[key][0]).Some?
      && FilterVerdict(table, key, values[key][0]) ==
           Good(BuildFilterValue(table[name], operator, values[key][0]).value)
  {
    var key := FilterKey(name, operator);
    FilterKeyRead(key, name, operator);
    KeyIsFilter(name, operator);
    hide BuildFilterValue, FilterKey, MatchFilterKey, IsBracketed;
  }

  /** Whatever has a good verdict is asked for. */
  lemma GoodIsAsked(values: Values, table: map<string, Filter>, key: string) returns (name: string, operator: string)
    requires key in values && FilterVerdict(table, key, values[key][0]).Good?
    ensures Asks(values, table, name, operator) && key == FilterKey(name, operator)
  {
    var match_ := MatchFilterKey(key).value;
    name, operator := match_.0, match_.1;
    FilterKeyRead(key, name, operator);
    hide BuildFilterValue, FilterKey, MatchFilterKey, IsBracketed;
  }

  /** One parameter, from its key to its meaning. */
  lemma AskedMeans(filters: seq<Filter>, values: Values, name: string, operator: string, row: Row, lt: Order)
    requires forall i :: 0 <= i < |filters| ==> IsIdentifier(filters[i].column)
    requires Asks(values, FilterTable(filters), name, operator)
    requires !HasOffendingFilter(values, FilterTable(filters), values.Keys)
    ensures var key := FilterKey(name, operator);
        var verdict := FilterVerdict(FilterTable(filters), key, values[key][0]);
      && verdict.Good? && SoundFilter(verdict.value)
      && (Meets(verdict.value, row, lt) <==>
            Wants(FilterTable(filters)[name], operator, values[FilterKey(name, operator)][0], row, lt))
  {
    var table := FilterTable(filters);
    AskedIsGood(values, table, name, operator);
    TableColumns(filters, name);
    FilterMeans(table[name], operator, values[FilterKey(name, operator)][0], row, lt);
    hide BuildFilterValue, FilterVerdict, FilterTable, FilterKey, Meets, Wants, SoundFilter, IsIdentifier;
  }

  lemma NothingOffends(values: Values, options: Options, decode: string -> Option<Cursor>)
    requires !Offends(values, options, decode)
    ensures !HasOffendingFilter(values, FilterTable(options.allowedFilters), values.Keys)
  {
    hide HasOffendingFilter, FilterTable, AllSortable, IsCount;
  }

  lemma ConfiguredColumns(values: Values, options: Options)
    requires WellConfigured(values, options)
    ensures forall i :: 0 <= i < |options.allowedFilters| ==> IsIdentifier(options.allowedFilters[i].column)
  {
    hide IsIdentifier, AllSortable, SortTable, SplitNonEmpty;
  }

  /** The rows that an accepted request's filters select are those that every parameter of the form
      filter[name] or filter[name][operator] asks for, read off the text of its key. */
  lemma RequestMeans(values: Values, options: Options, decode: string -> Option<Cursor>, r: Result, met: seq<string>,
                     row: Row, lt: Order)
    requires WellConfigured(values, options) && !Offends(values, options, decode)
    requires Describes(values, options, decode, r, met)
    ensures Sound(r)
    ensures MeetsAll(r.filters, row, lt) <==> WantsAll(values, options.allowedFilters, row, lt)
  {
    WantsAllOfTable(values, options.allowedFilters, row, lt);
    AnyFilterOrder(values, options, decode, r, met, row, lt);
    NothingOffends(values, options, decode);
    ConfiguredColumns(values, options);
    hide WellConfigured, Offends, Describes, FilterVerdict, FilterTable, FilterKey, Meets, Wants, SoundFilter,
      IsIdentifier, Asks, Sound, MeetsAll, HasOffendingFilter, WantsAll;
    var filters := options.allowedFilters;
    forall name, operator | Asks(values, FilterTable(filters), name, operator)
      ensures var key := FilterKey(name, operator);
        var verdict := FilterVerdict(FilterTable(filters), key, values[key][0]);
        verdict.Good? && SoundFilter(verdict.value) && (Meets(verdict.value, row, lt) <==>
          Wants(FilterTable(filters)[name], operator, values[FilterKey(name, operator)][0], row, lt))
    {
      AskedMeans(filters, values, name, operator, row, lt);
    }
    forall k | k in values && FilterVerdict(FilterTable(filters), k, values[k][0]).Good?
      ensures exists name, operator ::
        Asks(values, FilterTable(filters), name, operator) && k == FilterKey(name, operator)
    {
      var name, operator := GoodIsAsked(values, FilterTable(filters), k);
    }
  }

  // ----- lists ---------------------------------------------------------------------------------------

  /** A list is read part by part, at the commas: the parts are trimmed, and blank ones are left out. */
  lemma ListOfOne(part: string, lead: string, core: string, trail: string)
    requires ',' !in part && part == lead + core + trail && IsBlank(lead) && IsBlank(trail)
    requires core != "" ==> !IsSpace(core[0]) && !IsSpace(core[|core| - 1])
    ensures SplitNonEmpty(part) == if core == "" then [] else [core]
  {
    hide TrimSpace, IsSpace;
    TrimmedPart(part, lead, core, trail);
    SplitWhole(part, ',');
    hide Split;
    assert [part][1..] == [] && NonEmptyParts([]) == [];
  }

  lemma TrimmedPart(part: string, lead: string, core: string, trail: string)
    requires part == lead + core + trail && IsBlank(lead) && IsBlank(trail)
    requires core != "" ==> !IsSpace(core[0]) && !IsSpace(core[|core| - 1])
    ensures TrimSpace(part) == core
  {
    hide IsSpace;
    if core != "" {
      TrimmedCore(lead, core, trail);
    }
  }

  lemma ListOfMore(part: string, rest: string, lead: string, core: string, trail: string)
    requires ',' !in part && part == lead + core + trail && IsBlank(lead) && IsBlank(trail)
    requires core != "" ==> !IsSpace(core[0]) && !IsSpace(core[|core| - 1])
    ensures SplitNonEmpty(part + "," + rest) == (if core == "" then [] else [core]) + SplitNonEmpty(rest)
  {
    hide TrimSpace, IsSpace;
    TrimmedPart(part, lead, core, trail);
    SplitFirst(part, rest);
    hide Split;
    assert ([part] + Split(rest, ','))[1..] == Split(rest, ',');
  }

  lemma SplitFirst(part: string, rest: string)
    requires ',' !in part
    ensures Split(part + "," + rest, ',') == [part] + Split(rest, ',')
  {
    SplitHead(part, ',', rest);
    assert part + "," + rest == part + [','] + rest;
  }

  // ----- sorts ---------------------------------------------------------------------------------------

  /** The parameter has a value. */
  predicate Given(values: Values, key: string) {
    key in values && values[key][0] != ""
  }

  function SortText(values: Values, options: Options): string {
    if Given(values, "sort") then values["sort"][0] else options.defaultSort
  }

  /** A sort field is the name of a declared sort, after a minus sign if it is descending. */
  ghost predicate IsSortField(sorts: seq<Sort>, field: string, v: SortValue) {
    exists name, s :: IsSort(sorts, name, s) && v.column == s.column &&
      if v.desc then field == "-" + name else field == name && (name == "" || name[0] != '-')
  }

  ghost predicate SortsAsked(values: Values, options: Options, sorts: seq<SortValue>) {
    if options.cursorSort == "" then
      var fields := SplitNonEmpty(SortText(values, options));
      && |sorts| == |fields|
      && forall i :: 0 <= i < |fields| ==> IsSortField(options.allowedSorts, fields[i], sorts[i])
    else
      exists s :: IsSort(options.allowedSorts, options.cursorSort, s) &&
        var desc := "-" <= options.defaultSort;
        sorts == [SortValue(s.column, desc), SortValue("id", desc)]
  }

  lemma FieldIs(sorts: seq<Sort>, field: string)
    requires SortName(field) in SortTable(sorts)
    ensures IsSortField(sorts, field, SortValue(SortTable(sorts)[SortName(field)].column, IsDescending(field)))
  {
    var name := SortName(field);
    SortTableHolds(sorts, name, SortTable(sorts)[name]);
    hide SortTable, IsSort;
    assert field == if IsDescending(field) then "-" + name else name;
  }

  lemma {:induction false} FieldsAre(sorts: seq<Sort>, fields: seq<string>)
    requires AllSortable(SortTable(sorts), fields)
    ensures var values := SortValues(SortTable(sorts), fields);
      |values| == |fields| && forall i :: 0 <= i < |fields| ==> IsSortField(sorts, fields[i], values[i])
  {
    hide SortTable, IsSortField, IsDescending, SortName;
    if fields != [] {
      FieldsAre(sorts, fields[1..]);
      FieldIs(sorts, fields[0]);
      assert fields == [fields[0]] + fields[1..];
    }
  }

  lemma SortTextIs(values: Values, options: Options)
    ensures SortText(values, options) == SortParameter(values, options)
  {}

  /** The sorts of an accepted request. */
  lemma SortsMean(values: Values, options: Options, decode: string -> Option<Cursor>, r: Result, met: seq<string>)
    requires WellConfigured(values, options) && !Offends(values, options, decode)
    requires Describes(values, options, decode, r, met)
    ensures SortsAsked(values, options, r.sorts)
  {
    hide SplitNonEmpty, SortTable, SortValues, AllSortable, FiltersMet, HasOffendingFilter, IsCount, PerPage, CountOr,
      SortParameter, IsSort, IsSortField, IsIdentifier, FirstValue;
    var fields := SplitNonEmpty(SortParameter(values, options));
    FieldsAre(options.allowedSorts, fields);
    SortTextIs(values, options);
    if options.cursorSort != "" {
      var s := SortTable(options.allowedSorts)[options.cursorSort];
      SortTableHolds(options.allowedSorts, options.cursorSort, s);
    }
    hide SortText;
  }

  // ----- pages ---------------------------------------------------------------------------------------

  /** An integer of at least one, written as strconv.Atoi reads it. */
  ghost predicate IsPositive(text: string, n: int64) {
    ParseInt(text) == Some(n) && n >= 1
  }

  /** The page asked for, or the first; the page size asked for, but not more than the largest allowed, or
      the default one. Options below one are replaced by 25 and 100. */
  ghost predicate PagesAsked(values: Values, options: Options, page: int64, perPage: int64) {
    && (Given(values, "page") ==> IsPositive(values["page"][0], page))
    && (!Given(values, "page") ==> page == 1)
    && (Given(values, "per_page") ==>
          exists n: int64 :: IsPositive(values["per_page"][0], n) &&
            var limit: int := if options.maxPerPage >= 1 then options.maxPerPage else 100;
            (n <= limit ==> perPage == n) && (n > limit ==> perPage == limit))
    && (!Given(values, "per_page") ==> perPage == if options.defaultPerPage >= 1 then options.defaultPerPage else 25)
  }

  /** The pages of an accepted request. */
  lemma PagesMean(values: Values, options: Options, decode: string -> Option<Cursor>, r: Result, met: seq<string>)
    requires !Offends(values, options, decode) && Describes(values, options, decode, r, met)
    ensures PagesAsked(values, options, r.page, r.perPage)
  {
    hide SplitNonEmpty, SortTable, SortValues, AllSortable, FiltersMet, HasOffendingFilter, SortParameter, ParseInt;
    if Given(values, "per_page") {
      assert IsPositive(values["per_page"][0], ParseInt(values["per_page"][0]).value);
    }
  }

  /** The cursor of an accepted request: in cursor mode the one given, if any, as it is decoded. */
  lemma CursorMeans(values: Values, options: Options, decode: string -> Option<Cursor>, r: Result, met: seq<string>)
    requires WellConfigured(values, options) && !Offends(values, options, decode)
    requires Describes(values, options, decode, r, met)
    ensures r.cursorMode <==> options.cursorSort != ""
    ensures if r.cursorMode && Given(values, "cursor")
      then r.cursor.Some? && r.cursor == decode(values["cursor"][0])
      else r.cursor == None
  {
    hide SplitNonEmpty, SortTable, SortValues, AllSortable, FiltersMet, HasOffendingFilter, SortParameter, IsCount,
      CountOr, PerPage;
  }

  // ----- which requests are accepted -----------------------------------------------------------------------

  /** A parameter whose key is, or begins like, that of a filter names a declared one, and its value is
      empty or one the filter accepts. */
  ghost predicate FilterFits(values: Values, filters: seq<Filter>, key: string)
    requires key in values
  {
    key == "filter" || "filter[" <= key ==>
      exists name, operator, f :: IsKey(key, name, operator) && IsFilter(filters, name, f) &&
        (values[key][0] == "" || Accepts(f, operator, values[key][0]))
  }

  ghost predicate CountFits(values: Values, key: string) {
    Given(values, key) ==> exists n :: IsPositive(values[key][0], n)
  }

  ghost predicate Fits(values: Values, options: Options, decode: string -> Option<Cursor>) {
    && (forall key :: key in values ==> FilterFits(values, options.allowedFilters, key))
    && (forall field :: field in SplitNonEmpty(SortText(values, options)) ==>
          exists v :: IsSortField(options.allowedSorts, field, v))
    && CountFits(values, "page") && CountFits(values, "per_page")
    && (options.cursorSort != "" ==>
          && !Given(values, "sort") && !Given(values, "page")
          && (Given(values, "cursor") ==> decode(values["cursor"][0]).Some?))
  }

  lemma FilterFitsExactly(values: Values, filters: seq<Filter>, key: string)
    requires key in values
    ensures FilterFits(values, filters, key) <==> FilterVerdict(FilterTable(filters), key, values[key][0]) != Offending
  {
    hide FilterTable, BuildFilterValue, MatchFilterKey, IsKey, IsFilter, Accepts, IsBracketed, FilterKey;
    var table := FilterTable(filters);
    if key == "filter" || "filter[" <= key {
      if FilterFits(values, filters, key) {
        var name, operator, f :| IsKey(key, name, operator) && IsFilter(filters, name, f) &&
          (values[key][0] == "" || Accepts(f, operator, values[key][0]));
        KeysAre(key, name, operator);
        FilterKeyRead(key, name, operator);
        FilterTableHolds(filters, name, f);
        BuildsExactly(f, operator, values[key][0]);
      }
      if FilterVerdict(table, key, values[key][0]) != Offending {
        var (name, operator) := MatchFilterKey(key).value;
        FilterKeyRead(key, name, operator);
        KeysAre(key, name, operator);
        FilterTableHolds(filters, name, table[name]);
        BuildsExactly(table[name], operator, values[key][0]);
      }
    }
  }

  lemma SortFieldExactly(sorts: seq<Sort>, field: string)
    ensures (exists v :: IsSortField(sorts, field, v)) <==> SortName(field) in SortTable(sorts)
  {
    if v :| IsSortField(sorts, field, v) {
      var name, s :| IsSort(sorts, name, s) && v.column == s.column &&
        if v.desc then field == "-" + name else field == name && (name == "" || name[0] != '-');
      SortTableHolds(sorts, name, s);
      hide SortTable, IsSort;
      assert SortName(field) == name;
    }
    if SortName(field) in SortTable(sorts) {
      FieldIs(sorts, field);
    }
  }

  lemma CountFitsExactly(values: Values, key: string)
    ensures CountFits(values, key) <==> IsCount(FirstValue(values, key))
  {
    hide ParseInt;
    if Given(values, key) && ParseInt(values[key][0]).Some? && ParseInt(values[key][0]).value >= 1 {
      assert IsPositive(values[key][0], ParseInt(values[key][0]).value);
    }
  }

  /** A request is rejected exactly if some part of it does not fit: these are all the reasons. */
  lemma FitsExactly(values: Values, options: Options, decode: string -> Option<Cursor>)
    ensures Fits(values, options, decode) <==> !Offends(values, options, decode)
  {
    FiltersFitExactly(values, options.allowedFilters);
    SortFieldsExactly(options.allowedSorts, SplitNonEmpty(SortText(values, options)));
    SortTextIs(values, options);
    CountFitsExactly(values, "page");
    CountFitsExactly(values, "per_page");
    hide FilterFits, FilterTable, SortTable, IsSortField, SplitNonEmpty, CountFits, IsCount, SortParameter, SortText,
      HasOffendingFilter, AllSortable;
  }

  lemma FiltersFitExactly(values: Values, filters: seq<Filter>)
    ensures (forall key :: key in values ==> FilterFits(values, filters, key)) <==>
      !HasOffendingFilter(values, FilterTable(filters), values.Keys)
  {
    hide FilterFits, FilterVerdict, FilterTable;
    forall key | key in values
      ensures FilterFits(values, filters, key) <==>
        FilterVerdict(FilterTable(filters), key, values[key][0]) != Offending
    {
      FilterFitsExactly(values, filters, key);
    }
  }

  lemma SortFieldsExactly(sorts: seq<Sort>, fields: seq<string>)
    ensures (forall field :: field in fields ==> exists v :: IsSortField(sorts, field, v)) <==>
      AllSortable(SortTable(sorts), fields)
  {
    hide SortTable, IsSortField, SortName;
    forall field
      ensures (exists v :: IsSortField(sorts, field, v)) <==> SortName(field) in SortTable(sorts)
    {
      SortFieldExactly(sorts, field);
    }
    assert forall i :: 0 <= i < |fields| ==> fields[i] in fields;
  }

  // ----- what is reported ------------------------------------------------------------------------------------

  ghost predicate IsUnknownSort(values: Values, options: Options, name: string) {
    exists field :: field in SplitNonEmpty(SortText(values, options)) && name == "sort=" + field &&
      forall v :: !IsSortField(options.allowedSorts, field, v)
  }

  /** A name that the report of a rejected request holds. */
  ghost predicate IsReported(values: Values, options: Options, decode: string -> Option<Cursor>, name: string) {
    || (name in values && !FilterFits(values, options.allowedFilters, name))
    || IsUnknownSort(values, options, name)
    || (name == "page" && !CountFits(values, "page"))
    || (name == "per_page" && !CountFits(values, "per_page"))
    || (name in ["sort", "page"] && options.cursorSort != "" && Given(values, name))
    || (name == "cursor" && options.cursorSort != "" && Given(values, "cursor") &&
        decode(values["cursor"][0]) == None)
  }

  lemma {:induction false} UnknownHolds(sorts: seq<Sort>, fields: seq<string>, name: string)
    ensures name in UnknownSorts(SortTable(sorts), fields) <==>
      exists field :: field in fields && name == "sort=" + field && forall v :: !IsSortField(sorts, field, v)
  {
    hide SortTable, SortName, IsSortField;
    if fields != [] {
      UnknownHolds(sorts, fields[1..], name);
      SortFieldExactly(sorts, fields[0]);
      assert fields == [fields[0]] + fields[1..];
    }
  }

  /** The report of a rejected request names exactly the parts that do not fit. */
  lemma ReportExactly(values: Values, options: Options, decode: string -> Option<Cursor>, invalid: seq<string>,
                      name: string)
    requires Reports(values, options, decode, invalid)
    ensures name in invalid <==> IsReported(values, options, decode, name)
  {
    hide ListsOffenders, FilterTable, UnknownSorts, SortTable, SplitNonEmpty, SortText, SortParameter, FilterFits,
      CountFits, IsCount, FilterVerdict, IsUnknownSort;
    var bad :| ListsOffenders(values, FilterTable(options.allowedFilters), values.Keys, bad) &&
      invalid == bad + OtherOffenders(values, options, decode);
    BadHolds(values, options.allowedFilters, bad, name);
    SortTextIs(values, options);
    UnknownAre(values, options, name);
    CountFitsExactly(values, "page");
    CountFitsExactly(values, "per_page");
    OthersHold(values, options, decode, name);
    hide OtherOffenders;
  }

  lemma UnknownAre(values: Values, options: Options, name: string)
    ensures name in UnknownSorts(SortTable(options.allowedSorts), SplitNonEmpty(SortText(values, options))) <==>
      IsUnknownSort(values, options, name)
  {
    UnknownHolds(options.allowedSorts, SplitNonEmpty(SortText(values, options)), name);
    hide UnknownSorts, SortTable, SplitNonEmpty, SortText, IsSortField;
  }

  lemma BadHolds(values: Values, filters: seq<Filter>, bad: seq<string>, name: string)
    requires ListsOffenders(values, FilterTable(filters), values.Keys, bad)
    ensures name in bad <==> name in values && !FilterFits(values, filters, name)
  {
    if name in values {
      FilterFitsExactly(values, filters, name);
    }
    hide FilterFits, FilterVerdict, FilterTable;
  }

  lemma OthersHold(values: Values, options: Options, decode: string -> Option<Cursor>, name: string)
    ensures name in OtherOffenders(values, options, decode) <==>
      || name in UnknownSorts(SortTable(options.allowedSorts), SplitNonEmpty(SortParameter(values, options)))
      || (name == "page" && !IsCount(FirstValue(values, "page")))
      || (name == "per_page" && !IsCount(FirstValue(values, "per_page")))
      || (name in ["sort", "page"] && options.cursorSort != "" && Given(values, name))
      || (name == "cursor" && options.cursorSort != "" && Given(values, "cursor") &&
          decode(values["cursor"][0]) == None)
  {
    hide UnknownSorts, SortTable, SplitNonEmpty, SortParameter, IsCount;
  }
}
