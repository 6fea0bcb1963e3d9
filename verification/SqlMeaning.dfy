/** What the statements of the query builder mean: read back by SqlReader, they select exactly the rows
    that meet every accepted filter and lie beyond the cursor. */
module SqlMeaning {
  import opened Text
  import opened Query
  import opened Sql
  import opened SqlReader
  import Like

  // ----- the meaning of a filter, from its declaration ------------------------------------

  /** A row meets an accepted filter: equality with the value, containment of the text, membership in
      the list, or the range bound. */
  ghost predicate Meets(f: FilterValue, row: Row, lt: Order)
    requires SoundFilter(f)
  {
    var cell := Cell(row, f.column);
    match f.op
    case OpEq => cell == BindArg(f, f.values[0])
    case OpLike => cell.Str? && Like.Contains(cell.text, f.values[0])
    case OpIn => exists v :: v in f.values && cell == BindArg(f, v)
    case OpGte => lt(BindArg(f, f.values[0]), cell) || cell == BindArg(f, f.values[0])
    case OpLte => lt(cell, BindArg(f, f.values[0])) || cell == BindArg(f, f.values[0])
    case OpGt => lt(BindArg(f, f.values[0]), cell)
    case OpLt => lt(cell, BindArg(f, f.values[0]))
  }

  ghost predicate MeetsAll(filters: seq<FilterValue>, row: Row, lt: Order)
    requires forall i :: 0 <= i < |filters| ==> SoundFilter(filters[i])
  {
    forall i :: 0 <= i < |filters| ==> Meets(filters[i], row, lt)
  }

  lemma AtomMeans(f: FilterValue, row: Row, lt: Order)
    requires SoundFilter(f)
    ensures Eval(AtomExpr(f), row, lt) <==> Meets(f, row, lt)
  {
    if f.op == OpLike {
      var cell := Cell(row, f.column);
      if cell.Str? {
        Like.PatternMeansContains(f.values[0], cell.text);
      }
    } else if f.op == OpIn {
      var args := BindArgs(f, f.values);
      var cell := Cell(row, f.column);
      assert forall i :: 0 <= i < |args| ==> args[i] == BindArg(f, f.values[i]);
      if cell in args {
        var i :| 0 <= i < |args| && args[i] == cell;
        assert f.values[i] in f.values;
      }
    }
  }

  /** The position a cursor names, and rows beyond it. */
  datatype Key = Key(value: Arg, id: Arg)

  function KeyOf(row: Row, column: string): Key {
    Key(Cell(row, column), Cell(row, "id"))
  }

  /** Keys in sort order: by value, ties by id, ascending or descending. */
  predicate Before(x: Key, y: Key, desc: bool, lt: Order) {
    if desc then lt(y.value, x.value) || (y.value == x.value && lt(y.id, x.id))
    else lt(x.value, y.value) || (x.value == y.value && lt(x.id, y.id))
  }

  function CursorKey(c: Cursor): Key {
    Key(Str(c.value), Str(c.id))
  }

  predicate BeyondCursor(r: Result, row: Row, lt: Order) {
    r.cursor == None || r.sorts == [] ||
    Before(CursorKey(r.cursor.value), KeyOf(row, r.sorts[0].column), r.sorts[0].desc, lt)
  }

  // ----- the pieces of a WHERE clause ---------------------------------------------------------

  datatype Piece = FilterPiece(f: FilterValue) | KeysetPiece(r: Result)

  ghost predicate SoundPiece(p: Piece) {
    if p.FilterPiece? then SoundFilter(p.f) else Sound(p.r) && p.r.cursor.Some?
  }

  function PieceText(p: Piece): string
    requires SoundPiece(p)
  {
    match p case FilterPiece(f) => Condition(f) case KeysetPiece(r) => KeysetSQL(r).0
  }

  function PieceArgs(p: Piece): seq<Arg>
    requires SoundPiece(p)
  {
    match p case FilterPiece(f) => ConditionArgs(f) case KeysetPiece(r) => KeysetSQL(r).1
  }

  function PieceExpr(p: Piece): Expr
    requires SoundPiece(p)
  {
    match p case FilterPiece(f) => AtomExpr(f) case KeysetPiece(r) => KeysetExpr(r)
  }

  ghost predicate SoundPieces(ps: seq<Piece>) {
    forall i :: 0 <= i < |ps| ==> SoundPiece(ps[i])
  }

  function PiecesText(ps: seq<Piece>): string
    requires ps != [] && SoundPieces(ps)
  {
    if |ps| == 1 then PieceText(ps[0]) else PieceText(ps[0]) + (" AND " + PiecesText(ps[1..]))
  }

  function PiecesArgs(ps: seq<Piece>): seq<Arg>
    requires SoundPieces(ps)
  {
    if ps == [] then [] else PieceArgs(ps[0]) + PiecesArgs(ps[1..])
  }

  function PiecesExpr(ps: seq<Piece>): Expr
    requires ps != [] && SoundPieces(ps)
  {
    if |ps| == 1 then PieceExpr(ps[0]) else And(PieceExpr(ps[0]), PiecesExpr(ps[1..]))
  }

  lemma PieceReads(p: Piece, tail: string, more: seq<Arg>)
    requires SoundPiece(p)
    ensures ReadTerm(PieceText(p) + tail, PieceArgs(p) + more) == Some((PieceExpr(p), tail, more))
  {
    match p
    case FilterPiece(f) => AtomReads(f, tail, more);
    case KeysetPiece(r) => KeysetReads(r, tail, more);
  }

  /** A conjunction of pieces is read as the conjunction of what they are read as. */
  lemma {:induction false} PiecesRead(ps: seq<Piece>, tail: string, more: seq<Arg>)
    requires ps != [] && SoundPieces(ps)
    requires !(" AND " <= tail)
    ensures ReadAnd(PiecesText(ps) + tail, PiecesArgs(ps) + more) == Some((PiecesExpr(ps), tail, more))
  {
    hide ReadTerm, ReadAnd, PieceText, PieceArgs, PieceExpr, SoundPiece;
    var s, args := PiecesText(ps) + tail, PiecesArgs(ps) + more;
    if |ps| == 1 {
      assert PiecesArgs(ps) == PieceArgs(ps[0]) + PiecesArgs(ps[1..]) && ps[1..] == [];
      assert PiecesArgs(ps[1..]) == [];
      assert args == PieceArgs(ps[0]) + more;
      PieceReads(ps[0], tail, more);
      AndEnds(s, args, PieceExpr(ps[0]), tail, more);
    } else {
      var rest, restArgs := PiecesText(ps[1..]) + tail, PiecesArgs(ps[1..]) + more;
      assert s == PieceText(ps[0]) + (" AND " + rest);
      assert args == PieceArgs(ps[0]) + restArgs;
      PieceReads(ps[0], " AND " + rest, restArgs);
      PiecesRead(ps[1..], tail, more);
      AndGoesOn(s, args, PieceExpr(ps[0]), rest, restArgs, PiecesExpr(ps[1..]), tail, more);
    }
  }

  lemma {:induction false} PiecesMean(ps: seq<Piece>, row: Row, lt: Order)
    requires ps != [] && SoundPieces(ps)
    ensures Eval(PiecesExpr(ps), row, lt) <==> forall i :: 0 <= i < |ps| ==> Eval(PieceExpr(ps[i]), row, lt)
  {
    hide PieceExpr, SoundPiece;
    if |ps| > 1 {
      PiecesMean(ps[1..], row, lt);
      assert forall i :: 0 < i < |ps| ==> ps[i] == ps[1..][i - 1];
    }
  }

  // ----- the builder's text in pieces -------------------------------------------------------------

  function FilterPieces(filters: seq<FilterValue>): (ps: seq<Piece>)
    ensures |ps| == |filters|
    ensures forall i :: 0 <= i < |ps| ==> ps[i] == FilterPiece(filters[i])
  {
    seq(|filters|, i requires 0 <= i < |filters| => FilterPiece(filters[i]))
  }

  function KeysetPieces(r: Result): seq<Piece> {
    if r.cursor == None then [] else [KeysetPiece(r)]
  }

  lemma ArgsSnoc(filters: seq<FilterValue>, last: FilterValue)
    requires forall i :: 0 <= i < |filters| ==> |filters[i].values| >= 1
    requires |last.values| >= 1
    ensures Args(filters + [last]) == Args(filters) + ConditionArgs(last)
    ensures Args([]) == []
  {
    hide ConditionArgs;
    assert (filters + [last])[..|filters|] == filters;
  }

  lemma {:induction false} ArgsFront(filters: seq<FilterValue>)
    requires filters != []
    requires forall i :: 0 <= i < |filters| ==> |filters[i].values| >= 1
    ensures Args(filters) == ConditionArgs(filters[0]) + Args(filters[1..])
  {
    hide ConditionArgs, Args;
    var front, last := filters[..|filters| - 1], filters[|filters| - 1];
    assert filters == front + [last];
    ArgsSnoc(front, last);
    if front == [] {
      assert filters[1..] == [];
    } else {
      ArgsFront(front);
      ArgsSnoc(front[1..], last);
      assert filters[1..] == front[1..] + [last];
      ArgsNested(ConditionArgs(front[0]), Args(front[1..]), ConditionArgs(last));
    }
  }

  lemma ArgsNested(x: seq<Arg>, y: seq<Arg>, z: seq<Arg>)
    ensures (x + y) + z == x + (y + z)
  {}

  lemma {:induction false} FilterArgsInPieces(filters: seq<FilterValue>)
    requires forall i :: 0 <= i < |filters| ==> SoundFilter(filters[i])
    ensures SoundPieces(FilterPieces(filters)) && PiecesArgs(FilterPieces(filters)) == Args(filters)
  {
    if filters != [] {
      ArgsFront(filters);
      FilterArgsInPieces(filters[1..]);
      assert FilterPieces(filters)[1..] == FilterPieces(filters[1..]);
    }
  }

  lemma {:induction false} PiecesJoin(ps: seq<Piece>, texts: seq<string>)
    requires ps != [] && SoundPieces(ps) && |texts| == |ps|
    requires forall i :: 0 <= i < |ps| ==> texts[i] == PieceText(ps[i])
    ensures Join(texts, " AND ") == PiecesText(ps)
  {
    hide PieceText, SoundPiece;
    if |ps| > 1 {
      assert forall i :: 0 <= i < |ps[1..]| ==> texts[1..][i] == texts[i + 1] && ps[1..][i] == ps[i + 1];
      PiecesJoin(ps[1..], texts[1..]);
    }
  }

  lemma {:induction false} PiecesAppend(x: seq<Piece>, y: seq<Piece>)
    requires SoundPieces(x) && SoundPieces(y)
    ensures SoundPieces(x + y) && PiecesArgs(x + y) == PiecesArgs(x) + PiecesArgs(y)
    ensures x != [] && y != [] ==> PiecesText(x + y) == PiecesText(x) + (" AND " + PiecesText(y))
  {
    hide PieceText, PieceArgs, SoundPiece;
    if x == [] {
      assert x + y == y;
    } else {
      assert (x + y)[1..] == x[1..] + y;
      PiecesAppend(x[1..], y);
    }
  }

  lemma {:induction false} PiecesNotEmpty(ps: seq<Piece>)
    requires ps != [] && SoundPieces(ps)
    ensures PiecesText(ps) != ""
  {
    match ps[0]
    case FilterPiece(f) => assert PieceText(ps[0])[0] == f.column[0];
    case KeysetPiece(r) => assert PieceText(ps[0])[0] == '(';
  }

  /** The filters' part of the WHERE clause, in pieces. */
  lemma WhereInPieces(r: Result)
    requires Sound(r)
    ensures var ps := FilterPieces(r.filters);
      && SoundPieces(ps) && PiecesArgs(ps) == Args(r.filters)
      && Join(Conditions(r.filters), " AND ") == (if ps == [] then "" else PiecesText(ps))
  {
    FilterArgsInPieces(r.filters);
    if r.filters != [] {
      PiecesJoin(FilterPieces(r.filters), Conditions(r.filters));
    }
  }

  /** The whole WHERE clause of a cursor statement, in pieces. */
  lemma CursorWhereInPieces(r: Result)
    requires Sound(r)
    ensures var ps := FilterPieces(r.filters) + KeysetPieces(r);
      && SoundPieces(ps) && PiecesArgs(ps) == Args(r.filters) + KeysetSQL(r).1
      && CursorWhere(r) == (if ps == [] then "" else PiecesText(ps))
  {
    hide PiecesText, PiecesArgs, KeysetSQL, Conditions, Join, Args, SoundPieces, SoundPiece, FilterPieces, KeysetPieces,
      Sound;
    var fs, ks := FilterPieces(r.filters), KeysetPieces(r);
    WhereInPieces(r);
    KeysetInPieces(r);
    PiecesAppend(fs, ks);
    if fs != [] {
      PiecesNotEmpty(fs);
    } else {
      assert fs + ks == ks;
    }
    if ks != [] {
      PiecesNotEmpty(ks);
    } else {
      assert fs + ks == fs;
    }
  }

  lemma KeysetInPieces(r: Result)
    requires Sound(r)
    ensures SoundPieces(KeysetPieces(r)) && PiecesArgs(KeysetPieces(r)) == KeysetSQL(r).1
    ensures KeysetPieces(r) != [] ==> PiecesText(KeysetPieces(r)) == KeysetSQL(r).0
    ensures KeysetPieces(r) == [] ==> KeysetSQL(r).0 == ""
  {
    var ks := KeysetPieces(r);
    if ks != [] {
      assert ks[1..] == [];
      assert PiecesArgs(ks) == PieceArgs(ks[0]) + [];
    }
  }

  // ----- the statements ---------------------------------------------------------------------------

  lemma {:induction false} SortsRead(sorts: seq<SortValue>, tail: string)
    requires sorts != [] && forall i :: 0 <= i < |sorts| ==> IsIdentifier(sorts[i].column)
    requires tail != "" && tail[0] == ' '
    ensures ReadSorts(Join(SortFields(sorts), ", ") + tail) == Some((sorts, tail))
  {
    hide ReadSorts, SortField, IsIdentifier;
    if |sorts| == 1 {
      assert Join(SortFields(sorts), ", ") == SortField(sorts[0]);
      OneSortEnds(sorts[0], tail);
      assert sorts == [sorts[0]];
    } else {
      var rest := Join(SortFields(sorts[1..]), ", ") + tail;
      SortsRead(sorts[1..], tail);
      OneSortGoesOn(sorts[0], rest, sorts[1..], tail);
      assert SortFields(sorts)[1..] == SortFields(sorts[1..]);
      assert Join(SortFields(sorts), ", ") + tail == SortField(sorts[0]) + (", " + rest);
      assert sorts == [sorts[0]] + sorts[1..];
    }
  }

  lemma OneSortEnds(sort: SortValue, tail: string)
    requires IsIdentifier(sort.column) && tail != "" && tail[0] == ' '
    ensures ReadSorts(SortField(sort) + tail) == Some(([sort], tail))
  {
    OneSortReads(sort, tail);
    assert Strip(tail, ", ") == None;
    hide ReadIdent, Strip, IsIdentifier, SortField;
  }

  lemma OneSortGoesOn(sort: SortValue, rest: string, more: seq<SortValue>, tail: string)
    requires IsIdentifier(sort.column) && ReadSorts(rest) == Some((more, tail))
    ensures ReadSorts(SortField(sort) + (", " + rest)) == Some(([sort] + more, tail))
  {
    hide ReadIdent, Strip, IsIdentifier, SortField;
    OneSortReads(sort, ", " + rest);
    StripPrinted(", ", rest);
  }

  /** The identifier and the direction of one sort field. */
  lemma DirectionsDiffer(rest: string)
    ensures Strip(" DESC" + rest, " DESC") == Some(rest) && Strip(" ASC" + rest, " ASC") == Some(rest)
    ensures Strip(" ASC" + rest, " DESC").None?
  {
    StripPrinted(" DESC", rest);
    StripPrinted(" ASC", rest);
    assert (" ASC" + rest)[1] == 'A' && " DESC"[1] == 'D';
  }

  lemma DirectionStarts(desc: bool, rest: string)
    ensures var text := (if desc then " DESC" else " ASC") + rest; text != "" && !IsIdentChar(text[0])
  {}

  lemma FieldParts(sort: SortValue, rest: string)
    ensures SortField(sort) + rest == sort.column + ((if sort.desc then " DESC" else " ASC") + rest)
  {}

  lemma OneSortReads(sort: SortValue, rest: string)
    requires IsIdentifier(sort.column)
    ensures var direction := if sort.desc then " DESC" else " ASC";
      && ReadIdent(SortField(sort) + rest) == Some((sort.column, direction + rest))
      && (Strip(direction + rest, " DESC").Some? <==> sort.desc)
      && Strip(direction + rest, direction) == Some(rest)
  {
    hide *;
    var direction := if sort.desc then " DESC" else " ASC";
    DirectionStarts(sort.desc, rest);
    IdentReads(sort.column, direction + rest);
    DirectionsDiffer(rest);
    FieldParts(sort, rest);
  }

  function StatementOf(ps: seq<Piece>, sorts: seq<SortValue>, limit: Option<Arg>, offset: Option<Arg>): Statement
    requires SoundPieces(ps)
  {
    Statement(if ps == [] then None else Some(PiecesExpr(ps)), sorts, limit, offset)
  }

  datatype End = NoEnd | Limit(limit: Arg) | LimitOffset(limit: Arg, offset: Arg)

  function EndText(end: End): string {
    match end case NoEnd => "" case Limit(_) => " LIMIT ?" case LimitOffset(_, _) => " LIMIT ? OFFSET ?"
  }

  function EndArgs(end: End): seq<Arg> {
    match end case NoEnd => [] case Limit(l) => [l] case LimitOffset(l, o) => [l, o]
  }

  function EndLimit(end: End): Option<Arg> {
    if end.NoEnd? then None else Some(end.limit)
  }

  function EndOffset(end: End): Option<Arg> {
    if end.LimitOffset? then Some(end.offset) else None
  }

  lemma EndReads(where: Option<Expr>, order: seq<SortValue>, end: End)
    ensures ReadEnd(where, order, EndText(end), EndArgs(end)) ==
      Some(Statement(where, order, EndLimit(end), EndOffset(end)))
  {
    assert |" LIMIT ?"| == 8 && |" LIMIT ? OFFSET ?"| == 17;
  }

  lemma OrderReads(where: Option<Expr>, sorts: seq<SortValue>, end: End)
    requires forall i :: 0 <= i < |sorts| ==> IsIdentifier(sorts[i].column)
    requires sorts != [] ==> end != NoEnd
    ensures ReadOrderAndEnd(where, OrderClause(sorts) + EndText(end), EndArgs(end))
         == Some(Statement(where, sorts, EndLimit(end), EndOffset(end)))
  {
    EndReads(where, sorts, end);
    var tail := EndText(end);
    if sorts == [] {
      assert OrderClause(sorts) + tail == tail;
      assert tail != "" ==> tail[1] == 'L';
      assert Strip(tail, " ORDER BY ") == None;
    } else {
      assert tail[0] == ' ';
      SortsRead(sorts, tail);
      var fields := Join(SortFields(sorts), ", ") + tail;
      OrderClauseNested(sorts, tail);
      StripPrinted(" ORDER BY ", fields);
      hide Strip, ReadSorts, OrderClause, SortFields, Join, IsIdentifier, ReadEnd, EndText, EndArgs, EndLimit,
        EndOffset;
    }
  }

  lemma OrderClauseNested(sorts: seq<SortValue>, tail: string)
    requires sorts != []
    ensures OrderClause(sorts) + tail == " ORDER BY " + (Join(SortFields(sorts), ", ") + tail)
  {
    hide Join, SortFields;
  }

  lemma OrderStarts(sorts: seq<SortValue>, end: End)
    ensures var s := OrderClause(sorts) + EndText(end);
      !(" AND " <= s) && !(" OR " <= s) && !(" WHERE " <= s)
  {
    var s := OrderClause(sorts) + EndText(end);
    var second, fourth := if sorts != [] then 'O' else 'L', if sorts != [] then 'D' else 'M';
    assert s != "" ==> s[0] == ' ' && s[1] == second && s[3] == fourth;
  }

  /** Any statement the builder makes: the pieces of its WHERE clause, the sorts and the end. */
  lemma StatementReads(ps: seq<Piece>, sorts: seq<SortValue>, end: End, where: string)
    requires SoundPieces(ps) && where == (if ps == [] then "" else PiecesText(ps))
    requires forall i :: 0 <= i < |sorts| ==> IsIdentifier(sorts[i].column)
    requires sorts != [] ==> end != NoEnd
    ensures ReadStatement(WhereClause(where) + (OrderClause(sorts) + EndText(end)), PiecesArgs(ps) + EndArgs(end))
         == Some(StatementOf(ps, sorts, EndLimit(end), EndOffset(end)))
  {
    var tail := OrderClause(sorts) + EndText(end);
    OrderStarts(sorts, end);
    hide OrderClause, EndText, EndArgs, ReadOr, ReadAnd, ReadOrderAndEnd, PiecesText, PiecesArgs, PiecesExpr,
      SoundPiece;
    if ps == [] {
      assert WhereClause(where) + tail == tail;
      assert PiecesArgs(ps) + EndArgs(end) == EndArgs(end) by {
        NoPieceArgs(ps);
      }
      OrderReads(None, sorts, end);
    } else {
      PiecesNotEmpty(ps);
      PiecesRead(ps, tail, EndArgs(end));
      OrEnds(where + tail, PiecesArgs(ps) + EndArgs(end), PiecesExpr(ps), tail, EndArgs(end));
      OrderReads(Some(PiecesExpr(ps)), sorts, end);
      var s := WhereClause(where) + tail;
      assert s[..7] == " WHERE " && s[7..] == where + tail;
    }
  }

  lemma NoPieceArgs(ps: seq<Piece>)
    requires ps == []
    ensures PiecesArgs(ps) == []
  {}

  /** The statement selects a row exactly when every piece holds of it. */
  lemma StatementSelects(ps: seq<Piece>, sorts: seq<SortValue>, end: End, row: Row, lt: Order)
    requires SoundPieces(ps)
    ensures Selects(StatementOf(ps, sorts, EndLimit(end), EndOffset(end)), row, lt) <==>
      forall i :: 0 <= i < |ps| ==> Eval(PieceExpr(ps[i]), row, lt)
  {
    if ps != [] {
      PiecesMean(ps, row, lt);
    }
  }

  lemma FilterPiecesMean(r: Result, row: Row, lt: Order)
    requires Sound(r)
    ensures var ps := FilterPieces(r.filters);
      && SoundPieces(ps)
      && ((forall i :: 0 <= i < |ps| ==> Eval(PieceExpr(ps[i]), row, lt)) <==> MeetsAll(r.filters, row, lt))
  {
    var ps := FilterPieces(r.filters);
    hide Meets, Eval, AtomExpr, SoundFilter;
    forall i | 0 <= i < |ps|
      ensures SoundPiece(ps[i]) && (Eval(PieceExpr(ps[i]), row, lt) <==> Meets(r.filters[i], row, lt))
    {
      AtomMeans(r.filters[i], row, lt);
    }
  }

  lemma KeysetMeans(r: Result, row: Row, lt: Order)
    requires Sound(r) && r.cursor.Some?
    ensures Eval(KeysetExpr(r), row, lt) <==> BeyondCursor(r, row, lt)
  {
    var tie := KeysetExpr(r).right;
    assert Eval(tie, row, lt) <==> Eval(tie.left, row, lt) && Eval(tie.right, row, lt);
  }

  /** BuildSQL: whatever the base statement, what is appended to it reads back, with all arguments
      bound, as the accepted filters, sorts, limit and offset. */
  lemma BuildSQLMeans(r: Result)
    requires Sound(r)
    ensures var read := ReadStatement(
        WhereClause(Join(Conditions(r.filters), " AND ")) + (OrderClause(r.sorts) + " LIMIT ? OFFSET ?"),
        Args(r.filters) + [Num(r.perPage), Num(Offset(r))]);
      && read.Some? && read.value.order == r.sorts
      && read.value.limit == Some(Num(r.perPage)) && read.value.offset == Some(Num(Offset(r)))
      && forall row, lt :: Selects(read.value, row, lt) <==> MeetsAll(r.filters, row, lt)
  {
    var ps, end := FilterPieces(r.filters), LimitOffset(Num(r.perPage), Num(Offset(r)));
    WhereInPieces(r);
    StatementReads(ps, r.sorts, end, Join(Conditions(r.filters), " AND "));
    hide ReadStatement, Selects, MeetsAll, PieceExpr, Eval, SoundFilter, SoundPiece, Conditions, Join, OrderClause,
      PiecesText, PiecesArgs, Args;
    forall row, lt
      ensures Selects(StatementOf(ps, r.sorts, EndLimit(end), EndOffset(end)), row, lt) <==>
        MeetsAll(r.filters, row, lt)
    {
      StatementSelects(ps, r.sorts, end, row, lt);
      FilterPiecesMean(r, row, lt);
    }
  }

  /** BuildCountSQL: the same filters and nothing else. */
  lemma BuildCountSQLMeans(r: Result)
    requires Sound(r)
    ensures var read := ReadStatement(WhereClause(Join(Conditions(r.filters), " AND ")), Args(r.filters));
      && read.Some? && read.value.order == [] && read.value.limit == None && read.value.offset == None
      && forall row, lt :: Selects(read.value, row, lt) <==> MeetsAll(r.filters, row, lt)
  {
    var ps := FilterPieces(r.filters);
    var where := Join(Conditions(r.filters), " AND ");
    WhereInPieces(r);
    StatementReads(ps, [], NoEnd, where);
    assert WhereClause(where) + (OrderClause([]) + EndText(NoEnd)) == WhereClause(where);
    assert PiecesArgs(ps) + EndArgs(NoEnd) == Args(r.filters);
    hide ReadStatement, Selects, MeetsAll, PieceExpr, Eval, SoundFilter, SoundPiece, Conditions, Join, OrderClause,
      PiecesText, PiecesArgs, Args;
    forall row, lt
      ensures Selects(StatementOf(ps, [], None, None), row, lt) <==> MeetsAll(r.filters, row, lt)
    {
      StatementSelects(ps, [], NoEnd, row, lt);
      FilterPiecesMean(r, row, lt);
    }
  }

  /** BuildCursorSQL: the accepted filters and the rows beyond the cursor, in the cursor's order. */
  lemma BuildCursorSQLMeans(r: Result)
    requires Sound(r)
    ensures var read := ReadStatement(
        WhereClause(CursorWhere(r)) + (OrderClause(r.sorts) + " LIMIT ?"),
        Args(r.filters) + KeysetSQL(r).1 + [Num(CursorLimit(r))]);
      && read.Some? && read.value.order == r.sorts
      && read.value.limit == Some(Num(CursorLimit(r))) && read.value.offset == None
      && forall row, lt :: Selects(read.value, row, lt) <==> MeetsAll(r.filters, row, lt) && BeyondCursor(r, row, lt)
  {
    var ps, end := FilterPieces(r.filters) + KeysetPieces(r), Limit(Num(CursorLimit(r)));
    CursorWhereInPieces(r);
    StatementReads(ps, r.sorts, end, CursorWhere(r));
    hide ReadStatement, Selects, MeetsAll, SoundPieces, KeysetPieces, CursorWhere, OrderClause, PiecesText, PiecesArgs,
      Args, KeysetSQL, BeyondCursor;
    forall row, lt
      ensures Selects(StatementOf(ps, r.sorts, EndLimit(end), EndOffset(end)), row, lt)
         <==> MeetsAll(r.filters, row, lt) && BeyondCursor(r, row, lt)
    {
      StatementSelects(ps, r.sorts, end, row, lt);
      CursorPiecesMean(r, row, lt);
    }
  }

  lemma CursorPiecesMean(r: Result, row: Row, lt: Order)
    requires Sound(r)
    ensures var ps := FilterPieces(r.filters) + KeysetPieces(r);
      SoundPieces(ps) && ((forall i :: 0 <= i < |ps| ==> Eval(PieceExpr(ps[i]), row, lt))
        <==> MeetsAll(r.filters, row, lt) && BeyondCursor(r, row, lt))
  {
    var fs, ks := FilterPieces(r.filters), KeysetPieces(r);
    var ps := fs + ks;
    FilterPiecesMean(r, row, lt);
    if r.cursor.Some? {
      KeysetMeans(r, row, lt);
      assert ps[|fs|] == KeysetPiece(r);
    }
    hide MeetsAll, Eval, KeysetExpr, AtomExpr, FilterPieces;
    assert forall i :: 0 <= i < |fs| ==> ps[i] == fs[i];
    assert forall i :: |fs| <= i < |ps| ==> ps[i] == KeysetPiece(r);
    assert SoundPieces(ps);
  }

  // ----- one placeholder an argument ---------------------------------------------------------------

  /** The placeholders in a text. */
  function PlaceholderCount(s: string): nat {
    if s == "" then 0 else (if s[0] == '?' then 1 else 0) + PlaceholderCount(s[1..])
  }

  lemma {:induction false} CountAppend(x: string, y: string)
    ensures PlaceholderCount(x + y) == PlaceholderCount(x) + PlaceholderCount(y)
  {
    if x == "" {
      assert x + y == y;
    } else {
      assert (x + y)[1..] == x[1..] + y;
      CountAppend(x[1..], y);
    }
  }

  lemma {:induction false} CountNone(s: string)
    requires '?' !in s
    ensures PlaceholderCount(s) == 0
  {
    if s != "" {
      CountNone(s[1..]);
    }
  }

  lemma CountOne(s: string, i: nat)
    requires i < |s| && s[i] == '?' && '?' !in s[..i] && '?' !in s[i + 1..]
    ensures PlaceholderCount(s) == 1
  {
    assert s == s[..i] + (['?'] + s[i + 1..]);
    CountAppend(s[..i], ['?'] + s[i + 1..]);
    CountNone(s[..i]);
    CountNone(s[i + 1..]);
    assert (['?'] + s[i + 1..])[1..] == s[i + 1..];
  }

  lemma {:induction false} CountPlaceholders(n: nat)
    ensures PlaceholderCount(Placeholders(n)) == n
  {
    if n > 1 {
      CountPlaceholders(n - 1);
      CountAppend("?, ", Placeholders(n - 1));
      CountOne("?, ", 0);
    } else {
      assert "?"[1..] == "";
    }
  }

  lemma CountInList(n: nat)
    ensures PlaceholderCount(" IN (" + (Placeholders(n) + ")")) == n
  {
    CountPlaceholders(n);
    CountNone(" IN (");
    CountNone(")");
    CountAppend(" IN (", Placeholders(n) + ")");
    CountAppend(Placeholders(n), ")");
    hide PlaceholderCount, Placeholders;
  }

  lemma CountRange(op: Op)
    ensures PlaceholderCount(" " + Comparison(op) + " ?") == 1
  {
    var s := " " + Comparison(op) + " ?";
    CountOne(s, |s| - 1);
    hide PlaceholderCount;
  }

  lemma CountPredicate(f: FilterValue)
    requires SoundFilter(f)
    ensures PlaceholderCount(PredicateText(f)) == |ConditionArgs(f)|
  {
    hide PlaceholderCount, Placeholders, BindArg, Comparison;
    match f.op
    case OpEq => CountOne(" = ?", 3);
    case OpLike => CountOne(" LIKE ? ESCAPE '!'", 6);
    case OpIn => CountInList(|f.values|);
    case _ => CountRange(f.op);
  }

  lemma CountColumn(column: string, rest: string)
    requires IsIdentifier(column)
    ensures PlaceholderCount(column + rest) == PlaceholderCount(rest)
  {
    CountAppend(column, rest);
    CountNone(column);
  }

  lemma CountCompare(column: string, op: string, rest: string)
    requires IsIdentifier(column) && '?' !in op
    ensures PlaceholderCount(column + (" " + op + " ?" + rest)) == 1 + PlaceholderCount(rest)
  {
    CountColumn(column, " " + op + " ?" + rest);
    CountAppend(" " + op + " ?", rest);
    CountOne(" " + op + " ?", |op| + 2);
  }

  lemma CountKeyset(column: string, op: string)
    requires IsIdentifier(column) && '?' !in op
    ensures PlaceholderCount("(" + KeysetText(column, op, "")) == 3
  {
    var inner := InnerText(column, op, "");
    assert IsIdentifier("id");
    CountCompare("id", op, "))" + "");
    CountNone("))" + "");
    CountAppend(" AND ", TieText(op, ""));
    CountNone(" AND ");
    CountCompare(column, "=", " AND " + TieText(op, ""));
    CountAppend("(", inner);
    CountNone("(");
    CountAppend(" OR ", "(" + inner);
    CountNone(" OR ");
    CountCompare(column, op, " OR " + ("(" + inner));
    CountAppend("(", KeysetText(column, op, ""));
  }

  lemma CountPiece(p: Piece)
    requires SoundPiece(p)
    ensures PlaceholderCount(PieceText(p)) == |PieceArgs(p)|
  {
    match p
    case FilterPiece(f) =>
      CountPredicate(f);
      CountColumn(f.column, PredicateText(f));
      assert Condition(f) == f.column + PredicateText(f);
    case KeysetPiece(r) =>
      CountKeyset(r.sorts[0].column, if r.sorts[0].desc then "<" else ">");
  }

  lemma {:induction false} CountPieces(ps: seq<Piece>)
    requires ps != [] && SoundPieces(ps)
    ensures PlaceholderCount(PiecesText(ps)) == |PiecesArgs(ps)|
  {
    hide PieceText, PieceArgs, SoundPiece;
    CountPiece(ps[0]);
    if |ps| > 1 {
      CountPieces(ps[1..]);
      CountAppend(PieceText(ps[0]), " AND " + PiecesText(ps[1..]));
      CountAppend(" AND ", PiecesText(ps[1..]));
      CountNone(" AND ");
    } else {
      NoPieceArgs(ps[1..]);
    }
  }

  lemma {:induction false} CountSortFields(sorts: seq<SortValue>)
    requires forall i :: 0 <= i < |sorts| ==> IsIdentifier(sorts[i].column)
    ensures PlaceholderCount(Join(SortFields(sorts), ", ")) == 0
  {
    if sorts != [] {
      var field := SortField(sorts[0]);
      CountAppend(sorts[0].column, if sorts[0].desc then " DESC" else " ASC");
      CountNone(sorts[0].column);
      CountNone(if sorts[0].desc then " DESC" else " ASC");
      if |sorts| > 1 {
        var rest := Join(SortFields(sorts[1..]), ", ");
        CountSortFields(sorts[1..]);
        assert SortFields(sorts)[1..] == SortFields(sorts[1..]);
        assert Join(SortFields(sorts), ", ") == field + (", " + rest);
        CountAppend(field, ", " + rest);
        CountAppend(", ", rest);
        CountNone(", ");
      }
    }
  }

  lemma CountStatement(ps: seq<Piece>, sorts: seq<SortValue>, end: End, where: string)
    requires SoundPieces(ps) && where == (if ps == [] then "" else PiecesText(ps))
    requires forall i :: 0 <= i < |sorts| ==> IsIdentifier(sorts[i].column)
    ensures PlaceholderCount(WhereClause(where) + (OrderClause(sorts) + EndText(end))) ==
      |PiecesArgs(ps) + EndArgs(end)|
  {
    CountAppend(WhereClause(where), OrderClause(sorts) + EndText(end));
    CountAppend(OrderClause(sorts), EndText(end));
    CountWhere(ps, where);
    CountOrder(sorts);
    CountEnd(end);
  }

  lemma CountWhere(ps: seq<Piece>, where: string)
    requires SoundPieces(ps) && where == (if ps == [] then "" else PiecesText(ps))
    ensures PlaceholderCount(WhereClause(where)) == |PiecesArgs(ps)|
  {
    if ps != [] {
      CountPieces(ps);
      CountNone(" WHERE ");
      CountAppend(" WHERE ", where);
      PiecesNotEmpty(ps);
    }
  }

  lemma CountOrder(sorts: seq<SortValue>)
    requires forall i :: 0 <= i < |sorts| ==> IsIdentifier(sorts[i].column)
    ensures PlaceholderCount(OrderClause(sorts)) == 0
  {
    if sorts != [] {
      CountSortFields(sorts);
      CountNone(" ORDER BY ");
      CountAppend(" ORDER BY ", Join(SortFields(sorts), ", "));
    }
  }

  lemma CountLimit()
    ensures PlaceholderCount(" LIMIT ?") == 1
  {
    CountOne(" LIMIT ?", 7);
  }

  lemma CountOffset()
    ensures PlaceholderCount(" OFFSET ?") == 1
  {
    CountOne(" OFFSET ?", 8);
  }

  lemma TwoEnds()
    ensures " LIMIT ? OFFSET ?" == " LIMIT ?" + " OFFSET ?"
  {}

  lemma CountEnd(end: End)
    ensures PlaceholderCount(EndText(end)) == |EndArgs(end)|
  {
    if end.NoEnd? {
      assert PlaceholderCount("") == 0;
    }
    hide PlaceholderCount;
    CountLimit();
    CountOffset();
    TwoEnds();
    CountAppend(" LIMIT ?", " OFFSET ?");
  }

  /** Each of the three statements has as many placeholders as arguments. */
  lemma AsManyPlaceholdersAsArgs(r: Result)
    requires Sound(r)
    ensures var where := Join(Conditions(r.filters), " AND ");
      && PlaceholderCount(WhereClause(where)) == |Args(r.filters)|
      && PlaceholderCount(WhereClause(where) + (OrderClause(r.sorts) + " LIMIT ? OFFSET ?"))
         == |Args(r.filters) + [Num(r.perPage), Num(Offset(r))]|
    ensures PlaceholderCount(WhereClause(CursorWhere(r)) + (OrderClause(r.sorts) + " LIMIT ?"))
         == |Args(r.filters) + KeysetSQL(r).1 + [Num(CursorLimit(r))]|
  {
    WhereInPieces(r);
    CursorWhereInPieces(r);
    var fs, all := FilterPieces(r.filters), FilterPieces(r.filters) + KeysetPieces(r);
    var where := Join(Conditions(r.filters), " AND ");
    hide FilterPieces, Conditions, Join, Args, KeysetSQL, CursorWhere, PiecesText, PiecesArgs, PlaceholderCount,
      SoundPiece;
    CountWhere(fs, where);
    CountStatement(fs, r.sorts, LimitOffset(Num(r.perPage), Num(Offset(r))), where);
    CountStatement(all, r.sorts, Limit(Num(CursorLimit(r))), CursorWhere(r));
  }

  // ----- independence of the order in which filters were met -----------------------------------------

  /** The rows an accepted request selects are those that meet every good filter parameter, in
      whatever order Parse met them. */
  lemma AnyFilterOrder(values: Values, options: Options, decode: string -> Option<Cursor>, r: Result, met: seq<string>,
                       row: Row, lt: Order)
    requires WellConfigured(values, options) && !Offends(values, options, decode)
    requires Describes(values, options, decode, r, met)
    ensures Sound(r)
    ensures MeetsAll(r.filters, row, lt) <==>
      forall k :: k in values && FilterVerdict(FilterTable(options.allowedFilters), k, values[k][0]).Good? ==>
        var f := FilterVerdict(FilterTable(options.allowedFilters), k, values[k][0]).value;
        SoundFilter(f) && Meets(f, row, lt)
  {
    ParsedIsSound(values, options, decode, r, met);
    hide FilterVerdict, FilterTable, Meets, SoundFilter, WellConfigured, Offends;
    var table := FilterTable(options.allowedFilters);
    forall k | k in values && FilterVerdict(table, k, values[k][0]).Good?
      ensures exists i :: 0 <= i < |met| && FilterVerdict(table, k, values[k][0]).value == r.filters[i] && met[i] == k
    {
      var i :| 0 <= i < |met| && met[i] == k;
      assert FilterVerdict(table, met[i], values[met[i]][0]) == Good(r.filters[i]);
    }
    forall i | 0 <= i < |met|
      ensures met[i] in values && FilterVerdict(table, met[i], values[met[i]][0]) == Good(r.filters[i])
    {}
  }
}
