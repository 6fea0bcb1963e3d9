/** A reader for the clauses the query builder writes. It knows SQL's grammar for them, binds the
    arguments to the placeholders from left to right, and says which rows a statement selects; it
    knows nothing of how the text was put together. */
module SqlReader {
  import opened Text
  import opened Query
  import opened Sql
  import Like

  datatype Comparator = Eq | Gt | Lt | Ge | Le

  datatype Expr =
    | Compare(column: string, comparator: Comparator, arg: Arg)
    | LikePattern(column: string, pattern: Arg)
    | OneOf(column: string, choices: seq<Arg>)
    | And(left: Expr, right: Expr)
    | Or(left: Expr, right: Expr)

  datatype Statement = Statement(where: Option<Expr>, order: seq<SortValue>, limit: Option<Arg>, offset: Option<Arg>)

  // ----- the grammar ---------------------------------------------------------------------
  //   or    ::= and [" OR " or]
  //   and   ::= term [" AND " and]
  //   term  ::= "(" or ")" | atom
  //   atom  ::= identifier (" = ?" | " >= ?" | " <= ?" | " > ?" | " < ?" | " LIKE ? ESCAPE '!'" | " IN (" list ")")
  //   list  ::= "?" [", " list]

  function IdentLength(s: string): (n: nat)
    ensures n <= |s|
    ensures forall i :: 0 <= i < n ==> IsIdentChar(s[i])
    ensures n < |s| ==> !IsIdentChar(s[n])
  {
    if s != "" && IsIdentChar(s[0]) then 1 + IdentLength(s[1..]) else 0
  }

  /** An identifier at the front of `s`, and what follows it. */
  function ReadIdent(s: string): (r: Option<(string, string)>)
    ensures r.Some? ==> |r.value.1| < |s|
  {
    var n := IdentLength(s);
    if n == 0 || !IsIdentStart(s[0]) then None else Some((s[..n], s[n..]))
  }

  /** A comparison whose text up to `rest` is read: it binds the next argument. */
  function Bind(column: string, comparator: Comparator, rest: string,
                args: seq<Arg>): Option<(Expr, string, seq<Arg>)> {
    if args == [] then None else Some((Compare(column, comparator, args[0]), rest, args[1..]))
  }

  function ReadList(s: string, args: seq<Arg>): (r: Option<(seq<Arg>, string, seq<Arg>)>)
    ensures r.Some? ==> |r.value.1| < |s|
    decreases |s|
  {
    if s == "" || s[0] != '?' || args == [] then None
    else if ", " <= s[1..] then
      var more := ReadList(s[3..], args[1..]);
      if more == None then None else Some(([args[0]] + more.value.0, more.value.1, more.value.2))
    else Some(([args[0]], s[1..], args[1..]))
  }

  /** What may follow the column of an atom. */
  function ReadPredicate(column: string, s: string, args: seq<Arg>): (r: Option<(Expr, string, seq<Arg>)>)
    ensures r.Some? ==> |r.value.1| < |s|
  {
    if " = ?" <= s then Bind(column, Eq, s[4..], args)
    else if " >= ?" <= s then Bind(column, Ge, s[5..], args)
    else if " <= ?" <= s then Bind(column, Le, s[5..], args)
    else if " > ?" <= s then Bind(column, Gt, s[4..], args)
    else if " < ?" <= s then Bind(column, Lt, s[4..], args)
    else if " LIKE ? ESCAPE '!'" <= s then
      if args == [] then None else Some((LikePattern(column, args[0]), s[18..], args[1..]))
    else if " IN (" <= s then
      var list := ReadList(s[5..], args);
      if list == None || !(")" <= list.value.1) then None
      else Some((OneOf(column, list.value.0), list.value.1[1..], list.value.2))
    else None
  }

  function ReadAtom(s: string, args: seq<Arg>): (r: Option<(Expr, string, seq<Arg>)>)
    ensures r.Some? ==> |r.value.1| < |s|
  {
    var ident := ReadIdent(s);
    if ident == None then None else ReadPredicate(ident.value.0, ident.value.1, args)
  }

  function ReadTerm(s: string, args: seq<Arg>): (r: Option<(Expr, string, seq<Arg>)>)
    ensures r.Some? ==> |r.value.1| < |s|
    decreases |s|, 0
  {
    if s != "" && s[0] == '(' then
      var inner := ReadOr(s[1..], args);
      if inner == None || !(")" <= inner.value.1) then None
      else Some((inner.value.0, inner.value.1[1..], inner.value.2))
    else ReadAtom(s, args)
  }

  function ReadAnd(s: string, args: seq<Arg>): (r: Option<(Expr, string, seq<Arg>)>)
    ensures r.Some? ==> |r.value.1| < |s|
    decreases |s|, 1
  {
    var left := ReadTerm(s, args);
    if left == None || !(" AND " <= left.value.1) then left
    else
      var right := ReadAnd(left.value.1[5..], left.value.2);
      if right == None then None
      else Some((And(left.value.0, right.value.0), right.value.1, right.value.2))
  }

  function ReadOr(s: string, args: seq<Arg>): (r: Option<(Expr, string, seq<Arg>)>)
    ensures r.Some? ==> |r.value.1| < |s|
    decreases |s|, 2
  {
    var left := ReadAnd(s, args);
    if left == None || !(" OR " <= left.value.1) then left
    else
      var right := ReadOr(left.value.1[4..], left.value.2);
      if right == None then None
      else Some((Or(left.value.0, right.value.0), right.value.1, right.value.2))
  }

  /** Sort fields: an identifier and a direction each. */
  function ReadSorts(s: string): (r: Option<(seq<SortValue>, string)>)
    ensures r.Some? ==> |r.value.1| < |s|
    decreases |s|
  {
    var ident := ReadIdent(s);
    if ident == None then None else
    var direction := if Strip(ident.value.1, " DESC").Some? then " DESC" else " ASC";
    var after := Strip(ident.value.1, direction);
    if after == None then None else
    var first := SortValue(ident.value.0, direction == " DESC");
    var next := Strip(after.value, ", ");
    if next == None then Some(([first], after.value))
    else
      var more := ReadSorts(next.value);
      if more == None then None else Some(([first] + more.value.0, more.value.1))
  }

  /** LIMIT and OFFSET, then the end of text and arguments. */
  function ReadEnd(where: Option<Expr>, order: seq<SortValue>, s: string, args: seq<Arg>): Option<Statement> {
    if s == "" && args == [] then Some(Statement(where, order, None, None))
    else if s == " LIMIT ?" && |args| == 1 then Some(Statement(where, order, Some(args[0]), None))
    else if s == " LIMIT ? OFFSET ?" && |args| == 2 then Some(Statement(where, order, Some(args[0]), Some(args[1])))
    else None
  }

  function ReadOrderAndEnd(where: Option<Expr>, s: string, args: seq<Arg>): Option<Statement> {
    var fields := Strip(s, " ORDER BY ");
    if fields == None then ReadEnd(where, [], s, args)
    else
      var sorts := ReadSorts(fields.value);
      if sorts == None then None else ReadEnd(where, sorts.value.0, sorts.value.1, args)
  }

  /** Everything after the base statement. */
  function ReadStatement(s: string, args: seq<Arg>): Option<Statement> {
    if " WHERE " <= s then
      var where := ReadOr(s[7..], args);
      if where == None then None else ReadOrderAndEnd(Some(where.value.0), where.value.1, where.value.2)
    else ReadOrderAndEnd(None, s, args)
  }

  // ----- what a statement selects ------------------------------------------------------------

  /** A table row by columns; no column holds NULL. */
  datatype Row = Row(cells: map<string, Arg>)

  function Cell(row: Row, column: string): Arg {
    if column in row.cells then row.cells[column] else Str("")
  }

  /** `lt` is the order in which the database compares values. */
  type Order = (Arg, Arg) -> bool

  predicate Holds(comparator: Comparator, x: Arg, y: Arg, lt: Order) {
    match comparator
    case Eq => x == y
    case Gt => lt(y, x)
    case Lt => lt(x, y)
    case Ge => lt(y, x) || x == y
    case Le => lt(x, y) || x == y
  }

  predicate Eval(e: Expr, row: Row, lt: Order) {
    match e
    case Compare(column, comparator, arg) => Holds(comparator, Cell(row, column), arg, lt)
    case LikePattern(column, pattern) =>
      Cell(row, column).Str? && pattern.Str? && Like.Matches(pattern.text, Cell(row, column).text)
    case OneOf(column, choices) => Cell(row, column) in choices
    case And(left, right) => Eval(left, row, lt) && Eval(right, row, lt)
    case Or(left, right) => Eval(left, row, lt) || Eval(right, row, lt)
  }

  predicate Selects(statement: Statement, row: Row, lt: Order) {
    statement.where == None || Eval(statement.where.value, row, lt)
  }

  // ----- reading one atom ----------------------------------------------------------------------

  function AtomExpr(f: FilterValue): Expr
    requires |f.values| >= 1
  {
    match f.op
    case OpEq => Compare(f.column, Eq, BindArg(f, f.values[0]))
    case OpLike => LikePattern(f.column, Str(Like.ContainsPattern(f.values[0])))
    case OpIn => OneOf(f.column, BindArgs(f, f.values))
    case OpGte => Compare(f.column, Ge, BindArg(f, f.values[0]))
    case OpLte => Compare(f.column, Le, BindArg(f, f.values[0]))
    case OpGt => Compare(f.column, Gt, BindArg(f, f.values[0]))
    case OpLt => Compare(f.column, Lt, BindArg(f, f.values[0]))
  }

  lemma IdentReads(column: string, rest: string)
    requires IsIdentifier(column)
    requires rest != "" && !IsIdentChar(rest[0])
    ensures ReadIdent(column + rest) == Some((column, rest))
  {
    var s := column + rest;
    var n := IdentLength(s);
    assert s[|column|] == rest[0];
    assert forall i :: 0 <= i < |column| ==> s[i] == column[i];
    assert s[..|column|] == column && s[|column|..] == rest;
  }

  lemma {:induction false} ListReads(args: seq<Arg>, tail: string, more: seq<Arg>)
    requires |args| >= 1
    requires tail != "" && tail[0] != ','
    ensures ReadList(Placeholders(|args|) + tail, args + more) == Some((args, tail, more))
  {
    var s := Placeholders(|args|) + tail;
    assert (args + more)[1..] == args[1..] + more;
    if |args| == 1 {
      assert s[1..] == tail;
      assert args == [args[0]];
    } else {
      assert Placeholders(|args|) == "?" + (", " + Placeholders(|args| - 1));
      assert s[1..] == ", " + (Placeholders(|args| - 1) + tail);
      assert s[3..] == Placeholders(|args| - 1) + tail;
      ListReads(args[1..], tail, more);
      assert args == [args[0]] + args[1..];
    }
  }

  /** How the text of a condition goes on after its column. */
  function PredicateText(f: FilterValue): string {
    match f.op
    case OpEq => " = ?"
    case OpLike => " LIKE ? ESCAPE '!'"
    case OpIn => " IN (" + (Placeholders(|f.values|) + ")")
    case _ => " " + Comparison(f.op) + " ?"
  }

  lemma PredicateReads(f: FilterValue, tail: string, more: seq<Arg>)
    requires SoundFilter(f)
    ensures ReadPredicate(f.column, PredicateText(f) + tail, ConditionArgs(f) + more) == Some((AtomExpr(f), tail, more))
  {
    hide ReadList, BindArg;
    var s, args := PredicateText(f) + tail, ConditionArgs(f) + more;
    if f.op == OpIn {
      InReads(f, tail, more);
    } else {
      assert args[1..] == more;
      var text := PredicateText(f);
      assert s[|text|..] == tail && s[..|text|] == text;
      assert s[1] == text[1] && s[2] == text[2];
    }
  }

  lemma InReads(f: FilterValue, tail: string, more: seq<Arg>)
    requires SoundFilter(f) && f.op == OpIn
    ensures ReadPredicate(f.column, PredicateText(f) + tail, ConditionArgs(f) + more) == Some((AtomExpr(f), tail, more))
  {
    var args := BindArgs(f, f.values);
    ListReads(args, ")" + tail, more);
    hide ReadList, Placeholders, BindArgs;
    var list := Placeholders(|args|) + (")" + tail);
    assert PredicateText(f) + tail == " IN (" + list;
    hide PredicateText;
    InList(f.column, list, args + more);
    hide ReadPredicate;
    assert (")" + tail)[1..] == tail;
  }

  lemma InList(column: string, list: string, args: seq<Arg>)
    ensures ReadPredicate(column, " IN (" + list, args) ==
      var read := ReadList(list, args);
      if read == None || !(")" <= read.value.1) then None
      else Some((OneOf(column, read.value.0), read.value.1[1..], read.value.2))
  {
    hide ReadList;
    var s := " IN (" + list;
    assert s[1] == 'I' && s[5..] == list;
  }

  lemma AtomReads(f: FilterValue, tail: string, more: seq<Arg>)
    requires SoundFilter(f)
    ensures ReadTerm(Condition(f) + tail, ConditionArgs(f) + more) == Some((AtomExpr(f), tail, more))
  {
    PredicateReads(f, tail, more);
    var rest := PredicateText(f) + tail;
    assert PredicateText(f)[0] == ' ';
    assert Condition(f) + tail == f.column + rest;
    IdentReads(f.column, rest);
    assert (f.column + rest)[0] == f.column[0];
    hide ReadPredicate, PredicateText, ReadIdent, ReadOr;
  }

  // ----- conjunctions and the keyset predicate ---------------------------------------------------

  lemma AndEnds(s: string, args: seq<Arg>, e: Expr, rest: string, more: seq<Arg>)
    requires ReadTerm(s, args) == Some((e, rest, more)) && !(" AND " <= rest)
    ensures ReadAnd(s, args) == Some((e, rest, more))
  {
    hide ReadTerm;
  }

  lemma AndGoesOn(s: string, args: seq<Arg>, e: Expr, rest: string, more: seq<Arg>, e': Expr, rest': string,
                  more': seq<Arg>)
    requires ReadTerm(s, args) == Some((e, " AND " + rest, more))
    requires ReadAnd(rest, more) == Some((e', rest', more'))
    ensures ReadAnd(s, args) == Some((And(e, e'), rest', more'))
  {
    hide ReadTerm;
    assert (" AND " + rest)[5..] == rest;
  }

  lemma OrEnds(s: string, args: seq<Arg>, e: Expr, rest: string, more: seq<Arg>)
    requires ReadAnd(s, args) == Some((e, rest, more)) && !(" OR " <= rest)
    ensures ReadOr(s, args) == Some((e, rest, more))
  {
    hide ReadAnd;
  }

  lemma OrGoesOn(s: string, args: seq<Arg>, e: Expr, rest: string, more: seq<Arg>, e': Expr, rest': string,
                 more': seq<Arg>)
    requires ReadAnd(s, args) == Some((e, " OR " + rest, more))
    requires ReadOr(rest, more) == Some((e', rest', more'))
    ensures ReadOr(s, args) == Some((Or(e, e'), rest', more'))
  {
    hide ReadAnd;
    assert (" OR " + rest)[4..] == rest;
  }

  lemma ParenReads(s: string, args: seq<Arg>, e: Expr, rest: string, more: seq<Arg>)
    requires ReadOr(s, args) == Some((e, ")" + rest, more))
    ensures ReadTerm("(" + s, args) == Some((e, rest, more))
  {
    hide ReadOr;
    assert ("(" + s)[1..] == s && (")" + rest)[1..] == rest;
  }

  lemma CompareReads(column: string, symbol: string, comparator: Comparator, rest: string, arg: Arg, more: seq<Arg>)
    requires IsIdentifier(column)
    requires || (symbol == "=" && comparator == Eq)
             || (symbol == ">" && comparator == Gt)
             || (symbol == "<" && comparator == Lt)
    ensures ReadTerm(column + (" " + symbol + " ?" + rest), [arg] + more) ==
      Some((Compare(column, comparator, arg), rest, more))
  {
    hide ReadIdent, ReadOr, ReadList, IdentLength;
    var s := " " + symbol + " ?" + rest;
    IdentReads(column, s);
    assert (column + s)[0] == column[0];
    assert s[4..] == rest && s[1] == symbol[0] && s[2] == ' ' && s[3] == '?';
    assert ([arg] + more)[1..] == more;
  }

  function KeysetExpr(r: Result): Expr
    requires |r.sorts| > 0 && r.cursor.Some?
  {
    var cmp := if r.sorts[0].desc then Lt else Gt;
    var column, value := r.sorts[0].column, Str(r.cursor.value.value);
    Or(Compare(column, cmp, value), And(Compare(column, Eq, value), Compare("id", cmp, Str(r.cursor.value.id))))
  }

  lemma InnerReads(column: string, op: string, cmp: Comparator, value: Arg, id: Arg, tail: string, more: seq<Arg>)
    requires IsIdentifier(column) && ((op == ">" && cmp == Gt) || (op == "<" && cmp == Lt))
    ensures ReadOr("(" + InnerText(column, op, tail), [value] + ([id] + more))
         == Some((And(Compare(column, Eq, value), Compare("id", cmp, id)), ")" + tail, more))
  {
    var t1, t2, t3 := "))" + tail, TieText(op, tail), InnerText(column, op, tail);
    var a1 := [id] + more;
    var a2 := [value] + a1;
    var both := And(Compare(column, Eq, value), Compare("id", cmp, id));
    assert t1[0] == ')' && (")" + tail)[0] == ')' && t1 == ")" + (")" + tail);
    assert IsIdentifier("id");
    hide ReadTerm, ReadAnd, ReadOr, IsIdentifier;
    CompareReads("id", op, cmp, t1, id, more);
    AndEnds(t2, a1, Compare("id", cmp, id), t1, more);
    CompareReads(column, "=", Eq, " AND " + t2, value, a1);
    AndGoesOn(t3, a2, Compare(column, Eq, value), t2, a1, Compare("id", cmp, id), t1, more);
    OrEnds(t3, a2, both, t1, more);
    ParenReads(t3, a2, both, ")" + tail, more);
    AndEnds("(" + t3, a2, both, ")" + tail, more);
    OrEnds("(" + t3, a2, both, ")" + tail, more);
  }

  lemma OuterReads(column: string, op: string, cmp: Comparator, value: Arg, id: Arg, tail: string, more: seq<Arg>)
    requires IsIdentifier(column) && ((op == ">" && cmp == Gt) || (op == "<" && cmp == Lt))
    ensures ReadTerm("(" + KeysetText(column, op, tail), [value] + ([value] + ([id] + more)))
         == Some((Or(Compare(column, cmp, value), And(Compare(column, Eq, value), Compare("id", cmp, id))), tail, more))
  {
    var inner, outer := "(" + InnerText(column, op, tail), KeysetText(column, op, tail);
    var a2 := [value] + ([id] + more);
    var first, both := Compare(column, cmp, value), And(Compare(column, Eq, value), Compare("id", cmp, id));
    InnerReads(column, op, cmp, value, id, tail, more);
    assert (" OR " + inner)[1] == 'O';
    assert (")" + tail)[0] == ')';
    hide ReadTerm, ReadAnd, ReadOr, IsIdentifier, InnerText;
    CompareReads(column, op, cmp, " OR " + inner, value, a2);
    AndEnds(outer, [value] + a2, first, " OR " + inner, a2);
    OrGoesOn(outer, [value] + a2, first, inner, a2, both, ")" + tail, more);
    ParenReads(outer, [value] + a2, Or(first, both), tail, more);
  }

  /** keysetSQL is read as the comparison of the sort column, or of the id where the columns are equal. */
  lemma KeysetReads(r: Result, tail: string, more: seq<Arg>)
    requires Sound(r) && r.cursor.Some?
    ensures ReadTerm(KeysetSQL(r).0 + tail, KeysetSQL(r).1 + more) == Some((KeysetExpr(r), tail, more))
  {
    var column, op := r.sorts[0].column, if r.sorts[0].desc then "<" else ">";
    var value, id := Str(r.cursor.value.value), Str(r.cursor.value.id);
    assert KeysetSQL(r).1 + more == [value] + ([value] + ([id] + more));
    KeysetTail(column, op, tail);
    hide ReadTerm, KeysetText;
    assert KeysetSQL(r).0 + tail == "(" + KeysetText(column, op, tail);
    OuterReads(column, op, if r.sorts[0].desc then Lt else Gt, value, id, tail, more);
  }

  /** What follows the predicate is what follows its innermost part. */
  lemma KeysetTail(column: string, op: string, tail: string)
    ensures KeysetText(column, op, "") + tail == KeysetText(column, op, tail)
  {
    assert TieText(op, "") + tail == TieText(op, tail);
    InnerTail(column, op, tail);
    hide InnerText;
  }

  lemma InnerTail(column: string, op: string, tail: string)
    ensures InnerText(column, op, "") + tail == InnerText(column, op, tail)
  {
    assert TieText(op, "") + tail == TieText(op, tail);
    hide TieText;
  }
}
