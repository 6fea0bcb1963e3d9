/** The database and the cursor tokens that a walk relies on: there are such things, and they can serve
    every request. */
module Database {
  import opened Numbers
  import opened Text
  import opened Sql
  import opened SqlReader
  import opened SqlMeaning
  import opened Walk
  import opened Query
  import Strings = Order

  // ----- an order of all values ----------------------------------------------------------------------

  /** Truth values before numbers before texts. */
  function Kind(x: Arg): nat {
    match x
    case Flag(_) => 0
    case Num(_) => 1
    case Str(_) => 2
  }

  function Below(x: Arg, y: Arg): bool {
    if Kind(x) != Kind(y) then Kind(x) < Kind(y)
    else match x
      case Flag(value) => !value && y.value
      case Num(n) => n < y.n
      case Str(text) => Strings.Before(text, y.text)
  }

  lemma BelowIsTransitive(x: Arg, y: Arg, z: Arg)
    requires Below(x, y) && Below(y, z)
    ensures Below(x, z)
  {
    if x.Str? && z.Str? {
      Strings.Transitive(x.text, y.text, z.text);
    }
    hide Strings.Before;
  }

  lemma BelowIsTotal(x: Arg, y: Arg)
    ensures !Below(x, x) && (Below(x, y) || x == y || Below(y, x))
  {
    if x.Str? {
      if Strings.Before(x.text, x.text) {
        Strings.Asymmetric(x.text, x.text);
      }
      if y.Str? {
        Strings.Total(x.text, y.text);
      }
    }
    hide Strings.Before;
  }

  lemma TotalOrderExists()
    ensures TotalOrder(Below)
  {
    hide Below;
    forall x, y
      ensures !Below(x, x) && (Below(x, y) || x == y || Below(y, x))
    {
      BelowIsTotal(x, y);
    }
    forall x, y, z | Below(x, y) && Below(y, z)
      ensures Below(x, z)
    {
      BelowIsTransitive(x, y, z);
    }
  }

  // ----- cursor tokens -------------------------------------------------------------------------------

  function Ones(n: nat): string {
    seq(n, _ => '1')
  }

  /** The length of the sort value in unary, a zero, the sort value and the id. */
  function Token(c: Cursor): string {
    Ones(|c.value|) + "0" + c.value + c.id
  }

  lemma TokenAt(c: Cursor, i: nat)
    ensures i <= |c.value| ==> i < |Token(c)| && (Token(c)[i] == '0' <==> i == |c.value|)
  {}

  lemma TokenInjective(c: Cursor, d: Cursor)
    requires Token(c) == Token(d)
    ensures c == d
  {
    var m, n := |c.value|, |d.value|;
    TokenAt(c, m);
    TokenAt(c, n);
    TokenAt(d, m);
    TokenAt(d, n);
    assert c.value == Token(c)[m + 1..2 * m + 1] && c.id == Token(c)[2 * m + 1..];
    assert d.value == Token(d)[n + 1..2 * n + 1] && d.id == Token(d)[2 * n + 1..];
  }

  ghost function ReadToken(token: string): Option<Cursor> {
    if c :| Token(c) == token then Some(c) else None
  }

  lemma CodecExists()
    ensures exists encode, decode :: IsCodec(encode, decode)
  {
    var decode := (token: string) => ReadToken(token);
    forall c
      ensures decode(Token(c)) == Some(c) && Token(c) != ""
    {
      var d :| Token(d) == Token(c) && decode(Token(c)) == Some(d);
      TokenInjective(c, d);
    }
    assert IsCodec(Token, decode);
  }

  // ----- answers -------------------------------------------------------------------------------------

  lemma {:induction false} SortsOn(x: Row, y: Row, z: Row, order: seq<SortValue>, lt: Order)
    requires TotalOrder(lt) && SortsBefore(x, y, order, lt) && SortsBefore(y, z, order, lt)
    ensures SortsBefore(x, z, order, lt)
  {
    var c := order[0].column;
    if Cell(x, c) == Cell(y, c) == Cell(z, c) {
      SortsOn(x, y, z, order[1..], lt);
    }
    hide Cell;
  }

  lemma {:induction false} SortsNotItself(x: Row, order: seq<SortValue>, lt: Order)
    requires TotalOrder(lt)
    ensures !SortsBefore(x, x, order, lt)
  {
    if order != [] {
      SortsNotItself(x, order[1..], lt);
    }
  }

  /** Some row that none sorts before. */
  lemma {:induction false} First(rows: set<Row>, order: seq<SortValue>, lt: Order) returns (first: Row)
    requires TotalOrder(lt) && rows != {}
    ensures first in rows && forall row :: row in rows ==> !SortsBefore(row, first, order, lt)
  {
    hide SortsBefore, TotalOrder;
    var x :| x in rows;
    var rest := rows - {x};
    SortsNotItself(x, order, lt);
    assert forall row :: row in rows ==> row == x || row in rest;
    first := x;
    if rest != {} {
      var y := First(rest, order, lt);
      if !SortsBefore(x, y, order, lt) {
        first := y;
      } else {
        forall row | row in rows
          ensures !SortsBefore(row, x, order, lt)
        {
          if SortsBefore(row, x, order, lt) {
            SortsOn(row, x, y, order, lt);
          }
        }
      }
    }
  }

  /** These rows, in order, as far as the limit goes. */
  ghost predicate Lists(answer: seq<Row>, rows: set<Row>, limit: nat, order: seq<SortValue>, lt: Order) {
    && |answer| <= limit
    && (forall i :: 0 <= i < |answer| ==> answer[i] in rows)
    && (forall i, j :: 0 <= i < j < |answer| ==>
          answer[i] != answer[j] && !SortsBefore(answer[j], answer[i], order, lt))
    && (forall row :: row in rows && row !in answer ==>
          |answer| == limit && forall i :: 0 <= i < |answer| ==> !SortsBefore(row, answer[i], order, lt))
  }

  lemma {:induction false} ListExists(rows: set<Row>, limit: nat, order: seq<SortValue>, lt: Order)
      returns (answer: seq<Row>)
    requires TotalOrder(lt)
    ensures Lists(answer, rows, limit, order, lt)
  {
    hide SortsBefore, TotalOrder;
    answer := [];
    if limit > 0 && rows != {} {
      var first := First(rows, order, lt);
      var rest := ListExists(rows - {first}, limit - 1, order, lt);
      answer := [first] + rest;
      FirstLists(first, rest, rows, limit, order, lt);
    }
  }

  lemma FirstLists(first: Row, rest: seq<Row>, rows: set<Row>, limit: nat, order: seq<SortValue>, lt: Order)
    requires first in rows && limit > 0 && Lists(rest, rows - {first}, limit - 1, order, lt)
    requires forall row :: row in rows ==> !SortsBefore(row, first, order, lt)
    ensures Lists([first] + rest, rows, limit, order, lt)
  {
    hide SortsBefore;
    var answer := [first] + rest;
    forall row | row in rows && row !in answer
      ensures |answer| == limit && forall i :: 0 <= i < |answer| ==> !SortsBefore(row, answer[i], order, lt)
    {
      assert row !in rest && row in rows - {first};
    }
  }

  /** Every table has an answer to every statement with a limit that is not negative. */
  lemma AnswerExists(st: Statement, table: Table, lt: Order) returns (answer: seq<Row>)
    requires TotalOrder(lt) && st.limit.Some? && st.limit.value.Num? && st.limit.value.n >= 0
    ensures Answers(answer, st, table, lt)
  {
    hide SortsBefore, TotalOrder, Selects;
    var rows := set row | row in table && Selects(st, row, lt);
    answer := ListExists(rows, st.limit.value.n, st.order, lt);
  }

  /** So every request for a listing can be served, unless its page size is the largest integer: whatever
      the table is then, there is a page and a token that answer it. */
  lemma VisitExists(l: Listing, r: Result, table: Table, key: Row -> (string, string), encode: Cursor -> string)
    requires TotalOrder(l.lt) && Serves(l, r) && WellKeyed(table, l.column, key)
    ensures (exists v: Visit :: v.r == r && v.table == table && IsVisit(l, v, key, encode)) <==> l.perPage < MAX_INT64
  {
    hide TotalOrder, WellKeyed, Answers, CursorStatement, Selects, NextCursor, MeetsAll, Sound, CursorLimit;
    if l.perPage < MAX_INT64 {
      SelectsCandidates(l, r, table);
      var answer := AnswerExists(CursorStatement(r), table, l.lt);
      assert AnswersCursor(l, r, table, answer);
      var (page, next) := NextCursor(r, answer, key, encode);
      assert IsVisit(l, Visit(r, table, page, next), key, encode);
    }
    if v: Visit :| v.r == r && v.table == table && IsVisit(l, v, key, encode) {
      var answer :| AnswersCursor(l, v.r, v.table, answer) && (v.page, v.next) == NextCursor(v.r, answer, key, encode);
      AnsweredFits(l, r, table, answer);
    }
  }
}
