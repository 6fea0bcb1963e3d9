/** Cursor pagination: a client that follows next_cursor through a table that may change between its
    requests (runtime/query/cursor.go). */
module Walk {
  import opened Text
  import opened Numbers
  import opened Query
  import opened Sql
  import opened SqlReader
  import opened SqlMeaning

  // ----- order ----------------------------------------------------------------------------

  /** `lt` orders all values strictly and totally. */
  ghost predicate TotalOrder(lt: Order) {
    && (forall x :: !lt(x, x))
    && (forall x, y, z :: lt(x, y) && lt(y, z) ==> lt(x, z))
    && (forall x, y :: lt(x, y) || x == y || lt(y, x))
  }

  lemma BeforeOrders(x: Key, y: Key, z: Key, desc: bool, lt: Order)
    requires TotalOrder(lt)
    ensures !Before(x, x, desc, lt)
    ensures Before(x, y, desc, lt) && Before(y, z, desc, lt) ==> Before(x, z, desc, lt)
    ensures Before(x, y, desc, lt) || x == y || Before(y, x, desc, lt)
    ensures !(Before(x, y, desc, lt) && Before(y, x, desc, lt))
  {}

  /** ORDER BY: `x` sorts before `y`. */
  predicate SortsBefore(x: Row, y: Row, order: seq<SortValue>, lt: Order) {
    order != [] &&
    var cx, cy := Cell(x, order[0].column), Cell(y, order[0].column);
    ((if order[0].desc then lt(cy, cx) else lt(cx, cy)) || (cx == cy && SortsBefore(x, y, order[1..], lt)))
  }

  /** Sorting on the cursor's column and then on the id is sorting by key. */
  lemma SortsByKey(r: Result, x: Row, y: Row, lt: Order)
    requires Sound(r) && r.cursorMode
    ensures SortsBefore(x, y, r.sorts, lt) <==>
      Before(KeyOf(x, r.sorts[0].column), KeyOf(y, r.sorts[0].column), r.sorts[0].desc, lt)
  {
    var ids := r.sorts[1..];
    assert ids == [r.sorts[1]] && ids[1..] == [];
    assert SortsBefore(x, y, ids, lt) <==>
      if ids[0].desc then lt(Cell(y, "id"), Cell(x, "id")) else lt(Cell(x, "id"), Cell(y, "id"));
  }

  // ----- the database ----------------------------------------------------------------------

  type Table = set<Row>

  /** What a database may answer to a statement on a table: selected rows, none twice, in order, up to
      the limit, and no row left out that sorts before one that is in. */
  ghost predicate Answers(answer: seq<Row>, st: Statement, table: Table, lt: Order)
    requires st.limit.Some? && st.limit.value.Num? && st.limit.value.n >= 0
  {
    && |answer| <= st.limit.value.n
    && (forall i :: 0 <= i < |answer| ==> answer[i] in table && Selects(st, answer[i], lt))
    && (forall i, j :: 0 <= i < j < |answer| ==>
          answer[i] != answer[j] && !SortsBefore(answer[j], answer[i], st.order, lt))
    && (forall row :: row in table && Selects(st, row, lt) && row !in answer ==>
          |answer| == st.limit.value.n && forall i :: 0 <= i < |answer| ==> !SortsBefore(row, answer[i], st.order, lt))
  }

  /** The statement BuildCursorSQL makes, read back. */
  function CursorStatement(r: Result): Statement
    requires Sound(r)
  {
    BuildCursorSQLMeans(r);
    ReadStatement(WhereClause(CursorWhere(r)) + (OrderClause(r.sorts) + " LIMIT ?"),
                  Args(r.filters) + KeysetSQL(r).1 + [Num(CursorLimit(r))]).value
  }

  // ----- one page ----------------------------------------------------------------------------

  /** NextCursor: trims the probe row and derives the next token from the last visible row. */
  function NextCursor(r: Result, items: seq<Row>, key: Row -> (string, string),
                      encode: Cursor -> string): (seq<Row>, string)
    requires r.perPage >= 1
  {
    if |items| <= r.perPage then (items, "")
    else
      var visible := items[..r.perPage];
      var (value, id) := key(visible[|visible| - 1]);
      (visible, encode(Cursor(value, id)))
  }

  /** The codec of cursor tokens is taken as a bijection: what is encoded decodes, and no token is empty. */
  ghost predicate IsCodec(encode: Cursor -> string, decode: string -> Option<Cursor>) {
    forall c :: decode(encode(c)) == Some(c) && encode(c) != ""
  }

  /** Ids are unique in the table, and `key` names the sort value and the id of each of its rows. */
  ghost predicate WellKeyed(table: Table, column: string, key: Row -> (string, string)) {
    && (forall x, y :: x in table && y in table && Cell(x, "id") == Cell(y, "id") ==> x == y)
    && (forall x :: x in table ==> Cell(x, column) == Str(key(x).0) && Cell(x, "id") == Str(key(x).1))
  }

  /** What is the same for all requests of a walk: the cursor sort, the page size, what the filters
      mean, and the database's order. */
  datatype Listing = Listing(column: string, desc: bool, perPage: int64, keep: Row -> bool, lt: Order)

  function KeyIn(l: Listing, row: Row): Key {
    KeyOf(row, l.column)
  }

  predicate KeyBefore(l: Listing, x: Key, y: Key) {
    Before(x, y, l.desc, l.lt)
  }

  lemma KeysOrdered(l: Listing, x: Key, y: Key, z: Key)
    requires TotalOrder(l.lt)
    ensures !KeyBefore(l, x, x)
    ensures KeyBefore(l, x, y) && KeyBefore(l, y, z) ==> KeyBefore(l, x, z)
    ensures KeyBefore(l, x, y) || x == y || KeyBefore(l, y, x)
    ensures !(KeyBefore(l, x, y) && KeyBefore(l, y, x))
  {
    BeforeOrders(x, y, z, l.desc, l.lt);
    BeforeOrders(x, y, x, l.desc, l.lt);
  }

  ghost predicate Ascends(l: Listing, rows: seq<Row>) {
    forall i, j :: 0 <= i < j < |rows| ==> KeyBefore(l, KeyIn(l, rows[i]), KeyIn(l, rows[j]))
  }

  lemma AscendsDistinct(l: Listing, rows: seq<Row>)
    requires TotalOrder(l.lt) && Ascends(l, rows)
    ensures forall i, j :: 0 <= i < j < |rows| ==> KeyIn(l, rows[i]) != KeyIn(l, rows[j]) && rows[i] != rows[j]
  {
    forall i, j | 0 <= i < j < |rows|
      ensures KeyIn(l, rows[i]) != KeyIn(l, rows[j])
    {
      KeysOrdered(l, KeyIn(l, rows[i]), KeyIn(l, rows[j]), KeyIn(l, rows[j]));
    }
  }

  lemma AscendsAppend(l: Listing, x: seq<Row>, y: seq<Row>)
    requires TotalOrder(l.lt) && Ascends(l, x) && Ascends(l, y)
    requires x != [] ==> forall i :: 0 <= i < |y| ==> KeyBefore(l, KeyIn(l, x[|x| - 1]), KeyIn(l, y[i]))
    ensures Ascends(l, x + y)
  {
    hide KeyBefore, KeyIn, TotalOrder;
    var all := x + y;
    forall i, j | 0 <= i < j < |all|
      ensures KeyBefore(l, KeyIn(l, all[i]), KeyIn(l, all[j]))
    {
      if i < |x| - 1 && |x| <= j {
        KeysOrdered(l, KeyIn(l, x[i]), KeyIn(l, x[|x| - 1]), KeyIn(l, all[j]));
      }
    }
  }

  /** The rows a page is taken from: those that meet the filters and lie beyond the position `after`. */
  ghost predicate Candidate(l: Listing, table: Table, after: Option<Key>, row: Row) {
    row in table && l.keep(row) && (after.Some? ==> KeyBefore(l, after.value, KeyIn(l, row)))
  }

  /** A page: candidates in key order; all of them if there is no next page; otherwise a full page,
      nothing left out before its last row, and a candidate left. */
  ghost predicate IsPage(l: Listing, table: Table, after: Option<Key>, page: seq<Row>, more: bool) {
    && Ascends(l, page)
    && (forall i :: 0 <= i < |page| ==> Candidate(l, table, after, page[i]))
    && |page| <= l.perPage
    && (!more ==> forall row :: Candidate(l, table, after, row) ==> row in page)
    && (more ==>
          && |page| == l.perPage >= 1
          && (forall row :: Candidate(l, table, after, row) && row !in page ==>
                KeyBefore(l, KeyIn(l, page[|page| - 1]), KeyIn(l, row)))
          && exists row :: Candidate(l, table, after, row) && row !in page)
  }

  /** An answer of the database, its order and selection said in terms of keys and candidates. */
  ghost predicate KeyAnswers(l: Listing, table: Table, after: Option<Key>, answer: seq<Row>) {
    && |answer| <= l.perPage + 1
    && (forall i :: 0 <= i < |answer| ==> Candidate(l, table, after, answer[i]))
    && Ascends(l, answer)
    && (forall row :: Candidate(l, table, after, row) && row !in answer ==>
          && |answer| == l.perPage + 1
          && forall i :: 0 <= i < |answer| ==> KeyBefore(l, KeyIn(l, answer[i]), KeyIn(l, row)))
  }

  /** Without the probe row, an answer is a page. */
  lemma TrimmedIsPage(l: Listing, table: Table, after: Option<Key>, answer: seq<Row>)
    requires TotalOrder(l.lt) && KeyAnswers(l, table, after, answer) && l.perPage >= 1
    ensures |answer| <= l.perPage ==> IsPage(l, table, after, answer, false)
    ensures |answer| > l.perPage ==>
      IsPage(l, table, after, answer[..l.perPage], true) && answer[l.perPage - 1] in table
  {
    AscendsDistinct(l, answer);
    hide Candidate, KeyBefore, KeyIn, TotalOrder;
    if |answer| > l.perPage {
      var page, probe := answer[..l.perPage], answer[l.perPage];
      assert page[|page| - 1] == answer[l.perPage - 1];
      assert probe !in page && Candidate(l, table, after, probe);
      assert forall i :: 0 <= i < l.perPage ==> answer[i] == page[i];
    }
  }

  // ----- one request ----------------------------------------------------------------------------

  /** One request: the parsed query, the table it met, and the page and token it was answered with. */
  datatype Visit = Visit(r: Result, table: Table, page: seq<Row>, next: string)

  /** The query is one for this listing. */
  ghost predicate Serves(l: Listing, r: Result) {
    && Sound(r) && r.cursorMode && 1 <= l.perPage && r.perPage == l.perPage
    && r.sorts == [SortValue(l.column, l.desc), SortValue("id", l.desc)]
    && forall row :: MeetsAll(r.filters, row, l.lt) <==> l.keep(row)
  }

  /** The database answers the cursor statement of the query, and NextCursor makes the page and the token. */
  ghost predicate IsVisit(l: Listing, v: Visit, key: Row -> (string, string), encode: Cursor -> string) {
    && Serves(l, v.r) && WellKeyed(v.table, l.column, key)
    && exists answer ::
         AnswersCursor(l, v.r, v.table, answer) && (v.page, v.next) == NextCursor(v.r, answer, key, encode)
  }

  /** A negative limit is an error of the database, so it answers nothing. */
  ghost predicate AnswersCursor(l: Listing, r: Result, table: Table, answer: seq<Row>)
    requires Sound(r)
  {
    var st := CursorStatement(r);
    && st.limit.Some? && st.limit.value.Num? && st.limit.value.n >= 0 && Answers(answer, st, table, l.lt)
  }

  /** Where a query goes on. */
  function After(r: Result): Option<Key> {
    if r.cursor == None then None else Some(CursorKey(r.cursor.value))
  }

  lemma StatementOfCursor(r: Result, row: Row, lt: Order)
    requires Sound(r)
    ensures var st := CursorStatement(r);
      && st.limit == Some(Num(CursorLimit(r))) && st.order == r.sorts
      && (Selects(st, row, lt) <==> MeetsAll(r.filters, row, lt) && BeyondCursor(r, row, lt))
  {
    BuildCursorSQLMeans(r);
    hide *;
  }

  lemma BeyondIsAfter(l: Listing, r: Result, row: Row)
    requires Serves(l, r)
    ensures BeyondCursor(r, row, l.lt) <==> (After(r).Some? ==> KeyBefore(l, After(r).value, KeyIn(l, row)))
  {
    hide MeetsAll, Sound;
  }

  lemma LimitIsProbe(l: Listing, r: Result)
    requires Serves(l, r) && l.perPage < MAX_INT64
    ensures Sound(r) && CursorLimit(r) == l.perPage + 1
  {
    hide Sound, MeetsAll;
  }

  /** With the largest integer as its page size, the cursor statement has a negative limit. */
  lemma AnsweredFits(l: Listing, r: Result, table: Table, answer: seq<Row>)
    requires Serves(l, r) && AnswersCursor(l, r, table, answer)
    ensures l.perPage < MAX_INT64
  {
    assert Sound(r);
    StatementOfCursor(r, Row(map[]), l.lt);
    CursorLimitProbesExactly(r);
    hide Sound, MeetsAll, Answers, CursorStatement, CursorLimit, Selects, BeyondCursor;
  }

  lemma SelectsCandidates(l: Listing, r: Result, table: Table)
    requires Serves(l, r) && l.perPage < MAX_INT64
    ensures var st := CursorStatement(r);
      && st.limit == Some(Num(l.perPage + 1)) && st.order == r.sorts
      && forall row :: row in table && Selects(st, row, l.lt) <==> Candidate(l, table, After(r), row)
  {
    LimitIsProbe(l, r);
    hide *;
    StatementOfCursor(r, Row(map[]), l.lt);
    forall row
      ensures row in table && Selects(CursorStatement(r), row, l.lt) <==> Candidate(l, table, After(r), row)
    {
      SelectsCandidate(l, r, table, row);
    }
  }

  lemma SelectsCandidate(l: Listing, r: Result, table: Table, row: Row)
    requires Serves(l, r)
    ensures row in table && Selects(CursorStatement(r), row, l.lt) <==> Candidate(l, table, After(r), row)
  {
    BeyondIsAfter(l, r, row);
    assert MeetsAll(r.filters, row, l.lt) <==> l.keep(row);
    hide CursorStatement, Selects, MeetsAll, BeyondCursor, Sound, After, Serves, KeyBefore;
    StatementOfCursor(r, row, l.lt);
  }

  lemma RowsByKey(l: Listing, r: Result, table: Table, key: Row -> (string, string), x: Row, y: Row)
    requires TotalOrder(l.lt) && Serves(l, r) && WellKeyed(table, l.column, key)
    requires x in table && y in table && x != y && !SortsBefore(x, y, r.sorts, l.lt)
    ensures KeyBefore(l, KeyIn(l, y), KeyIn(l, x))
  {
    SortsByKey(r, x, y, l.lt);
    assert KeyIn(l, x).id != KeyIn(l, y).id;
    KeysOrdered(l, KeyIn(l, x), KeyIn(l, y), KeyIn(l, y));
    hide TotalOrder, SortsBefore, MeetsAll;
  }

  lemma AnswerByKey(l: Listing, r: Result, table: Table, key: Row -> (string, string), answer: seq<Row>)
    requires TotalOrder(l.lt) && Serves(l, r) && l.perPage < MAX_INT64 && WellKeyed(table, l.column, key)
    requires AnswersCursor(l, r, table, answer)
    ensures KeyAnswers(l, table, After(r), answer)
  {
    SelectsCandidates(l, r, table);
    hide CursorStatement, Selects, SortsBefore, KeyBefore, KeyIn, Serves, WellKeyed, TotalOrder, After;
    var after := After(r);
    forall i, j | 0 <= i < j < |answer|
      ensures KeyBefore(l, KeyIn(l, answer[i]), KeyIn(l, answer[j]))
    {
      RowsByKey(l, r, table, key, answer[j], answer[i]);
    }
    forall row, i | Candidate(l, table, after, row) && row !in answer && 0 <= i < |answer|
      ensures KeyBefore(l, KeyIn(l, answer[i]), KeyIn(l, row))
    {
      RowsByKey(l, r, table, key, row, answer[i]);
    }
  }

  /** A request is answered with a page of the rows beyond its cursor, and with a token for the last row
      of that page exactly when there is more. */
  lemma VisitIsPage(l: Listing, v: Visit, key: Row -> (string, string), encode: Cursor -> string,
                    decode: string -> Option<Cursor>)
    requires TotalOrder(l.lt) && IsCodec(encode, decode) && IsVisit(l, v, key, encode)
    ensures IsPage(l, v.table, After(v.r), v.page, v.next != "")
    ensures v.next != "" ==>
      v.page != [] && decode(v.next).Some? && CursorKey(decode(v.next).value) == KeyIn(l, v.page[|v.page| - 1])
  {
    var answer :| AnswersCursor(l, v.r, v.table, answer) && (v.page, v.next) == NextCursor(v.r, answer, key, encode);
    assert Serves(l, v.r) && v.r.perPage == l.perPage >= 1 && WellKeyed(v.table, l.column, key);
    AnsweredFits(l, v.r, v.table, answer);
    AnsweredIsPage(l, v, key, encode, decode, answer);
  }

  lemma AnsweredIsPage(l: Listing, v: Visit, key: Row -> (string, string), encode: Cursor -> string,
                       decode: string -> Option<Cursor>, answer: seq<Row>)
    requires TotalOrder(l.lt) && IsCodec(encode, decode)
    requires Serves(l, v.r) && v.r.perPage == l.perPage >= 1 && l.perPage < MAX_INT64
    requires WellKeyed(v.table, l.column, key)
    requires Sound(v.r) && AnswersCursor(l, v.r, v.table, answer)
    requires (v.page, v.next) == NextCursor(v.r, answer, key, encode)
    ensures IsPage(l, v.table, After(v.r), v.page, v.next != "")
    ensures v.next != "" ==>
      v.page != [] && decode(v.next).Some? && CursorKey(decode(v.next).value) == KeyIn(l, v.page[|v.page| - 1])
  {
    hide AnswersCursor, Serves, TotalOrder, After, Ascends, KeyBefore, WellKeyed, IsCodec, KeyAnswers, IsPage, Sound;
    AnswerByKey(l, v.r, v.table, key, answer);
    TrimmedIsPage(l, v.table, After(v.r), answer);
    if |answer| > l.perPage {
      TokenNamesRow(l, v.table, key, encode, decode, answer[l.perPage - 1]);
    }
  }

  /** The token for a row decodes to its key. */
  lemma TokenNamesRow(l: Listing, table: Table, key: Row -> (string, string), encode: Cursor -> string,
                      decode: string -> Option<Cursor>, row: Row)
    requires IsCodec(encode, decode) && WellKeyed(table, l.column, key) && row in table
    ensures var token := encode(Cursor(key(row).0, key(row).1));
      && token != "" && decode(token).Some? && CursorKey(decode(token).value) == KeyIn(l, row)
  {
    var c := Cursor(key(row).0, key(row).1);
    assert decode(encode(c)) == Some(c);
  }

  // ----- a walk ---------------------------------------------------------------------------------

  /** The requests of one client, each but the first with the token of the one before. The table may
      have changed between any two of them. */
  ghost predicate IsWalk(l: Listing, walk: seq<Visit>, key: Row -> (string, string), encode: Cursor -> string,
                         decode: string -> Option<Cursor>) {
    && TotalOrder(l.lt) && IsCodec(encode, decode)
    && (forall k :: 0 <= k < |walk| ==> IsVisit(l, walk[k], key, encode))
    && (walk != [] ==> walk[0].r.cursor == None)
    && (forall j, k :: 0 <= j && k == j + 1 && k < |walk| ==>
          walk[j].next != "" && walk[k].r.cursor == decode(walk[j].next))
  }

  /** The client has followed every token. */
  predicate IsFinished(walk: seq<Visit>) {
    walk != [] && walk[|walk| - 1].next == ""
  }

  /** The rows of the first `n` pages, one after the other. */
  function Returned(walk: seq<Visit>, n: nat): seq<Row>
    requires n <= |walk|
  {
    if n == 0 then [] else Returned(walk, n - 1) + walk[n - 1].page
  }

  function LastKey(l: Listing, rows: seq<Row>): Option<Key> {
    if rows == [] then None else Some(KeyIn(l, rows[|rows| - 1]))
  }

  /** Where the page of request `k` starts: behind the last row of the page before. */
  function Start(l: Listing, walk: seq<Visit>, k: nat): Option<Key>
    requires k <= |walk|
  {
    if k == 0 then None else LastKey(l, walk[k - 1].page)
  }

  /** Every request is answered with a page that starts where the page before it ended. */
  ghost predicate Paged(l: Listing, walk: seq<Visit>) {
    && TotalOrder(l.lt)
    && (forall k :: 0 <= k < |walk| ==>
          IsPage(l, walk[k].table, Start(l, walk, k), walk[k].page, walk[k].next != ""))
    && (forall k :: 0 <= k < |walk| - 1 ==> walk[k].next != "")
  }

  lemma WalkIsPaged(l: Listing, walk: seq<Visit>, key: Row -> (string, string), encode: Cursor -> string,
                    decode: string -> Option<Cursor>)
    requires IsWalk(l, walk, key, encode, decode)
    ensures Paged(l, walk)
  {
    hide IsVisit, IsCodec, TotalOrder, IsPage;
    forall k | 0 <= k < |walk|
      ensures IsPage(l, walk[k].table, Start(l, walk, k), walk[k].page, walk[k].next != "")
    {
      VisitIsPage(l, walk[k], key, encode, decode);
      if k > 0 {
        VisitIsPage(l, walk[k - 1], key, encode, decode);
        assert walk[k - 1].next != "" && walk[k].r.cursor == decode(walk[k - 1].next);
      }
    }
    forall k | 0 <= k < |walk| - 1
      ensures walk[k].next != ""
    {
      assert walk[k + 1].r.cursor == decode(walk[k].next) && walk[k].next != "";
    }
  }

  /** What has been returned after `n` pages ascends, and while there is more it fills all pages. */
  ghost predicate WalkState(l: Listing, walk: seq<Visit>, n: nat)
    requires n <= |walk|
  {
    var rows := Returned(walk, n);
    && Ascends(l, rows)
    && (n > 0 && walk[n - 1].next != "" ==>
          && |rows| == n * l.perPage && walk[n - 1].page != []
          && LastKey(l, rows) == LastKey(l, walk[n - 1].page))
    && (n > 0 && walk[n - 1].next == "" ==> |rows| == (n - 1) * l.perPage + |walk[n - 1].page|)
  }

  lemma {:induction false} WalkAscends(l: Listing, walk: seq<Visit>, n: nat)
    requires Paged(l, walk) && n <= |walk|
    ensures WalkState(l, walk, n)
  {
    if n > 0 {
      WalkAscends(l, walk, n - 1);
      assert n > 1 ==> walk[n - 2].next != "";
      var v := walk[n - 1];
      assert IsPage(l, v.table, Start(l, walk, n - 1), v.page, v.next != "");
      WalkStep(l, walk, n);
    }
  }

  lemma WalkStep(l: Listing, walk: seq<Visit>, n: nat)
    requires TotalOrder(l.lt) && 0 < n <= |walk| && WalkState(l, walk, n - 1)
    requires n > 1 ==> walk[n - 2].next != ""
    requires var v := walk[n - 1]; IsPage(l, v.table, Start(l, walk, n - 1), v.page, v.next != "")
    ensures WalkState(l, walk, n)
  {
    hide TotalOrder, KeyBefore, KeyIn;
    var v, rows := walk[n - 1], Returned(walk, n - 1);
    forall i | 0 <= i < |v.page| && rows != []
      ensures KeyBefore(l, KeyIn(l, rows[|rows| - 1]), KeyIn(l, v.page[i]))
    {
      assert Candidate(l, v.table, Start(l, walk, n - 1), v.page[i]);
    }
    AscendsAppend(l, rows, v.page);
    assert n * l.perPage == (n - 1) * l.perPage + l.perPage;
  }

  /** Accepted requests that differ in nothing but the cursor serve the same listing, in whatever order
      Parse met their filters. */
  lemma SameListing(l: Listing, options: Options, decode: string -> Option<Cursor>,
                    values: Values, r: Result, met: seq<string>, values': Values, r': Result, met': seq<string>)
    requires WellConfigured(values, options) && !Offends(values, options, decode)
    requires Describes(values, options, decode, r, met)
    requires WellConfigured(values', options) && !Offends(values', options, decode)
    requires Describes(values', options, decode, r', met')
    requires values - {"cursor"} == values' - {"cursor"}
    requires options.cursorSort != "" && Serves(l, r)
    ensures Serves(l, r')
  {
    SameShape(options, decode, values, r, met, values', r', met');
    ParsedIsSound(values', options, decode, r', met');
    hide WellConfigured, Offends, Describes, MeetsAll, Sound;
    forall row
      ensures MeetsAll(r'.filters, row, l.lt) <==> l.keep(row)
    {
      SameMeaning(options, decode, values, r, met, values', r', met', row, l.lt);
    }
  }

  lemma SameShape(options: Options, decode: string -> Option<Cursor>,
                  values: Values, r: Result, met: seq<string>, values': Values, r': Result, met': seq<string>)
    requires WellConfigured(values, options) && Describes(values, options, decode, r, met)
    requires WellConfigured(values', options) && Describes(values', options, decode, r', met')
    requires values - {"cursor"} == values' - {"cursor"} && options.cursorSort != ""
    ensures r.sorts == r'.sorts && r.perPage == r'.perPage && r.cursorMode == r'.cursorMode
  {
    hide FiltersMet, SplitNonEmpty, AllSortable, IsIdentifier, SortTable, ParseInt;
    SameValues(values, values', "per_page");
  }

  lemma SameValues(values: Values, values': Values, key: string)
    requires values - {"cursor"} == values' - {"cursor"} && key != "cursor"
    ensures key in values <==> key in values'
    ensures key in values ==> values[key] == values'[key]
    ensures FirstValue(values, key) == FirstValue(values', key)
  {
    assert key in values <==> key in values - {"cursor"};
    assert key in values' <==> key in values' - {"cursor"};
    assert key in values ==> (values - {"cursor"})[key] == values[key];
    assert key in values' ==> (values' - {"cursor"})[key] == values'[key];
  }

  lemma SameMeaning(options: Options, decode: string -> Option<Cursor>,
                    values: Values, r: Result, met: seq<string>, values': Values, r': Result, met': seq<string>,
                    row: Row, lt: Order)
    requires WellConfigured(values, options) && !Offends(values, options, decode)
    requires Describes(values, options, decode, r, met)
    requires WellConfigured(values', options) && !Offends(values', options, decode)
    requires Describes(values', options, decode, r', met')
    requires values - {"cursor"} == values' - {"cursor"}
    ensures Sound(r) && Sound(r')
    ensures MeetsAll(r.filters, row, lt) <==> MeetsAll(r'.filters, row, lt)
  {
    hide WellConfigured, Offends, Describes, FilterTable, Meets, SoundFilter, MeetsAll, Sound;
    AnyFilterOrder(values, options, decode, r, met, row, lt);
    AnyFilterOrder(values', options, decode, r', met', row, lt);
    CursorIsNoFilter(FilterTable(options.allowedFilters));
    hide FilterVerdict;
    forall k | k != "cursor"
      ensures k in values <==> k in values'
      ensures k in values ==> values[k] == values'[k]
    {
      SameValues(values, values', k);
    }
  }

  lemma CursorIsNoFilter(table: map<string, Filter>)
    ensures forall value :: FilterVerdict(table, "cursor", value) == Skipped
  {
    assert "cursor"[0] == 'c' && "filter["[0] == 'f';
  }

  // ----- the theorems -----------------------------------------------------------------------------

  /** Whatever happens to the table between pages, what a walk returns ascends by (sort value, id); no
      key is returned twice. */
  lemma NoKeyTwice(l: Listing, walk: seq<Visit>, key: Row -> (string, string), encode: Cursor -> string,
                   decode: string -> Option<Cursor>)
    requires IsWalk(l, walk, key, encode, decode)
    ensures var rows := Returned(walk, |walk|);
      Ascends(l, rows) && forall i, j :: 0 <= i < j < |rows| ==> KeyIn(l, rows[i]) != KeyIn(l, rows[j])
  {
    WalkIsPaged(l, walk, key, encode, decode);
    WalkAscends(l, walk, |walk|);
    AscendsDistinct(l, Returned(walk, |walk|));
  }

  /** A row with this key is in the table and meets the filters. */
  ghost predicate Listed(l: Listing, table: Table, k: Key) {
    exists row :: row in table && l.keep(row) && KeyIn(l, row) == k
  }

  ghost predicate IsReturned(l: Listing, rows: seq<Row>, k: Key) {
    exists i :: 0 <= i < |rows| && KeyIn(l, rows[i]) == k
  }

  lemma ReturnedMore(l: Listing, x: seq<Row>, y: seq<Row>, k: Key)
    ensures IsReturned(l, x, k) || IsReturned(l, y, k) ==> IsReturned(l, x + y, k)
  {
    if IsReturned(l, x, k) {
      var i :| 0 <= i < |x| && KeyIn(l, x[i]) == k;
      assert KeyIn(l, (x + y)[i]) == k;
    } else if IsReturned(l, y, k) {
      var i :| 0 <= i < |y| && KeyIn(l, y[i]) == k;
      assert KeyIn(l, (x + y)[|x| + i]) == k;
    }
  }

  /** On one page: a listed key beyond its start is on it, or beyond its end. */
  lemma PageHasKey(l: Listing, table: Table, after: Option<Key>, page: seq<Row>, more: bool, k: Key)
    requires IsPage(l, table, after, page, more) && Listed(l, table, k)
    requires after.Some? ==> KeyBefore(l, after.value, k)
    ensures IsReturned(l, page, k) || (more && page != [] && KeyBefore(l, KeyIn(l, page[|page| - 1]), k))
  {
    var row :| row in table && l.keep(row) && KeyIn(l, row) == k;
    assert Candidate(l, table, after, row);
    if row in page {
      var i :| 0 <= i < |page| && page[i] == row;
      assert KeyIn(l, page[i]) == k;
    }
  }

  /** A key lies ahead of the first `n` pages. */
  ghost predicate IsAhead(l: Listing, walk: seq<Visit>, n: nat, k: Key)
    requires n <= |walk|
  {
    n == 0 || (walk[n - 1].next != "" && walk[n - 1].page != [] && KeyBefore(l, LastKey(l, walk[n - 1].page).value, k))
  }

  lemma PagedAt(l: Listing, walk: seq<Visit>, n: nat)
    requires Paged(l, walk) && n < |walk|
    ensures IsPage(l, walk[n].table, Start(l, walk, n), walk[n].page, walk[n].next != "")
  {
    hide IsPage, TotalOrder, Start;
  }

  lemma AheadOfStart(l: Listing, walk: seq<Visit>, n: nat, k: Key)
    requires n <= |walk| && IsAhead(l, walk, n, k)
    ensures Start(l, walk, n).Some? ==> KeyBefore(l, Start(l, walk, n).value, k)
  {
    hide KeyBefore, KeyIn;
  }

  lemma {:induction false} ListedKeyAhead(l: Listing, walk: seq<Visit>, n: nat, k: Key)
    requires Paged(l, walk) && n <= |walk|
    requires forall i :: 0 <= i < |walk| ==> Listed(l, walk[i].table, k)
    ensures IsReturned(l, Returned(walk, n), k) || IsAhead(l, walk, n, k)
  {
    hide IsPage, Paged, Listed, IsReturned, KeyBefore, KeyIn, Start;
    if n > 0 {
      ListedKeyAhead(l, walk, n - 1, k);
      var v := walk[n - 1];
      ReturnedMore(l, Returned(walk, n - 1), v.page, k);
      if !IsReturned(l, Returned(walk, n - 1), k) {
        PagedAt(l, walk, n - 1);
        AheadOfStart(l, walk, n - 1, k);
        PageHasKey(l, v.table, Start(l, walk, n - 1), v.page, v.next != "", k);
      }
    }
  }

  /** Whatever else happens to the table, a key that is listed at every request of a finished walk is
      returned, and only once. */
  lemma ListedThroughoutReturnedOnce(l: Listing, walk: seq<Visit>, key: Row -> (string, string),
                                     encode: Cursor -> string, decode: string -> Option<Cursor>, k: Key)
    requires IsWalk(l, walk, key, encode, decode) && IsFinished(walk)
    requires forall i :: 0 <= i < |walk| ==> Listed(l, walk[i].table, k)
    ensures var rows := Returned(walk, |walk|);
      && IsReturned(l, rows, k)
      && forall i, j :: 0 <= i < |rows| && 0 <= j < |rows| && KeyIn(l, rows[i]) == k == KeyIn(l, rows[j]) ==> i == j
  {
    WalkIsPaged(l, walk, key, encode, decode);
    ListedKeyAhead(l, walk, |walk|, k);
    NoKeyTwice(l, walk, key, encode, decode);
  }

  // ----- a table that stays as it is -----------------------------------------------------------------

  ghost function Kept(l: Listing, table: Table): set<Row> {
    set row | row in table && l.keep(row)
  }

  ghost function Rows(rows: seq<Row>): set<Row> {
    set row | row in rows
  }

  lemma {:induction false} DistinctCount(rows: seq<Row>)
    requires forall i, j :: 0 <= i < j < |rows| ==> rows[i] != rows[j]
    ensures |Rows(rows)| == |rows|
  {
    if rows != [] {
      var front, last := rows[..|rows| - 1], rows[|rows| - 1];
      DistinctCount(front);
      assert Rows(rows) == Rows(front) + {last} && last !in front;
    }
  }

  /** `done` are kept rows, and all other kept rows lie beyond `after`. */
  ghost predicate Divides(l: Listing, table: Table, done: seq<Row>, after: Option<Key>) {
    && (forall row :: row in done ==> row in Kept(l, table))
    && (forall row :: row in Kept(l, table) && row !in done && after.Some? ==> KeyBefore(l, after.value, KeyIn(l, row)))
  }

  ghost predicate Exhausts(l: Listing, table: Table, rows: seq<Row>) {
    Rows(rows) == Kept(l, table)
  }

  lemma PageDivides(l: Listing, table: Table, done: seq<Row>, after: Option<Key>, page: seq<Row>, more: bool)
    requires Divides(l, table, done, after) && IsPage(l, table, after, page, more)
    ensures more ==> Divides(l, table, done + page, LastKey(l, page))
    ensures !more ==> Exhausts(l, table, done + page)
    ensures more ==> page != []
  {
    hide KeyBefore, KeyIn, Ascends;
    forall row | row in Kept(l, table) && row !in done
      ensures Candidate(l, table, after, row)
    {}
    forall row | row in done + page
      ensures row in Kept(l, table)
    {
      if row in page {
        assert Candidate(l, table, after, row);
      }
    }
    assert page != [] && more ==> LastKey(l, page).value == KeyIn(l, page[|page| - 1]);
    assert forall row :: row in Rows(done + page) <==> row in done + page;
  }

  /** On a fixed table, everything kept has been returned or lies ahead, and only kept rows have been
      returned. */
  lemma {:induction false} FixedProgress(l: Listing, walk: seq<Visit>, table: Table, n: nat)
    requires Paged(l, walk) && n <= |walk|
    requires forall i :: 0 <= i < |walk| ==> walk[i].table == table
    ensures n == 0 || walk[n - 1].next != "" ==> Divides(l, table, Returned(walk, n), Start(l, walk, n))
    ensures n > 0 && walk[n - 1].next == "" ==> Exhausts(l, table, Returned(walk, n))
  {
    hide IsPage, Divides, Exhausts, LastKey, TotalOrder, Kept;
    if n == 0 {
      NothingReturned(l, table);
    } else {
      FixedProgress(l, walk, table, n - 1);
      var v := walk[n - 1];
      assert n > 1 ==> walk[n - 2].next != "";
      assert IsPage(l, table, Start(l, walk, n - 1), v.page, v.next != "");
      PageDivides(l, table, Returned(walk, n - 1), Start(l, walk, n - 1), v.page, v.next != "");
    }
  }

  lemma NothingReturned(l: Listing, table: Table)
    ensures Divides(l, table, [], None)
  {}

  /** While there is more, rows are left over. */
  lemma MoreIsLeft(l: Listing, walk: seq<Visit>, table: Table, n: nat)
    requires Paged(l, walk) && 0 < n <= |walk| && walk[n - 1].next != ""
    requires forall i :: 0 <= i < |walk| ==> walk[i].table == table
    ensures n * l.perPage < |Kept(l, table)|
  {
    hide TotalOrder, KeyBefore, KeyIn, Ascends, LastKey, IsPage, Kept;
    var v, rows, after := walk[n - 1], Returned(walk, n), Start(l, walk, n - 1);
    assert IsPage(l, table, after, v.page, true);
    var row := OneLeft(l, table, after, v.page);
    WalkAscends(l, walk, n);
    FixedProgress(l, walk, table, n);
    AscendsDistinct(l, rows);
    DistinctCount(rows);
    LastIsHighest(l, rows, row);
    assert Rows(rows) + {row} <= Kept(l, table);
    SubsetSize(Rows(rows) + {row}, Kept(l, table));
  }

  lemma OneLeft(l: Listing, table: Table, after: Option<Key>, page: seq<Row>) returns (row: Row)
    requires IsPage(l, table, after, page, true)
    ensures page != [] && row in Kept(l, table) && KeyBefore(l, LastKey(l, page).value, KeyIn(l, row))
  {
    hide KeyBefore, KeyIn, Ascends;
    row :| Candidate(l, table, after, row) && row !in page;
  }

  lemma LastIsHighest(l: Listing, rows: seq<Row>, row: Row)
    requires TotalOrder(l.lt) && Ascends(l, rows) && rows != []
    requires KeyBefore(l, LastKey(l, rows).value, KeyIn(l, row))
    ensures row !in rows
  {
    forall i | 0 <= i < |rows|
      ensures rows[i] != row
    {
      KeysOrdered(l, KeyIn(l, rows[i]), KeyIn(l, rows[|rows| - 1]), KeyIn(l, row));
      KeysOrdered(l, KeyIn(l, row), KeyIn(l, row), KeyIn(l, row));
    }
  }

  lemma SubsetSize(x: set<Row>, y: set<Row>)
    requires x <= y
    ensures |x| <= |y|
  {
    assert y == x + (y - x);
  }

  /** The number of pages of `n` rows: at least one, the last one not empty if there are any rows. */
  function PageCount(n: nat, perPage: nat): nat
    requires perPage > 0
  {
    if n == 0 then 1 else (n + perPage - 1) / perPage
  }

  lemma PageCountIs(n: nat, perPage: nat, pages: nat)
    requires perPage > 0 && pages > 0
    requires pages > 1 ==> (pages - 1) * perPage < n
    requires n <= pages * perPage
    ensures PageCount(n, perPage) == pages
  {
    if n == 0 {
      if pages > 1 {
        TimesMonotone(0, pages - 1, perPage);
      }
    } else {
      var q := (n + perPage - 1) / perPage;
      Rounding(n + perPage - 1, perPage, q);
      OneLess(pages, perPage);
      OneLess(q + 1, perPage);
      if q < pages {
        TimesMonotone(q + 1, pages, perPage);
      } else if q > pages {
        TimesMonotone(pages + 1, q, perPage);
        OneLess(pages + 1, perPage);
      }
    }
  }

  lemma Rounding(n: nat, d: nat, q: nat)
    requires d > 0 && q == n / d
    ensures q * d <= n < q * d + d
  {}

  lemma OneLess(pages: nat, perPage: nat)
    requires pages > 0
    ensures (pages - 1) * perPage + perPage == pages * perPage
  {}

  lemma TimesMonotone(x: nat, y: nat, z: nat)
    requires x <= y
    ensures x * z <= y * z
  {}

  /** On a fixed table a finished walk returns the whole filtered table, in order, in as many pages as it
      fills; an unfinished one has made fewer requests. */
  lemma FixedTable(l: Listing, walk: seq<Visit>, key: Row -> (string, string), encode: Cursor -> string,
                   decode: string -> Option<Cursor>, table: Table)
    requires IsWalk(l, walk, key, encode, decode) && walk != []
    requires forall i :: 0 <= i < |walk| ==> walk[i].table == table
    ensures l.perPage >= 1
    ensures !IsFinished(walk) ==> |walk| < PageCount(|Kept(l, table)|, l.perPage)
    ensures IsFinished(walk) ==>
      && |walk| == PageCount(|Kept(l, table)|, l.perPage)
      && Ascends(l, Returned(walk, |walk|)) && Rows(Returned(walk, |walk|)) == Kept(l, table)
      && |Returned(walk, |walk|)| == |Kept(l, table)|
  {
    var n, rows := |walk|, Returned(walk, |walk|);
    assert IsVisit(l, walk[0], key, encode);
    WalkIsPaged(l, walk, key, encode, decode);
    hide IsWalk, IsVisit, TotalOrder, Ascends, KeyBefore;
    WalkAscends(l, walk, n);
    FixedProgress(l, walk, table, n);
    if IsFinished(walk) {
      FinishedFixed(l, walk, table);
    } else {
      MoreIsLeft(l, walk, table, n);
      MorePagesAhead(|Kept(l, table)|, l.perPage, n);
    }
  }

  lemma MorePagesAhead(total: nat, perPage: nat, n: nat)
    requires perPage > 0 && n * perPage < total
    ensures n < PageCount(total, perPage)
  {
    var q := (total + perPage - 1) / perPage;
    assert total + perPage - 1 < q * perPage + perPage;
    if q <= n {
      TimesMonotone(q, n, perPage);
    }
  }

  lemma FinishedFixed(l: Listing, walk: seq<Visit>, table: Table)
    requires Paged(l, walk) && IsFinished(walk) && l.perPage >= 1
    requires forall i :: 0 <= i < |walk| ==> walk[i].table == table
    ensures |walk| == PageCount(|Kept(l, table)|, l.perPage)
    ensures Ascends(l, Returned(walk, |walk|)) && Rows(Returned(walk, |walk|)) == Kept(l, table)
    ensures |Returned(walk, |walk|)| == |Kept(l, table)|
  {
    hide TotalOrder, KeyBefore, KeyIn, Ascends, LastKey, IsPage;
    var n, rows := |walk|, Returned(walk, |walk|);
    var v := walk[n - 1];
    WalkAscends(l, walk, n);
    FixedProgress(l, walk, table, n);
    AscendsDistinct(l, rows);
    DistinctCount(rows);
    assert Rows(rows) == Kept(l, table);
    PageFits(l, table, Start(l, walk, n - 1), v.page, false);
    if n > 1 {
      MoreIsLeft(l, walk, table, n - 1);
    }
    assert (n - 1) * l.perPage + l.perPage == n * l.perPage;
    PageCountIs(|Kept(l, table)|, l.perPage, n);
  }

  lemma PageFits(l: Listing, table: Table, after: Option<Key>, page: seq<Row>, more: bool)
    requires IsPage(l, table, after, page, more)
    ensures |page| <= l.perPage
  {}
}
