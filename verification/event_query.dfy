/**
 * The read side of the event controller: `getAllEvents` (soft authentication,
 * SQL composition with a parallel parameter list, filtering, ordering and the
 * bookmark flag) and `getCategories`.
 *
 * The SQL text is kept as a sequence of text pieces and `?` placeholders. The
 * store does not parse SQL here: each composed WHERE condition is also
 * recorded, in order, and the store binds the parameters to those conditions
 * positionally, as the database binds them to the placeholders of the text.
 */
module EventQuery {
  import opened Wrappers
  import opened Text
  import opened Timestamps
  import opened Store

  /** The query string of `GET /events`; a parameter that is not given is `None`. */
  datatype ListQuery = ListQuery(
    search: Option<string>,
    category: Option<string>,
    month: Option<string>,
    year: Option<string>,
    startDate: Option<string>,
    endDate: Option<string>)

  // ---------------------------------------------------------------------------
  // Soft authentication

  const BearerPrefix := "Bearer "

  /** Stands in for `jwt.verify`: the `id` claim of a token that verifies, `None` on any failure. */
  type Verifier = string -> Option<UserId>

  /**
   * The caller's id, if the `Authorization` header carries a token that
   * verifies; a missing header or a failing token leaves the caller a guest.
   */
  function SoftAuth(authorization: Option<string>, verify: Verifier): (userId: Option<UserId>)
    ensures !Truthy(authorization) ==> userId.None?
  {
    if Truthy(authorization) then verify(ReplaceFirst(authorization.value, BearerPrefix, ""))
    else None
  }

  /** A header `Bearer <token>` is stripped back to exactly `<token>` before verification. */
  lemma SoftAuthBearer(token: string, verify: Verifier)
    ensures SoftAuth(Some(BearerPrefix + token), verify) == verify(token)
  {
    var header := BearerPrefix + token;
    assert |header| >= |BearerPrefix| > 0;
    ReplacePrefix(BearerPrefix, token, "");
    assert ReplaceFirst(header, BearerPrefix, "") == token;
  }

  /** The value bound to the bookmark subquery: the caller's id, or 0 for a guest. */
  function BookmarkUser(userId: Option<UserId>): UserId {
    userId.GetOr(0)
  }

  // ---------------------------------------------------------------------------
  // SQL text and parameters

  datatype SqlPiece = Sql(text: string) | Placeholder

  datatype SqlParam = PNum(n: nat) | PStr(s: string)

  /** The optional WHERE conditions, in the order the controller may append them. */
  datatype Condition = NameLike | CategoryIs | MonthYear | DateBetween

  function Arity(c: Condition): nat {
    match c
    case NameLike => 1
    case CategoryIs => 1
    case MonthYear => 2
    case DateBetween => 2
  }

  /** The number of `?` marks in the text. */
  function Placeholders(sql: seq<SqlPiece>): nat {
    multiset(sql)[Placeholder]
  }

  function ConditionSql(c: Condition): (sql: seq<SqlPiece>)
    ensures Placeholders(sql) == Arity(c)
  {
    match c
    case NameLike => [Sql(" AND e.nama_acara LIKE "), Placeholder]
    case CategoryIs => [Sql(" AND e.kategori = "), Placeholder]
    case MonthYear =>
      [Sql(" AND MONTH(e.tanggal_mulai) = "), Placeholder, Sql(" AND YEAR(e.tanggal_mulai) = "), Placeholder]
    case DateBetween =>
      [Sql(" AND DATE(e.tanggal_mulai) BETWEEN "), Placeholder, Sql(" AND "), Placeholder]
  }

  /** The fixed head of the list query; its one placeholder is the bookmark subquery's user id. */
  const SelectSql: seq<SqlPiece> := [
    Sql("SELECT e.event_id, e.nama_acara, e.deskripsi, e.tanggal_mulai, e.lokasi, e.banner_image, "
        + "e.kategori, e.harga_tiket, (SELECT COUNT(*) FROM bookmarks b "
        + "WHERE b.event_id = e.event_id AND b.user_id = "),
    Placeholder,
    Sql(") AS is_bookmarked FROM events e WHERE 1=1")]

  const OrderSql: seq<SqlPiece> := [Sql(" ORDER BY e.tanggal_mulai ASC")]

  /** The composed query: its text, the conditions it appended, and the parameter list. */
  datatype ListSql = ListSql(text: seq<SqlPiece>, conditions: seq<Condition>, params: seq<SqlParam>)

  function TotalArity(cs: seq<Condition>): nat {
    if cs == [] then 0 else TotalArity(cs[..|cs| - 1]) + Arity(cs[|cs| - 1])
  }

  /** Text placeholders, parameters, and the conditions' demand (plus the subquery's one) agree. */
  predicate Aligned(l: ListSql) {
    Placeholders(l.text) == |l.params| == 1 + TotalArity(l.conditions)
  }

  /** `query += <condition>; params.push(...args)`. */
  function AddCondition(l: ListSql, c: Condition, args: seq<SqlParam>): (r: ListSql)
    requires Aligned(l) && |args| == Arity(c)
    ensures Aligned(r)
  {
    assert (l.conditions + [c])[..|l.conditions|] == l.conditions;
    ListSql(l.text + ConditionSql(c), l.conditions + [c], l.params + args)
  }

  /** The head of the query, with the bookmark user as its first parameter. */
  function BaseList(userId: Option<UserId>): (r: ListSql)
    ensures Aligned(r)
  {
    ListSql(SelectSql, [], [PNum(BookmarkUser(userId))])
  }

  function WithSearch(l: ListSql, q: ListQuery): (r: ListSql)
    requires Aligned(l)
    ensures Aligned(r)
    ensures r.conditions == l.conditions + (if Truthy(q.search) then [NameLike] else [])
    ensures |r.params| == |l.params| + (if Truthy(q.search) then 1 else 0)
    ensures r.params[..|l.params|] == l.params
  {
    if Truthy(q.search) then AddCondition(l, NameLike, [PStr("%" + q.search.value + "%")]) else l
  }

  function WithCategory(l: ListSql, q: ListQuery): (r: ListSql)
    requires Aligned(l)
    ensures Aligned(r)
    ensures r.conditions == l.conditions + (if Truthy(q.category) then [CategoryIs] else [])
    ensures |r.params| == |l.params| + (if Truthy(q.category) then 1 else 0)
    ensures r.params[..|l.params|] == l.params
  {
    if Truthy(q.category) then AddCondition(l, CategoryIs, [PStr(q.category.value)]) else l
  }

  function WithMonth(l: ListSql, q: ListQuery): (r: ListSql)
    requires Aligned(l)
    ensures Aligned(r)
    ensures r.conditions == l.conditions + (if Truthy(q.month) && Truthy(q.year) then [MonthYear] else [])
    ensures |r.params| == |l.params| + (if Truthy(q.month) && Truthy(q.year) then 2 else 0)
    ensures r.params[..|l.params|] == l.params
  {
    if Truthy(q.month) && Truthy(q.year)
    then AddCondition(l, MonthYear, [PStr(q.month.value), PStr(q.year.value)])
    else l
  }

  function WithDates(l: ListSql, q: ListQuery): (r: ListSql)
    requires Aligned(l)
    ensures Aligned(r)
    ensures r.conditions == l.conditions + (if Truthy(q.startDate) && Truthy(q.endDate) then [DateBetween] else [])
    ensures |r.params| == |l.params| + (if Truthy(q.startDate) && Truthy(q.endDate) then 2 else 0)
    ensures r.params[..|l.params|] == l.params
  {
    if Truthy(q.startDate) && Truthy(q.endDate)
    then AddCondition(l, DateBetween, [PStr(q.startDate.value), PStr(q.endDate.value)])
    else l
  }

  /** The query `getAllEvents` sends: text and parameters aligned, the bookmark user first. */
  function ComposeList(q: ListQuery, userId: Option<UserId>): (r: ListSql)
    ensures Placeholders(r.text) == |r.params| == 1 + TotalArity(r.conditions)
    ensures r.params[0] == PNum(BookmarkUser(userId))
  {
    var base := BaseList(userId);
    var l := WithDates(WithMonth(WithCategory(WithSearch(base, q), q), q), q);
    assert l.params[0] == base.params[0];
    ListSql(l.text + OrderSql, l.conditions, l.params)
  }

  /** The conditions of the composed query, in the order the controller appends them. */
  function ActiveConditions(q: ListQuery): seq<Condition> {
    (if Truthy(q.search) then [NameLike] else [])
    + (if Truthy(q.category) then [CategoryIs] else [])
    + (if Truthy(q.month) && Truthy(q.year) then [MonthYear] else [])
    + (if Truthy(q.startDate) && Truthy(q.endDate) then [DateBetween] else [])
  }

  /** The composed query carries exactly the conditions the non-empty parameters ask for. */
  lemma ComposeListConditions(q: ListQuery, userId: Option<UserId>)
    ensures ComposeList(q, userId).conditions == ActiveConditions(q)
  {
    var l1 := WithSearch(BaseList(userId), q);
    var l2 := WithCategory(l1, q);
    var l3 := WithMonth(l2, q);
    assert WithDates(l3, q).conditions == ActiveConditions(q);
  }

  /**
   * Each present condition adds its own number of parameters after the
   * bookmark user, so an unpaired month/year or date bound adds no parameter.
   */
  lemma ComposeListParamCount(q: ListQuery, userId: Option<UserId>)
    ensures |ComposeList(q, userId).params|
            == 1 + (if Truthy(q.search) then 1 else 0) + (if Truthy(q.category) then 1 else 0)
                 + (if Truthy(q.month) && Truthy(q.year) then 2 else 0)
                 + (if Truthy(q.startDate) && Truthy(q.endDate) then 2 else 0)
  {
    var l1 := WithSearch(BaseList(userId), q);
    var l2 := WithCategory(l1, q);
    var l3 := WithMonth(l2, q);
    assert |WithDates(l3, q).params| == |ComposeList(q, userId).params|;
  }

  /**
   * A condition is present exactly when its parameter, or both parameters of
   * its pair, is non-empty: an unpaired month/year or date bound adds no text.
   */
  lemma ActiveConditionsExactly(q: ListQuery)
    ensures NameLike in ActiveConditions(q) <==> Truthy(q.search)
    ensures CategoryIs in ActiveConditions(q) <==> Truthy(q.category)
    ensures MonthYear in ActiveConditions(q) <==> Truthy(q.month) && Truthy(q.year)
    ensures DateBetween in ActiveConditions(q) <==> Truthy(q.startDate) && Truthy(q.endDate)
  {
  }

  // ---------------------------------------------------------------------------
  // What the store does with the query

  /** A condition with its parameters bound. */
  datatype Bound =
    | LikeB(pattern: SqlParam)
    | CategoryB(value: SqlParam)
    | MonthYearB(month: SqlParam, year: SqlParam)
    | BetweenB(from: SqlParam, to: SqlParam)

  function BindOne(c: Condition, args: seq<SqlParam>): Bound
    requires |args| == Arity(c)
  {
    match c
    case NameLike => LikeB(args[0])
    case CategoryIs => CategoryB(args[0])
    case MonthYear => MonthYearB(args[0], args[1])
    case DateBetween => BetweenB(args[0], args[1])
  }

  /** Positional binding of parameters to conditions; `None` when the counts disagree. */
  function Bind(cs: seq<Condition>, params: seq<SqlParam>): Option<seq<Bound>>
    decreases |cs|
  {
    if cs == [] then (if params == [] then Some([]) else None)
    else if |params| < Arity(cs[0]) then None
    else
      match Bind(cs[1..], params[Arity(cs[0])..])
      case None => None
      case Some(rest) => Some([BindOne(cs[0], params[..Arity(cs[0])])] + rest)
  }

  /** `LIKE` for the `%text%` patterns the controller builds: a substring test. */
  predicate Like(text: string, pattern: string) {
    if |pattern| >= 2 && pattern[0] == '%' && pattern[|pattern| - 1] == '%'
    then Contains(text, pattern[1..|pattern| - 1])
    else text == pattern
  }

  /** `DATE(t) BETWEEN from AND to`, false when any side is NULL or not a date. */
  predicate InDateRange(t: Option<Timestamp>, from: string, to: string) {
    && t.Some?
    && ParseDate(from).Some? && ParseDate(to).Some?
    && DateLe(ParseDate(from).value, t.value.date)
    && DateLe(t.value.date, ParseDate(to).value)
  }

  /** `MONTH(t) = month AND YEAR(t) = year`, comparing numerically. */
  predicate InMonth(t: Option<Timestamp>, month: string, year: string) {
    t.Some? && ParseNat(month) == Some(t.value.date.month) && ParseNat(year) == Some(t.value.date.year)
  }

  predicate Holds(b: Bound, e: Event) {
    match b
    case LikeB(PStr(p)) => e.nama_acara.Text? && Like(e.nama_acara.s, p)
    case CategoryB(PStr(c)) => e.kategori == Text(c)
    case MonthYearB(PStr(m), PStr(y)) => InMonth(StartOf(e), m, y)
    case BetweenB(PStr(a), PStr(z)) => InDateRange(StartOf(e), a, z)
    case _ => false
  }

  predicate AllHold(bs: seq<Bound>, e: Event) {
    forall i :: 0 <= i < |bs| ==> Holds(bs[i], e)
  }

  /** `WHERE 1=1 AND ...`: the rows every bound condition accepts, in scan order. */
  function Select(rows: seq<Row>, bs: seq<Bound>): (r: seq<Row>)
    ensures forall x :: x in r <==> x in rows && AllHold(bs, x.event)
    ensures multiset(r) <= multiset(rows)
  {
    if rows == [] then []
    else
      assert rows == [rows[0]] + rows[1..];
      var rest := Select(rows[1..], bs);
      if AllHold(bs, rows[0].event) then [rows[0]] + rest else rest
  }

  /** `ORDER BY tanggal_mulai ASC`, NULL first. */
  predicate StartLe(a: Row, b: Row) {
    StartValueLe(a.event.tanggal_mulai, b.event.tanggal_mulai)
  }

  predicate SortedByStart(rows: seq<Row>) {
    forall i, j :: 0 <= i < j < |rows| ==> StartLe(rows[i], rows[j])
  }

  function InsertByStart(x: Row, rows: seq<Row>): (r: seq<Row>)
    requires SortedByStart(rows)
    ensures SortedByStart(r)
    ensures multiset(r) == multiset(rows) + multiset{x}
  {
    if rows == [] then [x]
    else if StartLe(x, rows[0]) then
      assert forall j :: 0 <= j < |rows| ==> StartLe(x, rows[j]) by {
        forall j | 0 <= j < |rows| ensures StartLe(x, rows[j]) {
          if StartOf(x.event).Some? && j > 0 {
            LeTransitive(StartOf(x.event).value, StartOf(rows[0].event).value, StartOf(rows[j].event).value);
          }
        }
      }
      [x] + rows
    else
      var rest := InsertByStart(x, rows[1..]);
      assert rows == [rows[0]] + rows[1..];
      assert StartLe(rows[0], x) by {
        if StartOf(rows[0].event).Some? && StartOf(x.event).Some? {
          LeTotal(StartOf(rows[0].event).value, StartOf(x.event).value);
        }
      }
      assert forall y :: y in rest ==> StartLe(rows[0], y) by {
        forall y | y in rest ensures StartLe(rows[0], y) {
          assert y in multiset(rest);
          if y != x {
            assert y in multiset(rows[1..]);
            var k :| 0 <= k < |rows[1..]| && rows[1..][k] == y;
            assert rows[k + 1] == y;
          }
        }
      }
      [rows[0]] + rest
  }

  function SortByStart(rows: seq<Row>): (r: seq<Row>)
    ensures SortedByStart(r)
    ensures multiset(r) == multiset(rows)
  {
    if rows == [] then []
    else
      assert rows == [rows[0]] + rows[1..];
      InsertByStart(rows[0], SortByStart(rows[1..]))
  }

  /** A row of the query result: the selected row and its bookmark `COUNT(*)`. */
  datatype ResultRow = ResultRow(row: Row, bookmarks: nat)

  /** Each row with the bookmark subquery's count for `user`. */
  function Counted(db: Db, user: UserId, rows: seq<Row>): (r: seq<ResultRow>)
    ensures |r| == |rows|
    ensures forall i :: 0 <= i < |rows| ==>
              r[i].row == rows[i] && r[i].bookmarks == db.bookmarks[Bookmark(user, rows[i].id)]
  {
    seq(|rows|, i requires 0 <= i < |rows| => ResultRow(rows[i], BookmarkCount(db, user, rows[i].id)))
  }

  /** The database's evaluation of a composed list query. */
  function Execute(db: Db, l: ListSql): Option<seq<ResultRow>> {
    if Placeholders(l.text) != |l.params| || |l.params| == 0 || !l.params[0].PNum? then None
    else
      match Bind(l.conditions, l.params[1..])
      case None => None
      case Some(bs) => Some(Counted(db, l.params[0].n, SortByStart(Select(Scan(db), bs))))
  }

  /** The list row sent to the client: the count becomes a boolean. */
  function ToSummary(r: ResultRow): Summary {
    var e := r.row.event;
    Summary(r.row.id, e.nama_acara, e.deskripsi, e.tanggal_mulai, e.lokasi, e.banner_image,
            e.kategori, e.harga_tiket, r.bookmarks > 0)
  }

  /** The rows as sent: each keeps its key and columns, and its count becomes the `is_bookmarked` flag. */
  function Summaries(rows: seq<ResultRow>): (r: seq<Summary>)
    ensures |r| == |rows|
    ensures forall i :: 0 <= i < |rows| ==>
              r[i].event_id == rows[i].row.id && (r[i].is_bookmarked <==> rows[i].bookmarks > 0)
    ensures forall i :: 0 <= i < |rows| ==>
              var e := rows[i].row.event;
              && r[i].nama_acara == e.nama_acara && r[i].deskripsi == e.deskripsi
              && r[i].tanggal_mulai == e.tanggal_mulai && r[i].lokasi == e.lokasi
              && r[i].banner_image == e.banner_image && r[i].kategori == e.kategori
              && r[i].harga_tiket == e.harga_tiket
  {
    seq(|rows|, i requires 0 <= i < |rows| => ToSummary(rows[i]))
  }

  /** `GET /events`. */
  function GetAllEvents(db: Db, q: ListQuery, authorization: Option<string>, verify: Verifier): Response {
    match Execute(db, ComposeList(q, SoftAuth(authorization, verify)))
    case None => Response(500, Message(ServerErrorMessage))
    case Some(rows) => Response(200, EventList(Summaries(rows)))
  }

  // ---------------------------------------------------------------------------
  // The filter semantics, stated directly on the query string

  /** An event passes every filter the query string supplies, all of them ANDed. */
  predicate Matches(e: Event, q: ListQuery) {
    && (Truthy(q.search) ==> e.nama_acara.Text? && Contains(e.nama_acara.s, q.search.value))
    && (Truthy(q.category) ==> e.kategori == Text(q.category.value))
    && (Truthy(q.month) && Truthy(q.year) ==> InMonth(StartOf(e), q.month.value, q.year.value))
    && (Truthy(q.startDate) && Truthy(q.endDate) ==> InDateRange(StartOf(e), q.startDate.value, q.endDate.value))
  }

  // ---------------------------------------------------------------------------
  // The composed query means exactly the filters

  /** The bound condition each filter contributes, empty when the filter is absent. */
  function SearchBound(q: ListQuery): seq<Bound> {
    if Truthy(q.search) then [LikeB(PStr("%" + q.search.value + "%"))] else []
  }

  function CategoryBound(q: ListQuery): seq<Bound> {
    if Truthy(q.category) then [CategoryB(PStr(q.category.value))] else []
  }

  function MonthBound(q: ListQuery): seq<Bound> {
    if Truthy(q.month) && Truthy(q.year) then [MonthYearB(PStr(q.month.value), PStr(q.year.value))] else []
  }

  function DatesBound(q: ListQuery): seq<Bound> {
    if Truthy(q.startDate) && Truthy(q.endDate) then [BetweenB(PStr(q.startDate.value), PStr(q.endDate.value))] else []
  }

  /** The bound conditions the composed query should carry, in clause order. */
  function ExpectedBound(q: ListQuery): seq<Bound> {
    SearchBound(q) + CategoryBound(q) + MonthBound(q) + DatesBound(q)
  }

  lemma {:induction false} BindAppend(cs: seq<Condition>, ps: seq<SqlParam>, c: Condition, args: seq<SqlParam>)
    requires Bind(cs, ps).Some? && |args| == Arity(c)
    ensures Bind(cs + [c], ps + args) == Some(Bind(cs, ps).value + [BindOne(c, args)])
    decreases |cs|
  {
    if cs == [] {
      assert ps == [];
      assert ps + args == args;
      assert [c][1..] == [];
      assert args[Arity(c)..] == [];
      assert args[..Arity(c)] == args;
      assert Bind([c][1..], args[Arity(c)..]) == Some([]);
      assert Bind([c], args) == Some([BindOne(c, args)] + []);
      assert [BindOne(c, args)] + [] == [] + [BindOne(c, args)];
    } else {
      var k := Arity(cs[0]);
      assert |ps| >= k;
      var restB := Bind(cs[1..], ps[k..]);
      assert restB.Some? && Bind(cs, ps).value == [BindOne(cs[0], ps[..k])] + restB.value;
      var cs' := cs + [c];
      var ps' := ps + args;
      assert cs' != [] && cs'[0] == cs[0] && |ps'| >= k;
      assert cs'[1..] == cs[1..] + [c];
      assert ps'[k..] == ps[k..] + args;
      assert ps'[..k] == ps[..k];
      BindAppend(cs[1..], ps[k..], c, args);
      assert Bind(cs'[1..], ps'[k..]) == Some(restB.value + [BindOne(c, args)]);
      assert [BindOne(cs[0], ps[..k])] + (restB.value + [BindOne(c, args)])
             == ([BindOne(cs[0], ps[..k])] + restB.value) + [BindOne(c, args)];
    }
  }

  /** Adding a condition binds its own arguments after the earlier ones. */
  lemma AddConditionBinds(l: ListSql, c: Condition, args: seq<SqlParam>, before: seq<Bound>)
    requires Aligned(l) && |args| == Arity(c) && Bind(l.conditions, l.params[1..]) == Some(before)
    ensures Bind(AddCondition(l, c, args).conditions, AddCondition(l, c, args).params[1..])
            == Some(before + [BindOne(c, args)])
  {
    assert (l.params + args)[1..] == l.params[1..] + args;
    BindAppend(l.conditions, l.params[1..], c, args);
  }

  lemma WithSearchBinds(l: ListSql, q: ListQuery, before: seq<Bound>)
    requires Aligned(l) && Bind(l.conditions, l.params[1..]) == Some(before)
    ensures Bind(WithSearch(l, q).conditions, WithSearch(l, q).params[1..]) == Some(before + SearchBound(q))
  {
    if Truthy(q.search) {
      AddConditionBinds(l, NameLike, [PStr("%" + q.search.value + "%")], before);
    } else {
      assert before + [] == before;
    }
  }

  lemma WithCategoryBinds(l: ListSql, q: ListQuery, before: seq<Bound>)
    requires Aligned(l) && Bind(l.conditions, l.params[1..]) == Some(before)
    ensures Bind(WithCategory(l, q).conditions, WithCategory(l, q).params[1..]) == Some(before + CategoryBound(q))
  {
    if Truthy(q.category) {
      AddConditionBinds(l, CategoryIs, [PStr(q.category.value)], before);
    } else {
      assert before + [] == before;
    }
  }

  lemma WithMonthBinds(l: ListSql, q: ListQuery, before: seq<Bound>)
    requires Aligned(l) && Bind(l.conditions, l.params[1..]) == Some(before)
    ensures Bind(WithMonth(l, q).conditions, WithMonth(l, q).params[1..]) == Some(before + MonthBound(q))
  {
    if Truthy(q.month) && Truthy(q.year) {
      AddConditionBinds(l, MonthYear, [PStr(q.month.value), PStr(q.year.value)], before);
    } else {
      assert before + [] == before;
    }
  }

  lemma WithDatesBinds(l: ListSql, q: ListQuery, before: seq<Bound>)
    requires Aligned(l) && Bind(l.conditions, l.params[1..]) == Some(before)
    ensures Bind(WithDates(l, q).conditions, WithDates(l, q).params[1..]) == Some(before + DatesBound(q))
  {
    if Truthy(q.startDate) && Truthy(q.endDate) {
      AddConditionBinds(l, DateBetween, [PStr(q.startDate.value), PStr(q.endDate.value)], before);
    } else {
      assert before + [] == before;
    }
  }

  /** The parameters line up with the conditions: each condition receives its own values. */
  lemma ComposeListBinds(q: ListQuery, userId: Option<UserId>)
    ensures Bind(ComposeList(q, userId).conditions, ComposeList(q, userId).params[1..]) == Some(ExpectedBound(q))
  {
    var b0 := BaseList(userId);
    assert Bind(b0.conditions, b0.params[1..]) == Some([]);
    var b1 := WithSearch(b0, q);
    WithSearchBinds(b0, q, []);
    assert [] + SearchBound(q) == SearchBound(q);
    var b2 := WithCategory(b1, q);
    WithCategoryBinds(b1, q, SearchBound(q));
    var b3 := WithMonth(b2, q);
    WithMonthBinds(b2, q, SearchBound(q) + CategoryBound(q));
    var b4 := WithDates(b3, q);
    WithDatesBinds(b3, q, SearchBound(q) + CategoryBound(q) + MonthBound(q));
    assert ComposeList(q, userId).conditions == b4.conditions;
    assert ComposeList(q, userId).params == b4.params;
  }

  lemma AllHoldAppend(a: seq<Bound>, b: seq<Bound>, e: Event)
    ensures AllHold(a + b, e) <==> AllHold(a, e) && AllHold(b, e)
  {
    if AllHold(a, e) && AllHold(b, e) {
      forall i | 0 <= i < |a + b| ensures Holds((a + b)[i], e) {
        if i >= |a| { assert (a + b)[i] == b[i - |a|]; }
      }
    }
    if AllHold(a + b, e) {
      forall i | 0 <= i < |a| ensures Holds(a[i], e) {
        assert (a + b)[i] == a[i];
      }
      forall i | 0 <= i < |b| ensures Holds(b[i], e) {
        assert (a + b)[|a| + i] == b[i];
      }
    }
  }

  /** The `%search%` pattern accepts a name exactly when `search` occurs in it. */
  lemma LikeSubstring(text: string, s: string)
    ensures Like(text, "%" + s + "%") <==> Contains(text, s)
  {
    var p := "%" + s + "%";
    assert p[1..|p| - 1] == s;
  }

  lemma AllHoldSingle(b: Bound, e: Event)
    ensures AllHold([b], e) <==> Holds(b, e)
  {
    assert [b][0] == b;
  }

  /** The bound conditions of the composed query accept exactly the events that match the filters. */
  lemma ExpectedBoundMeansMatches(q: ListQuery, e: Event)
    ensures AllHold(ExpectedBound(q), e) <==> Matches(e, q)
  {
    var e1, e2, e3, e4 := SearchBound(q), CategoryBound(q), MonthBound(q), DatesBound(q);
    AllHoldAppend(e1 + e2 + e3, e4, e);
    AllHoldAppend(e1 + e2, e3, e);
    AllHoldAppend(e1, e2, e);
    if Truthy(q.search) {
      AllHoldSingle(e1[0], e);
      assert e1 == [e1[0]];
      if e.nama_acara.Text? {
        LikeSubstring(e.nama_acara.s, q.search.value);
      }
    }
    if Truthy(q.category) {
      AllHoldSingle(e2[0], e);
      assert e2 == [e2[0]];
    }
    if Truthy(q.month) && Truthy(q.year) {
      AllHoldSingle(e3[0], e);
      assert e3 == [e3[0]];
    }
    if Truthy(q.startDate) && Truthy(q.endDate) {
      AllHoldSingle(e4[0], e);
      assert e4 == [e4[0]];
    }
  }

  /** The rows `getAllEvents` returns, before projection: matching events by start time. */
  function Listed(db: Db, q: ListQuery): seq<Row> {
    SortByStart(Select(Scan(db), ExpectedBound(q)))
  }

  /**
   * Soft authentication never fails the request: `GET /events` always
   * answers 200 with the matching rows, by start time, each carrying the
   * bookmark count of the bookmark user.
   */
  lemma GetAllEventsIs(db: Db, q: ListQuery, authorization: Option<string>, verify: Verifier)
    ensures GetAllEvents(db, q, authorization, verify)
            == Response(200, EventList(Summaries(Counted(db, BookmarkUser(SoftAuth(authorization, verify)), Listed(db, q)))))
  {
    ComposeListBinds(q, SoftAuth(authorization, verify));
  }

  /** A listed row is a stored row that passes the bound conditions. */
  lemma ListedRowStored(db: Db, q: ListQuery, x: Row)
    requires x in Listed(db, q)
    ensures x.id in db.events && db.events[x.id] == x.event && Matches(x.event, q)
  {
    var scan := Scan(db);
    var sel := Select(scan, ExpectedBound(q));
    assert x in multiset(Listed(db, q));
    assert x in multiset(sel);
    assert x in sel;
    var k :| 0 <= k < |scan| && scan[k] == x;
    ExpectedBoundMeansMatches(q, x.event);
  }

  /** Every listed event exists and passes every supplied filter. */
  lemma ListSound(db: Db, q: ListQuery, authorization: Option<string>, verify: Verifier)
    ensures var r := GetAllEvents(db, q, authorization, verify);
            r.payload.EventList? &&
            forall i :: 0 <= i < |r.payload.rows| ==>
              r.payload.rows[i].event_id in db.events && Matches(db.events[r.payload.rows[i].event_id], q)
  {
    GetAllEventsIs(db, q, authorization, verify);
    var listed := Listed(db, q);
    var user := BookmarkUser(SoftAuth(authorization, verify));
    var rows := Summaries(Counted(db, user, listed));
    forall i | 0 <= i < |rows|
      ensures rows[i].event_id in db.events && Matches(db.events[rows[i].event_id], q)
    {
      assert rows[i].event_id == listed[i].id;
      ListedRowStored(db, q, listed[i]);
    }
  }

  /** A stored event that passes the filters is among the listed rows. */
  lemma MatchingRowListed(db: Db, q: ListQuery, x: Row)
    requires x in Scan(db) && Matches(x.event, q)
    ensures x in Listed(db, q)
  {
    ExpectedBoundMeansMatches(q, x.event);
    var sel := Select(Scan(db), ExpectedBound(q));
    assert x in sel;
    assert x in multiset(sel);
    assert x in multiset(Listed(db, q));
  }

  lemma ListedComplete(db: Db, q: ListQuery, id: EventId) returns (i: nat)
    requires Consistent(db) && id in db.events && Matches(db.events[id], q)
    ensures i < |Listed(db, q)| && Listed(db, q)[i].id == id
  {
    var scan := Scan(db);
    var k :| 0 <= k < |scan| && scan[k].id == id;
    MatchingRowListed(db, q, scan[k]);
    var listed := Listed(db, q);
    i :| 0 <= i < |listed| && listed[i] == scan[k];
  }

  /** Every stored event that passes the filters is listed. */
  lemma ListComplete(db: Db, q: ListQuery, authorization: Option<string>, verify: Verifier, id: EventId)
    requires Consistent(db) && id in db.events && Matches(db.events[id], q)
    ensures var r := GetAllEvents(db, q, authorization, verify);
            r.payload.EventList? && exists i :: 0 <= i < |r.payload.rows| && r.payload.rows[i].event_id == id
  {
    var i := ListedComplete(db, q, id);
    GetAllEventsIs(db, q, authorization, verify);
    var listed := Listed(db, q);
    var rows := Summaries(Counted(db, BookmarkUser(SoftAuth(authorization, verify)), listed));
    assert rows[i].event_id == id;
  }

  /** The list is ordered by `tanggal_mulai`, ascending. */
  lemma ListOrdered(db: Db, q: ListQuery, authorization: Option<string>, verify: Verifier)
    ensures var r := GetAllEvents(db, q, authorization, verify);
            r.payload.EventList? &&
            forall i, j :: 0 <= i < j < |r.payload.rows| ==>
              StartValueLe(r.payload.rows[i].tanggal_mulai, r.payload.rows[j].tanggal_mulai)
  {
    GetAllEventsIs(db, q, authorization, verify);
    var listed := Listed(db, q);
    var rows := Summaries(Counted(db, BookmarkUser(SoftAuth(authorization, verify)), listed));
    forall i, j | 0 <= i < j < |rows|
      ensures StartValueLe(rows[i].tanggal_mulai, rows[j].tanggal_mulai)
    {
      assert StartLe(listed[i], listed[j]);
    }
  }

  /** `is_bookmarked` holds exactly when the bookmark user has a bookmark row for the event. */
  lemma ListBookmarkFlag(db: Db, q: ListQuery, authorization: Option<string>, verify: Verifier)
    ensures var r := GetAllEvents(db, q, authorization, verify);
            var user := BookmarkUser(SoftAuth(authorization, verify));
            r.payload.EventList? &&
            forall i :: 0 <= i < |r.payload.rows| ==>
              (r.payload.rows[i].is_bookmarked <==> Bookmark(user, r.payload.rows[i].event_id) in db.bookmarks)
  {
    GetAllEventsIs(db, q, authorization, verify);
  }

  /**
   * A guest (no header, or a token that does not verify) is bound as user 0,
   * who owns no bookmark, so the request still succeeds and no row is flagged.
   */
  lemma GuestSeesNoBookmarks(db: Db, q: ListQuery, authorization: Option<string>, verify: Verifier)
    requires Consistent(db) && SoftAuth(authorization, verify).None?
    ensures var r := GetAllEvents(db, q, authorization, verify);
            r.status == 200 && r.payload.EventList? &&
            forall i :: 0 <= i < |r.payload.rows| ==> !r.payload.rows[i].is_bookmarked
  {
    GetAllEventsIs(db, q, authorization, verify);
    ListBookmarkFlag(db, q, authorization, verify);
    assert Bookmark(0, 0).user == 0;
  }

  lemma {:induction false} IncreasingIdsOnce(rows: seq<Row>)
    requires forall i, j :: 0 <= i < j < |rows| ==> rows[i].id < rows[j].id
    ensures forall x :: multiset(rows)[x] <= 1
  {
    if rows != [] {
      var front := rows[..|rows| - 1];
      IncreasingIdsOnce(front);
      assert rows == front + [rows[|rows| - 1]];
      assert rows[|rows| - 1] !in front;
    }
  }

  lemma RepeatedTwice(s: seq<Row>, i: nat, j: nat)
    requires i < j < |s| && s[i] == s[j]
    ensures multiset(s)[s[i]] >= 2
  {
    assert s == s[..j] + s[j..];
    assert s[i] in s[..j];
    assert s[j] in s[j..];
  }

  /** No event is listed twice. */
  lemma ListDistinct(db: Db, q: ListQuery, authorization: Option<string>, verify: Verifier)
    ensures var r := GetAllEvents(db, q, authorization, verify);
            r.payload.EventList? &&
            forall i, j :: 0 <= i < j < |r.payload.rows| ==> r.payload.rows[i].event_id != r.payload.rows[j].event_id
  {
    GetAllEventsIs(db, q, authorization, verify);
    var scan := Scan(db);
    var sel := Select(scan, ExpectedBound(q));
    var listed := Listed(db, q);
    var rows := Summaries(Counted(db, BookmarkUser(SoftAuth(authorization, verify)), listed));
    IncreasingIdsOnce(scan);
    forall i, j | 0 <= i < j < |rows|
      ensures rows[i].event_id != rows[j].event_id
    {
      if listed[i].id == listed[j].id {
        ListedRowStored(db, q, listed[i]);
        ListedRowStored(db, q, listed[j]);
        assert listed[i] == listed[j];
        RepeatedTwice(listed, i, j);
      }
    }
  }
}
