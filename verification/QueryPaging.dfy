/** Paging by whole queries. A page is what a database answers to the text of its query: the rows
    that pass the predicate where it stands, sorted by the ORDER BY that stands in the query, cut by
    its OFFSET and LIMIT. The rows it is answered from are stored in any order. */
module QueryPaging {
  import opened ByteStrings
  import opened SqlTokens
  import opened SqlFilter
  import opened SqlMeaning
  import opened KeysetPaging
  import opened SqlQuery
  import opened QueryReading

  type Less = (Value, Value) -> bool

  // ------------------------------------------------------------------ sorting

  function Insert(less: Less, ds: seq<Descriptor>, row: Row, rows: seq<Row>): seq<Row> {
    if rows == [] || After(less, ds, Key(rows[0], ds), Key(row, ds)) then [row] + rows
    else [rows[0]] + Insert(less, ds, row, rows[1..])
  }

  /** What ORDER BY makes of rows. */
  function Sorted(less: Less, ds: seq<Descriptor>, rows: seq<Row>): seq<Row> {
    if rows == [] then [] else Insert(less, ds, rows[0], Sorted(less, ds, rows[1..]))
  }

  /** Ordering fields are not null and no two rows have the same. */
  ghost predicate Apart(ds: seq<Descriptor>, rows: seq<Row>) {
    && (forall i :: 0 <= i < |rows| ==> NoNull(Key(rows[i], ds)))
    && forall i, j :: 0 <= i < j < |rows| ==> Key(rows[i], ds) != Key(rows[j], ds)
  }

  lemma {:induction false} AfterTotal(less: Less, ds: seq<Descriptor>, a: seq<Value>, b: seq<Value>)
    requires StrictOrder(less) && |ds| == |a| == |b| && a != b
    ensures After(less, ds, a, b) || After(less, ds, b, a)
    decreases |ds|
  {
    if a[0] == b[0] {
      assert a == [a[0]] + a[1..] && b == [b[0]] + b[1..];
      AfterTotal(less, ds[1..], a[1..], b[1..]);
    }
  }

  lemma {:induction false} AfterTransitive(less: Less, ds: seq<Descriptor>, a: seq<Value>, b: seq<Value>, c: seq<Value>)
    requires StrictOrder(less) && |ds| == |a| == |b| == |c| && After(less, ds, a, b) && After(less, ds, b, c)
    ensures After(less, ds, a, c)
    decreases |ds|
  {
    if a[0] == b[0] && b[0] == c[0] {
      NotBeyondSelf(less, ds[0], a[0]);
      AfterTransitive(less, ds[1..], a[1..], b[1..], c[1..]);
    }
  }

  lemma NotBeyondSelf(less: Less, d: Descriptor, x: Value)
    requires StrictOrder(less)
    ensures !Beyond(less, d, x, x)
  {
  }

  /** A row whose key none of the others has. */
  ghost predicate Alone(ds: seq<Descriptor>, row: Row, rows: seq<Row>) {
    NoNull(Key(row, ds)) && forall i :: 0 <= i < |rows| ==> Key(rows[i], ds) != Key(row, ds)
  }

  lemma {:induction false} InsertKeeps(less: Less, ds: seq<Descriptor>, row: Row, rows: seq<Row>)
    requires StrictOrder(less) && Enumerable(less, ds, rows) && Alone(ds, row, rows)
    ensures Enumerable(less, ds, Insert(less, ds, row, rows))
    ensures multiset(Insert(less, ds, row, rows)) == multiset(rows) + multiset{row}
    decreases |rows|
  {
    hide StrictOrder, After, Key, NoNull;
    if rows == [] {
    } else if After(less, ds, Key(rows[0], ds), Key(row, ds)) {
      FirstBefore(less, ds, row, rows);
    } else {
      AfterTotal(less, ds, Key(rows[0], ds), Key(row, ds));
      assert rows == [rows[0]] + rows[1..];
      InsertKeeps(less, ds, row, rows[1..]);
      FirstStays(less, ds, row, rows);
    }
  }

  lemma FirstBefore(less: Less, ds: seq<Descriptor>, row: Row, rows: seq<Row>)
    requires StrictOrder(less) && Enumerable(less, ds, rows) && rows != [] && NoNull(Key(row, ds))
    requires After(less, ds, Key(rows[0], ds), Key(row, ds))
    ensures Enumerable(less, ds, [row] + rows)
  {
    hide StrictOrder, After, Key, NoNull;
    forall j | 0 < j < |rows| ensures After(less, ds, Key(rows[j], ds), Key(row, ds)) {
      AfterTransitive(less, ds, Key(rows[j], ds), Key(rows[0], ds), Key(row, ds));
    }
  }

  lemma FirstStays(less: Less, ds: seq<Descriptor>, row: Row, rows: seq<Row>)
    requires rows != [] && Enumerable(less, ds, rows) && After(less, ds, Key(row, ds), Key(rows[0], ds))
    requires var more := Insert(less, ds, row, rows[1..]);
             Enumerable(less, ds, more) && multiset(more) == multiset(rows[1..]) + multiset{row}
    ensures Enumerable(less, ds, [rows[0]] + Insert(less, ds, row, rows[1..]))
  {
    hide StrictOrder, After, Key, NoNull, Insert;
    var more := Insert(less, ds, row, rows[1..]);
    forall j | 0 <= j < |more| ensures After(less, ds, Key(more[j], ds), Key(rows[0], ds)) {
      assert more[j] in multiset(more);
      if more[j] != row {
        assert more[j] in multiset(rows[1..]) && more[j] in rows[1..];
        var k :| 0 <= k < |rows[1..]| && rows[1..][k] == more[j];
        assert rows[k + 1] == more[j];
      }
    }
  }

  /** Sorting loses and invents nothing and puts the rows in strict order. */
  lemma {:induction false} SortedIs(less: Less, ds: seq<Descriptor>, rows: seq<Row>)
    requires StrictOrder(less) && Apart(ds, rows)
    ensures Enumerable(less, ds, Sorted(less, ds, rows)) && multiset(Sorted(less, ds, rows)) == multiset(rows)
    decreases |rows|
  {
    hide StrictOrder, After, Key, NoNull, Insert;
    if rows != [] {
      var sorted := Sorted(less, ds, rows[1..]);
      SortedIs(less, ds, rows[1..]);
      AloneInSorted(ds, rows, sorted);
      InsertKeeps(less, ds, rows[0], sorted);
      assert rows == [rows[0]] + rows[1..];
    }
  }

  lemma AloneInSorted(ds: seq<Descriptor>, rows: seq<Row>, sorted: seq<Row>)
    requires rows != [] && Apart(ds, rows) && multiset(sorted) == multiset(rows[1..])
    ensures Alone(ds, rows[0], sorted)
  {
    hide Key, NoNull;
    forall i | 0 <= i < |sorted| ensures Key(sorted[i], ds) != Key(rows[0], ds) {
      assert sorted[i] in multiset(sorted) && sorted[i] in rows[1..];
      var k :| 0 <= k < |rows[1..]| && rows[1..][k] == sorted[i];
      assert rows[k + 1] == sorted[i];
    }
  }

  // ------------------------------------------------------------------ sorting what passes

  /** The rows after a token. */
  function Behinds(less: Less, ds: seq<Descriptor>, token: seq<Value>, rows: seq<Row>): seq<Row>
    requires |ds| == |token|
  {
    if rows == [] then []
    else (if After(less, ds, Key(rows[0], ds), token) then [rows[0]] else []) + Behinds(less, ds, token, rows[1..])
  }

  lemma {:induction false} InsertBehinds(less: Less, ds: seq<Descriptor>, token: seq<Value>, row: Row, rows: seq<Row>)
    requires StrictOrder(less) && |ds| == |token| && Enumerable(less, ds, rows)
    ensures Behinds(less, ds, token, Insert(less, ds, row, rows)) ==
            if After(less, ds, Key(row, ds), token) then Insert(less, ds, row, Behinds(less, ds, token, rows))
            else Behinds(less, ds, token, rows)
    decreases |rows|
  {
    hide StrictOrder, After, Key, NoNull;
    if rows == [] {
      assert Insert(less, ds, row, rows) == [row] && [row][1..] == [];
    } else if After(less, ds, Key(rows[0], ds), Key(row, ds)) {
      assert ([row] + rows)[1..] == rows;
      if After(less, ds, Key(row, ds), token) {
        AfterTransitive(less, ds, Key(rows[0], ds), Key(row, ds), token);
        assert Behinds(less, ds, token, rows)[0] == rows[0];
      }
    } else {
      InsertBehinds(less, ds, token, row, rows[1..]);
      BehindsCons(less, ds, token, rows[0], Insert(less, ds, row, rows[1..]));
      BehindsCons(less, ds, token, rows[0], rows[1..]);
      assert rows == [rows[0]] + rows[1..];
      StepBehinds(less, ds, token, row, rows);
    }
  }

  lemma BehindsCons(less: Less, ds: seq<Descriptor>, token: seq<Value>, row: Row, rows: seq<Row>)
    requires |ds| == |token|
    ensures Behinds(less, ds, token, [row] + rows) ==
            if After(less, ds, Key(row, ds), token) then [row] + Behinds(less, ds, token, rows) else Behinds(less, ds, token, rows)
  {
    hide After, Key;
    assert ([row] + rows)[1..] == rows;
  }

  lemma StepBehinds(less: Less, ds: seq<Descriptor>, token: seq<Value>, row: Row, rows: seq<Row>)
    requires rows != [] && |ds| == |token| && !After(less, ds, Key(rows[0], ds), Key(row, ds))
    ensures After(less, ds, Key(rows[0], ds), token) ==>
              Insert(less, ds, row, Behinds(less, ds, token, rows)) == [rows[0]] + Insert(less, ds, row, Behinds(less, ds, token, rows[1..]))
  {
    hide After, Key;
    if After(less, ds, Key(rows[0], ds), token) {
      var more := Behinds(less, ds, token, rows[1..]);
      assert Behinds(less, ds, token, rows) == [rows[0]] + more && ([rows[0]] + more)[1..] == more;
    }
  }

  /** Sorting the rows behind a token is taking those behind it from the sorted rows. */
  lemma {:induction false} SortedBehinds(less: Less, ds: seq<Descriptor>, token: seq<Value>, rows: seq<Row>)
    requires StrictOrder(less) && |ds| == |token| && Apart(ds, rows)
    ensures Sorted(less, ds, Behinds(less, ds, token, rows)) == Behinds(less, ds, token, Sorted(less, ds, rows))
    decreases |rows|
  {
    hide StrictOrder, After, Key, NoNull, Insert;
    if rows != [] {
      SortedIs(less, ds, rows[1..]);
      SortedBehinds(less, ds, token, rows[1..]);
      InsertBehinds(less, ds, token, rows[0], Sorted(less, ds, rows[1..]));
      OneMoreBehind(less, ds, token, rows);
    }
  }

  lemma OneMoreBehind(less: Less, ds: seq<Descriptor>, token: seq<Value>, rows: seq<Row>)
    requires rows != [] && |ds| == |token|
    ensures var more := Behinds(less, ds, token, rows[1..]);
            Sorted(less, ds, Behinds(less, ds, token, rows)) ==
            if After(less, ds, Key(rows[0], ds), token) then Insert(less, ds, rows[0], Sorted(less, ds, more)) else Sorted(less, ds, more)
  {
    hide After, Key, Insert;
    var more := Behinds(less, ds, token, rows[1..]);
    assert ([rows[0]] + more)[1..] == more && [] + more == more;
  }

  /** Behind the key of a sorted row stand the rows after it. */
  lemma {:induction false} BehindsAreSuffix(less: Less, ds: seq<Descriptor>, all: seq<Row>, i: nat, from: nat)
    requires StrictOrder(less) && Enumerable(less, ds, all) && i < |all| && from <= |all|
    ensures Behinds(less, ds, Key(all[i], ds), all[from..]) == if from <= i then all[i + 1..] else all[from..]
    decreases |all| - from
  {
    hide StrictOrder, After, Key, NoNull;
    if from < |all| {
      BehindsAreSuffix(less, ds, all, i, from + 1);
      var token := Key(all[i], ds);
      assert all[from..][0] == all[from] && all[from..][1..] == all[from + 1..];
      if from < i {
        AfterAsymmetric(less, ds, token, Key(all[from], ds));
      } else if from == i {
        AfterIrreflexive(less, ds, token);
      }
      assert [all[from]] + all[from + 1..] == all[from..];
    }
  }

  // ------------------------------------------------------------------ the database's answer

  /** Does a row of the last stage pass the predicate of the query, read in its place behind the other
      conditions - on any rows `earlier` - under the query's parameters? */
  predicate Passes(query: Built<seq<Text>>, db: Database, earlier: seq<Row>, row: Row) {
    match ReadText(db, query.params, query.texts, earlier + [row], 0)
    case None => false
    case Some(r) => r.0 != [] && r.0[|r.0| - 1] == Yes
  }

  function Passing(query: Built<seq<Text>>, db: Database, earlier: seq<Row>, rows: seq<Row>): seq<Row> {
    if rows == [] then []
    else (if Passes(query, db, earlier, rows[0]) then [rows[0]] else []) + Passing(query, db, earlier, rows[1..])
  }

  function Dropped(rows: seq<Row>, offset: nat): seq<Row> {
    if |rows| <= offset then [] else rows[offset..]
  }

  /** Filtered, sorted and cut as the last SELECT of the text says. Without an ORDER BY, the rows
      come as they are stored. */
  function Answer(query: Built<seq<Text>>, db: Database, less: Less, earlier: seq<Row>, table: seq<Row>): Option<seq<Row>> {
    match ReadQuery(query.texts)
    case None => None
    case Some(view) =>
      var passing := if view.skip.None? then table else Passing(query, db, earlier, table);
      var ordered := if view.cut.order == [] then passing else Sorted(less, view.cut.order, passing);
      var rest := Dropped(ordered, if view.cut.offset.None? then 0 else view.cut.offset.value);
      Some(if view.cut.limit.None? then rest else Limited(rest, view.cut.limit.value))
  }

  /** What a client collects that follows the tokens, in at most `steps` requests. */
  function FollowQueries(d: Dialect, stages: seq<Stage>, ds: seq<Descriptor>, pageSize: nat, db: Database, less: Less,
                         earlier: seq<Row>, table: seq<Row>, token: Option<seq<Value>>, steps: nat): Option<seq<Row>>
    requires pageSize > 0
    decreases steps
  {
    if steps == 0 then None
    else match BuildQuery(d, stages, Some(Paging(ds, pageSize, token)))
      case None => None
      case Some(query) =>
        match Answer(query, db, less, earlier, table)
        case None => None
        case Some(result) =>
          var page := FetchPage(result, ds, pageSize);
          if page.next.None? then Some(page.rows)
          else match FollowQueries(d, stages, ds, pageSize, db, less, earlier, table, page.next, steps - 1)
            case None => None
            case Some(more) => Some(page.rows + more)
  }

  // ------------------------------------------------------------------ one page

  /** A database that compares by a strict order, and rows for the stages' conditions. */
  ghost predicate Setting(db: Database, less: Less, stages: seq<Stage>, earlier: seq<Row>) {
    Compares(db, less) && StrictOrder(less) && AllProper(ClausesOfStages(stages), earlier)
  }

  lemma PassesAfter(d: Dialect, stages: seq<Stage>, ds: seq<Descriptor>, pageSize: nat, db: Database, less: Less, earlier: seq<Row>,
                    token: seq<Value>, row: Row)
    requires Setting(db, less, stages, earlier) && ds != [] && |token| == |ds| && NoNull(token) && NoNull(Key(row, ds))
    requires BuildQuery(d, stages, Some(Paging(ds, pageSize, Some(token)))).Some?
    ensures var query := BuildQuery(d, stages, Some(Paging(ds, pageSize, Some(token)))).value;
            Passes(query, db, earlier, row) <==> After(less, ds, Key(row, ds), token)
  {
    hide BuildQuery, NoNull, Key, After, ReadText, ClausesOfStages, Compares, StrictOrder, ClauseMeaning;
    var paging := Some(Paging(ds, pageSize, Some(token)));
    var cs, skip := ClausesOfStages(stages), InSkip(ds, token);
    assert ClausesOf(stages, paging) == cs + [skip];
    assert AllProper(cs + [skip], earlier + [row]) by { hide Proper; SkipProper(cs, skip, earlier, row); }
    WholeQueryReads(db, less, d, stages, paging, earlier + [row]);
    var query := BuildQuery(d, stages, paging).value;
    var v := Meanings(db, less, query.params, cs + [skip], earlier + [row]);
    assert |v| == |cs| + 1 && (cs + [skip])[|cs|] == skip && (earlier + [row])[|cs|] == row;
    SkipMeaning(View(db, row, query.params), less, ds, token, row);
  }

  lemma SkipProper(cs: seq<Clause>, skip: Clause, earlier: seq<Row>, row: Row)
    requires AllProper(cs, earlier) && Proper(skip, row)
    ensures AllProper(cs + [skip], earlier + [row])
  {
    hide Proper;
  }

  lemma SkipMeaning(e: Env, less: Less, ds: seq<Descriptor>, token: seq<Value>, row: Row)
    requires ProperToken(ds, token) && NoNull(Key(row, ds))
    ensures ClauseMeaning(e, less, InSkip(ds, token), row) == Yes <==> After(less, ds, Key(row, ds), token)
  {
    hide NoNull, Key, After;
  }

  lemma {:induction false} PassingAfter(d: Dialect, stages: seq<Stage>, ds: seq<Descriptor>, pageSize: nat, db: Database, less: Less,
                                        earlier: seq<Row>, token: seq<Value>, rows: seq<Row>)
    requires Setting(db, less, stages, earlier) && ds != [] && |token| == |ds| && NoNull(token)
    requires forall i :: 0 <= i < |rows| ==> NoNull(Key(rows[i], ds))
    requires BuildQuery(d, stages, Some(Paging(ds, pageSize, Some(token)))).Some?
    ensures var query := BuildQuery(d, stages, Some(Paging(ds, pageSize, Some(token)))).value;
            Passing(query, db, earlier, rows) == Behinds(less, ds, token, rows)
    decreases |rows|
  {
    hide BuildQuery, NoNull, Key, After, Setting, Passes;
    if rows != [] {
      PassesAfter(d, stages, ds, pageSize, db, less, earlier, token, rows[0]);
      PassingAfter(d, stages, ds, pageSize, db, less, earlier, token, rows[1..]);
    }
  }

  /** What a client pages over: non-empty stages that can be built, the fields and a page size that
      is not above the last stage's own top, as the controller sees to. */
  predicate Pageable(d: Dialect, stages: seq<Stage>, ds: seq<Descriptor>, pageSize: nat) {
    && stages != [] && BuildStages(d, stages, []).Some? && ds != [] && pageSize > 0
    && (stages[|stages| - 1].top.Some? ==> stages[|stages| - 1].top.value >= pageSize)
  }

  function OwnOrder(stages: seq<Stage>): seq<Descriptor>
    requires stages != []
  {
    WithField(stages[|stages| - 1].order)
  }

  function OwnSkip(stages: seq<Stage>): (offset: nat)
    requires stages != []
  {
    var skip := stages[|stages| - 1].skip;
    if skip.Some? && skip.value > 0 then skip.value else 0
  }

  /** How many rows a page's query asks for. */
  function Asked(stages: seq<Stage>, pageSize: nat): nat
    requires stages != []
  {
    var top := stages[|stages| - 1].top;
    if top.Some? && 0 <= top.value <= pageSize then top.value else pageSize + 1
  }

  lemma QueryBuilt(d: Dialect, stages: seq<Stage>, ds: seq<Descriptor>, pageSize: nat, token: Option<seq<Value>>)
    requires Pageable(d, stages, ds, pageSize) && (token.Some? ==> |token.value| == |ds|)
    ensures BuildQuery(d, stages, Some(Paging(ds, pageSize, token))).Some?
  {
    hide BuildStages, ComposeFinalQuery, SkipTokenPredicate, FinalLimit, OrderClause, AtLeastZero;
    BuiltCount(d, stages, []);
  }

  /** The rows a page is cut from: those behind the token, in the query's own order if it has one. */
  function Source(less: Less, order: seq<Descriptor>, ds: seq<Descriptor>, table: seq<Row>, token: Option<seq<Value>>): seq<Row>
    requires token.Some? ==> |token.value| == |ds|
  {
    var passing := if token.None? then table else Behinds(less, ds, token.value, table);
    if order == [] then passing else Sorted(less, order, passing)
  }

  lemma AnswerIs(d: Dialect, stages: seq<Stage>, ds: seq<Descriptor>, pageSize: nat, db: Database, less: Less, earlier: seq<Row>,
                 table: seq<Row>, token: Option<seq<Value>>)
    requires Pageable(d, stages, ds, pageSize) && Setting(db, less, stages, earlier)
    requires forall i :: 0 <= i < |table| ==> NoNull(Key(table[i], ds))
    requires token.Some? ==> |token.value| == |ds| && NoNull(token.value)
    ensures var query := BuildQuery(d, stages, Some(Paging(ds, pageSize, token)));
            query.Some? && Answer(query.value, db, less, earlier, table) ==
            Some(Limited(Dropped(Source(less, OwnOrder(stages), ds, table, token), OwnSkip(stages)), Asked(stages, pageSize)))
  {
    hide BuildQuery, ReadQuery, NoNull, Key, Setting, Sorted, Passing, Behinds, BuildStages, StagesAre, WithField, Limited, Dropped;
    var paging := Some(Paging(ds, pageSize, token));
    QueryBuilt(d, stages, ds, pageSize, token);
    var view := BuiltQueryRead(d, stages, paging);
    if token.Some? {
      PassingAfter(d, stages, ds, pageSize, db, less, earlier, token.value, table);
    }
    var last := stages[|stages| - 1];
    assert view.cut.order == OwnOrder(stages);
    assert (if view.cut.offset.None? then 0 else view.cut.offset.value) == OwnSkip(stages);
    assert view.cut.limit == Some(Asked(stages, pageSize)) by { LimitAsked(stages, pageSize, paging, view.cut.limit); }
  }

  lemma LimitAsked(stages: seq<Stage>, pageSize: nat, paging: Option<Paging>, v: Option<nat>)
    requires stages != [] && pageSize > 0 && paging.Some? && paging.value.pageSize == pageSize
    requires stages[|stages| - 1].top.Some? ==> stages[|stages| - 1].top.value >= pageSize
    requires LimitIs(stages[|stages| - 1].top, paging, v)
    ensures v == Some(Asked(stages, pageSize))
  {
  }

  // ------------------------------------------------------------------ all the pages

  /** Pages of `size` rows, in front of each of which `skip` rows are dropped. */
  function Chunked(rows: seq<Row>, skip: nat, size: nat): seq<Row>
    requires size > 0
    decreases |rows|
  {
    if |rows| <= skip + size then Dropped(rows, skip)
    else rows[skip..skip + size] + Chunked(rows[skip + size..], skip, size)
  }

  /** What following the tokens yields. */
  function Yield(stages: seq<Stage>, pageSize: nat, sorted: seq<Row>): seq<Row>
    requires stages != [] && pageSize > 0
  {
    if Asked(stages, pageSize) <= pageSize then Limited(Dropped(sorted, OwnSkip(stages)), pageSize)
    else Chunked(sorted, OwnSkip(stages), pageSize)
  }

  lemma CutPage(sorted: seq<Row>, from: nat, skip: nat, asked: nat, ds: seq<Descriptor>, pageSize: nat)
    requires from <= |sorted| && 0 < pageSize <= asked <= pageSize + 1 && ds != []
    requires forall i :: 0 <= i < |sorted| ==> NoNull(Key(sorted[i], ds))
    ensures var rest := sorted[from..];
            var page := FetchPage(Limited(Dropped(rest, skip), asked), ds, pageSize);
            if asked <= pageSize || |rest| <= skip + pageSize then page == Page(Limited(Dropped(rest, skip), pageSize), None)
            else page == Page(rest[skip..skip + pageSize], Some(Key(sorted[from + skip + pageSize - 1], ds)))
  {
    hide Key, NoNull, TokenOf;
    var rest := sorted[from..];
    var result := Limited(Dropped(rest, skip), asked);
    if asked == pageSize + 1 && |rest| > skip + pageSize {
      assert |result| == pageSize + 1 && result[pageSize - 1] == sorted[from + skip + pageSize - 1];
      TokenOfFull(sorted[from + skip + pageSize - 1], ds);
      assert Limited(Limited(result, pageSize + 1), pageSize) == rest[skip..skip + pageSize];
    } else {
      assert |result| <= pageSize;
      assert result == Limited(Dropped(rest, skip), pageSize);
    }
  }

  /** The place a token stands for among the sorted rows. */
  ghost predicate StandsAt(ds: seq<Descriptor>, sorted: seq<Row>, token: Option<seq<Value>>, from: nat) {
    from <= |sorted| && if token.None? then from == 0 else 0 < from && token.value == Key(sorted[from - 1], ds)
  }

  /** One request of a client, in terms of the sorted rows. */
  lemma PageAt(d: Dialect, stages: seq<Stage>, ds: seq<Descriptor>, pageSize: nat, db: Database, less: Less, earlier: seq<Row>,
               table: seq<Row>, token: Option<seq<Value>>, from: nat, steps: nat)
    requires Pageable(d, stages, ds, pageSize) && Setting(db, less, stages, earlier) && Apart(ds, table)
    requires OwnOrder(stages) == ds && steps > 0 && StandsAt(ds, Sorted(less, ds, table), token, from)
    ensures var sorted, skip := Sorted(less, ds, table), OwnSkip(stages);
            var rest := sorted[from..];
            FollowQueries(d, stages, ds, pageSize, db, less, earlier, table, token, steps) ==
            if Asked(stages, pageSize) <= pageSize || |rest| <= skip + pageSize then Some(Limited(Dropped(rest, skip), pageSize))
            else
              var more := FollowQueries(d, stages, ds, pageSize, db, less, earlier, table,
                                        Some(Key(sorted[from + skip + pageSize - 1], ds)), steps - 1);
              if more.None? then None else Some(rest[skip..skip + pageSize] + more.value)
  {
    hide BuildQuery, Answer, NoNull, Key, Setting, Sorted, Limited, Dropped, FetchPage, Pageable, Apart, Enumerable, FollowQueries,
         Source, Asked, OwnSkip, OwnOrder;
    AskedBounds(d, stages, ds, pageSize);
    var sorted, skip, asked := Sorted(less, ds, table), OwnSkip(stages), Asked(stages, pageSize);
    SortedFull(less, stages, db, earlier, ds, table);
    TableFull(ds, table);
    SourceIs(less, stages, db, earlier, ds, table, token, from);
    AnswerIs(d, stages, ds, pageSize, db, less, earlier, table, token);
    FollowStep(d, stages, ds, pageSize, db, less, earlier, table, token, steps, Limited(Dropped(sorted[from..], skip), asked));
    CutPage(sorted, from, skip, asked, ds, pageSize);
  }

  lemma {:induction false} FollowYields(d: Dialect, stages: seq<Stage>, ds: seq<Descriptor>, pageSize: nat, db: Database, less: Less,
                                        earlier: seq<Row>, table: seq<Row>, token: Option<seq<Value>>, from: nat, steps: nat)
    requires Pageable(d, stages, ds, pageSize) && Setting(db, less, stages, earlier) && Apart(ds, table)
    requires OwnOrder(stages) == ds && StandsAt(ds, Sorted(less, ds, table), token, from)
    requires steps > |Sorted(less, ds, table)| - from
    ensures FollowQueries(d, stages, ds, pageSize, db, less, earlier, table, token, steps) ==
            Some(Yield(stages, pageSize, Sorted(less, ds, table)[from..]))
    decreases steps
  {
    hide Key, Setting, Sorted, Limited, Dropped, Pageable, Apart, FollowQueries, Asked, OwnSkip, OwnOrder, Yield;
    AskedBounds(d, stages, ds, pageSize);
    var sorted, skip := Sorted(less, ds, table), OwnSkip(stages);
    var rest := sorted[from..];
    PageAt(d, stages, ds, pageSize, db, less, earlier, table, token, from, steps);
    YieldStep(stages, pageSize, rest);
    if Asked(stages, pageSize) > pageSize && |rest| > skip + pageSize {
      var next := from + skip + pageSize;
      FollowYields(d, stages, ds, pageSize, db, less, earlier, table, Some(Key(sorted[next - 1], ds)), next, steps - 1);
      assert rest[skip + pageSize..] == sorted[next..];
    }
  }

  lemma YieldStep(stages: seq<Stage>, pageSize: nat, rest: seq<Row>)
    requires stages != [] && pageSize > 0
    ensures var skip := OwnSkip(stages);
            Yield(stages, pageSize, rest) ==
            if Asked(stages, pageSize) <= pageSize || |rest| <= skip + pageSize then Limited(Dropped(rest, skip), pageSize)
            else rest[skip..skip + pageSize] + Yield(stages, pageSize, rest[skip + pageSize..])
  {
    hide Asked, OwnSkip, Limited, Dropped;
    if |rest| <= OwnSkip(stages) + pageSize {
      AllOfShort(rest, OwnSkip(stages), pageSize);
    }
  }

  lemma FollowStep(d: Dialect, stages: seq<Stage>, ds: seq<Descriptor>, pageSize: nat, db: Database, less: Less, earlier: seq<Row>,
                   table: seq<Row>, token: Option<seq<Value>>, steps: nat, result: seq<Row>)
    requires pageSize > 0 && steps > 0
    requires var query := BuildQuery(d, stages, Some(Paging(ds, pageSize, token)));
             query.Some? && Answer(query.value, db, less, earlier, table) == Some(result)
    ensures var page := FetchPage(result, ds, pageSize);
            FollowQueries(d, stages, ds, pageSize, db, less, earlier, table, token, steps) ==
            if page.next.None? then Some(page.rows)
            else
              var more := FollowQueries(d, stages, ds, pageSize, db, less, earlier, table, page.next, steps - 1);
              if more.None? then None else Some(page.rows + more.value)
  {
    hide BuildQuery, Answer, FetchPage;
  }

  lemma AskedBounds(d: Dialect, stages: seq<Stage>, ds: seq<Descriptor>, pageSize: nat)
    requires Pageable(d, stages, ds, pageSize)
    ensures stages != [] && 0 < pageSize <= Asked(stages, pageSize) <= pageSize + 1 && ds != []
  {
    hide BuildStages;
  }

  lemma AllOfShort(rest: seq<Row>, skip: nat, pageSize: nat)
    requires pageSize > 0 && |rest| <= skip + pageSize
    ensures Limited(Dropped(rest, skip), pageSize) == Dropped(rest, skip) == Chunked(rest, skip, pageSize)
  {
  }

  lemma TableFull(ds: seq<Descriptor>, table: seq<Row>)
    requires Apart(ds, table)
    ensures forall i :: 0 <= i < |table| ==> NoNull(Key(table[i], ds))
  {
    hide Key, NoNull;
  }

  lemma SortedFull(less: Less, stages: seq<Stage>, db: Database, earlier: seq<Row>, ds: seq<Descriptor>, table: seq<Row>)
    requires Setting(db, less, stages, earlier) && Apart(ds, table)
    ensures Enumerable(less, ds, Sorted(less, ds, table))
    ensures forall i :: 0 <= i < |Sorted(less, ds, table)| ==> NoNull(Key(Sorted(less, ds, table)[i], ds))
  {
    hide Key, NoNull, Sorted, After, StrictOrder, Compares, Apart, AllProper;
    SortedIs(less, ds, table);
  }

  lemma SourceIs(less: Less, stages: seq<Stage>, db: Database, earlier: seq<Row>, ds: seq<Descriptor>, table: seq<Row>,
                 token: Option<seq<Value>>, from: nat)
    requires Setting(db, less, stages, earlier) && Apart(ds, table) && ds != []
    requires var sorted := Sorted(less, ds, table);
             from <= |sorted| && if token.None? then from == 0 else 0 < from && token.value == Key(sorted[from - 1], ds)
    ensures token.Some? ==> |token.value| == |ds| && NoNull(token.value)
    ensures Source(less, ds, ds, table, token) == Sorted(less, ds, table)[from..]
  {
    hide Sorted, After, StrictOrder, Compares, Apart, AllProper, Behinds, Enumerable, NoNull;
    var sorted := Sorted(less, ds, table);
    SortedFull(less, stages, db, earlier, ds, table);
    assert sorted[0..] == sorted;
    if token.Some? {
      SortedBehinds(less, ds, token.value, table);
      BehindsAreSuffix(less, ds, sorted, from - 1, 0);
    }
  }

  /** Keyset paging by whole queries, over rows stored in any order: where the last stage is ordered by
      the fields that are paged by, following the tokens ends after at most one request per row plus
      one, and yields the sorted rows, with the stage's skip taken from every page; a stage's top
      ends the paging only where it is not above the page size. */
  lemma QueriesYield(d: Dialect, stages: seq<Stage>, ds: seq<Descriptor>, pageSize: nat, db: Database, less: Less, earlier: seq<Row>,
                     table: seq<Row>)
    requires Pageable(d, stages, ds, pageSize) && Setting(db, less, stages, earlier) && Apart(ds, table)
    requires OwnOrder(stages) == ds
    ensures Enumerable(less, ds, Sorted(less, ds, table)) && multiset(Sorted(less, ds, table)) == multiset(table)
    ensures FollowQueries(d, stages, ds, pageSize, db, less, earlier, table, None, |table| + 1) ==
            Some(Yield(stages, pageSize, Sorted(less, ds, table)))
  {
    hide Key, NoNull, Sorted, After, StrictOrder, Compares, Apart, AllProper, FollowQueries, Pageable, Enumerable, Yield, OwnOrder;
    SortedIs(less, ds, table);
    var sorted := Sorted(less, ds, table);
    assert |multiset(sorted)| == |sorted| && |multiset(table)| == |table|;
    FollowYields(d, stages, ds, pageSize, db, less, earlier, table, None, 0, |table| + 1);
    assert sorted[0..] == sorted;
  }

  lemma {:induction false} NoSkipKeepsAll(rows: seq<Row>, size: nat)
    requires size > 0
    ensures Chunked(rows, 0, size) == rows
    decreases |rows|
  {
    if |rows| > size {
      NoSkipKeepsAll(rows[size..], size);
      assert rows[..size] + rows[size..] == rows;
    }
  }

  /** Without a top or a skip of the last stage, all rows come, once and in order. */
  lemma QueriesEnumerateAll(d: Dialect, stages: seq<Stage>, ds: seq<Descriptor>, pageSize: nat, db: Database, less: Less,
                            earlier: seq<Row>, table: seq<Row>)
    requires Pageable(d, stages, ds, pageSize) && Setting(db, less, stages, earlier) && Apart(ds, table)
    requires OwnOrder(stages) == ds && stages[|stages| - 1].top == None && stages[|stages| - 1].skip == None
    ensures FollowQueries(d, stages, ds, pageSize, db, less, earlier, table, None, |table| + 1) == Some(Sorted(less, ds, table))
  {
    hide Sorted, Apart, FollowQueries, Enumerable, Setting, BuildStages, OwnOrder;
    QueriesYield(d, stages, ds, pageSize, db, less, earlier, table);
    NoSkipKeepsAll(Sorted(less, ds, table), pageSize);
    hide Chunked;
  }

  // ------------------------------------------------------------------ a stage's own top and skip

  /** The rows the stage asks for: behind its skip, up to its top. */
  function Wanted(stages: seq<Stage>, sorted: seq<Row>): seq<Row>
    requires stages != []
  {
    var top := stages[|stages| - 1].top;
    var rest := Dropped(sorted, OwnSkip(stages));
    if top.Some? && top.value >= 0 then Limited(rest, top.value) else rest
  }

  /** Paging keeps a stage's top and skip exactly when one page is all: top is not above the page size,
      or the rows fit - or nothing is skipped and top is not below the number of rows. */
  lemma TopAndSkipKept(d: Dialect, stages: seq<Stage>, ds: seq<Descriptor>, pageSize: nat, db: Database, less: Less, earlier: seq<Row>,
                       table: seq<Row>)
    requires Pageable(d, stages, ds, pageSize) && Setting(db, less, stages, earlier) && Apart(ds, table)
    requires OwnOrder(stages) == ds
    ensures var skip, top := OwnSkip(stages), stages[|stages| - 1].top;
            FollowQueries(d, stages, ds, pageSize, db, less, earlier, table, None, |table| + 1) ==
              Some(Wanted(stages, Sorted(less, ds, table)))
            <==> (top.Some? && top.value <= pageSize) || |table| <= skip + pageSize ||
                 (skip == 0 && (top.None? || |table| <= top.value))
  {
    hide Sorted, Apart, FollowQueries, Setting, BuildStages, OwnOrder, Key, NoNull, After, Enumerable, Chunked;
    var sorted, skip, top := Sorted(less, ds, table), OwnSkip(stages), stages[|stages| - 1].top;
    QueriesYield(d, stages, ds, pageSize, db, less, earlier, table);
    assert |multiset(sorted)| == |sorted| && |multiset(table)| == |table|;
    assert StrictOrder(less) by { SettingOrder(db, less, stages, earlier); }
    hide StrictOrder;
    if !(top.Some? && top.value <= pageSize) {
      if |sorted| <= skip + pageSize {
        AllOfShort(sorted, skip, pageSize);
      } else if skip == 0 {
        NoSkipKeepsAll(sorted, pageSize);
      } else {
        SecondPageDiffers(less, ds, sorted, skip, pageSize);
      }
    }
  }

  lemma SettingOrder(db: Database, less: Less, stages: seq<Stage>, earlier: seq<Row>)
    requires Setting(db, less, stages, earlier)
    ensures StrictOrder(less)
  {
  }

  /** Where the second page begins, other rows come than without paging. */
  lemma SecondPageDiffers(less: Less, ds: seq<Descriptor>, sorted: seq<Row>, skip: nat, size: nat)
    requires StrictOrder(less) && Enumerable(less, ds, sorted) && skip > 0 && size > 0 && |sorted| > skip + size
    ensures var rest, chunked := Dropped(sorted, skip), Chunked(sorted, skip, size);
            size < |rest| && (|chunked| <= size || chunked[size] != rest[size])
  {
    hide Key, NoNull, After, StrictOrder;
    var more := Chunked(sorted[skip + size..], skip, size);
    var chunked := sorted[skip..skip + size] + more;
    assert chunked == Chunked(sorted, skip, size);
    if |chunked| > size {
      var at := LaterFirst(sorted[skip + size..], skip, size);
      assert chunked[size] == more[0] == sorted[skip + size + at];
      AfterIrreflexive(less, ds, Key(sorted[skip + size], ds));
      assert After(less, ds, Key(sorted[skip + size + at], ds), Key(sorted[skip + size], ds));
    }
  }

  lemma LaterFirst(rows: seq<Row>, skip: nat, size: nat) returns (at: nat)
    requires skip > 0 && size > 0 && Chunked(rows, skip, size) != []
    ensures 0 < at < |rows| && Chunked(rows, skip, size)[0] == rows[at]
  {
    at := skip;
  }

  // ------------------------------------------------------------------ without an ORDER BY

  function Reversed(rows: seq<Row>): (r: seq<Row>)
    ensures |r| == |rows| && forall i :: 0 <= i < |rows| ==> r[i] == rows[|rows| - 1 - i]
  {
    if rows == [] then [] else Reversed(rows[1..]) + [rows[0]]
  }

  lemma UnorderedPage(d: Dialect, stages: seq<Stage>, ds: seq<Descriptor>, pageSize: nat, db: Database, less: Less, earlier: seq<Row>,
                      table: seq<Row>, token: Option<seq<Value>>, steps: nat)
    requires Pageable(d, stages, ds, pageSize) && Setting(db, less, stages, earlier) && steps > 0
    requires OwnOrder(stages) == [] && stages[|stages| - 1].top == None && stages[|stages| - 1].skip == None
    requires forall i :: 0 <= i < |table| ==> NoNull(Key(table[i], ds))
    requires token.Some? ==> |token.value| == |ds| && NoNull(token.value)
    ensures var rest := if token.None? then table else Behinds(less, ds, token.value, table);
            var page := FetchPage(Limited(Dropped(rest, 0), pageSize + 1), ds, pageSize);
            FollowQueries(d, stages, ds, pageSize, db, less, earlier, table, token, steps) ==
            if page.next.None? then Some(page.rows)
            else
              var more := FollowQueries(d, stages, ds, pageSize, db, less, earlier, table, page.next, steps - 1);
              if more.None? then None else Some(page.rows + more.value)
  {
    hide BuildQuery, Answer, NoNull, Key, Setting, Limited, Dropped, FetchPage, FollowQueries, Behinds, BuildStages, OwnOrder;
    AnswerIs(d, stages, ds, pageSize, db, less, earlier, table, token);
    var rest := if token.None? then table else Behinds(less, ds, token.value, table);
    FollowStep(d, stages, ds, pageSize, db, less, earlier, table, token, steps, Limited(Dropped(rest, 0), pageSize + 1));
  }

  /** A last stage without an ordering of its own is still paged by the fields it groups by, but its
      query has no ORDER BY: of rows that are stored the other way round, one more than a page
      holds, the first never comes. */
  lemma UnorderedPagesLoseRows(d: Dialect, stages: seq<Stage>, ds: seq<Descriptor>, pageSize: nat, db: Database, less: Less,
                               earlier: seq<Row>, rows: seq<Row>)
    requires Pageable(d, stages, ds, pageSize) && Setting(db, less, stages, earlier)
    requires OwnOrder(stages) == [] && stages[|stages| - 1].top == None && stages[|stages| - 1].skip == None
    requires Enumerable(less, ds, rows) && |rows| == pageSize + 1
    ensures var got := FollowQueries(d, stages, ds, pageSize, db, less, earlier, Reversed(rows), None, 2);
            got.Some? && rows[0] in Reversed(rows) && rows[0] !in got.value
  {
    hide Key, NoNull, After, StrictOrder, Setting, FollowQueries, Pageable, Behinds, Limited, Dropped, FetchPage, OwnOrder, Reversed, Enumerable;
    AskedBounds(d, stages, ds, pageSize);
    var table := Reversed(rows);
    var last := Key(rows[1], ds);
    ReversedFull(less, ds, rows);
    UnorderedPage(d, stages, ds, pageSize, db, less, earlier, table, None, 2);
    CutPage(table, 0, 0, pageSize + 1, ds, pageSize);
    assert table[0..] == table;
    UnorderedPage(d, stages, ds, pageSize, db, less, earlier, table, Some(last), 1);
    SettingOrder(db, less, stages, earlier);
    AfterIrreflexive(less, ds, last);
    OneMissing(less, ds, last, table, pageSize - 1);
    ShortPage(Behinds(less, ds, last, table), ds, pageSize);
    FirstNotBehind(less, ds, rows, pageSize);
  }

  lemma ReversedFull(less: Less, ds: seq<Descriptor>, rows: seq<Row>)
    requires Enumerable(less, ds, rows)
    ensures forall i :: 0 <= i < |rows| ==> NoNull(Key(rows[i], ds)) && NoNull(Key(Reversed(rows)[i], ds))
  {
    hide Key, NoNull, After;
    var table := Reversed(rows);
    forall i | 0 <= i < |rows| ensures NoNull(Key(table[i], ds)) {
      assert table[i] == rows[|rows| - 1 - i];
    }
  }

  lemma {:induction false} OneMissing(less: Less, ds: seq<Descriptor>, token: seq<Value>, rows: seq<Row>, i: nat)
    requires |ds| == |token| && i < |rows| && !After(less, ds, Key(rows[i], ds), token)
    ensures |Behinds(less, ds, token, rows)| < |rows|
    decreases |rows|
  {
    hide After, Key;
    if i > 0 {
      OneMissing(less, ds, token, rows[1..], i - 1);
    } else {
      BehindsMembers(less, ds, token, rows[1..]);
    }
  }

  lemma ShortPage(rest: seq<Row>, ds: seq<Descriptor>, pageSize: nat)
    requires pageSize > 0 && |rest| <= pageSize
    ensures FetchPage(Limited(Dropped(rest, 0), pageSize + 1), ds, pageSize) == Page(rest, None)
  {
    assert rest[0..] == rest;
    assert rest == [] ==> Dropped(rest, 0) == rest;
  }

  lemma FirstNotBehind(less: Less, ds: seq<Descriptor>, rows: seq<Row>, pageSize: nat)
    requires StrictOrder(less) && Enumerable(less, ds, rows) && pageSize > 0 && |rows| == pageSize + 1
    ensures rows[0] !in Reversed(rows)[..pageSize] && rows[0] !in Behinds(less, ds, Key(rows[1], ds), Reversed(rows))
  {
    hide Key, NoNull, After, StrictOrder;
    var table := Reversed(rows);
    forall i | 0 <= i < pageSize ensures table[i] != rows[0] {
      assert table[i] == rows[pageSize - i] && After(less, ds, Key(rows[pageSize - i], ds), Key(rows[0], ds));
      AfterIrreflexive(less, ds, Key(rows[0], ds));
    }
    BehindsMembers(less, ds, Key(rows[1], ds), table);
    AfterAsymmetric(less, ds, Key(rows[1], ds), Key(rows[0], ds));
  }

  lemma {:induction false} BehindsMembers(less: Less, ds: seq<Descriptor>, token: seq<Value>, rows: seq<Row>)
    requires |ds| == |token|
    ensures forall row :: row in Behinds(less, ds, token, rows) ==> row in rows && After(less, ds, Key(row, ds), token)
    ensures |Behinds(less, ds, token, rows)| <= |rows|
    decreases |rows|
  {
    hide After, Key;
    if rows != [] {
      BehindsMembers(less, ds, token, rows[1..]);
    }
  }
}
