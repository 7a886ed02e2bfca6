/** A whole query: the stages' WHERE and HAVING conditions and the skip-token predicate are
    translated one after the other on one parameter list, and put together to one text. Reading
    that text from the front, with one running count of placeholders, every condition meets its
    own parameters - in MySQL, where a placeholder is known by its position only, as well. */
module SqlQuery {
  import opened ByteStrings
  import opened SqlTokens
  import opened SqlFilter
  import opened SqlMeaning
  import opened KeysetPaging

  /** SQL without placeholders, a condition, or one of the clauses that order and cut a result. */
  datatype Text =
    | Words(words: string) | Condition(tokens: seq<Token>)
    | Ordering(fields: seq<Descriptor>) | Limit(count: nat) | Offset(count: nat)

  /** One stage; a missing or empty filter is no filter. The words around the conditions hold no
      parameters. */
  datatype Stage = Stage(
    select: string, where: Option<Where>, group: string, having: seq<Having>,
    order: seq<Descriptor>, top: Option<int>, skip: Option<int>, resolve: Resolver)

  /** How a client pages: by which fields, how many rows at a time, and from where on. */
  datatype Paging = Paging(order: seq<Descriptor>, pageSize: nat, token: Option<seq<Value>>)

  datatype Built<T> = Built(texts: T, params: seq<Value>)

  // ------------------------------------------------------------------ building the query

  function Keyword(word: string, condition: Option<seq<Token>>): seq<Text> {
    if condition.None? then [] else [Words(word), Condition(condition.value)]
  }

  function AtLeastZero(n: Option<int>): Option<nat> {
    match n
    case None => None
    case Some(k) => Some(if k < 0 then 0 else k)
  }

  /** Ordering items without a field are passed over. */
  function OrderClause(items: seq<Descriptor>): seq<Descriptor> {
    if items == [] then []
    else (if items[0].field == "" then [] else [items[0]]) + OrderClause(items[1..])
  }

  function Behind(order: seq<Descriptor>, limit: Option<nat>, offset: Option<nat>): seq<Text> {
    (if order == [] then [] else [Ordering(order)]) +
    (if limit.None? then [] else [Limit(limit.value)]) +
    (if offset.None? then [] else [Offset(offset.value)])
  }

  /** WHERE first, then HAVING, each on the parameters so far. The last stage is ordered and cut by
      the last SELECT. */
  function BuildStage(d: Dialect, s: Stage, last: bool, ps: seq<Value>): Option<Built<seq<Text>>> {
    var where := if s.where.None? then Some(Sql([], ps)) else EmitWhere(d, s.resolve, s.where.value, ps);
    if where.None? then None
    else
      var having := if s.having == [] then Some(Sql([], where.value.params)) else EmitHavingClause(d, s.resolve, s.having, where.value.params);
      if having.None? then None
      else Some(Built(
        [Words(s.select)] + Keyword(" WHERE ", if s.where.None? then None else Some(where.value.tokens)) +
        [Words(s.group)] + Keyword(" HAVING ", if s.having == [] then None else Some(having.value.tokens)) +
        (if last then [] else Behind(OrderClause(s.order), AtLeastZero(s.top), AtLeastZero(s.skip))),
        having.value.params))
  }

  function BuildStages(d: Dialect, stages: seq<Stage>, ps: seq<Value>): Option<Built<seq<seq<Text>>>>
    decreases |stages|
  {
    if stages == [] then Some(Built([], ps))
    else match BuildStage(d, stages[0], |stages| == 1, ps)
      case None => None
      case Some(first) =>
        match BuildStages(d, stages[1..], first.params)
        case None => None
        case Some(more) => Some(Built([first.texts] + more.texts, more.params))
  }

  function StageName(i: nat): string {
    "stage" + Decimal(i)
  }

  /** The stages become named queries in front of the last SELECT. */
  function NamedQueries(texts: seq<seq<Text>>, from: nat): seq<Text>
    decreases |texts|
  {
    if texts == [] then []
    else
      (if from > 0 then [Words(", ")] else []) + [Words(StageName(from)), Words(" AS (")] + texts[0] + [Words(")")] +
      NamedQueries(texts[1..], from + 1)
  }

  function ComposeFinalQuery(texts: seq<seq<Text>>, skip: Option<seq<Token>>, order: seq<Descriptor>, limit: Option<nat>, offset: Option<nat>)
    : seq<Text>
    requires texts != []
  {
    [Words("WITH ")] + NamedQueries(texts, 0) + [Words(" SELECT * FROM "), Words(StageName(|texts| - 1))] +
    Keyword(" WHERE ", skip) + Behind(order, limit, offset)
  }

  /** Paging needs fields to page by, and a token a value for each of them. */
  predicate PagingFits(p: Paging) {
    (p.pageSize > 0 ==> p.order != []) && (p.token.Some? ==> p.order != [] && |p.token.value| == |p.order|)
  }

  function Lesser(a: int, b: int): int {
    if a < b then a else b
  }

  /** One row more than a page is asked for, but never more than the last stage's top. */
  function FinalLimit(top: Option<int>, paging: Option<Paging>): Option<nat> {
    if paging.None? || paging.value.pageSize == 0 then AtLeastZero(top)
    else
      var candidate := paging.value.pageSize + 1;
      var limit: int := if top.Some? then Lesser(top.value, candidate) else candidate;
      if limit > 0 then Some(limit) else AtLeastZero(top)
  }

  function BuildQuery(d: Dialect, stages: seq<Stage>, paging: Option<Paging>): Option<Built<seq<Text>>> {
    match BuildStages(d, stages, [])
    case None => None
    case Some(built) =>
      if stages == [] || built.texts == [] || (paging.Some? && !PagingFits(paging.value)) then None
      else
        var last := stages[|stages| - 1];
        var limit := FinalLimit(last.top, paging);
        if paging.None? || paging.value.token.None? then
          Some(Built(ComposeFinalQuery(built.texts, None, OrderClause(last.order), limit, AtLeastZero(last.skip)), built.params))
        else match SkipTokenClause(d, paging.value.order, paging.value.token.value, built.params)
          case Ok(Some(sql)) =>
            Some(Built(ComposeFinalQuery(built.texts, Some(sql.tokens), OrderClause(last.order), limit, AtLeastZero(last.skip)), sql.params))
          case _ => None
  }

  /** The loop over the stages and what follows it. */
  method Execute(d: Dialect, stages: seq<Stage>, paging: Option<Paging>) returns (query: Option<Built<seq<Text>>>)
    ensures query == BuildQuery(d, stages, paging)
  {
    hide BuildStage, SkipTokenClause, FinalLimit, OrderClause, AtLeastZero, ComposeFinalQuery;
    if |stages| == 0 {
      return None;
    }
    var stageResults: seq<seq<Text>> := [];
    var params: seq<Value> := [];
    assert stages[0..] == stages;
    ContinuedFromStart(BuildStages(d, stages, []));
    for stageIndex := 0 to |stages|
      invariant |stageResults| == stageIndex
      invariant Continued(stageResults, BuildStages(d, stages[stageIndex..], params)) == BuildStages(d, stages, [])
    {
      assert stages[stageIndex..][0] == stages[stageIndex] && stages[stageIndex..][1..] == stages[stageIndex + 1..];
      var isFinalStage := stageIndex == |stages| - 1;
      var stageResult := BuildStage(d, stages[stageIndex], isFinalStage, params);
      if stageResult.None? {
        return None;
      }
      ContinuedStep(stageResults, stageResult.value.texts, BuildStages(d, stages[stageIndex + 1..], stageResult.value.params));
      stageResults := stageResults + [stageResult.value.texts];
      params := stageResult.value.params;
    }
    assert BuildStages(d, stages, []) == Some(Built(stageResults + [], params));
    assert stageResults + [] == stageResults;
    if paging.Some? && !PagingFits(paging.value) {
      return None;
    }
    var finalStage := stages[|stages| - 1];
    var order, limit, offset := OrderClause(finalStage.order), FinalLimit(finalStage.top, paging), AtLeastZero(finalStage.skip);
    if paging.None? || paging.value.token.None? {
      return Some(Built(ComposeFinalQuery(stageResults, None, order, limit, offset), params));
    }
    var predicateClause := BuildSkipTokenPredicate(d, paging.value.order, paging.value.token.value, params);
    if predicateClause.Err? || predicateClause.value.None? {
      return None;
    }
    var sql := predicateClause.value.value;
    return Some(Built(ComposeFinalQuery(stageResults, Some(sql.tokens), order, limit, offset), sql.params));
  }

  function Continued(made: seq<seq<Text>>, rest: Option<Built<seq<seq<Text>>>>): Option<Built<seq<seq<Text>>>> {
    if rest.None? then None else Some(Built(made + rest.value.texts, rest.value.params))
  }

  lemma ContinuedFromStart(rest: Option<Built<seq<seq<Text>>>>)
    ensures Continued([], rest) == rest
  {
    if rest.Some? {
      assert [] + rest.value.texts == rest.value.texts;
    }
  }

  lemma ContinuedStep(made: seq<seq<Text>>, text: seq<Text>, rest: Option<Built<seq<seq<Text>>>>)
    ensures Continued(made + [text], rest) ==
            Continued(made, if rest.None? then None else Some(Built([text] + rest.value.texts, rest.value.params)))
  {
    if rest.Some? {
      assert made + [text] + rest.value.texts == made + ([text] + rest.value.texts);
    }
  }

  // ------------------------------------------------------------------ reading the query

  /** What a condition is about: the source's rows, a stage's groups, the last stage's rows. */
  datatype Clause =
    | InWhere(resolve: Resolver, where: Where)
    | InHaving(resolve: Resolver, having: seq<Having>)
    | InSkip(descriptors: seq<Descriptor>, token: seq<Value>)

  function ClausesOfStage(s: Stage): seq<Clause> {
    (if s.where.None? then [] else [InWhere(s.resolve, s.where.value)]) +
    (if s.having == [] then [] else [InHaving(s.resolve, s.having)])
  }

  function ClausesOfStages(stages: seq<Stage>): seq<Clause> {
    if stages == [] then [] else ClausesOfStage(stages[0]) + ClausesOfStages(stages[1..])
  }

  function ClausesOf(stages: seq<Stage>, paging: Option<Paging>): seq<Clause> {
    ClausesOfStages(stages) + SkipClauses(paging)
  }

  function SkipClauses(paging: Option<Paging>): (cs: seq<Clause>)
    ensures |cs| <= 1
  {
    if paging.None? || paging.value.token.None? then [] else [InSkip(paging.value.order, paging.value.token.value)]
  }

  predicate ProperToken(ds: seq<Descriptor>, token: seq<Value>) {
    ds != [] && |ds| == |token| && NoNull(token)
  }

  /** The clause can be read on a row: logical expressions are well formed, ordering fields are not
      null. */
  predicate Proper(c: Clause, row: Row) {
    match c
    case InWhere(_, _) => true
    case InHaving(_, having) => having != [] && forall i :: 0 <= i < |having| ==> WellFormed(having[i])
    case InSkip(ds, token) => ProperToken(ds, token) && NoNull(Key(row, ds))
  }

  function ClauseMeaning(e: Env, less: (Value, Value) -> bool, c: Clause, row: Row): Tri
    requires Proper(c, row)
  {
    match c
    case InWhere(r, w) => WhereMeaning(e, r, w, DROPPED)
    case InHaving(r, having) => AndAll(ChildMeanings(e, r, having))
    case InSkip(ds, token) => Truth(After(less, ds, Key(row, ds), token))
  }

  /** A row for every clause. */
  predicate AllProper(cs: seq<Clause>, rows: seq<Row>) {
    |cs| == |rows| && forall i :: 0 <= i < |cs| ==> Proper(cs[i], rows[i])
  }

  function Meanings(db: Database, less: (Value, Value) -> bool, params: seq<Value>, cs: seq<Clause>, rows: seq<Row>): seq<Tri>
    requires AllProper(cs, rows)
  {
    seq(|cs|, i requires 0 <= i < |cs| => ClauseMeaning(View(db, rows[i], params), less, cs[i], rows[i]))
  }

  /** Reads a text from the front, its n-th condition on the n-th row; `k` placeholders were met
      before. Gives the conditions' values and the count behind the text. */
  function ReadText(db: Database, params: seq<Value>, texts: seq<Text>, rows: seq<Row>, k: nat): Option<(seq<Tri>, nat)>
    decreases |texts|
  {
    if texts == [] then Some(([], k))
    else match texts[0]
      case Words(_) => ReadText(db, params, texts[1..], rows, k)
      case Ordering(_) => ReadText(db, params, texts[1..], rows, k)
      case Limit(_) => ReadText(db, params, texts[1..], rows, k)
      case Offset(_) => ReadText(db, params, texts[1..], rows, k)
      case Condition(tokens) =>
        if rows == [] then None
        else match ReadOr(View(db, rows[0], params), tokens, k)
          case None => None
          case Some(r) =>
            if r.rest != [] then None
            else match ReadText(db, params, texts[1..], rows[1..], r.count)
              case None => None
              case Some(more) => Some(([r.value] + more.0, more.1))
  }

  /** A text whose conditions are `cs`, on the parameters between two states of the list. */
  ghost predicate Reads(db: Database, less: (Value, Value) -> bool, params: seq<Value>, texts: seq<Text>, cs: seq<Clause>,
                        rows: seq<Row>, k: nat, k2: nat)
    requires AllProper(cs, rows)
  {
    forall more: seq<Row> :: ReadText(db, params, texts, rows + more, k) == Some((Meanings(db, less, params, cs, rows), k2))
  }

  lemma {:induction false} ReadJoined(db: Database, params: seq<Value>, a: seq<Text>, b: seq<Text>, rows: seq<Row>, more: seq<Row>,
                                      k: nat, v: seq<Tri>, k1: nat, w: seq<Tri>, k2: nat)
    requires ReadText(db, params, a, rows + more, k) == Some((v, k1)) && |v| == |rows|
    requires ReadText(db, params, b, more, k1) == Some((w, k2))
    ensures ReadText(db, params, a + b, rows + more, k) == Some((v + w, k2))
    decreases |a|
  {
    hide ReadOr;
    if a == [] {
      assert a + b == b && rows + more == more && v + w == w;
    } else {
      assert (a + b)[0] == a[0] && (a + b)[1..] == a[1..] + b;
      if !a[0].Condition? {
        ReadJoined(db, params, a[1..], b, rows, more, k, v, k1, w, k2);
      } else {
        ConditionFirst(db, params, a, rows + more, k, v, k1);
        assert rows != [] && (rows + more)[0] == rows[0] && (rows + more)[1..] == rows[1..] + more;
        var r := ReadOr(View(db, rows[0], params), a[0].tokens, k).value;
        ReadJoined(db, params, a[1..], b, rows[1..], more, r.count, v[1..], k1, w, k2);
        assert [v[0]] + (v[1..] + w) == v + w;
      }
    }
  }

  lemma ConditionFirst(db: Database, params: seq<Value>, a: seq<Text>, rows: seq<Row>, k: nat, v: seq<Tri>, k1: nat)
    requires a != [] && a[0].Condition? && ReadText(db, params, a, rows, k) == Some((v, k1))
    ensures rows != [] && v != []
    ensures var r := ReadOr(View(db, rows[0], params), a[0].tokens, k);
            && r.Some? && r.value.rest == [] && v[0] == r.value.value
            && ReadText(db, params, a[1..], rows[1..], r.value.count) == Some((v[1..], k1))
  {
    hide ReadOr;
  }

  lemma MeaningsJoined(db: Database, less: (Value, Value) -> bool, params: seq<Value>, a: seq<Clause>, b: seq<Clause>,
                       x: seq<Row>, y: seq<Row>)
    requires AllProper(a, x) && AllProper(b, y)
    ensures AllProper(a + b, x + y)
    ensures Meanings(db, less, params, a + b, x + y) == Meanings(db, less, params, a, x) + Meanings(db, less, params, b, y)
  {
    hide Proper, ClauseMeaning;
  }

  lemma TextsJoined(db: Database, less: (Value, Value) -> bool, params: seq<Value>, a: seq<Text>, b: seq<Text>,
                    cs: seq<Clause>, ds: seq<Clause>, x: seq<Row>, y: seq<Row>, k: nat, k1: nat, k2: nat)
    requires AllProper(cs, x) && AllProper(ds, y)
    requires Reads(db, less, params, a, cs, x, k, k1) && Reads(db, less, params, b, ds, y, k1, k2)
    ensures AllProper(cs + ds, x + y) && Reads(db, less, params, a + b, cs + ds, x + y, k, k2)
  {
    hide AllProper, ReadText, ClauseMeaning;
    MeaningsJoined(db, less, params, cs, ds, x, y);
    var v, w := Meanings(db, less, params, cs, x), Meanings(db, less, params, ds, y);
    assert |v| == |x| by { SameCount(db, less, params, cs, x); }
    forall more: seq<Row> ensures ReadText(db, params, a + b, x + y + more, k) == Some((v + w, k2)) {
      assert x + y + more == x + (y + more);
      ReadJoined(db, params, a, b, x, y + more, k, v, k1, w, k2);
    }
  }

  lemma SameCount(db: Database, less: (Value, Value) -> bool, params: seq<Value>, cs: seq<Clause>, rows: seq<Row>)
    requires AllProper(cs, rows)
    ensures |Meanings(db, less, params, cs, rows)| == |rows|
  {
  }

  predicate Quiet(texts: seq<Text>) {
    forall i :: 0 <= i < |texts| ==> !texts[i].Condition?
  }

  lemma {:induction false} QuietSkipped(db: Database, params: seq<Value>, texts: seq<Text>, rows: seq<Row>, k: nat)
    requires Quiet(texts)
    ensures ReadText(db, params, texts, rows, k) == Some(([], k))
    decreases |texts|
  {
    if texts != [] {
      QuietSkipped(db, params, texts[1..], rows, k);
    }
  }

  lemma QuietRead(db: Database, less: (Value, Value) -> bool, params: seq<Value>, texts: seq<Text>, k: nat)
    requires Quiet(texts)
    ensures AllProper([], []) && Reads(db, less, params, texts, [], [], k, k)
  {
    hide ReadText;
    assert Meanings(db, less, params, [], []) == [];
    forall more: seq<Row> ensures ReadText(db, params, texts, [] + more, k) == Some((Meanings(db, less, params, [], []), k)) {
      QuietSkipped(db, params, texts, [] + more, k);
    }
  }

  lemma NothingRead(db: Database, less: (Value, Value) -> bool, params: seq<Value>, k: nat)
    ensures AllProper([], []) && Reads(db, less, params, [], [], [], k, k)
  {
    assert Meanings(db, less, params, [], []) == [];
  }

  // ------------------------------------------------------------------ clauses

  function EmitClause(d: Dialect, c: Clause, ps: seq<Value>): Option<Sql> {
    match c
    case InWhere(r, w) => EmitWhere(d, r, w, ps)
    case InHaving(r, having) => EmitHavingClause(d, r, having, ps)
    case InSkip(ds, token) => if |ds| == |token| && ds != [] then Some(SkipTokenPredicate(d, ds, token, ps)) else None
  }

  lemma ClauseReads(db: Database, less: (Value, Value) -> bool, params: seq<Value>, d: Dialect, c: Clause, row: Row, ps: seq<Value>)
    requires Proper(c, row) && Compares(db, less)
    requires EmitClause(d, c, ps).Some? && EmitClause(d, c, ps).value.params <= params
    ensures var sql := EmitClause(d, c, ps).value;
            && ps <= sql.params
            && OrPiece(View(db, row, params), sql.tokens, ClauseMeaning(View(db, row, params), less, c, row), |ps|, |sql.params|)
  {
    hide OrPiece, AndPiece, Branches, Chained, EmitChildren, EmitWhere, WhereMeaning, ChildMeanings, After, WellFormed, OrAll;
    hide NoNull, Key, Separated, AndAll, AfterAt;
    var e := View(db, row, params);
    match c
    case InWhere(r, w) =>
      WhereReads(e, d, r, w, ps);
      AndIsOr(e, EmitWhere(d, r, w, ps).value.tokens, WhereMeaning(e, r, w, DROPPED), |ps|, |EmitWhere(d, r, w, ps).value.params|);
    case InHaving(r, having) =>
      var ks := ChildrenRead(e, d, r, having, ps);
      ChainedPieces(e, EmitChildren(d, r, having, ps).value.list, ChildMeanings(e, r, having), ks, And);
    case InSkip(ds, token) =>
      ShownByView(db, less, row, params);
      hide Shows, View;
      var vs, ks := BranchesRead(e, less, row, d, ds, token, 0, ps);
      OrChain(e, Branches(d, ds, token, 0, ps).list, vs, ks);
      AfterIsSomeBranch(less, ds, Key(row, ds), token);
  }

  lemma ShownByView(db: Database, less: (Value, Value) -> bool, row: Row, params: seq<Value>)
    requires Compares(db, less)
    ensures Shows(View(db, row, params), row, less)
  {
    hide ColumnOf;
  }

  /** Bound with its own parameters only, a clause shows that it just adds some. */
  lemma ClauseAppends(db: Database, less: (Value, Value) -> bool, d: Dialect, c: Clause, row: Row, ps: seq<Value>)
    requires Proper(c, row) && Compares(db, less) && EmitClause(d, c, ps).Some?
    ensures ps <= EmitClause(d, c, ps).value.params
  {
    hide Proper, EmitClause, OrPiece, ClauseMeaning;
    ClauseReads(db, less, EmitClause(d, c, ps).value.params, d, c, row, ps);
  }

  lemma ConditionReads(db: Database, less: (Value, Value) -> bool, params: seq<Value>, d: Dialect, c: Clause, row: Row, word: string,
                       ps: seq<Value>)
    requires Proper(c, row) && Compares(db, less)
    requires EmitClause(d, c, ps).Some? && EmitClause(d, c, ps).value.params <= params
    ensures var sql := EmitClause(d, c, ps).value;
            AllProper([c], [row]) && Reads(db, less, params, Keyword(word, Some(sql.tokens)), [c], [row], |ps|, |sql.params|)
  {
    hide Proper, EmitClause, ClauseMeaning, ReadOr, View;
    var sql := EmitClause(d, c, ps).value;
    ClauseReads(db, less, params, d, c, row, ps);
    var e, texts := View(db, row, params), [Words(word), Condition(sql.tokens)];
    var v := ClauseMeaning(e, less, c, row);
    assert ReadOr(e, sql.tokens, |ps|) == Some(Read(v, [], |sql.params|)) by { assert sql.tokens + [] == sql.tokens; }
    forall more: seq<Row>
      ensures ReadText(db, params, texts, [row] + more, |ps|) == Some((Meanings(db, less, params, [c], [row]), |sql.params|))
    {
      assert texts[1..] == [Condition(sql.tokens)] && texts[1..][1..] == [] && ([row] + more)[1..] == more;
      assert ([row] + more)[0] == row && ReadText(db, params, [], more, |sql.params|) == Some(([], |sql.params|));
      assert [Condition(sql.tokens)][1..] == [] && [v] + [] == [v];
      assert ReadText(db, params, [Condition(sql.tokens)], [row] + more, |ps|) == Some(([v], |sql.params|));
      assert Meanings(db, less, params, [c], [row]) == [v];
      assert [v] + [] == [v];
    }
  }

  // ------------------------------------------------------------------ stages

  /** A condition that may be missing: with its keyword it reads as the clauses it stands for. */
  lemma KeywordReads(db: Database, less: (Value, Value) -> bool, params: seq<Value>, d: Dialect, cs: seq<Clause>, rows: seq<Row>,
                     word: string, ps: seq<Value>, ps2: seq<Value>, tokens: Option<seq<Token>>)
    requires AllProper(cs, rows) && |cs| <= 1 && Compares(db, less) && ps2 <= params
    requires cs == [] ==> ps2 == ps && tokens == None
    requires cs != [] ==> EmitClause(d, cs[0], ps).Some? && EmitClause(d, cs[0], ps).value.params == ps2
                          && tokens == Some(EmitClause(d, cs[0], ps).value.tokens)
    ensures ps <= ps2 && Reads(db, less, params, Keyword(word, tokens), cs, rows, |ps|, |ps2|)
  {
    hide EmitClause, Proper, Reads;
    if cs == [] {
      assert rows == [];
      NothingRead(db, less, params, |ps|);
    } else {
      assert cs == [cs[0]] && rows == [rows[0]];
      ClauseAppends(db, less, d, cs[0], rows[0], ps);
      ConditionReads(db, less, params, d, cs[0], rows[0], word, ps);
    }
  }

  function WhereClauses(s: Stage): (cs: seq<Clause>)
    ensures |cs| <= 1
  {
    if s.where.None? then [] else [InWhere(s.resolve, s.where.value)]
  }

  function HavingClauses(s: Stage): (cs: seq<Clause>)
    ensures |cs| <= 1
  {
    if s.having == [] then [] else [InHaving(s.resolve, s.having)]
  }

  function StageBehind(s: Stage, last: bool): (texts: seq<Text>)
    ensures Quiet(texts)
  {
    if last then [] else Behind(OrderClause(s.order), AtLeastZero(s.top), AtLeastZero(s.skip))
  }

  /** What a stage is made of. */
  lemma StageParts(d: Dialect, s: Stage, last: bool, ps: seq<Value>)
    returns (middle: seq<Value>, where: Option<seq<Token>>, having: Option<seq<Token>>)
    requires BuildStage(d, s, last, ps).Some?
    ensures var built := BuildStage(d, s, last, ps).value;
            && built.texts == [Words(s.select)] + Keyword(" WHERE ", where) + [Words(s.group)] + Keyword(" HAVING ", having) + StageBehind(s, last)
            && Links(d, WhereClauses(s), ps, middle, where) && Links(d, HavingClauses(s), middle, built.params, having)
  {
    hide EmitWhere, EmitHavingClause, Behind, OrderClause;
    var w := if s.where.None? then Sql([], ps) else EmitWhere(d, s.resolve, s.where.value, ps).value;
    middle := w.params;
    where := if s.where.None? then None else Some(w.tokens);
    having := if s.having == [] then None else Some(EmitHavingClause(d, s.resolve, s.having, middle).value.tokens);
  }

  /** At most one clause, translated from one state of the parameter list to the next. */
  predicate Links(d: Dialect, cs: seq<Clause>, ps: seq<Value>, ps2: seq<Value>, tokens: Option<seq<Token>>) {
    if cs == [] then ps2 == ps && tokens == None
    else EmitClause(d, cs[0], ps).Some? && EmitClause(d, cs[0], ps).value.params == ps2
         && tokens == Some(EmitClause(d, cs[0], ps).value.tokens)
  }

  lemma LinkAppends(db: Database, less: (Value, Value) -> bool, d: Dialect, cs: seq<Clause>, rows: seq<Row>, ps: seq<Value>,
                    ps2: seq<Value>, tokens: Option<seq<Token>>)
    requires AllProper(cs, rows) && |cs| <= 1 && Compares(db, less) && Links(d, cs, ps, ps2, tokens)
    ensures ps <= ps2
  {
    hide EmitClause, Proper;
    if cs != [] {
      ClauseAppends(db, less, d, cs[0], rows[0], ps);
    }
  }

  lemma PrefixOfPrefix(a: seq<Value>, b: seq<Value>, c: seq<Value>)
    requires a <= b <= c
    ensures a <= c
  {
  }

  lemma SplitProper(a: seq<Clause>, b: seq<Clause>, rows: seq<Row>)
    requires AllProper(a + b, rows)
    ensures |rows| == |a| + |b|
    ensures AllProper(a, rows[..|a|]) && AllProper(b, rows[|a|..]) && rows[..|a|] + rows[|a|..] == rows
  {
    hide Proper;
    assert forall i :: 0 <= i < |a| ==> (a + b)[i] == a[i] && rows[..|a|][i] == rows[i];
    assert forall i :: 0 <= i < |b| ==> (a + b)[|a| + i] == b[i] && rows[|a|..][i] == rows[|a| + i];
  }

  lemma StageReads(db: Database, less: (Value, Value) -> bool, params: seq<Value>, d: Dialect, s: Stage, last: bool, rows: seq<Row>,
                   ps: seq<Value>)
    requires AllProper(ClausesOfStage(s), rows) && Compares(db, less)
    requires BuildStage(d, s, last, ps).Some? && BuildStage(d, s, last, ps).value.params <= params
    ensures var built := BuildStage(d, s, last, ps).value;
            ps <= built.params && Reads(db, less, params, built.texts, ClausesOfStage(s), rows, |ps|, |built.params|)
  {
    hide BuildStage, Reads, AllProper, Keyword, EmitClause, StageBehind;
    var built := BuildStage(d, s, last, ps).value;
    var middle, where, having := StageParts(d, s, last, ps);
    var cs, hs := WhereClauses(s), HavingClauses(s);
    assert ClausesOfStage(s) == cs + hs;
    SplitProper(cs, hs, rows);
    var x, y := rows[..|cs|], rows[|cs|..];
    hide WhereClauses, HavingClauses;
    LinkAppends(db, less, d, hs, y, middle, built.params, having);
    PrefixOfPrefix(middle, built.params, params);
    KeywordReads(db, less, params, d, cs, x, " WHERE ", ps, middle, where);
    KeywordReads(db, less, params, d, hs, y, " HAVING ", middle, built.params, having);
    PrefixOfPrefix(ps, middle, built.params);
    hide Links;
    Framed(db, less, params, [Words(s.select)], Keyword(" WHERE ", where), [Words(s.group)], cs, x, |ps|, |middle|);
    TextsJoined(db, less, params, [Words(s.select)] + Keyword(" WHERE ", where) + [Words(s.group)], Keyword(" HAVING ", having),
                cs, hs, x, y, |ps|, |middle|, |built.params|);
    WithQuietBehind(db, less, params, [Words(s.select)] + Keyword(" WHERE ", where) + [Words(s.group)] + Keyword(" HAVING ", having),
                    StageBehind(s, last), cs + hs, x + y, |ps|, |built.params|);
  }

  lemma WithQuietBehind(db: Database, less: (Value, Value) -> bool, params: seq<Value>, texts: seq<Text>, behind: seq<Text>,
                        cs: seq<Clause>, rows: seq<Row>, k: nat, k2: nat)
    requires AllProper(cs, rows) && Reads(db, less, params, texts, cs, rows, k, k2) && Quiet(behind)
    ensures Reads(db, less, params, texts + behind, cs, rows, k, k2)
  {
    hide Reads, AllProper;
    QuietRead(db, less, params, behind, k2);
    TextsJoined(db, less, params, texts, behind, cs, [], rows, [], k, k2, k2);
    assert cs + [] == cs && rows + [] == rows;
  }

  lemma WithQuietBefore(db: Database, less: (Value, Value) -> bool, params: seq<Value>, before: seq<Text>, texts: seq<Text>,
                        cs: seq<Clause>, rows: seq<Row>, k: nat, k2: nat)
    requires AllProper(cs, rows) && Reads(db, less, params, texts, cs, rows, k, k2) && Quiet(before)
    ensures Reads(db, less, params, before + texts, cs, rows, k, k2)
  {
    hide Reads, AllProper;
    QuietRead(db, less, params, before, k);
    TextsJoined(db, less, params, before, texts, [], cs, [], rows, k, k, k2);
    assert [] + cs == cs && [] + rows == rows;
  }

  lemma Framed(db: Database, less: (Value, Value) -> bool, params: seq<Value>, before: seq<Text>, texts: seq<Text>, behind: seq<Text>,
               cs: seq<Clause>, rows: seq<Row>, k: nat, k2: nat)
    requires AllProper(cs, rows) && Reads(db, less, params, texts, cs, rows, k, k2) && Quiet(before) && Quiet(behind)
    ensures Reads(db, less, params, before + texts + behind, cs, rows, k, k2)
  {
    hide Reads, AllProper, Quiet;
    WithQuietBefore(db, less, params, before, texts, cs, rows, k, k2);
    WithQuietBehind(db, less, params, before + texts, behind, cs, rows, k, k2);
  }

  // ------------------------------------------------------------------ the theorem

  lemma {:induction false} StagesAppend(db: Database, less: (Value, Value) -> bool, d: Dialect, stages: seq<Stage>, rows: seq<Row>, ps: seq<Value>)
    requires AllProper(ClausesOfStages(stages), rows) && Compares(db, less) && BuildStages(d, stages, ps).Some?
    ensures ps <= BuildStages(d, stages, ps).value.params
    decreases |stages|
  {
    hide BuildStage, AllProper, Reads;
    if stages != [] {
      var first := BuildStage(d, stages[0], |stages| == 1, ps).value;
      var cs, more := ClausesOfStage(stages[0]), ClausesOfStages(stages[1..]);
      SplitProper(cs, more, rows);
      StagesAppend(db, less, d, stages[1..], rows[|cs|..], first.params);
      StageReads(db, less, first.params, d, stages[0], |stages| == 1, rows[..|cs|], ps);
      PrefixOfPrefix(ps, first.params, BuildStages(d, stages[1..], first.params).value.params);
    }
  }

  lemma {:induction false} StagesRead(db: Database, less: (Value, Value) -> bool, params: seq<Value>, d: Dialect, stages: seq<Stage>,
                                      rows: seq<Row>, ps: seq<Value>, from: nat)
    requires AllProper(ClausesOfStages(stages), rows) && Compares(db, less)
    requires BuildStages(d, stages, ps).Some? && BuildStages(d, stages, ps).value.params <= params
    ensures var built := BuildStages(d, stages, ps).value;
            Reads(db, less, params, NamedQueries(built.texts, from), ClausesOfStages(stages), rows, |ps|, |built.params|)
    decreases |stages|
  {
    hide BuildStage, AllProper, Reads, ClausesOfStage;
    var built := BuildStages(d, stages, ps).value;
    if stages == [] {
      assert rows == [] by { NoRows(rows); }
      NothingRead(db, less, params, |ps|);
    } else {
      var first := BuildStage(d, stages[0], |stages| == 1, ps).value;
      var rest := BuildStages(d, stages[1..], first.params).value;
      var cs, more := ClausesOfStage(stages[0]), ClausesOfStages(stages[1..]);
      SplitProper(cs, more, rows);
      var x, y := rows[..|cs|], rows[|cs|..];
      StagesAppend(db, less, d, stages[1..], y, first.params);
      PrefixOfPrefix(first.params, built.params, params);
      StageReads(db, less, params, d, stages[0], |stages| == 1, x, ps);
      StagesRead(db, less, params, d, stages[1..], y, first.params, from + 1);
      Framed(db, less, params, Opening(from), first.texts, [Words(")")], cs, x, |ps|, |first.params|);
      TextsJoined(db, less, params, Opening(from) + first.texts + [Words(")")], NamedQueries(rest.texts, from + 1), cs, more, x, y,
                  |ps|, |first.params|, |built.params|);
      assert built.texts == [first.texts] + rest.texts;
      NamedFirst(first.texts, rest.texts, from);
    }
  }

  function Opening(from: nat): (texts: seq<Text>)
    ensures Quiet(texts)
  {
    (if from > 0 then [Words(", ")] else []) + [Words(StageName(from)), Words(" AS (")]
  }

  lemma NamedFirst(text: seq<Text>, more: seq<seq<Text>>, from: nat)
    ensures NamedQueries([text] + more, from) == Opening(from) + text + [Words(")")] + NamedQueries(more, from + 1)
  {
    hide StageName;
    assert ([text] + more)[1..] == more;
  }

  lemma NoRows(rows: seq<Row>)
    requires AllProper([], rows)
    ensures rows == []
  {
  }

  /** The whole query: whatever its stages, read from the front with one running count of
      placeholders under the one parameter list it is executed with, each of its conditions has
      the meaning of the clause it was made of, in order, and the count ends at the number of
      parameters. So the k-th placeholder of the text is bound to the k-th parameter. */
  lemma WholeQueryReads(db: Database, less: (Value, Value) -> bool, d: Dialect, stages: seq<Stage>, paging: Option<Paging>, rows: seq<Row>)
    requires Compares(db, less) && AllProper(ClausesOf(stages, paging), rows) && BuildQuery(d, stages, paging).Some?
    ensures var query := BuildQuery(d, stages, paging).value;
            ReadText(db, query.params, query.texts, rows, 0) ==
            Some((Meanings(db, less, query.params, ClausesOf(stages, paging), rows), |query.params|))
  {
    hide BuildStages, AllProper, Reads, NamedQueries, ClausesOfStages, EmitClause, Keyword, StageName, Behind, SkipClauses, Quiet;
    var query, built := BuildQuery(d, stages, paging).value, BuildStages(d, stages, []).value;
    var tokens, behind := FinalLink(d, stages, paging);
    var params := query.params;
    var cs, ss := ClausesOfStages(stages), SkipClauses(paging);
    SplitProper(cs, ss, rows);
    var x, y := rows[..|cs|], rows[|cs|..];
    LinkAppends(db, less, d, ss, y, built.params, params, tokens);
    StagesRead(db, less, params, d, stages, x, [], 0);
    KeywordReads(db, less, params, d, ss, y, " WHERE ", built.params, params, tokens);
    hide Links;
    var named := NamedQueries(built.texts, 0);
    var from := [Words(" SELECT * FROM "), Words(StageName(|built.texts| - 1))];
    TwoWordsQuiet();
    Framed(db, less, params, [Words("WITH ")], named, from, cs, x, 0, |built.params|);
    TextsJoined(db, less, params, [Words("WITH ")] + named + from, Keyword(" WHERE ", tokens), cs, ss, x, y,
                0, |built.params|, |params|);
    WithQuietBehind(db, less, params, [Words("WITH ")] + named + from + Keyword(" WHERE ", tokens), behind, cs + ss, x + y, 0, |params|);
    ReadAlone(db, less, params, query.texts, cs + ss, rows, 0, |params|);
  }

  lemma TwoWordsQuiet()
    ensures forall a, b :: Quiet([Words(a), Words(b)])
    ensures forall a :: Quiet([Words(a)])
  {
  }

  lemma FinalLink(d: Dialect, stages: seq<Stage>, paging: Option<Paging>) returns (tokens: Option<seq<Token>>, behind: seq<Text>)
    requires BuildQuery(d, stages, paging).Some?
    ensures BuildStages(d, stages, []).Some? && stages != []
    ensures var query, built := BuildQuery(d, stages, paging).value, BuildStages(d, stages, []).value;
            && built.texts != [] && Quiet(behind)
            && query.texts == [Words("WITH ")] + NamedQueries(built.texts, 0) + [Words(" SELECT * FROM "), Words(StageName(|built.texts| - 1))] +
                              Keyword(" WHERE ", tokens) + behind
            && Links(d, SkipClauses(paging), built.params, query.params, tokens)
  {
    hide BuildStages, SkipTokenPredicate, NamedQueries, StageName, OrderClause, FinalLimit, AtLeastZero;
    tokens := None;
    var last := stages[|stages| - 1];
    behind := Behind(OrderClause(last.order), FinalLimit(last.top, paging), AtLeastZero(last.skip));
    if paging.Some? && paging.value.token.Some? {
      var built := BuildStages(d, stages, []).value;
      tokens := Some(SkipTokenClause(d, paging.value.order, paging.value.token.value, built.params).value.value.tokens);
    }
  }

  lemma ReadAlone(db: Database, less: (Value, Value) -> bool, params: seq<Value>, texts: seq<Text>, cs: seq<Clause>, rows: seq<Row>,
                  k: nat, k2: nat)
    requires AllProper(cs, rows) && Reads(db, less, params, texts, cs, rows, k, k2)
    ensures ReadText(db, params, texts, rows, k) == Some((Meanings(db, less, params, cs, rows), k2))
  {
    hide ReadText, Meanings, AllProper;
    assert rows + [] == rows;
  }
}
