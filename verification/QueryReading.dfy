/** A composed query read back: what its words, keywords, conditions and clauses say, in order.
    Nothing here knows how the query was put together. */
module QueryReading {
  import opened ByteStrings
  import opened SqlTokens
  import opened SqlFilter
  import opened SqlMeaning
  import opened KeysetPaging
  import opened SqlQuery

  /** How a SELECT orders and cuts its rows. */
  datatype Cut = Cut(order: seq<Descriptor>, limit: Option<nat>, offset: Option<nat>)

  /** One named query: its conditions stand behind WHERE and HAVING. */
  datatype StageView = StageView(
    name: string, select: string, where: Option<seq<Token>>, group: string, having: Option<seq<Token>>, cut: Cut)

  /** A whole query: the last SELECT reads from the stage named `source`. */
  datatype QueryView = QueryView(stages: seq<StageView>, source: string, skip: Option<seq<Token>>, cut: Cut)

  // ------------------------------------------------------------------ the reader

  function Skip(texts: seq<Text>, word: string): Option<seq<Text>> {
    if texts != [] && texts[0] == Words(word) then Some(texts[1..]) else None
  }

  function ReadWords(texts: seq<Text>): Option<(string, seq<Text>)> {
    if texts != [] && texts[0].Words? then Some((texts[0].words, texts[1..])) else None
  }

  /** The keyword and the condition directly behind it, if that is what comes next. */
  function ReadKeyword(texts: seq<Text>, word: string): (r: (Option<seq<Token>>, seq<Text>))
    ensures |r.1| <= |texts|
  {
    if |texts| >= 2 && texts[0] == Words(word) && texts[1].Condition? then (Some(texts[1].tokens), texts[2..]) else (None, texts)
  }

  function ReadCut(texts: seq<Text>): (r: (Cut, seq<Text>))
    ensures |r.1| <= |texts|
  {
    var (order, a) := ReadOrdering(texts);
    var (limit, b) := ReadLimit(a);
    var (offset, c) := ReadOffset(b);
    (Cut(order, limit, offset), c)
  }

  function ReadOrdering(texts: seq<Text>): (r: (seq<Descriptor>, seq<Text>))
    ensures |r.1| <= |texts|
  {
    if texts != [] && texts[0].Ordering? then (texts[0].fields, texts[1..]) else ([], texts)
  }

  function ReadLimit(texts: seq<Text>): (r: (Option<nat>, seq<Text>))
    ensures |r.1| <= |texts|
  {
    if texts != [] && texts[0].Limit? then (Some(texts[0].count), texts[1..]) else (None, texts)
  }

  function ReadOffset(texts: seq<Text>): (r: (Option<nat>, seq<Text>))
    ensures |r.1| <= |texts|
  {
    if texts != [] && texts[0].Offset? then (Some(texts[0].count), texts[1..]) else (None, texts)
  }

  /** `name AS (select … WHERE … group … HAVING … ORDER BY … LIMIT … OFFSET …)` */
  function ReadStage(texts: seq<Text>): (r: Option<(StageView, seq<Text>)>)
    ensures r.Some? ==> |r.value.1| < |texts|
  {
    if |texts| < 3 || !texts[0].Words? || texts[1] != Words(" AS (") || !texts[2].Words? then None
    else
      var where := ReadKeyword(texts[3..], " WHERE ");
      var group := ReadWords(where.1);
      if group.None? then None
      else
        var having := ReadKeyword(group.value.1, " HAVING ");
        var cut := ReadCut(having.1);
        var rest := Skip(cut.1, ")");
        if rest.None? then None
        else Some((StageView(texts[0].words, texts[2].words, where.0, group.value.0, having.0, cut.0), rest.value))
  }

  function ReadStages(texts: seq<Text>): Option<(seq<StageView>, seq<Text>)>
    decreases |texts|
  {
    match ReadStage(texts)
    case None => None
    case Some(first) =>
      var more := Skip(first.1, ", ");
      if more.None? then Some(([first.0], first.1))
      else match ReadStages(more.value)
        case None => None
        case Some(rest) => Some(([first.0] + rest.0, rest.1))
  }

  /** `WITH … SELECT * FROM source WHERE … ORDER BY … LIMIT … OFFSET …`, and nothing behind it. */
  function ReadQuery(texts: seq<Text>): Option<QueryView> {
    var with := Skip(texts, "WITH ");
    if with.None? then None
    else match ReadStages(with.value)
      case None => None
      case Some(stages) =>
        var from := Skip(stages.1, " SELECT * FROM ");
        if from.None? then None
        else match ReadWords(from.value)
          case None => None
          case Some(source) =>
            var skip := ReadKeyword(source.1, " WHERE ");
            var cut := ReadCut(skip.1);
            if cut.1 != [] then None else Some(QueryView(stages.0, source.0, skip.0, cut.0))
  }

  // ------------------------------------------------------------------ what a query should say

  /** A number that may be negative stands as one that is not. */
  predicate Clamped(n: Option<int>, v: Option<nat>) {
    (n.None? <==> v.None?) && (n.Some? ==> if n.value < 0 then v.value == 0 else v.value == n.value)
  }

  /** The ordering items that name a field. */
  function WithField(items: seq<Descriptor>): seq<Descriptor> {
    if items == [] then []
    else
      var last := items[|items| - 1];
      WithField(items[..|items| - 1]) + (if last.field == "" then [] else [last])
  }

  /** Without a page size the stage's own top; else one row more than a page, or top if it is less. */
  predicate LimitIs(top: Option<int>, paging: Option<Paging>, v: Option<nat>) {
    if paging.None? || paging.value.pageSize == 0 then Clamped(top, v)
    else
      && v.Some? && v.value <= paging.value.pageSize + 1
      && (v.value < paging.value.pageSize + 1 ==> Clamped(top, v)) && (top.Some? ==> v.value <= top.value || v.value == 0)
  }

  predicate CutIs(s: Stage, cut: Cut) {
    cut.order == WithField(s.order) && Clamped(s.top, cut.limit) && Clamped(s.skip, cut.offset)
  }

  predicate StageIs(s: Stage, i: nat, last: bool, view: StageView) {
    && view.name == "stage" + Decimal(i) && view.select == s.select && view.group == s.group
    && (view.where.Some? <==> s.where.Some?) && (view.having.Some? <==> s.having != [])
    && if last then view.cut == Cut([], None, None) else CutIs(s, view.cut)
  }

  ghost predicate StagesAre(stages: seq<Stage>, from: nat, views: seq<StageView>) {
    |views| == |stages| && forall i :: 0 <= i < |stages| ==> StageIs(stages[i], from + i, i == |stages| - 1, views[i])
  }

  /** The stages under their names, the last one's rows ordered and cut by the last SELECT. */
  ghost predicate QueryIs(stages: seq<Stage>, paging: Option<Paging>, view: QueryView)
    requires stages != []
  {
    var last := stages[|stages| - 1];
    && StagesAre(stages, 0, view.stages)
    && view.source == "stage" + Decimal(|stages| - 1)
    && (view.skip.Some? <==> paging.Some? && paging.value.token.Some?)
    && view.cut.order == WithField(last.order) && LimitIs(last.top, paging, view.cut.limit) && Clamped(last.skip, view.cut.offset)
  }

  // ------------------------------------------------------------------ reading what was built

  lemma {:induction false} FieldsKept(items: seq<Descriptor>)
    ensures OrderClause(items) == WithField(items)
    decreases |items|
  {
    if items != [] {
      FieldsKept(items[1..]);
      FieldsSplit(items[0], items[1..]);
      assert [items[0]] + items[1..] == items;
    }
  }

  lemma {:induction false} FieldsSplit(first: Descriptor, rest: seq<Descriptor>)
    ensures WithField([first] + rest) == (if first.field == "" then [] else [first]) + WithField(rest)
    decreases |rest|
  {
    var items := [first] + rest;
    if rest == [] {
      assert items == [first] && items[..0] == [];
    } else {
      assert items[..|items| - 1] == [first] + rest[..|rest| - 1];
      FieldsSplit(first, rest[..|rest| - 1]);
    }
  }

  lemma KeywordRead(word: string, condition: Option<seq<Token>>, rest: seq<Text>)
    requires condition.None? ==> |rest| < 2 || rest[0] != Words(word) || !rest[1].Condition?
    ensures ReadKeyword(Keyword(word, condition) + rest, word) == (condition, rest)
  {
    if condition.None? {
      assert Keyword(word, condition) + rest == rest;
    } else {
      assert (Keyword(word, condition) + rest)[2..] == rest;
    }
  }

  lemma CutRead(order: seq<Descriptor>, limit: Option<nat>, offset: Option<nat>, rest: seq<Text>)
    requires rest == [] || rest[0].Words?
    ensures ReadCut(Behind(order, limit, offset) + rest) == (Cut(order, limit, offset), rest)
  {
    var c := if offset.None? then [] else [Offset(offset.value)];
    var b := if limit.None? then [] else [Limit(limit.value)];
    var a := if order == [] then [] else [Ordering(order)];
    assert Behind(order, limit, offset) + rest == a + (b + (c + rest));
    hide Behind, ReadOrdering, ReadLimit, ReadOffset;
    OffsetRead(offset, rest);
    LimitRead(limit, offset, rest);
    OrderingRead(order, b + (c + rest)) by {
      assert b == [] ==> b + (c + rest) == c + rest;
      assert c == [] ==> c + rest == rest;
    }
  }

  lemma OffsetRead(offset: Option<nat>, rest: seq<Text>)
    requires rest == [] || rest[0].Words?
    ensures ReadOffset((if offset.None? then [] else [Offset(offset.value)]) + rest) == (offset, rest)
  {
    if offset.None? {
      assert [] + rest == rest;
    }
  }

  lemma LimitRead(limit: Option<nat>, offset: Option<nat>, rest: seq<Text>)
    requires rest == [] || rest[0].Words?
    ensures var more := (if offset.None? then [] else [Offset(offset.value)]) + rest;
            ReadLimit((if limit.None? then [] else [Limit(limit.value)]) + more) == (limit, more)
  {
    var more := (if offset.None? then [] else [Offset(offset.value)]) + rest;
    assert offset.None? ==> more == rest;
    if limit.None? {
      assert [] + more == more;
    }
  }

  lemma OrderingRead(order: seq<Descriptor>, more: seq<Text>)
    requires more == [] || !more[0].Ordering?
    ensures ReadOrdering((if order == [] then [] else [Ordering(order)]) + more) == (order, more)
  {
    if order == [] {
      assert [] + more == more;
    }
  }

  lemma BehindStart(order: seq<Descriptor>, limit: Option<nat>, offset: Option<nat>, word: string, rest: seq<Text>)
    requires rest == [] || (rest[0].Words? && rest[0].words != word)
    ensures var texts := Behind(order, limit, offset) + rest;
            (texts == [] || texts[0] != Words(word)) && (|texts| < 1 || !texts[0].Condition?)
  {
    var texts := Behind(order, limit, offset) + rest;
    assert Behind(order, limit, offset) == [] ==> texts == rest;
  }

  /** One stage is read as what it was built of. */
  lemma StageRead(name: string, select: string, where: Option<seq<Token>>, group: string, having: Option<seq<Token>>,
                  order: seq<Descriptor>, limit: Option<nat>, offset: Option<nat>, rest: seq<Text>)
    ensures ReadStage([Words(name), Words(" AS (")] +
                      ([Words(select)] + Keyword(" WHERE ", where) + [Words(group)] + Keyword(" HAVING ", having) + Behind(order, limit, offset)) +
                      [Words(")")] + rest) ==
            Some((StageView(name, select, where, group, having, Cut(order, limit, offset)), rest))
  {
    hide Behind, Keyword, ReadCut, ReadKeyword;
    var end := [Words(")")] + rest;
    var cut := Behind(order, limit, offset) + end;
    var tail := Keyword(" HAVING ", having) + cut;
    var middle := [Words(group)] + tail;
    var texts := [Words(name), Words(" AS ("), Words(select)] + (Keyword(" WHERE ", where) + middle);
    assert texts[3..] == Keyword(" WHERE ", where) + middle;
    BehindStart(order, limit, offset, " HAVING ", end);
    NoConditionFirst(having, order, limit, offset, end);
    KeywordRead(" WHERE ", where, middle);
    assert middle[1..] == tail;
    KeywordRead(" HAVING ", having, cut);
    CutRead(order, limit, offset, end);
    assert end[1..] == rest;
    assert ReadStage(texts) == Some((StageView(name, select, where, group, having, Cut(order, limit, offset)), rest));
    Regroup(name, select, Keyword(" WHERE ", where), group, Keyword(" HAVING ", having), Behind(order, limit, offset), rest);
  }

  lemma NoConditionFirst(having: Option<seq<Token>>, order: seq<Descriptor>, limit: Option<nat>, offset: Option<nat>, end: seq<Text>)
    requires end != [] && end[0].Words?
    ensures var tail := Keyword(" HAVING ", having) + (Behind(order, limit, offset) + end); tail != [] && !tail[0].Condition?
  {
    var cut := Behind(order, limit, offset) + end;
    assert cut[0] == if Behind(order, limit, offset) == [] then end[0] else Behind(order, limit, offset)[0];
    assert having.None? ==> Keyword(" HAVING ", having) + cut == cut;
  }

  lemma Regroup(name: string, select: string, where: seq<Text>, group: string, having: seq<Text>, behind: seq<Text>, rest: seq<Text>)
    ensures [Words(name), Words(" AS ("), Words(select)] + (where + ([Words(group)] + (having + (behind + ([Words(")")] + rest))))) ==
            [Words(name), Words(" AS (")] + ([Words(select)] + where + [Words(group)] + having + behind) + [Words(")")] + rest
  {
  }

  lemma NumbersKept(n: Option<int>)
    ensures Clamped(n, AtLeastZero(n))
  {
  }

  lemma LimitKept(top: Option<int>, paging: Option<Paging>)
    ensures LimitIs(top, paging, FinalLimit(top, paging))
  {
  }

  /** A stage's text, between its name and the parenthesis that closes it. */
  lemma BuiltStageRead(d: Dialect, s: Stage, last: bool, ps: seq<Value>, i: nat, rest: seq<Text>)
    returns (view: StageView)
    requires BuildStage(d, s, last, ps).Some?
    ensures StageIs(s, i, last, view)
    ensures ReadStage([Words(StageName(i)), Words(" AS (")] + BuildStage(d, s, last, ps).value.texts + [Words(")")] + rest) == Some((view, rest))
  {
    hide BuildStage, ReadStage, Behind, Keyword, OrderClause, WithField, Decimal, AtLeastZero;
    var middle, where, having := StageParts(d, s, last, ps);
    LinksExist(d, s, ps, middle, BuildStage(d, s, last, ps).value.params, where, having);
    hide Links;
    FieldsKept(s.order);
    NumbersKept(s.top);
    NumbersKept(s.skip);
    var order, limit, offset := OrderClause(s.order), AtLeastZero(s.top), AtLeastZero(s.skip);
    if last {
      NothingBehind();
      StageRead(StageName(i), s.select, where, s.group, having, [], None, None, rest);
      view := StageView(StageName(i), s.select, where, s.group, having, Cut([], None, None));
    } else {
      StageRead(StageName(i), s.select, where, s.group, having, order, limit, offset, rest);
      view := StageView(StageName(i), s.select, where, s.group, having, Cut(order, limit, offset));
    }
  }

  lemma NothingBehind()
    ensures Behind([], None, None) == []
  {
  }

  lemma LinksExist(d: Dialect, s: Stage, ps: seq<Value>, middle: seq<Value>, ps2: seq<Value>,
                   where: Option<seq<Token>>, having: Option<seq<Token>>)
    requires Links(d, WhereClauses(s), ps, middle, where) && Links(d, HavingClauses(s), middle, ps2, having)
    ensures (where.Some? <==> s.where.Some?) && (having.Some? <==> s.having != [])
  {
    hide EmitClause;
  }

  lemma {:induction false} BuiltStagesRead(d: Dialect, stages: seq<Stage>, ps: seq<Value>, from: nat, rest: seq<Text>)
    returns (views: seq<StageView>)
    requires stages != [] && BuildStages(d, stages, ps).Some?
    requires rest == [] || rest[0] != Words(", ")
    ensures StagesAre(stages, from, views)
    ensures ReadStages([Words(StageName(from)), Words(" AS (")] + BuildStage(d, stages[0], |stages| == 1, ps).value.texts + [Words(")")] +
                       NamedQueries(BuildStages(d, stages, ps).value.texts[1..], from + 1) + rest) == Some((views, rest))
    decreases |stages|
  {
    hide BuildStage, ReadStage, StageIs, StageName;
    var first := BuildStage(d, stages[0], |stages| == 1, ps).value;
    var texts := BuildStages(d, stages, ps).value.texts;
    var more := NamedQueries(texts[1..], from + 1) + rest;
    var opening := [Words(StageName(from)), Words(" AS (")] + first.texts + [Words(")")];
    var view := BuiltStageRead(d, stages[0], |stages| == 1, ps, from, more);
    assert opening + NamedQueries(texts[1..], from + 1) + rest == opening + more;
    assert texts[1..] == BuildStages(d, stages[1..], first.params).value.texts;
    if |stages| == 1 {
      assert texts[1..] == [] && more == rest;
      views := [view];
    } else {
      var tail := BuiltStagesRead(d, stages[1..], first.params, from + 1, rest);
      MoreStages(d, stages, ps, from, rest);
      views := [view] + tail;
      assert forall i :: 1 <= i < |stages| ==> views[i] == tail[i - 1] && stages[i] == stages[1..][i - 1];
      forall i | 0 <= i < |stages| ensures StageIs(stages[i], from + i, i == |stages| - 1, views[i]) {
        if i > 0 {
          assert StageIs(stages[1..][i - 1], from + 1 + (i - 1), i - 1 == |stages[1..]| - 1, tail[i - 1]);
        }
      }
    }
  }

  lemma MoreStages(d: Dialect, stages: seq<Stage>, ps: seq<Value>, from: nat, rest: seq<Text>)
    requires |stages| > 1 && BuildStages(d, stages, ps).Some?
    ensures BuildStage(d, stages[1], |stages| == 2, BuildStage(d, stages[0], false, ps).value.params).Some?
    ensures var first := BuildStage(d, stages[0], false, ps).value;
            var texts := BuildStages(d, stages, ps).value.texts;
            var second := BuildStage(d, stages[1], |stages| == 2, first.params).value;
            && BuildStages(d, stages[1..], first.params).Some?
            && |texts| > 1 && texts[1] == second.texts
            && NamedQueries(texts[1..], from + 1) + rest ==
               [Words(", ")] + ([Words(StageName(from + 1)), Words(" AS (")] + second.texts + [Words(")")] +
                                NamedQueries(texts[1..][1..], from + 2) + rest)
  {
    hide BuildStage, StageName;
    var first := BuildStage(d, stages[0], false, ps).value;
    assert stages[1..][0] == stages[1];
    var rest1 := BuildStages(d, stages[1..], first.params).value.texts;
    assert BuildStages(d, stages, ps).value.texts[1..] == rest1;
  }

  /** Reading a composed query gives back every stage under its name, in order, with its words, its
      conditions behind their keywords and its ordering and cuts; then the last SELECT, which reads
      from the last stage and ends with that stage's ORDER BY, the limit and the offset. */
  lemma BuiltQueryRead(d: Dialect, stages: seq<Stage>, paging: Option<Paging>) returns (view: QueryView)
    requires BuildQuery(d, stages, paging).Some?
    ensures stages != [] && QueryIs(stages, paging, view)
    ensures ReadQuery(BuildQuery(d, stages, paging).value.texts) == Some(view)
  {
    hide BuildStages, NamedQueries, ReadStages, Behind, FinalLimit, OrderClause, WithField, StagesAre, Keyword, AtLeastZero, Decimal,
         Links, ReadCut, ReadKeyword, LimitIs, Clamped;
    var query, built := BuildQuery(d, stages, paging).value, BuildStages(d, stages, []).value;
    var last := stages[|stages| - 1];
    var tokens := SkipTokens(d, stages, paging);
    var order, limit, offset := OrderClause(last.order), FinalLimit(last.top, paging), AtLeastZero(last.skip);
    var behind := Behind(order, limit, offset);
    FieldsKept(last.order);
    NumbersKept(last.skip);
    LimitKept(last.top, paging);
    var source := StageName(|built.texts| - 1);
    BuiltCount(d, stages, []);
    var rest := [Words(" SELECT * FROM "), Words(source)] + (Keyword(" WHERE ", tokens) + behind);
    var views := StagesFirst(d, stages, rest);
    Front(NamedQueries(built.texts, 0), source, Keyword(" WHERE ", tokens), behind);
    BehindAlone(order, limit, offset);
    KeywordRead(" WHERE ", tokens, behind);
    view := QueryView(views, source, tokens, Cut(order, limit, offset));
    var from := rest[1..];
    assert from == [Words(source)] + (Keyword(" WHERE ", tokens) + behind);
    assert from[1..] == Keyword(" WHERE ", tokens) + behind;
    assert query.texts[1..] == NamedQueries(built.texts, 0) + rest;
  }

  lemma {:induction false} BuiltCount(d: Dialect, stages: seq<Stage>, ps: seq<Value>)
    requires BuildStages(d, stages, ps).Some?
    ensures |BuildStages(d, stages, ps).value.texts| == |stages|
    decreases |stages|
  {
    hide BuildStage;
    if stages != [] {
      BuiltCount(d, stages[1..], BuildStage(d, stages[0], |stages| == 1, ps).value.params);
    }
  }

  lemma BehindAlone(order: seq<Descriptor>, limit: Option<nat>, offset: Option<nat>)
    ensures var behind := Behind(order, limit, offset);
            ReadCut(behind) == (Cut(order, limit, offset), []) && (behind == [] || (behind[0] != Words(" WHERE ") && !behind[0].Condition?))
  {
    hide ReadCut;
    CutRead(order, limit, offset, []);
    assert Behind(order, limit, offset) + [] == Behind(order, limit, offset);
  }

  lemma Front(named: seq<Text>, source: string, keyword: seq<Text>, behind: seq<Text>)
    ensures [Words("WITH ")] + named + [Words(" SELECT * FROM "), Words(source)] + keyword + behind ==
            [Words("WITH ")] + (named + ([Words(" SELECT * FROM "), Words(source)] + (keyword + behind)))
  {
  }

  lemma SkipTokens(d: Dialect, stages: seq<Stage>, paging: Option<Paging>) returns (tokens: Option<seq<Token>>)
    requires BuildQuery(d, stages, paging).Some?
    ensures BuildStages(d, stages, []).Some? && stages != []
    ensures tokens.Some? <==> paging.Some? && paging.value.token.Some?
    ensures var built := BuildStages(d, stages, []).value;
            var last := stages[|stages| - 1];
            built.texts != [] &&
            BuildQuery(d, stages, paging).value.texts ==
            ComposeFinalQuery(built.texts, tokens, OrderClause(last.order), FinalLimit(last.top, paging), AtLeastZero(last.skip))
  {
    hide BuildStages, SkipTokenPredicate, ComposeFinalQuery, OrderClause, FinalLimit, AtLeastZero;
    tokens := None;
    if paging.Some? && paging.value.token.Some? {
      var built := BuildStages(d, stages, []).value;
      tokens := Some(SkipTokenClause(d, paging.value.order, paging.value.token.value, built.params).value.value.tokens);
    }
  }

  lemma StagesFirst(d: Dialect, stages: seq<Stage>, rest: seq<Text>) returns (views: seq<StageView>)
    requires stages != [] && BuildStages(d, stages, []).Some? && (rest == [] || rest[0] != Words(", "))
    ensures StagesAre(stages, 0, views)
    ensures ReadStages(NamedQueries(BuildStages(d, stages, []).value.texts, 0) + rest) == Some((views, rest))
  {
    hide BuildStage, ReadStages, StageName, StagesAre;
    var texts := BuildStages(d, stages, []).value.texts;
    views := BuiltStagesRead(d, stages, [], 0, rest);
    var first := BuildStage(d, stages[0], |stages| == 1, []).value;
    assert texts[0] == first.texts;
    assert NamedQueries(texts, 0) ==
           [] + [Words(StageName(0)), Words(" AS (")] + first.texts + [Words(")")] + NamedQueries(texts[1..], 1);
    assert [] + [Words(StageName(0)), Words(" AS (")] == [Words(StageName(0)), Words(" AS (")];
  }

  // ------------------------------------------------------------------ conditions in order

  function Conditions(texts: seq<Text>): seq<seq<Token>> {
    if texts == [] then []
    else (if texts[0].Condition? then [texts[0].tokens] else []) + Conditions(texts[1..])
  }

  function Listed(c: Option<seq<Token>>): seq<seq<Token>> {
    if c.None? then [] else [c.value]
  }

  function StagesConditions(views: seq<StageView>): seq<seq<Token>> {
    if views == [] then [] else Listed(views[0].where) + Listed(views[0].having) + StagesConditions(views[1..])
  }

  /** Stage by stage WHERE, then HAVING; then the WHERE of the last SELECT. */
  function ViewConditions(view: QueryView): seq<seq<Token>> {
    StagesConditions(view.stages) + Listed(view.skip)
  }

  lemma KeywordConditions(texts: seq<Text>, word: string)
    ensures Conditions(texts) == Listed(ReadKeyword(texts, word).0) + Conditions(ReadKeyword(texts, word).1)
  {
    if |texts| >= 2 && texts[0] == Words(word) && texts[1].Condition? {
      assert Conditions(texts) == [] + Conditions(texts[1..]);
      assert texts[1..][1..] == texts[2..] && Conditions(texts[1..]) == [texts[1].tokens] + Conditions(texts[2..]);
    }
  }

  lemma CutConditions(texts: seq<Text>)
    ensures Conditions(texts) == Conditions(ReadCut(texts).1)
  {
    var a := ReadOrdering(texts).1;
    assert Conditions(texts) == Conditions(a);
    var b := ReadLimit(a).1;
    assert Conditions(a) == Conditions(b);
    assert Conditions(b) == Conditions(ReadOffset(b).1);
  }

  lemma StageConditions(texts: seq<Text>)
    requires ReadStage(texts).Some?
    ensures var (view, rest) := ReadStage(texts).value;
            Conditions(texts) == Listed(view.where) + Listed(view.having) + Conditions(rest)
  {
    hide ReadKeyword, ReadCut, Conditions, Listed;
    var where := ReadKeyword(texts[3..], " WHERE ");
    var group := ReadWords(where.1).value;
    var having := ReadKeyword(group.1, " HAVING ");
    var cut := ReadCut(having.1);
    ThreeWords(texts);
    KeywordConditions(texts[3..], " WHERE ");
    OneWord(where.1);
    KeywordConditions(group.1, " HAVING ");
    CutConditions(having.1);
    OneWord(cut.1);
  }

  lemma OneWord(texts: seq<Text>)
    requires texts != [] && texts[0].Words?
    ensures Conditions(texts) == Conditions(texts[1..])
  {
  }

  lemma ThreeWords(texts: seq<Text>)
    requires |texts| >= 3 && texts[0].Words? && texts[1].Words? && texts[2].Words?
    ensures Conditions(texts) == Conditions(texts[3..])
  {
    OneWord(texts);
    OneWord(texts[1..]);
    OneWord(texts[1..][1..]);
    assert texts[1..][1..][1..] == texts[3..];
  }

  lemma {:induction false} StagesShown(texts: seq<Text>)
    requires ReadStages(texts).Some?
    ensures Conditions(texts) == StagesConditions(ReadStages(texts).value.0) + Conditions(ReadStages(texts).value.1)
    decreases |texts|
  {
    hide ReadStage, Conditions, Listed;
    StageConditions(texts);
    var first := ReadStage(texts).value;
    var more := Skip(first.1, ", ");
    if more.None? {
      assert [first.0][1..] == [] && StagesConditions([first.0]) == Listed(first.0.where) + Listed(first.0.having) + [];
    } else {
      OneWord(first.1);
      StagesShown(more.value);
      var rest := ReadStages(more.value).value;
      assert ([first.0] + rest.0)[1..] == rest.0;
    }
  }

  /** The reader passes over no condition and changes no order: the n-th condition of the text is
      the n-th of the view. */
  lemma ConditionsInOrder(texts: seq<Text>)
    requires ReadQuery(texts).Some?
    ensures Conditions(texts) == ViewConditions(ReadQuery(texts).value)
  {
    hide ReadStages, ReadKeyword, ReadCut, Listed, StagesConditions;
    OneWord(texts);
    StagesShown(texts[1..]);
    var stages := ReadStages(texts[1..]).value;
    OneWord(stages.1);
    var source := ReadWords(stages.1[1..]).value;
    OneWord(stages.1[1..]);
    var skip := ReadKeyword(source.1, " WHERE ");
    KeywordConditions(source.1, " WHERE ");
    CutConditions(skip.1);
  }
}
