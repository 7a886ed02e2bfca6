/** Keyset paging of aggregated results: the skip-token predicate the executors emit, what it
    means, and the pages a client sees when it follows the tokens. */
module KeysetPaging {
  import opened ByteStrings
  import opened SqlTokens
  import opened SqlFilter
  import opened SqlMeaning

  type Row = map<string, Value>

  datatype Descriptor = Descriptor(field: string, descending: bool)

  // ------------------------------------------------------------------ the emitted predicate

  function Comparator(d: Descriptor): Comparison {
    if d.descending then Lt else Gt
  }

  /** `field = token` for the descriptors before `index`, then the strict comparison at it. */
  function BranchPieces(d: Dialect, ds: seq<Descriptor>, tokens: seq<Value>, from: nat, index: nat, ps: seq<Value>): Parts
    requires |ds| == |tokens| && from <= index < |ds|
    decreases index - from
  {
    if from == index then
      var sql := EmitComparison(d, ds[index].field, Comparator(ds[index]), tokens[index], ps);
      Parts([sql.tokens], sql.params)
    else
      var sql := EmitComparison(d, ds[from].field, Eq, tokens[from], ps);
      var more := BranchPieces(d, ds, tokens, from + 1, index, sql.params);
      Parts([sql.tokens] + more.list, more.params)
  }

  function Branch(d: Dialect, ds: seq<Descriptor>, tokens: seq<Value>, index: nat, ps: seq<Value>): Sql
    requires |ds| == |tokens| && index < |ds|
  {
    var parts := BranchPieces(d, ds, tokens, 0, index, ps);
    Sql(Parenthesised(Chained(parts.list, And)), parts.params)
  }

  function Branches(d: Dialect, ds: seq<Descriptor>, tokens: seq<Value>, index: nat, ps: seq<Value>): Parts
    requires |ds| == |tokens| && index <= |ds|
    decreases |ds| - index
  {
    if index == |ds| then Parts([], ps)
    else
      var sql := Branch(d, ds, tokens, index, ps);
      var more := Branches(d, ds, tokens, index + 1, sql.params);
      Parts([sql.tokens] + more.list, more.params)
  }

  function SkipTokenPredicate(d: Dialect, ds: seq<Descriptor>, tokens: seq<Value>, ps: seq<Value>): Sql
    requires |ds| == |tokens|
  {
    var parts := Branches(d, ds, tokens, 0, ps);
    Sql(Separated(parts.list, Or), parts.params)
  }

  /** A token of the wrong length is an error. */
  datatype TokenError = LengthMismatch

  /** No descriptors or no token values: no predicate. */
  function SkipTokenClause(d: Dialect, ds: seq<Descriptor>, tokens: seq<Value>, ps: seq<Value>): Result<Option<Sql>, TokenError> {
    if ds == [] || tokens == [] then Ok(None)
    else if |ds| != |tokens| then Err(LengthMismatch)
    else Ok(Some(SkipTokenPredicate(d, ds, tokens, ps)))
  }

  /** The predicate as it is built, on a growing parameter list. */
  method BuildSkipTokenPredicate(d: Dialect, ds: seq<Descriptor>, tokens: seq<Value>, ps: seq<Value>)
    returns (r: Result<Option<Sql>, TokenError>)
    ensures r == SkipTokenClause(d, ds, tokens, ps)
  {
    if |ds| == 0 || |tokens| == 0 {
      return Ok(None);
    }
    if |ds| != |tokens| {
      return Err(LengthMismatch);
    }
    hide Branch, BranchPieces;
    var params := ps;
    var branches: seq<seq<Token>> := [];
    ghost var target := Branches(d, ds, tokens, 0, ps);
    assert branches + target.list == target.list;
    for index := 0 to |ds|
      invariant Parts(branches + Branches(d, ds, tokens, index, params).list, Branches(d, ds, tokens, index, params).params) == target
    {
      var branch := BuildBranch(d, ds, tokens, index, params);
      ghost var more := Branches(d, ds, tokens, index + 1, branch.params);
      assert branches + [branch.tokens] + more.list == branches + ([branch.tokens] + more.list);
      branches := branches + [branch.tokens];
      params := branch.params;
    }
    assert branches + [] == branches;
    return Ok(Some(Sql(Separated(branches, Or), params)));
  }

  method BuildBranch(d: Dialect, ds: seq<Descriptor>, tokens: seq<Value>, index: nat, ps: seq<Value>) returns (sql: Sql)
    requires |ds| == |tokens| && index < |ds|
    ensures sql == Branch(d, ds, tokens, index, ps)
  {
    hide EmitComparison, Chained;
    var params := ps;
    var equalityParts: seq<seq<Token>> := [];
    ghost var target := BranchPieces(d, ds, tokens, 0, index, ps);
    assert equalityParts + target.list == target.list;
    for eqIndex := 0 to index
      invariant var more := BranchPieces(d, ds, tokens, eqIndex, index, params);
                Parts(equalityParts + more.list, more.params) == target
    {
      var piece := EmitComparison(d, ds[eqIndex].field, Eq, tokens[eqIndex], params);
      ghost var more := BranchPieces(d, ds, tokens, eqIndex + 1, index, piece.params);
      assert equalityParts + [piece.tokens] + more.list == equalityParts + ([piece.tokens] + more.list);
      equalityParts := equalityParts + [piece.tokens];
      params := piece.params;
    }
    var last := EmitComparison(d, ds[index].field, Comparator(ds[index]), tokens[index], params);
    equalityParts := equalityParts + [last.tokens];
    sql := Sql(Parenthesised(Chained(equalityParts, And)), last.params);
  }

  // ------------------------------------------------------------------ the order it stands for

  ghost predicate StrictOrder(less: (Value, Value) -> bool) {
    && (forall a :: !less(a, a))
    && (forall a, b :: less(a, b) || a == b || less(b, a))
    && (forall a, b, c :: less(a, b) && less(b, c) ==> less(a, c))
  }

  /** The database compares non-null values by `less`. */
  ghost predicate Orders(e: Env, less: (Value, Value) -> bool) {
    forall a, b :: (e.holds(Eq, a, b) <==> a == b) && (e.holds(Lt, a, b) <==> less(a, b)) && (e.holds(Gt, a, b) <==> less(b, a))
  }

  function ColumnOf(row: Row, field: string): Value {
    if field in row then row[field] else Null
  }

  function Key(row: Row, ds: seq<Descriptor>): (key: seq<Value>)
    ensures |key| == |ds| && forall i :: 0 <= i < |ds| ==> key[i] == ColumnOf(row, ds[i].field)
  {
    if ds == [] then [] else [ColumnOf(row, ds[0].field)] + Key(row, ds[1..])
  }

  predicate Beyond(less: (Value, Value) -> bool, d: Descriptor, x: Value, token: Value) {
    if d.descending then less(x, token) else less(token, x)
  }

  /** Lexicographically after the token, each field in its own direction. */
  predicate After(less: (Value, Value) -> bool, ds: seq<Descriptor>, key: seq<Value>, tokens: seq<Value>)
    requires |ds| == |key| == |tokens|
  {
    ds != [] &&
    (Beyond(less, ds[0], key[0], tokens[0]) || (key[0] == tokens[0] && After(less, ds[1..], key[1..], tokens[1..])))
  }

  predicate NoNull(vs: seq<Value>) {
    forall i :: 0 <= i < |vs| ==> vs[i] != Null
  }

  /** Equal up to `index`, beyond at it: what one branch says. */
  predicate AfterAt(less: (Value, Value) -> bool, ds: seq<Descriptor>, key: seq<Value>, tokens: seq<Value>, index: nat)
    requires |ds| == |key| == |tokens| && index < |ds|
  {
    (forall j :: 0 <= j < index ==> key[j] == tokens[j]) && Beyond(less, ds[index], key[index], tokens[index])
  }

  /** The same, from descriptor `from` on. */
  predicate BranchHolds(less: (Value, Value) -> bool, ds: seq<Descriptor>, key: seq<Value>, tokens: seq<Value>, from: nat, index: nat)
    requires |ds| == |key| == |tokens| && from <= index < |ds|
    decreases index - from
  {
    if from == index then Beyond(less, ds[index], key[index], tokens[index])
    else key[from] == tokens[from] && BranchHolds(less, ds, key, tokens, from + 1, index)
  }

  lemma {:induction false} BranchHoldsIs(less: (Value, Value) -> bool, ds: seq<Descriptor>, key: seq<Value>, tokens: seq<Value>,
                                         from: nat, index: nat)
    requires |ds| == |key| == |tokens| && from <= index < |ds|
    ensures BranchHolds(less, ds, key, tokens, from, index) <==>
            (forall j :: from <= j < index ==> key[j] == tokens[j]) && Beyond(less, ds[index], key[index], tokens[index])
    decreases index - from
  {
    hide Beyond;
    if from < index {
      BranchHoldsIs(less, ds, key, tokens, from + 1, index);
    }
  }

  lemma {:induction false} AfterIsSomeBranch(less: (Value, Value) -> bool, ds: seq<Descriptor>, key: seq<Value>, tokens: seq<Value>)
    requires |ds| == |key| == |tokens|
    ensures After(less, ds, key, tokens) <==> exists i :: 0 <= i < |ds| && AfterAt(less, ds, key, tokens, i)
    decreases |ds|
  {
    hide Beyond;
    if ds != [] {
      AfterIsSomeBranch(less, ds[1..], key[1..], tokens[1..]);
      forall i | 0 <= i < |ds| - 1 && key[0] == tokens[0]
        ensures AfterAt(less, ds[1..], key[1..], tokens[1..], i) <==> AfterAt(less, ds, key, tokens, i + 1)
      {
        assert forall j :: 0 <= j < i ==> key[1..][j] == key[j + 1] && tokens[1..][j] == tokens[j + 1];
        assert forall j :: 1 <= j < i + 1 ==> key[1..][j - 1] == key[j] && tokens[1..][j - 1] == tokens[j];
      }
      if exists i :: 0 <= i < |ds| && AfterAt(less, ds, key, tokens, i) {
        var i :| 0 <= i < |ds| && AfterAt(less, ds, key, tokens, i);
        if i > 0 {
          assert AfterAt(less, ds[1..], key[1..], tokens[1..], i - 1);
        }
      }
      if Beyond(less, ds[0], key[0], tokens[0]) {
        assert AfterAt(less, ds, key, tokens, 0);
      } else if key[0] == tokens[0] && After(less, ds[1..], key[1..], tokens[1..]) {
        var i :| 0 <= i < |ds[1..]| && AfterAt(less, ds[1..], key[1..], tokens[1..], i);
        assert AfterAt(less, ds, key, tokens, i + 1);
      }
    }
  }

  // ------------------------------------------------------------------ what the predicate means

  /** The row being looked at, as the evaluator sees it. */
  ghost predicate Shows(e: Env, row: Row, less: (Value, Value) -> bool) {
    Orders(e, less) && forall c :: e.row(c) == ColumnOf(row, c)
  }

  /** One comparison of a branch, on non-null values. */
  lemma PieceReads(e: Env, less: (Value, Value) -> bool, row: Row, d: Dialect, field: string, op: Comparison, token: Value,
                   ps: seq<Value>)
    requires Shows(e, row, less) && token != Null && ColumnOf(row, field) != Null
    requires op == Eq || op == Lt || op == Gt
    requires EmitComparison(d, field, op, token, ps).params <= e.params
    ensures var sql := EmitComparison(d, field, op, token, ps);
            var x := ColumnOf(row, field);
            var v := Truth(if op == Eq then x == token else if op == Lt then less(x, token) else less(token, x));
            && ps <= sql.params
            && AndPiece(e, sql.tokens, v, |ps|, |sql.params|)
  {
    var x := ColumnOf(row, field);
    assert e.row(field) == x;
    assert CompareValues(e, op, x, token) ==
           Truth(if op == Eq then x == token else if op == Lt then less(x, token) else less(token, x));
    hide AndPiece, Primary, CompareValues;
    OperationReads(e, d, field, OpCompare(op, token), ps);
    var sql := EmitComparison(d, field, op, token, ps);
    PrimaryIsAnd(e, sql.tokens, CompareValues(e, op, x, token), |ps|, |sql.params|);
  }

  lemma LastPieceReads(e: Env, less: (Value, Value) -> bool, row: Row, d: Dialect, descriptor: Descriptor, token: Value, ps: seq<Value>)
    returns (vs: seq<Tri>, ks: seq<nat>)
    requires Shows(e, row, less) && token != Null && ColumnOf(row, descriptor.field) != Null
    requires EmitComparison(d, descriptor.field, Comparator(descriptor), token, ps).params <= e.params
    ensures var sql := EmitComparison(d, descriptor.field, Comparator(descriptor), token, ps);
            && ps <= sql.params
            && AndPieces(e, [sql.tokens], vs, ks) && ks[0] == |ps| && ks[1] == |sql.params|
            && AndAll(vs) == Truth(Beyond(less, descriptor, ColumnOf(row, descriptor.field), token))
  {
    hide AndPiece, Shows;
    var sql := EmitComparison(d, descriptor.field, Comparator(descriptor), token, ps);
    PieceReads(e, less, row, d, descriptor.field, Comparator(descriptor), token, ps);
    vs, ks := [Truth(Beyond(less, descriptor, ColumnOf(row, descriptor.field), token))], [|ps|, |sql.params|];
    AndAllCons(vs[0], []);
  }

  lemma {:induction false} BranchPiecesRead(e: Env, less: (Value, Value) -> bool, row: Row, d: Dialect, ds: seq<Descriptor>,
                                            tokens: seq<Value>, from: nat, index: nat, ps: seq<Value>)
    returns (vs: seq<Tri>, ks: seq<nat>)
    requires |ds| == |tokens| && from <= index < |ds|
    requires Shows(e, row, less) && NoNull(tokens) && NoNull(Key(row, ds))
    requires BranchPieces(d, ds, tokens, from, index, ps).params <= e.params
    ensures var parts := BranchPieces(d, ds, tokens, from, index, ps);
            && ps <= parts.params && parts.list != []
            && AndPieces(e, parts.list, vs, ks) && ks[0] == |ps| && ks[|parts.list|] == |parts.params|
            && AndAll(vs) == Truth(BranchHolds(less, ds, Key(row, ds), tokens, from, index))
    decreases index - from
  {
    hide *;
    KeyAt(row, ds, tokens, from);
    BranchUnfolds(less, d, ds, Key(row, ds), tokens, from, index, ps);
    if from == index {
      vs, ks := LastPieceReads(e, less, row, d, ds[index], tokens[index], ps);
    } else {
      var sql := EmitComparison(d, ds[from].field, Eq, tokens[from], ps);
      vs, ks := BranchPiecesRead(e, less, row, d, ds, tokens, from + 1, index, sql.params);
      var more := BranchPieces(d, ds, tokens, from + 1, index, sql.params);
      PieceCounts(e, more.list, vs, ks);
      vs, ks := EqualPieceReads(e, less, row, d, ds[from].field, tokens[from], ps, more, vs, ks,
                                BranchHolds(less, ds, Key(row, ds), tokens, from + 1, index));
    }
  }

  lemma KeyAt(row: Row, ds: seq<Descriptor>, tokens: seq<Value>, i: nat)
    requires |ds| == |tokens| && i < |ds| && NoNull(tokens) && NoNull(Key(row, ds))
    ensures |Key(row, ds)| == |ds| && Key(row, ds)[i] == ColumnOf(row, ds[i].field)
    ensures tokens[i] != Null && ColumnOf(row, ds[i].field) != Null
  {
    assert Key(row, ds)[i] != Null;
  }

  lemma BranchUnfolds(less: (Value, Value) -> bool, d: Dialect, ds: seq<Descriptor>, key: seq<Value>, tokens: seq<Value>,
                      from: nat, index: nat, ps: seq<Value>)
    requires |ds| == |tokens| == |key| && from <= index < |ds|
    ensures from == index ==>
              var sql := EmitComparison(d, ds[index].field, Comparator(ds[index]), tokens[index], ps);
              && BranchPieces(d, ds, tokens, from, index, ps) == Parts([sql.tokens], sql.params)
              && (BranchHolds(less, ds, key, tokens, from, index) <==> Beyond(less, ds[index], key[index], tokens[index]))
    ensures from < index ==>
              var sql := EmitComparison(d, ds[from].field, Eq, tokens[from], ps);
              var more := BranchPieces(d, ds, tokens, from + 1, index, sql.params);
              && BranchPieces(d, ds, tokens, from, index, ps) == Parts([sql.tokens] + more.list, more.params)
              && (BranchHolds(less, ds, key, tokens, from, index)
                  <==> key[from] == tokens[from] && BranchHolds(less, ds, key, tokens, from + 1, index))
  {
    hide EmitComparison, Beyond, Comparator;
  }

  lemma PieceCounts(e: Env, list: seq<seq<Token>>, vs: seq<Tri>, ks: seq<nat>)
    requires AndPieces(e, list, vs, ks)
    ensures |ks| == |list| + 1
  {
  }

  lemma EqualPieceReads(e: Env, less: (Value, Value) -> bool, row: Row, d: Dialect, field: string, token: Value, ps: seq<Value>,
                        more: Parts, vs0: seq<Tri>, ks0: seq<nat>, rest: bool)
    returns (vs: seq<Tri>, ks: seq<nat>)
    requires Shows(e, row, less) && token != Null && ColumnOf(row, field) != Null
    requires EmitComparison(d, field, Eq, token, ps).params <= more.params <= e.params
    requires |ks0| == |more.list| + 1 && AndPieces(e, more.list, vs0, ks0) && AndAll(vs0) == Truth(rest)
    requires ks0[0] == |EmitComparison(d, field, Eq, token, ps).params| && ks0[|more.list|] == |more.params|
    ensures var sql := EmitComparison(d, field, Eq, token, ps);
            var list := [sql.tokens] + more.list;
            && ps <= more.params
            && AndPieces(e, list, vs, ks) && |ks| == |list| + 1
            && ks[0] == |ps| && ks[|list|] == |more.params|
            && AndAll(vs) == Truth(ColumnOf(row, field) == token && rest)
  {
    hide AndPiece, Shows, AndAll, EmitComparison, AndPieces;
    var sql := EmitComparison(d, field, Eq, token, ps);
    var v := Truth(ColumnOf(row, field) == token);
    PieceReads(e, less, row, d, field, Eq, token, ps);
    AndAllCons(v, vs0);
    AddPiece(e, sql.tokens, v, |ps|, more.list, vs0, ks0);
    vs, ks := [v] + vs0, [|ps|] + ks0;
  }

  lemma BranchReads(e: Env, less: (Value, Value) -> bool, row: Row, d: Dialect, ds: seq<Descriptor>, tokens: seq<Value>,
                    index: nat, ps: seq<Value>)
    requires |ds| == |tokens| && index < |ds|
    requires Shows(e, row, less) && NoNull(tokens) && NoNull(Key(row, ds))
    requires Branch(d, ds, tokens, index, ps).params <= e.params
    ensures var sql := Branch(d, ds, tokens, index, ps);
            && ps <= sql.params
            && AndPiece(e, sql.tokens, Truth(AfterAt(less, ds, Key(row, ds), tokens, index)), |ps|, |sql.params|)
  {
    hide AndPiece, OrPiece, Primary, BranchPieces, Chained, Shows, Beyond;
    var parts := BranchPieces(d, ds, tokens, 0, index, ps);
    var vs, ks := BranchPiecesRead(e, less, row, d, ds, tokens, 0, index, ps);
    BranchHoldsIs(less, ds, Key(row, ds), tokens, 0, index);
    hide BranchHolds;
    var text, v := Chained(parts.list, And), AndAll(vs);
    ChainedConjunction(e, parts.list, vs, ks);
    AndIsOr(e, text, v, |ps|, |parts.params|);
    ParenthesisedIsPrimary(e, text, v, |ps|, |parts.params|);
    PrimaryIsAnd(e, Parenthesised(text), v, |ps|, |parts.params|);
  }

  lemma {:induction false} BranchesRead(e: Env, less: (Value, Value) -> bool, row: Row, d: Dialect, ds: seq<Descriptor>,
                                        tokens: seq<Value>, index: nat, ps: seq<Value>)
    returns (vs: seq<Tri>, ks: seq<nat>)
    requires |ds| == |tokens| && index <= |ds|
    requires Shows(e, row, less) && NoNull(tokens) && NoNull(Key(row, ds))
    requires Branches(d, ds, tokens, index, ps).params <= e.params
    ensures var parts := Branches(d, ds, tokens, index, ps);
            && ps <= parts.params && |parts.list| == |ds| - index
            && AndPieces(e, parts.list, vs, ks) && ks[0] == |ps| && ks[|parts.list|] == |parts.params|
            && OrAll(vs) == Truth(exists i :: index <= i < |ds| && AfterAt(less, ds, Key(row, ds), tokens, i))
    decreases |ds| - index
  {
    hide AndPiece, Branch, Shows, AfterAt;
    if index == |ds| {
      vs, ks := [], [|ps|];
    } else {
      var sql := Branch(d, ds, tokens, index, ps);
      vs, ks := BranchesRead(e, less, row, d, ds, tokens, index + 1, sql.params);
      BranchReads(e, less, row, d, ds, tokens, index, ps);
      var v := Truth(AfterAt(less, ds, Key(row, ds), tokens, index));
      assert ([v] + vs)[1..] == vs;
      AddPiece(e, sql.tokens, v, |ps|, Branches(d, ds, tokens, index + 1, sql.params).list, vs, ks);
      vs, ks := [v] + vs, [|ps|] + ks;
    }
  }

  /** The OR of ANDs means: lexicographically after the token, ascending and descending fields
      mixed as they may be, on every row whose ordering fields are not null. */
  lemma PredicateMeansAfter(e: Env, less: (Value, Value) -> bool, row: Row, d: Dialect, ds: seq<Descriptor>, tokens: seq<Value>,
                            ps: seq<Value>)
    requires |ds| == |tokens| && ds != []
    requires Shows(e, row, less) && NoNull(tokens) && NoNull(Key(row, ds))
    requires SkipTokenPredicate(d, ds, tokens, ps).params <= e.params
    ensures ConditionValue(e, SkipTokenPredicate(d, ds, tokens, ps).tokens, |ps|) ==
            Some(Truth(After(less, ds, Key(row, ds), tokens)))
  {
    hide AndPiece, OrPiece, Branches, Separated, Shows, AfterAt, ConditionValue;
    var parts := Branches(d, ds, tokens, 0, ps);
    var vs, ks := BranchesRead(e, less, row, d, ds, tokens, 0, ps);
    OrChain(e, parts.list, vs, ks);
    WholePiece(e, Separated(parts.list, Or), OrAll(vs), |ps|, |parts.params|);
    AfterIsSomeBranch(less, ds, Key(row, ds), tokens);
  }

  // ------------------------------------------------------------------ pages

  /** How the database compares and lower-cases values. */
  datatype Database = Database(holds: (Comparison, Value, Value) -> bool, lower: Value -> Value)

  /** A row, read under the parameters bound for one query. */
  function View(db: Database, row: Row, params: seq<Value>): Env {
    Env(c => ColumnOf(row, c), params, db.holds, db.lower)
  }

  /** Does the row satisfy the predicate emitted for the token, with its own parameters bound? */
  predicate Matches(d: Dialect, db: Database, ds: seq<Descriptor>, tokens: seq<Value>, row: Row)
    requires |ds| == |tokens|
  {
    var sql := SkipTokenPredicate(d, ds, tokens, []);
    ConditionValue(View(db, row, sql.params), sql.tokens, 0) == Some(Yes)
  }

  /** The final query's rows: those that satisfy the predicate, in order, at most `limit`. */
  function Matching(d: Dialect, ds: seq<Descriptor>, tokens: seq<Value>, db: Database, rows: seq<Row>): seq<Row>
    requires |ds| == |tokens|
    decreases |rows|
  {
    if rows == [] then []
    else
      (if Matches(d, db, ds, tokens, rows[0]) then [rows[0]] else []) +
      Matching(d, ds, tokens, db, rows[1..])
  }

  function Limited(rows: seq<Row>, limit: nat): seq<Row> {
    if |rows| <= limit then rows else rows[..limit]
  }

  datatype Page = Page(rows: seq<Row>, next: Option<seq<Value>>)

  /** One page: one row more than the page is asked for, and the last row kept makes the token. */
  function FetchPage(result: seq<Row>, ds: seq<Descriptor>, pageSize: nat): Page
    requires pageSize > 0
  {
    var fetched := Limited(result, pageSize + 1);
    var kept := Limited(fetched, pageSize);
    Page(kept, if |fetched| > pageSize then TokenOf(kept[|kept| - 1], ds) else None)
  }

  predicate HasFields(row: Row, ds: seq<Descriptor>) {
    forall i :: 0 <= i < |ds| ==> ds[i].field in row
  }

  /** The token of a row: its descriptor values, if it has them all. */
  function TokenOf(row: Row, ds: seq<Descriptor>): (token: Option<seq<Value>>)
    ensures token.Some? ==> |token.value| == |ds|
  {
    if ds == [] || !HasFields(row, ds) then None else Some(Key(row, ds))
  }

  lemma TokenOfFull(row: Row, ds: seq<Descriptor>)
    requires ds != [] && NoNull(Key(row, ds))
    ensures TokenOf(row, ds) == Some(Key(row, ds))
  {
    forall i | 0 <= i < |ds| ensures ds[i].field in row {
      assert Key(row, ds)[i] != Null;
    }
  }

  /** What a client collects by following the tokens, in at most `steps` requests. */
  function Follow(d: Dialect, ds: seq<Descriptor>, pageSize: nat, db: Database, all: seq<Row>, token: Option<seq<Value>>,
                  steps: nat): Option<seq<Row>>
    requires pageSize > 0 && (token.Some? ==> |token.value| == |ds|)
    decreases steps
  {
    if steps == 0 then None
    else
      var result := if token.Some? then Matching(d, ds, token.value, db, all) else all;
      var page := FetchPage(result, ds, pageSize);
      if page.next.None? then Some(page.rows)
      else
        match Follow(d, ds, pageSize, db, all, page.next, steps - 1)
        case None => None
        case Some(more) => Some(page.rows + more)
  }

  method CreateSkipTokenValues(row: Row, ds: seq<Descriptor>) returns (token: Option<seq<Value>>)
    ensures token == TokenOf(row, ds)
  {
    if |ds| == 0 {
      return None;
    }
    ghost var key := Key(row, ds);
    assert forall j :: 0 <= j < |ds| ==> key[j] == ColumnOf(row, ds[j].field);
    var values: seq<Value> := [];
    hide Key;
    for i := 0 to |ds|
      invariant |values| == i && forall j :: 0 <= j < i ==> values[j] == key[j]
      invariant forall j :: 0 <= j < i ==> ds[j].field in row
    {
      if ds[i].field !in row {
        return None;
      }
      values := values + [row[ds[i].field]];
    }
    assert values == key;
    return Some(values);
  }

  // ------------------------------------------------------------------ the enumeration

  /** The stage result as the final ORDER BY lists it: ordering fields not null, rows strictly
      increasing in the descriptors' order. */
  ghost predicate Enumerable(less: (Value, Value) -> bool, ds: seq<Descriptor>, rows: seq<Row>) {
    && (forall i :: 0 <= i < |rows| ==> NoNull(Key(rows[i], ds)))
    && (forall i, j :: 0 <= i < j < |rows| ==> After(less, ds, Key(rows[j], ds), Key(rows[i], ds)))
  }

  lemma LessAsymmetric(less: (Value, Value) -> bool, x: Value, y: Value)
    requires StrictOrder(less)
    ensures !(less(x, y) && less(y, x))
  {
  }

  lemma {:induction false} AfterAsymmetric(less: (Value, Value) -> bool, ds: seq<Descriptor>, a: seq<Value>, b: seq<Value>)
    requires StrictOrder(less) && |ds| == |a| == |b| && After(less, ds, a, b)
    ensures !After(less, ds, b, a)
    decreases |ds|
  {
    if a[0] == b[0] {
      assert !Beyond(less, ds[0], a[0], b[0]);
      AfterAsymmetric(less, ds[1..], a[1..], b[1..]);
    } else {
      LessAsymmetric(less, a[0], b[0]);
    }
  }

  lemma {:induction false} AfterIrreflexive(less: (Value, Value) -> bool, ds: seq<Descriptor>, a: seq<Value>)
    requires StrictOrder(less) && |ds| == |a|
    ensures !After(less, ds, a, a)
    decreases |ds|
  {
    if ds != [] {
      AfterIrreflexive(less, ds[1..], a[1..]);
    }
  }

  /** The database compares by `less`. */
  ghost predicate Compares(db: Database, less: (Value, Value) -> bool) {
    forall a, b ::
      (db.holds(Eq, a, b) <==> a == b) && (db.holds(Lt, a, b) <==> less(a, b)) && (db.holds(Gt, a, b) <==> less(b, a))
  }

  lemma RowMatches(d: Dialect, db: Database, less: (Value, Value) -> bool, ds: seq<Descriptor>, tokens: seq<Value>, row: Row)
    requires |ds| == |tokens| && ds != [] && NoNull(tokens) && NoNull(Key(row, ds)) && Compares(db, less)
    ensures Matches(d, db, ds, tokens, row) <==> After(less, ds, Key(row, ds), tokens)
  {
    var e := View(db, row, SkipTokenPredicate(d, ds, tokens, []).params);
    assert Shows(e, row, less);
    hide ConditionValue, SkipTokenPredicate, Shows, After;
    PredicateMeansAfter(e, less, row, d, ds, tokens, []);
  }

  /** After row `i`, exactly the rows behind it match. */
  lemma {:induction false} MatchingIsSuffix(d: Dialect, ds: seq<Descriptor>, db: Database, less: (Value, Value) -> bool,
                                            all: seq<Row>, i: nat, from: nat)
    requires ds != [] && StrictOrder(less) && Enumerable(less, ds, all) && i < |all| && from <= |all|
    requires Compares(db, less)
    ensures Matching(d, ds, Key(all[i], ds), db, all[from..]) == if from <= i then all[i + 1..] else all[from..]
    decreases |all| - from
  {
    hide Matches, Compares, StrictOrder, After, Key;
    if from < |all| {
      MatchingIsSuffix(d, ds, db, less, all, i, from + 1);
      var token := Key(all[i], ds);
      assert all[from..][0] == all[from] && all[from..][1..] == all[from + 1..];
      assert NoNull(Key(all[i], ds)) && NoNull(Key(all[from], ds));
      RowMatches(d, db, less, ds, token, all[from]);
      if from < i {
        AfterAsymmetric(less, ds, token, Key(all[from], ds));
      } else if from == i {
        AfterIrreflexive(less, ds, token);
      }
      assert [all[from]] + all[from + 1..] == all[from..];
    }
  }

  /** From the rows behind a token, following the tokens yields exactly those rows. */
  lemma {:induction false} FollowEnumerates(d: Dialect, ds: seq<Descriptor>, pageSize: nat, db: Database,
                                            less: (Value, Value) -> bool, all: seq<Row>, token: Option<seq<Value>>, from: nat,
                                            steps: nat)
    requires pageSize > 0 && ds != [] && StrictOrder(less) && Enumerable(less, ds, all)
    requires Compares(db, less)
    requires from <= |all| && steps > |all| - from
    requires if token.None? then from == 0 else 0 < from && token.value == Key(all[from - 1], ds)
    ensures Follow(d, ds, pageSize, db, all, token, steps) == Some(all[from..])
    decreases steps
  {
    hide Compares, Enumerable, StrictOrder, Key, Matching, Limited, FetchPage, Follow, NoNull;
    SuffixFetched(d, ds, db, less, all, token, from);
    if from + pageSize < |all| {
      RowFull(less, ds, all, from + pageSize - 1);
    }
    PageOfSuffix(all, from, ds, pageSize);
    FollowStep(d, ds, pageSize, db, all, token, all[from..], steps);
    if from + pageSize < |all| {
      var next := Some(Key(all[from + pageSize - 1], ds));
      FollowEnumerates(d, ds, pageSize, db, less, all, next, from + pageSize, steps - 1);
      assert all[from..from + pageSize] + all[from + pageSize..] == all[from..];
    }
  }

  /** The rows a token asks for are those behind it. */
  lemma SuffixFetched(d: Dialect, ds: seq<Descriptor>, db: Database, less: (Value, Value) -> bool, all: seq<Row>,
                      token: Option<seq<Value>>, from: nat)
    requires ds != [] && StrictOrder(less) && Enumerable(less, ds, all) && Compares(db, less) && from <= |all|
    requires if token.None? then from == 0 else 0 < from && token.value == Key(all[from - 1], ds)
    ensures token.Some? ==> |token.value| == |ds|
    ensures all[from..] == if token.Some? then Matching(d, ds, token.value, db, all) else all
  {
    hide Compares, Enumerable, StrictOrder, Matching;
    assert all[0..] == all;
    if token.Some? {
      MatchingIsSuffix(d, ds, db, less, all, from - 1, 0);
    }
  }

  lemma RowFull(less: (Value, Value) -> bool, ds: seq<Descriptor>, all: seq<Row>, i: nat)
    requires Enumerable(less, ds, all) && i < |all|
    ensures NoNull(Key(all[i], ds))
  {
  }

  lemma FollowStep(d: Dialect, ds: seq<Descriptor>, pageSize: nat, db: Database, all: seq<Row>, token: Option<seq<Value>>,
                   result: seq<Row>, steps: nat)
    requires pageSize > 0 && steps > 0 && (token.Some? ==> |token.value| == |ds|)
    requires result == if token.Some? then Matching(d, ds, token.value, db, all) else all
    ensures var page := FetchPage(result, ds, pageSize);
            Follow(d, ds, pageSize, db, all, token, steps) ==
            if page.next.None? then Some(page.rows)
            else
              var more := Follow(d, ds, pageSize, db, all, page.next, steps - 1);
              if more.None? then None else Some(page.rows + more.value)
  {
    hide FetchPage, Matching;
  }

  /** One page of the rows behind a token. */
  lemma PageOfSuffix(all: seq<Row>, from: nat, ds: seq<Descriptor>, pageSize: nat)
    requires from <= |all| && pageSize > 0 && ds != []
    requires from + pageSize < |all| ==> NoNull(Key(all[from + pageSize - 1], ds))
    ensures var page := FetchPage(all[from..], ds, pageSize);
            if from + pageSize < |all|
            then page == Page(all[from..from + pageSize], Some(Key(all[from + pageSize - 1], ds)))
            else page == Page(all[from..], None)
  {
    hide Key, TokenOf, NoNull;
    var result := all[from..];
    if from + pageSize < |all| {
      TokenOfFull(all[from + pageSize - 1], ds);
      var fetched := Limited(result, pageSize + 1);
      assert Limited(fetched, pageSize) == all[from..from + pageSize];
    }
  }

  /** Keyset paging enumerates everything once. For every page size and every result whose rows
      are strictly ordered by non-null descriptor fields, following the tokens from the first
      page stops after at most one request per row plus one, and the pages add up to the full
      list in order. */
  lemma PagingEnumeratesAll(d: Dialect, ds: seq<Descriptor>, pageSize: nat, db: Database, less: (Value, Value) -> bool,
                            all: seq<Row>)
    requires pageSize > 0 && ds != [] && StrictOrder(less) && Enumerable(less, ds, all)
    requires Compares(db, less)
    ensures Follow(d, ds, pageSize, db, all, None, |all| + 1) == Some(all)
  {
    FollowEnumerates(d, ds, pageSize, db, less, all, None, 0, |all| + 1);
    assert all[0..] == all;
  }
}
