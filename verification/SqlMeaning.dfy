/** The emitted conditions mean what the trees mean: read back with SQL's precedence, under the
    bound parameters, they have the tree's three-valued truth value on every row. */
module SqlMeaning {
  import opened ByteStrings
  import opened SqlTokens
  import opened SqlFilter

  // ------------------------------------------------------------------ the meaning of trees

  function AndAll(vs: seq<Tri>): Tri {
    if vs == [] then Yes else And3(vs[0], AndAll(vs[1..]))
  }

  function OrAll(vs: seq<Tri>): Tri {
    if vs == [] then No else Or3(vs[0], OrAll(vs[1..]))
  }

  function Fold(connective: Token, vs: seq<Tri>): Tri {
    if connective == Or then OrAll(vs) else AndAll(vs)
  }

  /** A property operation on a column value. Comparing with null asks for null; a malformed
      range and an unknown operation have no meaning of their own. */
  function OperationMeaning(e: Env, x: Value, op: Operation): Tri {
    match op
    case OpEq(v) => if v == Null then Truth(x == Null) else CompareValues(e, Eq, x, v)
    case OpNeq(v) => if v == Null then Truth(x != Null) else CompareValues(e, Ne, x, v)
    case OpCompare(c, v) => CompareValues(e, c, x, v)
    case OpIn(vs) => AmongValues(e, x, vs)
    case OpNotIn(vs) => Not3(AmongValues(e, x, vs))
    case OpBetween(vs) =>
      if |vs| == 2 then And3(CompareValues(e, Ge, x, vs[0]), CompareValues(e, Le, x, vs[1])) else Unknown
    case OpLike(v) => CompareValues(e, Like, x, v)
    case OpILike(v) => CompareValues(e, Like, LowerValue(e, x), LowerValue(e, v))
    case OpNLike(v) => Not3(CompareValues(e, Like, x, v))
    case OpNILike(v) => Not3(CompareValues(e, Like, LowerValue(e, x), LowerValue(e, v)))
    case OpOther => Unknown
  }

  function OperationMeanings(e: Env, x: Value, ops: seq<Operation>): seq<Tri> {
    if ops == [] then [] else [OperationMeaning(e, x, ops[0])] + OperationMeanings(e, x, ops[1..])
  }

  function ConditionMeaning(e: Env, x: Value, c: Condition): Tri {
    match c
    case Literal(v) => OperationMeaning(e, x, OpEq(v))
    case Operations(ops) => AndAll(OperationMeanings(e, x, ops))
  }

  function FieldValue(e: Env, r: Resolver, field: string): Value {
    match r(field)
    case None => Null
    case Some(column) => e.row(column)
  }

  /** `emptyOr` is the value of a disjunction of nothing: No in logic. */
  function WhereMeaning(e: Env, r: Resolver, w: Where, emptyOr: Tri): Tri
    decreases w, 1
  {
    match w
    case Array(items) => AndAll(ItemMeanings(e, r, items, emptyOr))
    case Object(entries) => AndAll(EntryMeanings(e, r, entries, emptyOr))
  }

  function ItemMeanings(e: Env, r: Resolver, items: seq<Where>, emptyOr: Tri): seq<Tri>
    decreases items, 0
  {
    if items == [] then [] else [WhereMeaning(e, r, items[0], emptyOr)] + ItemMeanings(e, r, items[1..], emptyOr)
  }

  function EntryMeaning(e: Env, r: Resolver, entry: Entry, emptyOr: Tri): Tri
    decreases entry, 0
  {
    match entry
    case Property(field, condition) => ConditionMeaning(e, FieldValue(e, r, field), condition)
    case AndEntry(items) => AndAll(ItemMeanings(e, r, items, emptyOr))
    case OrEntry(items) => if items == [] then emptyOr else OrAll(ItemMeanings(e, r, items, emptyOr))
  }

  function EntryMeanings(e: Env, r: Resolver, entries: seq<Entry>, emptyOr: Tri): seq<Tri>
    decreases entries, 0
  {
    if entries == [] then [] else [EntryMeaning(e, r, entries[0], emptyOr)] + EntryMeanings(e, r, entries[1..], emptyOr)
  }

  function HavingMeaning(e: Env, r: Resolver, h: Having): Tri
    decreases h, 1
  {
    match h
    case Comparing(field, comparator, v) =>
      var x := FieldValue(e, r, field);
      (match comparator
       case HEq => OperationMeaning(e, x, OpEq(v))
       case HNe => OperationMeaning(e, x, OpNeq(v))
       case HCompare(op) => CompareValues(e, op, x, v)
       case HOther => Unknown)
    case Logical(connective, children) => Fold(connective, ChildMeanings(e, r, children))
    case Negation(child) => Not3(HavingMeaning(e, r, child))
    case OtherHaving => Unknown
  }

  function ChildMeanings(e: Env, r: Resolver, children: seq<Having>): seq<Tri>
    decreases children, 0
  {
    if children == [] then [] else [HavingMeaning(e, r, children[0])] + ChildMeanings(e, r, children[1..])
  }

  // ------------------------------------------------------------------ pieces and how they read

  /** Read as an AND operand chain, `ts` amounts to the value `v`, whatever follows. */
  ghost predicate AndPiece(e: Env, ts: seq<Token>, v: Tri, k: nat, k2: nat) {
    forall rest: seq<Token> :: ReadAnd(e, ts + rest, k) == AndTail(e, v, rest, k2)
  }

  /** `ts` is one operand. */
  ghost predicate Primary(e: Env, ts: seq<Token>, v: Tri, k: nat, k2: nat) {
    && ts != [] && ts[0] != Not
    && forall rest: seq<Token> :: ReadPrimary(e, ts + rest, k) == Some(Read(v, rest, k2))
  }

  /** Read up to a closing parenthesis or the end, `ts` amounts to `v`. */
  ghost predicate OrPiece(e: Env, ts: seq<Token>, v: Tri, k: nat, k2: nat) {
    forall rest: seq<Token> :: Closes(rest) ==> ReadOr(e, ts + rest, k) == Some(Read(v, rest, k2))
  }

  predicate Closes(rest: seq<Token>) {
    rest == [] || rest[0] == RParen
  }

  lemma PrimaryIsAnd(e: Env, ts: seq<Token>, v: Tri, k: nat, k2: nat)
    requires Primary(e, ts, v, k, k2)
    ensures AndPiece(e, ts, v, k, k2)
  {
    hide ReadPrimary, AndTail;
    forall rest: seq<Token>
      ensures ReadAnd(e, ts + rest, k) == AndTail(e, v, rest, k2)
    {
      assert (ts + rest)[0] == ts[0];
      assert ReadNot(e, ts + rest, k) == ReadPrimary(e, ts + rest, k);
    }
  }

  lemma AndIsOr(e: Env, ts: seq<Token>, v: Tri, k: nat, k2: nat)
    requires AndPiece(e, ts, v, k, k2)
    ensures OrPiece(e, ts, v, k, k2)
  {
    hide ReadAnd;
    forall rest: seq<Token> | Closes(rest)
      ensures ReadOr(e, ts + rest, k) == Some(Read(v, rest, k2))
    {
      assert AndTail(e, v, rest, k2) == Some(Read(v, rest, k2));
      assert OrTail(e, v, rest, k2) == Some(Read(v, rest, k2));
    }
  }

  lemma ParenthesisedIsPrimary(e: Env, ts: seq<Token>, v: Tri, k: nat, k2: nat)
    requires OrPiece(e, ts, v, k, k2)
    ensures Primary(e, Parenthesised(ts), v, k, k2)
  {
    hide ReadOr, ReadPredicate;
    forall rest: seq<Token>
      ensures ReadPrimary(e, Parenthesised(ts) + rest, k) == Some(Read(v, rest, k2))
    {
      var all := Parenthesised(ts) + rest;
      assert all[0] == LParen && all[1..] == ts + ([RParen] + rest);
      assert ([RParen] + rest)[0] == RParen && ([RParen] + rest)[1..] == rest;
    }
  }

  // ------------------------------------------------------------------ chains

  function Scale(connective: Token, a: Tri, r: Reading<Tri>): Reading<Tri> {
    match r
    case None => None
    case Some(x) => Some(Read(if connective == Or then Or3(a, x.value) else And3(a, x.value), x.rest, x.count))
  }

  lemma {:induction false} AndTailScale(e: Env, a: Tri, b: Tri, ts: seq<Token>, k: nat)
    ensures AndTail(e, And3(a, b), ts, k) == Scale(And, a, AndTail(e, b, ts, k))
    decreases |ts|
  {
    hide ReadNot;
    if ts != [] && ts[0] == And {
      var r := ReadNot(e, ts[1..], k);
      if r.Some? {
        AndTailScale(e, a, And3(b, r.value.value), r.value.rest, r.value.count);
        assert And3(And3(a, b), r.value.value) == And3(a, And3(b, r.value.value));
      }
    }
  }

  lemma {:induction false} OrTailScale(e: Env, a: Tri, b: Tri, ts: seq<Token>, k: nat)
    ensures OrTail(e, Or3(a, b), ts, k) == Scale(Or, a, OrTail(e, b, ts, k))
    decreases |ts|
  {
    hide ReadAnd;
    if ts != [] && ts[0] == Or {
      var r := ReadAnd(e, ts[1..], k);
      if r.Some? {
        OrTailScale(e, a, Or3(b, r.value.value), r.value.rest, r.value.count);
        assert Or3(Or3(a, b), r.value.value) == Or3(a, Or3(b, r.value.value));
      }
    }
  }

  lemma AndJoin(e: Env, x: seq<Token>, a: Tri, k: nat, k1: nat, y: seq<Token>, b: Tri, k2: nat)
    requires AndPiece(e, x, a, k, k1) && AndPiece(e, y, b, k1, k2)
    ensures AndPiece(e, x + ([And] + y), And3(a, b), k, k2)
  {
    hide ReadNot;
    forall rest: seq<Token>
      ensures ReadAnd(e, x + ([And] + y) + rest, k) == AndTail(e, And3(a, b), rest, k2)
    {
      var tail := [And] + (y + rest);
      assert x + ([And] + y) + rest == x + tail;
      assert tail[0] == And && tail[1..] == y + rest;
      var r := ReadNot(e, y + rest, k1);
      AndTailScale(e, a, b, rest, k2);
      if r.Some? {
        AndTailScale(e, a, r.value.value, r.value.rest, r.value.count);
      }
    }
  }

  lemma OrJoin(e: Env, x: seq<Token>, a: Tri, k: nat, k1: nat, y: seq<Token>, b: Tri, k2: nat)
    requires AndPiece(e, x, a, k, k1) && OrPiece(e, y, b, k1, k2)
    ensures OrPiece(e, x + ([Or] + y), Or3(a, b), k, k2)
  {
    hide ReadAnd;
    forall rest: seq<Token> | Closes(rest)
      ensures ReadOr(e, x + ([Or] + y) + rest, k) == Some(Read(Or3(a, b), rest, k2))
    {
      var tail := [Or] + (y + rest);
      assert x + ([Or] + y) + rest == x + tail;
      assert tail[0] == Or && tail[1..] == y + rest;
      assert AndTail(e, a, tail, k1) == Some(Read(a, tail, k1));
      var r := ReadAnd(e, y + rest, k1);
      assert ReadOr(e, y + rest, k1) == Some(Read(b, rest, k2));
      OrTailScale(e, a, r.value.value, r.value.rest, r.value.count);
    }
  }

  /** Consecutive pieces with their values and placeholder counts. */
  ghost predicate AndPieces(e: Env, list: seq<seq<Token>>, vs: seq<Tri>, ks: seq<nat>) {
    && |vs| == |list| && |ks| == |list| + 1
    && forall i :: 0 <= i < |list| ==> AndPiece(e, list[i], vs[i], ks[i], ks[i + 1])
  }

  lemma {:induction false} AndChain(e: Env, list: seq<seq<Token>>, vs: seq<Tri>, ks: seq<nat>)
    requires list != [] && AndPieces(e, list, vs, ks)
    ensures AndPiece(e, Separated(list, And), AndAll(vs), ks[0], ks[|list|])
    decreases |list|
  {
    hide AndPiece;
    assert AndPiece(e, list[0], vs[0], ks[0], ks[1]);
    if |list| == 1 {
      assert AndAll(vs) == And3(vs[0], AndAll([]));
    } else {
      AndChain(e, list[1..], vs[1..], ks[1..]);
      AndJoin(e, list[0], vs[0], ks[0], ks[1], Separated(list[1..], And), AndAll(vs[1..]), ks[|list|]);
    }
  }

  lemma {:induction false} OrChain(e: Env, list: seq<seq<Token>>, vs: seq<Tri>, ks: seq<nat>)
    requires list != [] && AndPieces(e, list, vs, ks)
    ensures OrPiece(e, Separated(list, Or), OrAll(vs), ks[0], ks[|list|])
    decreases |list|
  {
    hide AndPiece, OrPiece;
    assert AndPiece(e, list[0], vs[0], ks[0], ks[1]);
    if |list| == 1 {
      assert OrAll(vs) == Or3(vs[0], OrAll([]));
      AndIsOr(e, list[0], vs[0], ks[0], ks[1]);
    } else {
      OrChain(e, list[1..], vs[1..], ks[1..]);
      OrJoin(e, list[0], vs[0], ks[0], ks[1], Separated(list[1..], Or), OrAll(vs[1..]), ks[|list|]);
    }
  }

  /** Pieces grouped in one pair of parentheses are an AND piece of the folded value. */
  lemma GroupedPieces(e: Env, list: seq<seq<Token>>, vs: seq<Tri>, ks: seq<nat>, connective: Token)
    requires list != [] && AndPieces(e, list, vs, ks) && (connective == And || connective == Or)
    ensures AndPiece(e, Grouped(list, connective), Fold(connective, vs), ks[0], ks[|list|])
  {
    hide AndPiece, OrPiece, Primary, Separated;
    if |list| == 1 {
      assert AndPiece(e, list[0], vs[0], ks[0], ks[1]);
      assert AndAll(vs) == And3(vs[0], AndAll([])) && OrAll(vs) == Or3(vs[0], OrAll([]));
    } else {
      var text := Separated(list, connective);
      if connective == And {
        AndChain(e, list, vs, ks);
        AndIsOr(e, text, AndAll(vs), ks[0], ks[|list|]);
      } else {
        OrChain(e, list, vs, ks);
      }
      ParenthesisedIsPrimary(e, text, Fold(connective, vs), ks[0], ks[|list|]);
      PrimaryIsAnd(e, Parenthesised(text), Fold(connective, vs), ks[0], ks[|list|]);
    }
  }

  ghost predicate OrPieces(e: Env, list: seq<seq<Token>>, vs: seq<Tri>, ks: seq<nat>) {
    && |vs| == |list| && |ks| == |list| + 1
    && forall i :: 0 <= i < |list| ==> OrPiece(e, list[i], vs[i], ks[i], ks[i + 1])
  }

  lemma ParenthesisedPieces(e: Env, list: seq<seq<Token>>, vs: seq<Tri>, ks: seq<nat>)
    requires OrPieces(e, list, vs, ks)
    ensures AndPieces(e, EachParenthesised(list), vs, ks)
  {
    hide AndPiece, OrPiece, Primary, EachParenthesised;
    forall i | 0 <= i < |list|
      ensures AndPiece(e, EachParenthesised(list)[i], vs[i], ks[i], ks[i + 1])
    {
      ParenthesisedIsPrimary(e, list[i], vs[i], ks[i], ks[i + 1]);
      PrimaryIsAnd(e, Parenthesised(list[i]), vs[i], ks[i], ks[i + 1]);
    }
  }

  /** Each piece in its own parentheses: any level of piece will do. */
  lemma ChainedPieces(e: Env, list: seq<seq<Token>>, vs: seq<Tri>, ks: seq<nat>, connective: Token)
    requires list != [] && OrPieces(e, list, vs, ks) && (connective == And || connective == Or)
    ensures OrPiece(e, Chained(list, connective), Fold(connective, vs), ks[0], ks[|list|])
  {
    hide AndPiece, OrPiece, Separated;
    if |list| == 1 {
      assert OrPiece(e, list[0], vs[0], ks[0], ks[1]);
      assert AndAll(vs) == And3(vs[0], AndAll([])) && OrAll(vs) == Or3(vs[0], OrAll([]));
    } else {
      ParenthesisedPieces(e, list, vs, ks);
      var each := EachParenthesised(list);
      if connective == And {
        AndChain(e, each, vs, ks);
        AndIsOr(e, Separated(each, And), AndAll(vs), ks[0], ks[|list|]);
      } else {
        OrChain(e, each, vs, ks);
      }
    }
  }

  /** A chain of ANDs over AND pieces is an AND piece itself. */
  lemma ChainedConjunction(e: Env, list: seq<seq<Token>>, vs: seq<Tri>, ks: seq<nat>)
    requires list != [] && AndPieces(e, list, vs, ks)
    ensures AndPiece(e, Chained(list, And), AndAll(vs), ks[0], ks[|list|])
  {
    hide AndPiece, OrPiece, Separated;
    if |list| == 1 {
      assert AndPiece(e, list[0], vs[0], ks[0], ks[1]);
      assert AndAll(vs) == And3(vs[0], AndAll([]));
    } else {
      forall i | 0 <= i < |list|
        ensures OrPiece(e, list[i], vs[i], ks[i], ks[i + 1])
      {
        AndIsOr(e, list[i], vs[i], ks[i], ks[i + 1]);
      }
      ParenthesisedPieces(e, list, vs, ks);
      AndChain(e, EachParenthesised(list), vs, ks);
    }
  }

  // ------------------------------------------------------------------ property conditions

  /** The next placeholder reads the parameter pushed with it. */
  lemma PlaceholderReads(e: Env, d: Dialect, k: nat, rest: seq<Token>)
    requires k < |e.params|
    ensures ReadPlaceholder(e, [Placeholder(d, k + 1)] + rest, k) == Some(Read(e.params[k], rest, k + 1))
  {
    assert ([Placeholder(d, k + 1)] + rest)[1..] == rest;
  }

  lemma PlainOperand(e: Env, d: Dialect, k: nat, rest: seq<Token>)
    requires k < |e.params|
    ensures ReadOperand(e, [Placeholder(d, k + 1)] + rest, k) == Some(Read(e.params[k], rest, k + 1))
  {
    PlaceholderReads(e, d, k, rest);
  }

  lemma LoweredOperand(e: Env, d: Dialect, k: nat, rest: seq<Token>)
    requires k < |e.params|
    ensures ReadOperand(e, [Lower, LParen, Placeholder(d, k + 1), RParen] + rest, k) ==
            Some(Read(LowerValue(e, e.params[k]), rest, k + 1))
  {
    var ts := [Lower, LParen, Placeholder(d, k + 1), RParen] + rest;
    assert ts[2..] == [Placeholder(d, k + 1)] + ([RParen] + rest);
    PlaceholderReads(e, d, k, [RParen] + rest);
    assert ([RParen] + rest)[1..] == rest;
  }

  lemma {:induction false} ListReads(e: Env, d: Dialect, vs: seq<Value>, k: nat, rest: seq<Token>)
    requires vs != [] && k + |vs| <= |e.params| && e.params[k..k + |vs|] == vs
    ensures ReadList(e, Placeholders(d, vs, k + 1) + ([RParen] + rest), k) == Some(Read(vs, rest, k + |vs|))
    decreases |vs|
  {
    hide ReadPlaceholder;
    var after := [RParen] + rest;
    assert e.params[k] == vs[0];
    assert after[1..] == rest;
    if |vs| == 1 {
      PlaceholderReads(e, d, k, after);
      assert [vs[0]] == vs;
      assert after[0] == RParen;
    } else {
      assert e.params[k + 1..k + 1 + |vs[1..]|] == vs[1..];
      ListReads(e, d, vs[1..], k + 1, rest);
      var more := Placeholders(d, vs[1..], k + 2) + after;
      assert Placeholders(d, vs, k + 1) + after == [Placeholder(d, k + 1)] + ([Comma] + more);
      assert ([Comma] + more)[1..] == more;
      PlaceholderReads(e, d, k, [Comma] + more);
      var all := [Placeholder(d, k + 1)] + ([Comma] + more);
      assert ReadPlaceholder(e, all, k) == Some(Read(vs[0], [Comma] + more, k + 1));
      assert |[Comma] + more| < |all|;
      assert ReadList(e, more, k + 1) == Some(Read(vs[1..], rest, k + |vs|));
      assert [vs[0]] + vs[1..] == vs;
    }
  }

  /** A predicate that starts with a column, given how its tail reads. */
  lemma ColumnPrimary(e: Env, column: string, tail: seq<Token>, v: Tri, k: nat, k2: nat)
    requires tail != []
    requires forall rest: seq<Token> :: ReadTail(e, e.row(column), tail + rest, k) == Some(Read(v, rest, k2))
    ensures Primary(e, [Column(column)] + tail, v, k, k2)
  {
    hide ReadTail;
    forall rest: seq<Token>
      ensures ReadPrimary(e, [Column(column)] + tail + rest, k) == Some(Read(v, rest, k2))
    {
      var all := [Column(column)] + tail + rest;
      assert all[0] == Column(column) && all[1..] == tail + rest;
      assert ReadPredicate(e, all, k) == ReadTail(e, e.row(column), tail + rest, k);
      assert |all| > |rest|;
    }
  }

  lemma LoweredColumnPrimary(e: Env, column: string, tail: seq<Token>, v: Tri, k: nat, k2: nat)
    requires tail != []
    requires forall rest: seq<Token> :: ReadTail(e, LowerValue(e, e.row(column)), tail + rest, k) == Some(Read(v, rest, k2))
    ensures Primary(e, [Lower, LParen, Column(column), RParen] + tail, v, k, k2)
  {
    hide ReadTail, LowerValue;
    forall rest: seq<Token>
      ensures ReadPrimary(e, [Lower, LParen, Column(column), RParen] + tail + rest, k) == Some(Read(v, rest, k2))
    {
      var all := [Lower, LParen, Column(column), RParen] + tail + rest;
      assert all[0] == Lower && all[1] == LParen && all[2] == Column(column) && all[3] == RParen;
      assert all[4..] == tail + rest;
      assert ReadPredicate(e, all, k) == ReadTail(e, LowerValue(e, e.row(column)), tail + rest, k);
      assert |all| > |rest|;
    }
  }

  /** A comparison tail: an operator token and an operand of one placeholder. */
  lemma OperatorTail(e: Env, x: Value, op: Token, operand: seq<Token>, y: Value, k: nat, v: Tri)
    requires op.Compare? || op == NotLike || op == ILike
    requires forall rest: seq<Token> :: ReadOperand(e, operand + rest, k) == Some(Read(y, rest, k + 1))
    requires v == (if op.Compare? then CompareValues(e, op.op, x, y)
                   else if op == NotLike then Not3(CompareValues(e, Like, x, y))
                   else CompareValues(e, Like, LowerValue(e, x), LowerValue(e, y)))
    ensures forall rest: seq<Token> :: ReadTail(e, x, [op] + operand + rest, k) == Some(Read(v, rest, k + 1))
  {
    hide ReadOperand, CompareValues, LowerValue;
    forall rest: seq<Token>
      ensures ReadTail(e, x, [op] + operand + rest, k) == Some(Read(v, rest, k + 1))
    {
      var all := [op] + operand + rest;
      assert all[0] == op && all[1..] == operand + rest;
    }
  }

  /** column op placeholder */
  lemma ComparisonPrimary(e: Env, d: Dialect, column: string, op: Token, k: nat, v: Tri)
    requires op.Compare? || op == NotLike || op == ILike
    requires k < |e.params|
    requires v == (var x, y := e.row(column), e.params[k];
                   if op.Compare? then CompareValues(e, op.op, x, y)
                   else if op == NotLike then Not3(CompareValues(e, Like, x, y))
                   else CompareValues(e, Like, LowerValue(e, x), LowerValue(e, y)))
    ensures Primary(e, [Column(column), op, Placeholder(d, k + 1)], v, k, k + 1)
  {
    hide Primary, ReadTail, ReadOperand, CompareValues, LowerValue;
    var operand := [Placeholder(d, k + 1)];
    forall rest: seq<Token>
      ensures ReadOperand(e, operand + rest, k) == Some(Read(e.params[k], rest, k + 1))
    {
      PlainOperand(e, d, k, rest);
    }
    OperatorTail(e, e.row(column), op, operand, e.params[k], k, v);
    ColumnPrimary(e, column, [op] + operand, v, k, k + 1);
    assert [Column(column)] + ([op] + operand) == [Column(column), op, Placeholder(d, k + 1)];
  }

  /** LOWER(column) op LOWER(placeholder) */
  lemma LoweredPrimary(e: Env, d: Dialect, column: string, op: Token, k: nat, v: Tri)
    requires op == Compare(Like) || op == NotLike
    requires k < |e.params|
    requires v == (var c := CompareValues(e, Like, LowerValue(e, e.row(column)), LowerValue(e, e.params[k]));
                   if op == NotLike then Not3(c) else c)
    ensures Primary(e, [Lower, LParen, Column(column), RParen, op, Lower, LParen, Placeholder(d, k + 1), RParen], v, k, k + 1)
  {
    hide Primary, ReadTail, ReadOperand, CompareValues, LowerValue;
    var operand := [Lower, LParen, Placeholder(d, k + 1), RParen];
    forall rest: seq<Token>
      ensures ReadOperand(e, operand + rest, k) == Some(Read(LowerValue(e, e.params[k]), rest, k + 1))
    {
      LoweredOperand(e, d, k, rest);
    }
    OperatorTail(e, LowerValue(e, e.row(column)), op, operand, LowerValue(e, e.params[k]), k, v);
    LoweredColumnPrimary(e, column, [op] + operand, v, k, k + 1);
    assert [Lower, LParen, Column(column), RParen] + ([op] + operand) ==
           [Lower, LParen, Column(column), RParen, op, Lower, LParen, Placeholder(d, k + 1), RParen];
  }

  lemma ListPrimary(e: Env, d: Dialect, column: string, keyword: Token, vs: seq<Value>, k: nat)
    requires keyword == In || keyword == NotIn
    requires vs != [] && k + |vs| <= |e.params| && e.params[k..k + |vs|] == vs
    ensures var among := AmongValues(e, e.row(column), vs);
            Primary(e, [Column(column), keyword, LParen] + Placeholders(d, vs, k + 1) + [RParen],
                    if keyword == In then among else Not3(among), k, k + |vs|)
  {
    hide Primary, AmongValues, Placeholders, ReadList;
    var among := AmongValues(e, e.row(column), vs);
    var v := if keyword == In then among else Not3(among);
    var inner := Placeholders(d, vs, k + 1);
    var tail := [keyword, LParen] + inner + [RParen];
    forall rest: seq<Token>
      ensures ReadTail(e, e.row(column), tail + rest, k) == Some(Read(v, rest, k + |vs|))
    {
      var all := tail + rest;
      assert all[0] == keyword && all[1..][0] == LParen;
      assert all[1..][1..] == inner + ([RParen] + rest);
      ListReads(e, d, vs, k, rest);
    }
    hide ReadTail;
    ColumnPrimary(e, column, tail, v, k, k + |vs|);
    assert [Column(column)] + tail == [Column(column), keyword, LParen] + inner + [RParen];
  }

  lemma BetweenPrimary(e: Env, d: Dialect, column: string, k: nat)
    requires k + 2 <= |e.params|
    ensures var x := e.row(column);
            Primary(e, [Column(column), Between, Placeholder(d, k + 1), And, Placeholder(d, k + 2)],
                    And3(CompareValues(e, Ge, x, e.params[k]), CompareValues(e, Le, x, e.params[k + 1])), k, k + 2)
  {
    hide Primary, CompareValues, ReadPlaceholder;
    var x := e.row(column);
    var v := And3(CompareValues(e, Ge, x, e.params[k]), CompareValues(e, Le, x, e.params[k + 1]));
    var tail := [Between, Placeholder(d, k + 1), And, Placeholder(d, k + 2)];
    forall rest: seq<Token>
      ensures ReadTail(e, x, tail + rest, k) == Some(Read(v, rest, k + 2))
    {
      var all := tail + rest;
      var second := [Placeholder(d, k + 2)] + rest;
      assert all[0] == Between && all[1..] == [Placeholder(d, k + 1)] + ([And] + second);
      assert ([And] + second)[1..] == second;
      PlaceholderReads(e, d, k, [And] + second);
      PlaceholderReads(e, d, k + 1, rest);
    }
    hide ReadTail;
    ColumnPrimary(e, column, tail, v, k, k + 2);
    assert [Column(column)] + tail == [Column(column), Between, Placeholder(d, k + 1), And, Placeholder(d, k + 2)];
  }

  lemma NullPrimary(e: Env, column: string, op: Token, k: nat)
    requires op == IsNull || op == IsNotNull
    ensures var isNull := e.row(column) == Null;
            Primary(e, [Column(column), op], Truth(if op == IsNull then isNull else !isNull), k, k)
  {
    hide Primary;
    var v := Truth(if op == IsNull then e.row(column) == Null else e.row(column) != Null);
    forall rest: seq<Token>
      ensures ReadTail(e, e.row(column), [op] + rest, k) == Some(Read(v, rest, k))
    {
      assert ([op] + rest)[1..] == rest;
    }
    hide ReadTail;
    ColumnPrimary(e, column, [op], v, k, k);
    assert [Column(column)] + [op] == [Column(column), op];
  }

  lemma ConstantPrimary(e: Env, t: Token, k: nat)
    requires t == ConstFalse || t == ConstTrue
    ensures Primary(e, [t], if t == ConstTrue then Yes else No, k, k)
  {
    forall rest: seq<Token>
      ensures ReadPrimary(e, [t] + rest, k) == Some(Read(if t == ConstTrue then Yes else No, rest, k))
    {
      assert ([t] + rest)[1..] == rest;
    }
  }

  /** Every emitted operation reads as its meaning. */
  lemma OperationReads(e: Env, d: Dialect, column: string, op: Operation, ps: seq<Value>)
    requires EmitOperation(d, column, op, ps).Some?
    requires EmitOperation(d, column, op, ps).value.params <= e.params
    ensures var sql := EmitOperation(d, column, op, ps).value;
            && ps <= sql.params
            && Primary(e, sql.tokens, OperationMeaning(e, e.row(column), op), |ps|, |sql.params|)
  {
    hide Primary, CompareValues, AmongValues, Placeholders, LowerValue;
    var k, sql := |ps|, EmitOperation(d, column, op, ps).value;
    assert forall i :: k <= i < |sql.params| ==> e.params[i] == sql.params[i];
    match op
    case OpEq(v) => if v == Null { NullPrimary(e, column, IsNull, k); } else { ComparisonPrimary(e, d, column, Compare(Eq), k, CompareValues(e, Eq, e.row(column), v)); }
    case OpNeq(v) => if v == Null { NullPrimary(e, column, IsNotNull, k); } else { ComparisonPrimary(e, d, column, Compare(Ne), k, CompareValues(e, Ne, e.row(column), v)); }
    case OpCompare(c, v) => ComparisonPrimary(e, d, column, Compare(c), k, CompareValues(e, c, e.row(column), v));
    case OpLike(v) => ComparisonPrimary(e, d, column, Compare(Like), k, CompareValues(e, Like, e.row(column), v));
    case OpNLike(v) => ComparisonPrimary(e, d, column, NotLike, k, Not3(CompareValues(e, Like, e.row(column), v)));
    case OpILike(v) =>
      var m := CompareValues(e, Like, LowerValue(e, e.row(column)), LowerValue(e, v));
      if d.Postgres? { ComparisonPrimary(e, d, column, ILike, k, m); } else { LoweredPrimary(e, d, column, Compare(Like), k, m); }
    case OpNILike(v) =>
      LoweredPrimary(e, d, column, NotLike, k, Not3(CompareValues(e, Like, LowerValue(e, e.row(column)), LowerValue(e, v))));
    case OpIn(vs) =>
      if vs == [] { ConstantPrimary(e, ConstFalse, k); NoneAmong(e, e.row(column)); } else { SliceOf(e.params, ps, vs); ListPrimary(e, d, column, In, vs, k); }
    case OpNotIn(vs) =>
      if vs == [] { ConstantPrimary(e, ConstTrue, k); NoneAmong(e, e.row(column)); } else { SliceOf(e.params, ps, vs); ListPrimary(e, d, column, NotIn, vs, k); }
    case OpBetween(vs) => BetweenPrimary(e, d, column, k);
  }

  lemma NoneAmong(e: Env, x: Value)
    ensures AmongValues(e, x, []) == No
  {
  }

  lemma SliceOf(all: seq<Value>, ps: seq<Value>, vs: seq<Value>)
    requires ps + vs <= all
    ensures all[|ps|..|ps| + |vs|] == vs
  {
  }

  // ------------------------------------------------------------------ trees

  lemma {:induction false} OperationsRead(e: Env, d: Dialect, column: string, ops: seq<Operation>, ps: seq<Value>)
    returns (ks: seq<nat>)
    requires EmitOperations(d, column, ops, ps).Some?
    requires EmitOperations(d, column, ops, ps).value.params <= e.params
    ensures var parts := EmitOperations(d, column, ops, ps).value;
            && ps <= parts.params
            && AndPieces(e, parts.list, OperationMeanings(e, e.row(column), ops), ks)
            && ks[0] == |ps| && ks[|parts.list|] == |parts.params|
    decreases |ops|
  {
    hide EmitOperation, OperationMeaning, AndPiece, Primary;
    if ops == [] {
      ks := [|ps|];
    } else {
      var sql := EmitOperation(d, column, ops[0], ps).value;
      var more := OperationsRead(e, d, column, ops[1..], sql.params);
      OperationReads(e, d, column, ops[0], ps);
      PrimaryIsAnd(e, sql.tokens, OperationMeaning(e, e.row(column), ops[0]), |ps|, |sql.params|);
      ks := [|ps|] + more;
      var parts := EmitOperations(d, column, ops[1..], sql.params).value;
      AddPiece(e, sql.tokens, OperationMeaning(e, e.row(column), ops[0]), |ps|,
               parts.list, OperationMeanings(e, e.row(column), ops[1..]), more);
    }
  }

  lemma AddPiece(e: Env, ts: seq<Token>, v: Tri, k: nat, list: seq<seq<Token>>, vs: seq<Tri>, ks: seq<nat>)
    requires AndPieces(e, list, vs, ks) && AndPiece(e, ts, v, k, ks[0])
    ensures AndPieces(e, [ts] + list, [v] + vs, [k] + ks)
  {
    hide AndPiece;
  }

  lemma ConditionReads(e: Env, d: Dialect, column: string, c: Condition, ps: seq<Value>)
    requires EmitCondition(d, column, c, ps).Some?
    requires EmitCondition(d, column, c, ps).value.params <= e.params
    ensures var sql := EmitCondition(d, column, c, ps).value;
            && ps <= sql.params
            && AndPiece(e, sql.tokens, ConditionMeaning(e, e.row(column), c), |ps|, |sql.params|)
  {
    hide EmitOperation, EmitOperations, OperationMeaning, OperationMeanings, AndPiece, Primary, Grouped, Separated;
    match c
    case Literal(v) =>
      OperationReads(e, d, column, OpEq(v), ps);
      PrimaryIsAnd(e, EmitOperation(d, column, OpEq(v), ps).value.tokens, OperationMeaning(e, e.row(column), OpEq(v)),
                   |ps|, |EmitOperation(d, column, OpEq(v), ps).value.params|);
    case Operations(ops) =>
      var ks := OperationsRead(e, d, column, ops, ps);
      GroupedPieces(e, EmitOperations(d, column, ops, ps).value.list, OperationMeanings(e, e.row(column), ops), ks, And);
  }

  /** The translator drops empty disjunctions, that is, reads them as true. */
  const DROPPED: Tri := Yes

  lemma {:induction false} WhereReads(e: Env, d: Dialect, r: Resolver, w: Where, ps: seq<Value>)
    requires EmitWhere(d, r, w, ps).Some?
    requires EmitWhere(d, r, w, ps).value.params <= e.params
    ensures var sql := EmitWhere(d, r, w, ps).value;
            && ps <= sql.params
            && AndPiece(e, sql.tokens, WhereMeaning(e, r, w, DROPPED), |ps|, |sql.params|)
    decreases w, 1
  {
    hide EmitItems, EmitEntries, ItemMeanings, EntryMeanings, AndPiece, Grouped, Chained;
    match w
    case Array(items) =>
      var ks := ItemsRead(e, d, r, items, ps);
      GroupedPieces(e, EmitItems(d, r, items, ps).value.list, ItemMeanings(e, r, items, DROPPED), ks, And);
    case Object(entries) =>
      var vs, ks := EntriesRead(e, d, r, entries, ps);
      ChainedConjunction(e, EmitEntries(d, r, entries, ps).value.list, vs, ks);
  }

  lemma {:induction false} ItemsRead(e: Env, d: Dialect, r: Resolver, items: seq<Where>, ps: seq<Value>) returns (ks: seq<nat>)
    requires EmitItems(d, r, items, ps).Some?
    requires EmitItems(d, r, items, ps).value.params <= e.params
    ensures var parts := EmitItems(d, r, items, ps).value;
            && ps <= parts.params
            && AndPieces(e, parts.list, ItemMeanings(e, r, items, DROPPED), ks)
            && ks[0] == |ps| && ks[|parts.list|] == |parts.params|
    decreases items, 0
  {
    hide AndPiece, DROPPED;
    if items == [] {
      ks := [|ps|];
    } else {
      var sql := EmitWhere(d, r, items[0], ps).value;
      var more := ItemsRead(e, d, r, items[1..], sql.params);
      WhereReads(e, d, r, items[0], ps);
      hide EmitWhere, WhereMeaning;
      ks := [|ps|] + more;
      AddPiece(e, sql.tokens, WhereMeaning(e, r, items[0], DROPPED), |ps|,
               EmitItems(d, r, items[1..], sql.params).value.list, ItemMeanings(e, r, items[1..], DROPPED), more);
    }
  }

  /** One entry: its only piece, or none when its value is true. */
  lemma {:induction false} EntryReads(e: Env, d: Dialect, r: Resolver, entry: Entry, ps: seq<Value>)
    requires EmitEntry(d, r, entry, ps).Some?
    requires EmitEntry(d, r, entry, ps).value.params <= e.params
    ensures var parts := EmitEntry(d, r, entry, ps).value;
            && ps <= parts.params
            && (if parts.list == []
                then EntryMeaning(e, r, entry, DROPPED) == Yes && |parts.params| == |ps|
                else AndPiece(e, parts.list[0], EntryMeaning(e, r, entry, DROPPED), |ps|, |parts.params|))
    decreases entry, 0
  {
    hide EmitItems, EmitCondition, ItemMeanings, ConditionMeaning, AndPiece, Grouped;
    match entry
    case Property(field, condition) =>
      ConditionReads(e, d, r(field).value, condition, ps);
    case AndEntry(items) => ListEntryReads(e, d, r, items, ps, And);
    case OrEntry(items) => ListEntryReads(e, d, r, items, ps, Or);
  }

  lemma {:induction false} ListEntryReads(e: Env, d: Dialect, r: Resolver, items: seq<Where>, ps: seq<Value>, connective: Token)
    requires connective == And || connective == Or
    requires EmitItems(d, r, items, ps).Some?
    requires EmitItems(d, r, items, ps).value.params <= e.params
    ensures var parts := EmitItems(d, r, items, ps).value;
            && ps <= parts.params
            && (if items == [] then parts.list == [] && parts.params == ps && AndAll(ItemMeanings(e, r, items, DROPPED)) == Yes
                else parts.list != [] &&
                     AndPiece(e, Grouped(parts.list, connective), Fold(connective, ItemMeanings(e, r, items, DROPPED)),
                              |ps|, |parts.params|))
    decreases items, 1
  {
    hide AndPiece, Grouped, EmitWhere, WhereMeaning;
    var ks := ItemsRead(e, d, r, items, ps);
    if items != [] {
      GroupedPieces(e, EmitItems(d, r, items, ps).value.list, ItemMeanings(e, r, items, DROPPED), ks, connective);
    }
  }

  lemma {:induction false} EntriesRead(e: Env, d: Dialect, r: Resolver, entries: seq<Entry>, ps: seq<Value>)
    returns (vs: seq<Tri>, ks: seq<nat>)
    requires EmitEntries(d, r, entries, ps).Some?
    requires EmitEntries(d, r, entries, ps).value.params <= e.params
    ensures var parts := EmitEntries(d, r, entries, ps).value;
            && ps <= parts.params
            && AndPieces(e, parts.list, vs, ks)
            && ks[0] == |ps| && ks[|parts.list|] == |parts.params|
            && AndAll(vs) == AndAll(EntryMeanings(e, r, entries, DROPPED))
    decreases entries, 0
  {
    hide AndPiece, DROPPED;
    if entries == [] {
      vs, ks := [], [|ps|];
    } else {
      var first := EmitEntry(d, r, entries[0], ps).value;
      vs, ks := EntriesRead(e, d, r, entries[1..], first.params);
      EntryReads(e, d, r, entries[0], ps);
      var v := EntryMeaning(e, r, entries[0], DROPPED);
      hide EmitEntry, EntryMeaning;
      var rest := EmitEntries(d, r, entries[1..], first.params).value.list;
      assert AndAll(EntryMeanings(e, r, entries, DROPPED)) ==
             And3(v, AndAll(EntryMeanings(e, r, entries[1..], DROPPED))) by {
        AndAllCons(v, EntryMeanings(e, r, entries[1..], DROPPED));
      }
      if first.list == [] {
        assert first.list + rest == rest;
      } else {
        assert first.list + rest == [first.list[0]] + rest;
        AddPiece(e, first.list[0], v, |ps|, rest, vs, ks);
        AndAllCons(v, vs);
        vs, ks := [v] + vs, [|ps|] + ks;
      }
    }
  }

  lemma AndAllCons(v: Tri, vs: seq<Tri>)
    ensures AndAll([v] + vs) == And3(v, AndAll(vs))
  {
    assert ([v] + vs)[1..] == vs;
  }

  // ------------------------------------------------------------------ the theorem for WHERE

  predicate NoEmptyOr(w: Where)
    decreases w
  {
    match w
    case Array(items) => forall i :: 0 <= i < |items| ==> NoEmptyOr(items[i])
    case Object(entries) => forall i :: 0 <= i < |entries| ==> EntryNoEmptyOr(entries[i])
  }

  predicate EntryNoEmptyOr(entry: Entry)
    decreases entry
  {
    match entry
    case Property(_, _) => true
    case AndEntry(items) => forall i :: 0 <= i < |items| ==> NoEmptyOr(items[i])
    case OrEntry(items) => items != [] && forall i :: 0 <= i < |items| ==> NoEmptyOr(items[i])
  }

  lemma {:induction false} EmptyOrIrrelevant(e: Env, r: Resolver, w: Where, a: Tri, b: Tri)
    requires NoEmptyOr(w)
    ensures WhereMeaning(e, r, w, a) == WhereMeaning(e, r, w, b)
    decreases w, 1
  {
    hide ItemMeanings, EntryMeanings, AndAll;
    match w
    case Array(items) => ItemsIrrelevant(e, r, items, a, b);
    case Object(entries) => EntriesIrrelevant(e, r, entries, a, b);
  }

  lemma {:induction false} ItemsIrrelevant(e: Env, r: Resolver, items: seq<Where>, a: Tri, b: Tri)
    requires forall i :: 0 <= i < |items| ==> NoEmptyOr(items[i])
    ensures ItemMeanings(e, r, items, a) == ItemMeanings(e, r, items, b)
    decreases items, 0
  {
    hide NoEmptyOr;
    if items != [] {
      EmptyOrIrrelevant(e, r, items[0], a, b);
      ItemsIrrelevant(e, r, items[1..], a, b);
    }
  }

  lemma {:induction false} EntriesIrrelevant(e: Env, r: Resolver, entries: seq<Entry>, a: Tri, b: Tri)
    requires forall i :: 0 <= i < |entries| ==> EntryNoEmptyOr(entries[i])
    ensures EntryMeanings(e, r, entries, a) == EntryMeanings(e, r, entries, b)
    decreases entries, 0
  {
    if entries != [] {
      assert EntryNoEmptyOr(entries[0]);
      match entries[0] {
        case Property(_, _) =>
        case AndEntry(items) => ItemsIrrelevant(e, r, items, a, b);
        case OrEntry(items) => ItemsIrrelevant(e, r, items, a, b);
      }
      EntriesIrrelevant(e, r, entries[1..], a, b);
    }
  }

  /** WHERE translation preserves meaning. Every accepted tree becomes a condition that has the
      tree's truth value on every row, with empty disjunctions counted as true; a tree without
      empty disjunctions has its logical value. */
  lemma WhereTranslation(e: Env, d: Dialect, r: Resolver, w: Where, ps: seq<Value>)
    requires EmitWhere(d, r, w, ps).Some?
    requires EmitWhere(d, r, w, ps).value.params <= e.params
    ensures var sql := EmitWhere(d, r, w, ps).value;
            && ConditionValue(e, sql.tokens, |ps|) == Some(WhereMeaning(e, r, w, DROPPED))
            && (NoEmptyOr(w) ==> ConditionValue(e, sql.tokens, |ps|) == Some(WhereMeaning(e, r, w, No)))
  {
    hide EmitWhere, WhereMeaning, AndPiece, NoEmptyOr, DROPPED, ReadOr;
    var sql := EmitWhere(d, r, w, ps).value;
    var v := WhereMeaning(e, r, w, DROPPED);
    WhereReads(e, d, r, w, ps);
    AndIsOr(e, sql.tokens, v, |ps|, |sql.params|);
    assert sql.tokens + [] == sql.tokens;
    if NoEmptyOr(w) {
      EmptyOrIrrelevant(e, r, w, DROPPED, No);
    }
  }

  /** The excluded trees differ: a filter with an empty disjunction should hold of no row, but
      the condition emitted for it holds of some. */
  lemma EmptyOrDropped(e: Env, d: Dialect)
    requires e.params == [Number(1)] && e.row("c") == Number(1) && e.holds(Eq, Number(1), Number(1))
    ensures var r: Resolver := field => Some(field);
            var w := Object([Property("c", Literal(Number(1))), OrEntry([])]);
            && WhereMeaning(e, r, w, No) == No
            && EmitWhere(d, r, w, []).Some?
            && ConditionValue(e, EmitWhere(d, r, w, []).value.tokens, 0) == Some(Yes)
  {
    var r: Resolver := field => Some(field);
    var p, o := Property("c", Literal(Number(1))), OrEntry([]);
    var entries := [p, o];
    var w := Object(entries);
    assert entries[1..] == [o] && [o][1..] == [];
    var sql := EmitComparison(d, "c", Eq, Number(1), []);
    assert EmitCondition(d, "c", p.condition, []) == Some(Sql(sql.tokens, [Number(1)])) by {
      assert [] + [Number(1)] == [Number(1)];
    }
    assert EmitEntry(d, r, p, []) == Some(Parts([sql.tokens], [Number(1)]));
    assert EmitItems(d, r, [], [Number(1)]) == Some(Parts([], [Number(1)]));
    assert EmitEntry(d, r, o, [Number(1)]) == Some(Parts([], [Number(1)]));
    assert EmitEntries(d, r, [], [Number(1)]) == Some(Parts([], [Number(1)]));
    assert EmitEntries(d, r, [o], [Number(1)]) == Some(Parts([], [Number(1)])) by {
      var none: seq<seq<Token>> := [];
      assert none + none == none;
      assert [o][0] == o && [o][1..] == [];
    }
    assert EmitEntries(d, r, entries, []) == Some(Parts([sql.tokens], [Number(1)])) by {
      assert [sql.tokens] + [] == [sql.tokens];
    }
    assert EntryMeanings(e, r, [o], No) == [No];
    assert EntryMeanings(e, r, entries, No) == [EntryMeaning(e, r, p, No), No];
    assert AndAll([No]) == No;
    AndAllCons(EntryMeaning(e, r, p, No), [No]);
    assert EntryMeanings(e, r, [o], Yes) == [Yes];
    assert EntryMeanings(e, r, entries, Yes) == [Yes, Yes];
    AndAllCons(Yes, [Yes]);
    assert AndAll([Yes]) == Yes;
    hide ConditionValue;
    WhereTranslation(e, d, r, w, []);
  }

  // ------------------------------------------------------------------ HAVING

  lemma {:induction false} HavingReads(e: Env, d: Dialect, r: Resolver, h: Having, ps: seq<Value>)
    requires WellFormed(h) && EmitHaving(d, r, h, ps).Some?
    requires EmitHaving(d, r, h, ps).value.params <= e.params
    ensures var sql := EmitHaving(d, r, h, ps).value;
            && ps <= sql.params
            && OrPiece(e, sql.tokens, HavingMeaning(e, r, h), |ps|, |sql.params|)
    decreases h, 1
  {
    hide OrPiece, AndPiece, Primary, EmitChildren, ChildMeanings, Chained, EmitOperation, OperationMeaning;
    match h
    case Comparing(field, comparator, v) =>
      ComparingReads(e, d, r, field, comparator, v, ps);
    case Logical(connective, children) =>
      var ks := ChildrenRead(e, d, r, children, ps);
      ChainedPieces(e, EmitChildren(d, r, children, ps).value.list, ChildMeanings(e, r, children), ks, connective);
    case Negation(child) =>
      HavingReads(e, d, r, child, ps);
      var sql := EmitHaving(d, r, child, ps).value;
      NegatedReads(e, sql.tokens, HavingMeaning(e, r, child), |ps|, |sql.params|);
  }

  lemma ComparingReads(e: Env, d: Dialect, r: Resolver, field: string, comparator: HavingComparator, v: Value, ps: seq<Value>)
    requires EmitHaving(d, r, Comparing(field, comparator, v), ps).Some?
    requires EmitHaving(d, r, Comparing(field, comparator, v), ps).value.params <= e.params
    ensures var h := Comparing(field, comparator, v);
            var sql := EmitHaving(d, r, h, ps).value;
            && ps <= sql.params
            && OrPiece(e, sql.tokens, HavingMeaning(e, r, h), |ps|, |sql.params|)
  {
    var column := r(field).value;
    var op := match comparator case HEq => OpEq(v) case HNe => OpNeq(v) case HCompare(c) => OpCompare(c, v) case HOther => OpOther;
    assert EmitHaving(d, r, Comparing(field, comparator, v), ps) == EmitOperation(d, column, op, ps);
    assert HavingMeaning(e, r, Comparing(field, comparator, v)) == OperationMeaning(e, e.row(column), op);
    hide EmitHaving, HavingMeaning, EmitOperation, OperationMeaning, OrPiece, AndPiece, Primary;
    OperationReads(e, d, column, op, ps);
    var sql := EmitOperation(d, column, op, ps).value;
    PrimaryIsAnd(e, sql.tokens, OperationMeaning(e, e.row(column), op), |ps|, |sql.params|);
    AndIsOr(e, sql.tokens, OperationMeaning(e, e.row(column), op), |ps|, |sql.params|);
  }

  lemma NegatedReads(e: Env, ts: seq<Token>, v: Tri, k: nat, k2: nat)
    requires OrPiece(e, ts, v, k, k2)
    ensures OrPiece(e, [Not] + Parenthesised(ts), Not3(v), k, k2)
  {
    hide Parenthesised, OrPiece, AndPiece, Primary;
    ParenthesisedIsPrimary(e, ts, v, k, k2);
    NegatedPrimary(e, Parenthesised(ts), v, k, k2);
    AndIsOr(e, [Not] + Parenthesised(ts), Not3(v), k, k2);
  }

  lemma NegatedPrimary(e: Env, inner: seq<Token>, v: Tri, k: nat, k2: nat)
    requires Primary(e, inner, v, k, k2)
    ensures AndPiece(e, [Not] + inner, Not3(v), k, k2)
  {
    hide ReadPrimary, AndTail;
    forall rest: seq<Token>
      ensures ReadAnd(e, [Not] + inner + rest, k) == AndTail(e, Not3(v), rest, k2)
    {
      NegatedOnce(e, inner, v, k, k2, rest);
    }
  }

  lemma NegatedOnce(e: Env, inner: seq<Token>, v: Tri, k: nat, k2: nat, rest: seq<Token>)
    requires inner != [] && inner[0] != Not && ReadPrimary(e, inner + rest, k) == Some(Read(v, rest, k2))
    ensures ReadNot(e, [Not] + inner + rest, k) == Some(Read(Not3(v), rest, k2))
  {
    hide ReadPrimary;
    var all := [Not] + inner + rest;
    assert all[0] == Not && all[1..] == inner + rest;
    assert (inner + rest)[0] == inner[0];
    assert ReadNot(e, inner + rest, k) == ReadPrimary(e, inner + rest, k);
  }

  lemma {:induction false} ChildrenRead(e: Env, d: Dialect, r: Resolver, children: seq<Having>, ps: seq<Value>)
    returns (ks: seq<nat>)
    requires forall i :: 0 <= i < |children| ==> WellFormed(children[i])
    requires EmitChildren(d, r, children, ps).Some?
    requires EmitChildren(d, r, children, ps).value.params <= e.params
    ensures var parts := EmitChildren(d, r, children, ps).value;
            && ps <= parts.params
            && OrPieces(e, parts.list, ChildMeanings(e, r, children), ks)
            && ks[0] == |ps| && ks[|parts.list|] == |parts.params|
    decreases children, 0
  {
    hide OrPiece;
    if children == [] {
      ks := [|ps|];
    } else {
      var sql := EmitHaving(d, r, children[0], ps).value;
      var more := ChildrenRead(e, d, r, children[1..], sql.params);
      HavingReads(e, d, r, children[0], ps);
      hide EmitHaving, HavingMeaning, WellFormed;
      ks := [|ps|] + more;
    }
  }

  /** HAVING translation preserves meaning: an accepted filter list becomes a condition that has
      the value of the conjunction of the filters on every group. */
  lemma HavingTranslation(e: Env, d: Dialect, r: Resolver, filters: seq<Having>, ps: seq<Value>)
    requires forall i :: 0 <= i < |filters| ==> WellFormed(filters[i])
    requires EmitHavingClause(d, r, filters, ps).Some?
    requires EmitHavingClause(d, r, filters, ps).value.params <= e.params
    ensures ConditionValue(e, EmitHavingClause(d, r, filters, ps).value.tokens, |ps|) ==
            Some(AndAll(ChildMeanings(e, r, filters)))
  {
    hide OrPiece, EmitChildren, ChildMeanings, Chained, ReadOr, WellFormed;
    var ks := ChildrenRead(e, d, r, filters, ps);
    var parts := EmitChildren(d, r, filters, ps).value;
    ChainedPieces(e, parts.list, ChildMeanings(e, r, filters), ks, And);
    var text := Chained(parts.list, And);
    WholePiece(e, text, AndAll(ChildMeanings(e, r, filters)), |ps|, |parts.params|);
  }

  lemma WholePiece(e: Env, ts: seq<Token>, v: Tri, k: nat, k2: nat)
    requires OrPiece(e, ts, v, k, k2)
    ensures ConditionValue(e, ts, k) == Some(v)
  {
    hide ReadOr;
    assert ts + [] == ts;
  }
}
