/** Translation of filter trees to parameterised SQL conditions, in the Postgres and the MySQL
    dialect: WHERE trees as the repository layer writes them and HAVING expressions as the query
    parser builds them. The functions say what is emitted; the methods do it on a shared,
    growing and shrinking parameter list. */
module SqlFilter {
  import opened ByteStrings
  import opened SqlTokens

  // ------------------------------------------------------------------ WHERE trees

  /** One operator of a property condition; lists that are not lists count as empty. */
  datatype Operation =
    | OpEq(v: Value) | OpNeq(v: Value)
    | OpCompare(op: Comparison, v: Value)
    | OpIn(vs: seq<Value>) | OpNotIn(vs: seq<Value>)
    | OpBetween(vs: seq<Value>)
    | OpLike(v: Value) | OpILike(v: Value) | OpNLike(v: Value) | OpNILike(v: Value)
    | OpOther

  datatype Condition = Literal(v: Value) | Operations(ops: seq<Operation>)

  /** A filter object holds entries, in property order; an array stands for their conjunction. */
  datatype Where = Object(entries: seq<Entry>) | Array(items: seq<Where>)

  datatype Entry = AndEntry(items: seq<Where>) | OrEntry(items: seq<Where>) | Property(field: string, condition: Condition)

  /** Maps a field to its column, or refuses it. */
  type Resolver = string -> Option<string>

  // ------------------------------------------------------------------ what is emitted

  datatype Sql = Sql(tokens: seq<Token>, params: seq<Value>)

  datatype Parts = Parts(list: seq<seq<Token>>, params: seq<Value>)

  /** The placeholder for parameter number `n`. */
  function Placeholder(d: Dialect, n: nat): Token {
    if d.Postgres? then Dollar(n) else Question
  }

  function Separated(list: seq<seq<Token>>, separator: Token): seq<Token> {
    if list == [] then []
    else if |list| == 1 then list[0]
    else list[0] + ([separator] + Separated(list[1..], separator))
  }

  function Parenthesised(ts: seq<Token>): seq<Token> {
    [LParen] + ts + [RParen]
  }

  function EachParenthesised(list: seq<seq<Token>>): (r: seq<seq<Token>>)
    ensures |r| == |list| && forall i :: 0 <= i < |list| ==> r[i] == Parenthesised(list[i])
  {
    if list == [] then [] else [Parenthesised(list[0])] + EachParenthesised(list[1..])
  }

  /** Pieces joined by a connective inside one pair of parentheses; a single piece stays bare. */
  function Grouped(list: seq<seq<Token>>, connective: Token): seq<Token> {
    if |list| == 1 then list[0] else Parenthesised(Separated(list, connective))
  }

  /** Parenthesised pieces joined by a connective; a single piece stays bare. */
  function Chained(list: seq<seq<Token>>, connective: Token): seq<Token> {
    if |list| == 1 then list[0] else Separated(EachParenthesised(list), connective)
  }

  function Placeholders(d: Dialect, vs: seq<Value>, n: nat): seq<Token> {
    if vs == [] then []
    else if |vs| == 1 then [Placeholder(d, n)]
    else [Placeholder(d, n), Comma] + Placeholders(d, vs[1..], n + 1)
  }

  function EmitComparison(d: Dialect, column: string, op: Comparison, v: Value, ps: seq<Value>): Sql {
    Sql([Column(column), Compare(op), Placeholder(d, |ps| + 1)], ps + [v])
  }

  function EmitList(d: Dialect, column: string, keyword: Token, vs: seq<Value>, ps: seq<Value>): Sql {
    Sql([Column(column), keyword, LParen] + Placeholders(d, vs, |ps| + 1) + [RParen], ps + vs)
  }

  /** LOWER(column) op LOWER(?) */
  function EmitLowered(d: Dialect, column: string, op: Token, v: Value, ps: seq<Value>): Sql {
    Sql([Lower, LParen, Column(column), RParen, op, Lower, LParen, Placeholder(d, |ps| + 1), RParen], ps + [v])
  }

  function EmitOperation(d: Dialect, column: string, op: Operation, ps: seq<Value>): Option<Sql> {
    match op
    case OpEq(v) =>
      if v == Null then Some(Sql([Column(column), IsNull], ps)) else Some(EmitComparison(d, column, Eq, v, ps))
    case OpNeq(v) =>
      if v == Null then Some(Sql([Column(column), IsNotNull], ps)) else Some(EmitComparison(d, column, Ne, v, ps))
    case OpCompare(c, v) => Some(EmitComparison(d, column, c, v, ps))
    case OpIn(vs) => if vs == [] then Some(Sql([ConstFalse], ps)) else Some(EmitList(d, column, In, vs, ps))
    case OpNotIn(vs) => if vs == [] then Some(Sql([ConstTrue], ps)) else Some(EmitList(d, column, NotIn, vs, ps))
    case OpBetween(vs) =>
      if |vs| != 2 then None
      else Some(Sql([Column(column), Between, Placeholder(d, |ps| + 1), And, Placeholder(d, |ps| + 2)], ps + vs))
    case OpLike(v) => Some(EmitComparison(d, column, Like, v, ps))
    case OpILike(v) =>
      if d.Postgres? then Some(Sql([Column(column), ILike, Placeholder(d, |ps| + 1)], ps + [v]))
      else Some(EmitLowered(d, column, Compare(Like), v, ps))
    case OpNLike(v) =>
      if d.Postgres? then None else Some(Sql([Column(column), NotLike, Placeholder(d, |ps| + 1)], ps + [v]))
    case OpNILike(v) => if d.Postgres? then None else Some(EmitLowered(d, column, NotLike, v, ps))
    case OpOther => None
  }

  function EmitOperations(d: Dialect, column: string, ops: seq<Operation>, ps: seq<Value>): Option<Parts>
    decreases |ops|
  {
    if ops == [] then Some(Parts([], ps))
    else match EmitOperation(d, column, ops[0], ps)
      case None => None
      case Some(sql) =>
        match EmitOperations(d, column, ops[1..], sql.params)
        case None => None
        case Some(more) => Some(Parts([sql.tokens] + more.list, more.params))
  }

  function EmitCondition(d: Dialect, column: string, c: Condition, ps: seq<Value>): Option<Sql> {
    match c
    case Literal(v) => EmitOperation(d, column, OpEq(v), ps)
    case Operations(ops) =>
      match EmitOperations(d, column, ops, ps)
      case None => None
      case Some(parts) => if parts.list == [] then None else Some(Sql(Grouped(parts.list, And), parts.params))
  }

  function EmitWhere(d: Dialect, r: Resolver, w: Where, ps: seq<Value>): Option<Sql>
    decreases w, 1
  {
    match w
    case Array(items) =>
      (match EmitItems(d, r, items, ps)
       case None => None
       case Some(parts) => if parts.list == [] then None else Some(Sql(Grouped(parts.list, And), parts.params)))
    case Object(entries) =>
      (match EmitEntries(d, r, entries, ps)
       case None => None
       case Some(parts) => if parts.list == [] then None else Some(Sql(Chained(parts.list, And), parts.params)))
  }

  function EmitItems(d: Dialect, r: Resolver, items: seq<Where>, ps: seq<Value>): (o: Option<Parts>)
    ensures o.Some? ==> |o.value.list| == |items|
    decreases items, 0
  {
    if items == [] then Some(Parts([], ps))
    else match EmitWhere(d, r, items[0], ps)
      case None => None
      case Some(sql) =>
        match EmitItems(d, r, items[1..], sql.params)
        case None => None
        case Some(more) => Some(Parts([sql.tokens] + more.list, more.params))
  }

  /** What one entry adds: no piece for an empty connective list, else one. */
  function EmitEntry(d: Dialect, r: Resolver, entry: Entry, ps: seq<Value>): (o: Option<Parts>)
    ensures o.Some? ==> |o.value.list| <= 1
    decreases entry, 0
  {
    match entry
    case Property(field, condition) =>
      (match r(field)
       case None => None
       case Some(column) =>
         match EmitCondition(d, column, condition, ps)
         case None => None
         case Some(sql) => Some(Parts([sql.tokens], sql.params)))
    case AndEntry(items) =>
      (match EmitItems(d, r, items, ps)
       case None => None
       case Some(parts) => Some(Parts(if parts.list == [] then [] else [Grouped(parts.list, And)], parts.params)))
    case OrEntry(items) =>
      (match EmitItems(d, r, items, ps)
       case None => None
       case Some(parts) => Some(Parts(if parts.list == [] then [] else [Grouped(parts.list, Or)], parts.params)))
  }

  function EmitEntries(d: Dialect, r: Resolver, entries: seq<Entry>, ps: seq<Value>): Option<Parts>
    decreases entries, 0
  {
    if entries == [] then Some(Parts([], ps))
    else match EmitEntry(d, r, entries[0], ps)
      case None => None
      case Some(first) =>
        match EmitEntries(d, r, entries[1..], first.params)
        case None => None
        case Some(more) => Some(Parts(first.list + more.list, more.params))
  }

  // ------------------------------------------------------------------ HAVING expressions

  datatype HavingComparator = HEq | HNe | HCompare(op: Comparison) | HOther

  datatype Having =
    | Comparing(field: string, comparator: HavingComparator, v: Value)
    | Logical(connective: Token, children: seq<Having>)
    | Negation(child: Having)
    | OtherHaving

  /** Logical expressions are conjunctions or disjunctions. */
  predicate WellFormed(h: Having) {
    match h
    case Logical(c, children) => (c == And || c == Or) && forall i :: 0 <= i < |children| ==> WellFormed(children[i])
    case Negation(child) => WellFormed(child)
    case _ => true
  }

  function EmitHaving(d: Dialect, r: Resolver, h: Having, ps: seq<Value>): Option<Sql>
    decreases h, 1
  {
    match h
    case Comparing(field, comparator, v) =>
      (match r(field)
       case None => None
       case Some(column) =>
         match comparator
         case HEq => EmitOperation(d, column, OpEq(v), ps)
         case HNe => EmitOperation(d, column, OpNeq(v), ps)
         case HCompare(op) => Some(EmitComparison(d, column, op, v, ps))
         case HOther => None)
    case Logical(connective, children) =>
      (match EmitChildren(d, r, children, ps)
       case None => None
       case Some(parts) => if parts.list == [] then None else Some(Sql(Chained(parts.list, connective), parts.params)))
    case Negation(child) =>
      (match EmitHaving(d, r, child, ps)
       case None => None
       case Some(sql) => Some(Sql([Not] + Parenthesised(sql.tokens), sql.params)))
    case OtherHaving => None
  }

  function EmitChildren(d: Dialect, r: Resolver, children: seq<Having>, ps: seq<Value>): (o: Option<Parts>)
    ensures o.Some? ==> |o.value.list| == |children|
    decreases children, 0
  {
    if children == [] then Some(Parts([], ps))
    else match EmitHaving(d, r, children[0], ps)
      case None => None
      case Some(sql) =>
        match EmitChildren(d, r, children[1..], sql.params)
        case None => None
        case Some(more) => Some(Parts([sql.tokens] + more.list, more.params))
  }

  /** The HAVING clause of a stage: all its filters hold. */
  function EmitHavingClause(d: Dialect, r: Resolver, filters: seq<Having>, ps: seq<Value>): Option<Sql> {
    match EmitChildren(d, r, filters, ps)
    case None => None
    case Some(parts) => if parts.list == [] then None else Some(Sql(Chained(parts.list, And), parts.params))
  }
}
