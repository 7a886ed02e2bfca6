/** SQL conditions as token sequences: three-valued logic and a reader that gives a token
    sequence its truth value, with SQL's precedence (NOT before AND before OR). */
module SqlTokens {
  import opened ByteStrings

  datatype Tri = Yes | No | Unknown

  function Not3(a: Tri): Tri {
    match a
    case Yes => No
    case No => Yes
    case Unknown => Unknown
  }

  function And3(a: Tri, b: Tri): Tri {
    if a == No || b == No then No else if a == Yes && b == Yes then Yes else Unknown
  }

  function Or3(a: Tri, b: Tri): Tri {
    if a == Yes || b == Yes then Yes else if a == No && b == No then No else Unknown
  }

  function Truth(b: bool): Tri {
    if b then Yes else No
  }

  datatype Value = Null | Number(n: int) | Text(s: string) | Flag(b: bool)

  datatype Comparison = Eq | Ne | Gt | Ge | Lt | Le | Like

  /** `$n` in Postgres; in MySQL the k-th `?` of the text. */
  datatype Dialect = Postgres | MySql

  datatype Token =
    | LParen | RParen | And | Or | Not | Comma
    | Column(name: string) | Dollar(n: nat) | Question
    | Compare(op: Comparison) | NotLike | ILike
    | IsNull | IsNotNull | In | NotIn | Between | Lower
    | ConstFalse | ConstTrue

  /** What a condition is read against: the row's columns, the bound parameters, the database's
      verdict on two non-null values, and its lower-casing. */
  datatype Env = Env(
    row: string -> Value,
    params: seq<Value>,
    holds: (Comparison, Value, Value) -> bool,
    lower: Value -> Value)

  function CompareValues(e: Env, op: Comparison, a: Value, b: Value): Tri {
    if a == Null || b == Null then Unknown else Truth(e.holds(op, a, b))
  }

  /** Lower-casing keeps NULL. */
  function LowerValue(e: Env, v: Value): Value {
    if v == Null then Null else e.lower(v)
  }

  /** `x IN (vs)`: an equality with one of them. */
  function AmongValues(e: Env, x: Value, vs: seq<Value>): Tri {
    if vs == [] then No else Or3(CompareValues(e, Eq, x, vs[0]), AmongValues(e, x, vs[1..]))
  }

  // ------------------------------------------------------------------ reading predicates

  /** A value read, the tokens left, and the placeholders met so far. */
  datatype Read<T> = Read(value: T, rest: seq<Token>, count: nat)

  type Reading<T> = Option<Read<T>>

  function ReadPlaceholder(e: Env, ts: seq<Token>, k: nat): Reading<Value> {
    if ts == [] then None
    else match ts[0]
      case Dollar(n) => if 1 <= n <= |e.params| then Some(Read(e.params[n - 1], ts[1..], k + 1)) else None
      case Question => if k < |e.params| then Some(Read(e.params[k], ts[1..], k + 1)) else None
      case _ => None
  }

  /** A placeholder, or LOWER of one. */
  function ReadOperand(e: Env, ts: seq<Token>, k: nat): Reading<Value> {
    if |ts| >= 3 && ts[0] == Lower && ts[1] == LParen then
      match ReadPlaceholder(e, ts[2..], k)
      case None => None
      case Some(r) =>
        if r.rest != [] && r.rest[0] == RParen then Some(Read(LowerValue(e, r.value), r.rest[1..], r.count)) else None
    else ReadPlaceholder(e, ts, k)
  }

  /** Placeholders up to the closing parenthesis. */
  function ReadList(e: Env, ts: seq<Token>, k: nat): Reading<seq<Value>>
    decreases |ts|
  {
    match ReadPlaceholder(e, ts, k)
    case None => None
    case Some(r) =>
      if r.rest == [] then None
      else if r.rest[0] == RParen then Some(Read([r.value], r.rest[1..], r.count))
      else if r.rest[0] == Comma && |r.rest| < |ts| then
        match ReadList(e, r.rest[1..], r.count)
        case None => None
        case Some(more) => Some(Read([r.value] + more.value, more.rest, more.count))
      else None
  }

  /** A column, or LOWER of one. */
  function ReadColumn(e: Env, ts: seq<Token>, k: nat): Reading<Value> {
    if ts != [] && ts[0].Column? then Some(Read(e.row(ts[0].name), ts[1..], k))
    else if |ts| >= 4 && ts[0] == Lower && ts[1] == LParen && ts[2].Column? && ts[3] == RParen then
      Some(Read(LowerValue(e, e.row(ts[2].name)), ts[4..], k))
    else None
  }

  function ReadTail(e: Env, x: Value, ts: seq<Token>, k: nat): Reading<Tri> {
    if ts == [] then None
    else match ts[0]
      case IsNull => Some(Read(Truth(x == Null), ts[1..], k))
      case IsNotNull => Some(Read(Truth(x != Null), ts[1..], k))
      case Compare(op) =>
        (match ReadOperand(e, ts[1..], k)
         case None => None
         case Some(r) => Some(Read(CompareValues(e, op, x, r.value), r.rest, r.count)))
      case NotLike =>
        (match ReadOperand(e, ts[1..], k)
         case None => None
         case Some(r) => Some(Read(Not3(CompareValues(e, Like, x, r.value)), r.rest, r.count)))
      case ILike =>
        (match ReadOperand(e, ts[1..], k)
         case None => None
         case Some(r) =>
           Some(Read(CompareValues(e, Like, LowerValue(e, x), LowerValue(e, r.value)), r.rest, r.count)))
      case In =>
        (match ReadListInParens(e, ts[1..], k)
         case None => None
         case Some(r) => Some(Read(AmongValues(e, x, r.value), r.rest, r.count)))
      case NotIn =>
        (match ReadListInParens(e, ts[1..], k)
         case None => None
         case Some(r) => Some(Read(Not3(AmongValues(e, x, r.value)), r.rest, r.count)))
      case Between =>
        (match ReadPlaceholder(e, ts[1..], k)
         case None => None
         case Some(lo) =>
           if lo.rest == [] || lo.rest[0] != And then None
           else match ReadPlaceholder(e, lo.rest[1..], lo.count)
             case None => None
             case Some(hi) =>
               Some(Read(And3(CompareValues(e, Ge, x, lo.value), CompareValues(e, Le, x, hi.value)), hi.rest, hi.count)))
      case _ => None
  }

  function ReadListInParens(e: Env, ts: seq<Token>, k: nat): Reading<seq<Value>> {
    if ts == [] || ts[0] != LParen then None else ReadList(e, ts[1..], k)
  }

  function ReadPredicate(e: Env, ts: seq<Token>, k: nat): Reading<Tri> {
    if ts == [] then None
    else if ts[0] == ConstFalse then Some(Read(No, ts[1..], k))
    else if ts[0] == ConstTrue then Some(Read(Yes, ts[1..], k))
    else match ReadColumn(e, ts, k)
      case None => None
      case Some(x) => ReadTail(e, x.value, x.rest, x.count)
  }

  // ------------------------------------------------------------------ reading conditions

  /** Guards against readings that make no progress, which never happen. */
  function Shorter<T>(r: Reading<T>, ts: seq<Token>): (s: Reading<T>)
    ensures s.Some? ==> |s.value.rest| < |ts|
    ensures r.Some? && |r.value.rest| < |ts| ==> s == r
  {
    if r.Some? && |r.value.rest| < |ts| then r else None
  }

  function ReadPrimary(e: Env, ts: seq<Token>, k: nat): (r: Reading<Tri>)
    ensures r.Some? ==> |r.value.rest| < |ts|
    decreases |ts|, 0
  {
    if ts != [] && ts[0] == LParen then
      match ReadOr(e, ts[1..], k)
      case None => None
      case Some(r) => if r.rest != [] && r.rest[0] == RParen then Some(Read(r.value, r.rest[1..], r.count)) else None
    else Shorter(ReadPredicate(e, ts, k), ts)
  }

  function ReadNot(e: Env, ts: seq<Token>, k: nat): (r: Reading<Tri>)
    ensures r.Some? ==> |r.value.rest| < |ts|
    decreases |ts|, 1
  {
    if ts != [] && ts[0] == Not then
      match ReadNot(e, ts[1..], k)
      case None => None
      case Some(r) => Some(Read(Not3(r.value), r.rest, r.count))
    else ReadPrimary(e, ts, k)
  }

  /** Further `AND` operands after a value. */
  function AndTail(e: Env, acc: Tri, ts: seq<Token>, k: nat): (r: Reading<Tri>)
    ensures r.Some? ==> |r.value.rest| <= |ts|
    decreases |ts|, 2
  {
    if ts != [] && ts[0] == And then
      match ReadNot(e, ts[1..], k)
      case None => None
      case Some(r) => AndTail(e, And3(acc, r.value), r.rest, r.count)
    else Some(Read(acc, ts, k))
  }

  function ReadAnd(e: Env, ts: seq<Token>, k: nat): (r: Reading<Tri>)
    ensures r.Some? ==> |r.value.rest| < |ts|
    decreases |ts|, 3
  {
    match ReadNot(e, ts, k)
    case None => None
    case Some(r) => AndTail(e, r.value, r.rest, r.count)
  }

  function OrTail(e: Env, acc: Tri, ts: seq<Token>, k: nat): (r: Reading<Tri>)
    ensures r.Some? ==> |r.value.rest| <= |ts|
    decreases |ts|, 4
  {
    if ts != [] && ts[0] == Or then
      match ReadAnd(e, ts[1..], k)
      case None => None
      case Some(r) => OrTail(e, Or3(acc, r.value), r.rest, r.count)
    else Some(Read(acc, ts, k))
  }

  function ReadOr(e: Env, ts: seq<Token>, k: nat): (r: Reading<Tri>)
    ensures r.Some? ==> |r.value.rest| < |ts|
    decreases |ts|, 5
  {
    match ReadAnd(e, ts, k)
    case None => None
    case Some(r) => OrTail(e, r.value, r.rest, r.count)
  }

  /** The truth value of a whole condition whose first placeholder is number `k` of its query;
      `None` when the tokens are not a condition. */
  function ConditionValue(e: Env, ts: seq<Token>, k: nat): Option<Tri> {
    match ReadOr(e, ts, k)
    case None => None
    case Some(r) => if r.rest == [] then Some(r.value) else None
  }
}
