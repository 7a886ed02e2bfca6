/** The translators as they run: clause lists grow in loops, parameters are pushed on one shared
    list, and a refusal truncates that list to where it was. Proved against SqlFilter. */
module SqlTranslator {
  import opened ByteStrings
  import opened SqlTokens
  import opened SqlFilter

  /** Pieces already collected, in front of what is still to come. */
  function Prepended(list: seq<seq<Token>>, o: Option<Parts>): Option<Parts> {
    match o
    case None => None
    case Some(parts) => Some(Parts(list + parts.list, parts.params))
  }

  lemma NextPlaceholder(d: Dialect, vs: seq<Value>, i: nat, n: nat, before: seq<Token>)
    requires i < |vs|
    ensures before + Placeholders(d, vs[i..], n + i) ==
            if i + 1 < |vs| then before + [Placeholder(d, n + i), Comma] + Placeholders(d, vs[i + 1..], n + i + 1)
            else before + [Placeholder(d, n + i)]
  {
    assert vs[i..][1..] == vs[i + 1..];
  }

  lemma StartPrepending(o: Option<Parts>)
    ensures Prepended([], o) == o
  {
    if o.Some? {
      assert [] + o.value.list == o.value.list;
    }
  }

  lemma EndPrepending(list: seq<seq<Token>>, ps: seq<Value>)
    ensures Prepended(list, Some(Parts([], ps))) == Some(Parts(list, ps))
  {
    assert list + [] == list;
  }

  class Translator {
    const d: Dialect
    const resolve: Resolver
    var params: seq<Value>

    constructor (d: Dialect, resolve: Resolver)
      ensures this.d == d && this.resolve == resolve && params == []
    {
      this.d, this.resolve, params := d, resolve, [];
    }

    method Push(v: Value) returns (placeholder: Token)
      modifies this`params
      ensures params == old(params) + [v] && placeholder == Placeholder(d, |params|)
    {
      params := params + [v];
      placeholder := Placeholder(d, |params|);
    }

    method PushAll(vs: seq<Value>) returns (placeholders: seq<Token>)
      requires vs != []
      modifies this`params
      ensures params == old(params) + vs && placeholders == Placeholders(d, vs, |old(params)| + 1)
    {
      hide Placeholders;
      placeholders := [];
      ghost var n := |params| + 1;
      assert vs[0..] == vs && [] + Placeholders(d, vs, n) == Placeholders(d, vs, n);
      for i := 0 to |vs|
        invariant params == old(params) + vs[..i]
        invariant if i < |vs| then placeholders + Placeholders(d, vs[i..], n + i) == Placeholders(d, vs, n)
                  else placeholders == Placeholders(d, vs, n)
      {
        NextPlaceholder(d, vs, i, n, placeholders);
        var p := Push(vs[i]);
        placeholders := placeholders + (if i + 1 < |vs| then [p, Comma] else [p]);
      }
    }

    /** One operator; a malformed range leaves what it pushed to the caller to take back. */
    method BuildOperation(column: string, op: Operation) returns (fragment: Option<seq<Token>>)
      modifies this`params
      ensures var o := EmitOperation(d, column, op, old(params));
              if o.Some? then fragment == Some(o.value.tokens) && params == o.value.params else fragment == None
    {
      hide Placeholders;
      match op {
        case OpEq(v) =>
          if v == Null {
            return Some([Column(column), IsNull]);
          }
          var p := Push(v);
          return Some([Column(column), Compare(Eq), p]);
        case OpNeq(v) =>
          if v == Null {
            return Some([Column(column), IsNotNull]);
          }
          var p := Push(v);
          return Some([Column(column), Compare(Ne), p]);
        case OpCompare(c, v) =>
          var p := Push(v);
          return Some([Column(column), Compare(c), p]);
        case OpIn(vs) =>
          if vs == [] {
            return Some([ConstFalse]);
          }
          var ps := PushAll(vs);
          return Some([Column(column), In, LParen] + ps + [RParen]);
        case OpNotIn(vs) =>
          if vs == [] {
            return Some([ConstTrue]);
          }
          var ps := PushAll(vs);
          return Some([Column(column), NotIn, LParen] + ps + [RParen]);
        case OpBetween(vs) =>
          if |vs| != 2 {
            return None;
          }
          var lo := Push(vs[0]);
          var hi := Push(vs[1]);
          assert old(params) + [vs[0]] + [vs[1]] == old(params) + vs;
          return Some([Column(column), Between, lo, And, hi]);
        case OpLike(v) =>
          var p := Push(v);
          return Some([Column(column), Compare(Like), p]);
        case OpILike(v) =>
          var p := Push(v);
          return Some(if d.Postgres? then [Column(column), ILike, p]
                      else [Lower, LParen, Column(column), RParen, Compare(Like), Lower, LParen, p, RParen]);
        case OpNLike(v) =>
          if d.Postgres? {
            return None;
          }
          var p := Push(v);
          return Some([Column(column), NotLike, p]);
        case OpNILike(v) =>
          if d.Postgres? {
            return None;
          }
          var p := Push(v);
          return Some([Lower, LParen, Column(column), RParen, NotLike, Lower, LParen, p, RParen]);
        case OpOther =>
          return None;
      }
    }

    method BuildPropertyCondition(column: string, c: Condition) returns (fragment: Option<seq<Token>>)
      modifies this`params
      ensures var o := EmitCondition(d, column, c, old(params));
              if o.Some? then fragment == Some(o.value.tokens) && params == o.value.params else fragment == None
    {
      hide EmitOperation, Grouped;
      if c.Literal? {
        fragment := BuildOperation(column, OpEq(c.v));
        return;
      }
      var fragments: seq<seq<Token>> := [];
      var ops := c.ops;
      assert ops[0..] == ops;
      StartPrepending(EmitOperations(d, column, ops, params));
      for i := 0 to |ops|
        invariant EmitOperations(d, column, ops, old(params)) == Prepended(fragments, EmitOperations(d, column, ops[i..], params))
      {
        assert ops[i..][0] == ops[i] && ops[i..][1..] == ops[i + 1..];
        var piece := BuildOperation(column, ops[i]);
        if piece.None? {
          return None;
        }
        Regroup(fragments, piece.value, EmitOperations(d, column, ops[i + 1..], params));
        fragments := fragments + [piece.value];
      }
      assert ops[|ops|..] == [];
      EndPrepending(fragments, params);
      if |fragments| == 0 {
        return None;
      }
      return Some(Grouped(fragments, And));
    }

    /** A clause, or a refusal that leaves the parameters as it found them. */
    method VisitWhereNode(w: Where) returns (clause: Option<seq<Token>>)
      modifies this`params
      ensures var o := EmitWhere(d, resolve, w, old(params));
              if o.Some? then clause == Some(o.value.tokens) && params == o.value.params
              else clause == None && params == old(params)
      decreases w, 1
    {
      hide Grouped, Chained;
      var startParams := params;
      var list: Option<seq<seq<Token>>>;
      match w {
        case Array(items) => list := VisitItems(items);
        case Object(entries) => list := VisitEntries(entries);
      }
      if list.None? || |list.value| == 0 {
        params := startParams;
        return None;
      }
      return Some(if w.Array? then Grouped(list.value, And) else Chained(list.value, And));
    }

    method VisitItems(items: seq<Where>) returns (list: Option<seq<seq<Token>>>)
      modifies this`params
      ensures var o := EmitItems(d, resolve, items, old(params));
              if o.Some? then list == Some(o.value.list) && params == o.value.params else list == None
      decreases items, 0
    {
      hide EmitWhere;
      var parts: seq<seq<Token>> := [];
      assert items[0..] == items;
      StartPrepending(EmitItems(d, resolve, items, params));
      for i := 0 to |items|
        invariant EmitItems(d, resolve, items, old(params)) == Prepended(parts, EmitItems(d, resolve, items[i..], params))
      {
        assert items[i..][0] == items[i] && items[i..][1..] == items[i + 1..];
        var part := VisitWhereNode(items[i]);
        if part.None? {
          return None;
        }
        Regroup(parts, part.value, EmitItems(d, resolve, items[i + 1..], params));
        parts := parts + [part.value];
      }
      assert items[|items|..] == [];
      EndPrepending(parts, params);
      return Some(parts);
    }

    method VisitEntries(entries: seq<Entry>) returns (list: Option<seq<seq<Token>>>)
      modifies this`params
      ensures var o := EmitEntries(d, resolve, entries, old(params));
              if o.Some? then list == Some(o.value.list) && params == o.value.params else list == None
      decreases entries, 0
    {
      hide EmitEntry;
      var clauses: seq<seq<Token>> := [];
      assert entries[0..] == entries;
      StartPrepending(EmitEntries(d, resolve, entries, params));
      for i := 0 to |entries|
        invariant EmitEntries(d, resolve, entries, old(params)) == Prepended(clauses, EmitEntries(d, resolve, entries[i..], params))
      {
        assert entries[i..][0] == entries[i] && entries[i..][1..] == entries[i + 1..];
        var more := VisitEntry(entries[i]);
        if more.None? {
          return None;
        }
        RegroupAll(clauses, more.value, EmitEntries(d, resolve, entries[i + 1..], params));
        clauses := clauses + more.value;
      }
      assert entries[|entries|..] == [];
      EndPrepending(clauses, params);
      return Some(clauses);
    }

    method VisitEntry(entry: Entry) returns (list: Option<seq<seq<Token>>>)
      modifies this`params
      ensures var o := EmitEntry(d, resolve, entry, old(params));
              if o.Some? then list == Some(o.value.list) && params == o.value.params else list == None
      decreases entry, 0
    {
      hide Grouped, EmitCondition, EmitItems;
      match entry {
        case Property(field, condition) =>
          var resolved := resolve(field);
          if resolved.None? {
            return None;
          }
          var fragment := BuildPropertyCondition(resolved.value, condition);
          if fragment.None? {
            return None;
          }
          return Some([fragment.value]);
        case AndEntry(items) =>
          var parts := VisitItems(items);
          if parts.None? {
            return None;
          }
          return Some(if parts.value == [] then [] else [Grouped(parts.value, And)]);
        case OrEntry(items) =>
          var parts := VisitItems(items);
          if parts.None? {
            return None;
          }
          return Some(if parts.value == [] then [] else [Grouped(parts.value, Or)]);
      }
    }

    method TranslateHavingExpression(h: Having) returns (clause: Option<seq<Token>>)
      modifies this`params
      ensures var o := EmitHaving(d, resolve, h, old(params));
              if o.Some? then clause == Some(o.value.tokens) && params == o.value.params
              else clause == None && params == old(params)
      decreases h, 1
    {
      hide Chained, EmitOperation, EmitChildren;
      var startParams := params;
      match h {
        case Comparing(field, comparator, v) =>
          var column := resolve(field);
          if column.None? {
            return None;
          }
          match comparator {
            case HEq => clause := BuildOperation(column.value, OpEq(v));
            case HNe => clause := BuildOperation(column.value, OpNeq(v));
            case HCompare(op) =>
              var p := Push(v);
              return Some([Column(column.value), Compare(op), p]);
            case HOther =>
              return None;
          }
          if clause.None? {
            params := startParams;
          }
        case Logical(connective, children) =>
          var parts := TranslateAll(children);
          if parts.None? || |parts.value| == 0 {
            params := startParams;
            return None;
          }
          return Some(Chained(parts.value, connective));
        case Negation(child) =>
          var inner := TranslateHavingExpression(child);
          if inner.None? {
            params := startParams;
            return None;
          }
          return Some([Not] + Parenthesised(inner.value));
        case OtherHaving =>
          return None;
      }
    }

    method TranslateAll(children: seq<Having>) returns (list: Option<seq<seq<Token>>>)
      modifies this`params
      ensures var o := EmitChildren(d, resolve, children, old(params));
              if o.Some? then list == Some(o.value.list) && params == o.value.params else list == None
      decreases children, 0
    {
      hide EmitHaving;
      var parts: seq<seq<Token>> := [];
      assert children[0..] == children;
      StartPrepending(EmitChildren(d, resolve, children, params));
      for i := 0 to |children|
        invariant EmitChildren(d, resolve, children, old(params)) ==
                  Prepended(parts, EmitChildren(d, resolve, children[i..], params))
      {
        assert children[i..][0] == children[i] && children[i..][1..] == children[i + 1..];
        var part := TranslateHavingExpression(children[i]);
        if part.None? {
          return None;
        }
        Regroup(parts, part.value, EmitChildren(d, resolve, children[i + 1..], params));
        parts := parts + [part.value];
      }
      assert children[|children|..] == [];
      EndPrepending(parts, params);
      return Some(parts);
    }

    method BuildHavingClause(filters: seq<Having>) returns (clause: Option<seq<Token>>)
      modifies this`params
      ensures var o := EmitHavingClause(d, resolve, filters, old(params));
              if o.Some? then clause == Some(o.value.tokens) && params == o.value.params
              else clause == None && params == old(params)
    {
      hide EmitChildren, Chained;
      var startParams := params;
      var clauses := TranslateAll(filters);
      if clauses.None? || |clauses.value| == 0 {
        params := startParams;
        return None;
      }
      return Some(Chained(clauses.value, And));
    }
  }

  lemma Regroup(list: seq<seq<Token>>, piece: seq<Token>, o: Option<Parts>)
    ensures Prepended(list + [piece], o) ==
            if o.None? then None else Prepended(list, Some(Parts([piece] + o.value.list, o.value.params)))
  {
    if o.Some? {
      assert list + [piece] + o.value.list == list + ([piece] + o.value.list);
    }
  }

  lemma RegroupAll(list: seq<seq<Token>>, more: seq<seq<Token>>, o: Option<Parts>)
    ensures Prepended(list + more, o) ==
            if o.None? then None else Prepended(list, Some(Parts(more + o.value.list, o.value.params)))
  {
    if o.Some? {
      assert list + more + o.value.list == list + (more + o.value.list);
    }
  }
}
