/** Which filters are translated: exactly those whose fields are columns and whose operators the
    dialect knows, with something to say at every level. Any other is refused, whatever was
    translated before it. */
module SqlAcceptance {
  import opened ByteStrings
  import opened SqlTokens
  import opened SqlFilter

  // ------------------------------------------------------------------ WHERE trees

  /** Postgres knows no negated patterns; `between` takes two values. */
  predicate KnownOperation(d: Dialect, op: Operation) {
    && !op.OpOther? && (op.OpBetween? ==> |op.vs| == 2)
    && (op.OpNLike? || op.OpNILike? ==> d == MySql)
  }

  predicate KnownCondition(d: Dialect, c: Condition) {
    c.Operations? ==> c.ops != [] && forall i :: 0 <= i < |c.ops| ==> KnownOperation(d, c.ops[i])
  }

  /** An entry that leaves no condition behind: a connective of nothing. */
  predicate SaysNothing(entry: Entry) {
    !entry.Property? && entry.items == []
  }

  predicate Accepted(d: Dialect, r: Resolver, w: Where)
    decreases w, 1
  {
    match w
    case Array(items) => items != [] && forall i :: 0 <= i < |items| ==> Accepted(d, r, items[i])
    case Object(entries) =>
      && (exists i :: 0 <= i < |entries| && !SaysNothing(entries[i]))
      && forall i :: 0 <= i < |entries| ==> AcceptedEntry(d, r, entries[i])
  }

  predicate AcceptedEntry(d: Dialect, r: Resolver, entry: Entry)
    decreases entry, 0
  {
    match entry
    case Property(field, condition) => r(field).Some? && KnownCondition(d, condition)
    case AndEntry(items) => forall i :: 0 <= i < |items| ==> Accepted(d, r, items[i])
    case OrEntry(items) => forall i :: 0 <= i < |items| ==> Accepted(d, r, items[i])
  }

  lemma OperationAccepted(d: Dialect, column: string, op: Operation, ps: seq<Value>)
    ensures EmitOperation(d, column, op, ps).Some? <==> KnownOperation(d, op)
  {
    hide Placeholders;
  }

  lemma {:induction false} OperationsAccepted(d: Dialect, column: string, ops: seq<Operation>, ps: seq<Value>)
    ensures EmitOperations(d, column, ops, ps).Some? <==> forall i :: 0 <= i < |ops| ==> KnownOperation(d, ops[i])
    ensures EmitOperations(d, column, ops, ps).Some? ==> |EmitOperations(d, column, ops, ps).value.list| == |ops|
    decreases |ops|
  {
    hide EmitOperation, KnownOperation;
    if ops != [] {
      OperationAccepted(d, column, ops[0], ps);
      var first := EmitOperation(d, column, ops[0], ps);
      if first.Some? {
        OperationsAccepted(d, column, ops[1..], first.value.params);
        assert forall i :: 1 <= i < |ops| ==> ops[i] == ops[1..][i - 1];
      }
    }
  }

  lemma ConditionAccepted(d: Dialect, column: string, c: Condition, ps: seq<Value>)
    ensures EmitCondition(d, column, c, ps).Some? <==> KnownCondition(d, c)
  {
    hide KnownOperation, EmitOperations;
    match c
    case Literal(_) =>
    case Operations(ops) => OperationsAccepted(d, column, ops, ps);
  }

  /** A tree is translated exactly when it is accepted, wherever in a query it stands. */
  lemma {:induction false} WhereAccepted(d: Dialect, r: Resolver, w: Where, ps: seq<Value>)
    ensures EmitWhere(d, r, w, ps).Some? <==> Accepted(d, r, w)
    decreases w, 1
  {
    hide AcceptedEntry, SaysNothing;
    match w
    case Array(items) => ItemsAccepted(d, r, items, ps);
    case Object(entries) => EntriesAccepted(d, r, entries, ps);
  }

  lemma {:induction false} ItemsAccepted(d: Dialect, r: Resolver, items: seq<Where>, ps: seq<Value>)
    ensures EmitItems(d, r, items, ps).Some? <==> forall i :: 0 <= i < |items| ==> Accepted(d, r, items[i])
    decreases items, 0
  {
    hide EmitWhere, Accepted;
    if items != [] {
      WhereAccepted(d, r, items[0], ps);
      var first := EmitWhere(d, r, items[0], ps);
      if first.Some? {
        ItemsAccepted(d, r, items[1..], first.value.params);
        assert forall i :: 1 <= i < |items| ==> items[i] == items[1..][i - 1];
      }
    }
  }

  lemma {:induction false} EntryAccepted(d: Dialect, r: Resolver, entry: Entry, ps: seq<Value>)
    ensures EmitEntry(d, r, entry, ps).Some? <==> AcceptedEntry(d, r, entry)
    ensures EmitEntry(d, r, entry, ps).Some? ==> (EmitEntry(d, r, entry, ps).value.list == [] <==> SaysNothing(entry))
    decreases entry, 0
  {
    hide EmitItems, EmitCondition, KnownCondition, Accepted;
    match entry
    case Property(field, condition) =>
      if r(field).Some? {
        ConditionAccepted(d, r(field).value, condition, ps);
      }
    case AndEntry(items) => ItemsAccepted(d, r, items, ps);
    case OrEntry(items) => ItemsAccepted(d, r, items, ps);
  }

  lemma {:induction false} EntriesAccepted(d: Dialect, r: Resolver, entries: seq<Entry>, ps: seq<Value>)
    ensures EmitEntries(d, r, entries, ps).Some? <==> forall i :: 0 <= i < |entries| ==> AcceptedEntry(d, r, entries[i])
    ensures EmitEntries(d, r, entries, ps).Some? ==>
              (EmitEntries(d, r, entries, ps).value.list == [] <==> forall i :: 0 <= i < |entries| ==> SaysNothing(entries[i]))
    decreases entries, 0
  {
    hide EmitEntry, AcceptedEntry, SaysNothing;
    if entries != [] {
      EntryAccepted(d, r, entries[0], ps);
      var first := EmitEntry(d, r, entries[0], ps);
      if first.Some? {
        EntriesAccepted(d, r, entries[1..], first.value.params);
        assert forall i :: 1 <= i < |entries| ==> entries[i] == entries[1..][i - 1];
        assert forall i :: 0 <= i < |entries[1..]| ==> entries[1..][i] == entries[i + 1];
      }
    }
  }

  // ------------------------------------------------------------------ HAVING expressions

  predicate AcceptedHaving(r: Resolver, h: Having) {
    match h
    case Comparing(field, comparator, _) => r(field).Some? && !comparator.HOther?
    case Logical(_, children) => children != [] && forall i :: 0 <= i < |children| ==> AcceptedHaving(r, children[i])
    case Negation(child) => AcceptedHaving(r, child)
    case OtherHaving => false
  }

  lemma {:induction false} HavingAccepted(d: Dialect, r: Resolver, h: Having, ps: seq<Value>)
    ensures EmitHaving(d, r, h, ps).Some? <==> AcceptedHaving(r, h)
    decreases h, 1
  {
    hide EmitOperation;
    match h
    case Comparing(field, _, v) =>
      if r(field).Some? {
        OperationAccepted(d, r(field).value, OpEq(v), ps);
        OperationAccepted(d, r(field).value, OpNeq(v), ps);
      }
    case Logical(_, children) => ChildrenAccepted(d, r, children, ps);
    case Negation(child) => HavingAccepted(d, r, child, ps);
    case OtherHaving =>
  }

  lemma {:induction false} ChildrenAccepted(d: Dialect, r: Resolver, children: seq<Having>, ps: seq<Value>)
    ensures EmitChildren(d, r, children, ps).Some? <==> forall i :: 0 <= i < |children| ==> AcceptedHaving(r, children[i])
    decreases children, 0
  {
    hide EmitHaving, AcceptedHaving;
    if children != [] {
      HavingAccepted(d, r, children[0], ps);
      var first := EmitHaving(d, r, children[0], ps);
      if first.Some? {
        ChildrenAccepted(d, r, children[1..], first.value.params);
        assert forall i :: 1 <= i < |children| ==> children[i] == children[1..][i - 1];
      }
    }
  }

  /** A HAVING clause is emitted exactly for one or more accepted expressions. */
  lemma HavingClauseAccepted(d: Dialect, r: Resolver, filters: seq<Having>, ps: seq<Value>)
    ensures EmitHavingClause(d, r, filters, ps).Some? <==>
            filters != [] && forall i :: 0 <= i < |filters| ==> AcceptedHaving(r, filters[i])
  {
    hide EmitChildren, AcceptedHaving;
    ChildrenAccepted(d, r, filters, ps);
  }
}
