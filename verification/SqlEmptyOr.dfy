/** Which rows an empty disjunction lets through: the emitted condition leaves it out, although in
    logic it holds of nothing. */
module SqlEmptyOr {
  import opened ByteStrings
  import opened SqlTokens
  import opened SqlFilter
  import opened SqlMeaning

  predicate Kept(e: Env, r: Resolver, w: Where, emptyOr: Tri) {
    WhereMeaning(e, r, w, emptyOr) == Yes
  }

  /** The row is kept as the tree is emitted, but only because some empty disjunction counts as
      true: one stands in a conjunction that holds, or in every disjunct that holds. */
  predicate Leans(e: Env, r: Resolver, w: Where)
    decreases w
  {
    Kept(e, r, w, Yes) &&
    match w
    case Array(items) => exists i :: 0 <= i < |items| && Leans(e, r, items[i])
    case Object(entries) => exists i :: 0 <= i < |entries| && EntryLeans(e, r, entries[i])
  }

  predicate EntryLeans(e: Env, r: Resolver, entry: Entry)
    decreases entry
  {
    EntryMeaning(e, r, entry, Yes) == Yes &&
    match entry
    case Property(_, _) => false
    case AndEntry(items) => exists i :: 0 <= i < |items| && Leans(e, r, items[i])
    case OrEntry(items) => forall i :: 0 <= i < |items| && Kept(e, r, items[i], Yes) ==> Leans(e, r, items[i])
  }

  lemma {:induction false} AllYes(vs: seq<Tri>)
    ensures AndAll(vs) == Yes <==> forall i :: 0 <= i < |vs| ==> vs[i] == Yes
    decreases |vs|
  {
    if vs != [] {
      AllYes(vs[1..]);
      assert forall i :: 1 <= i < |vs| ==> vs[i] == vs[1..][i - 1];
    }
  }

  lemma {:induction false} SomeYes(vs: seq<Tri>)
    ensures OrAll(vs) == Yes <==> exists i :: 0 <= i < |vs| && vs[i] == Yes
    decreases |vs|
  {
    if vs != [] {
      SomeYes(vs[1..]);
      assert forall i :: 1 <= i < |vs| ==> vs[i] == vs[1..][i - 1];
    }
  }

  lemma {:induction false} ItemsAt(e: Env, r: Resolver, items: seq<Where>, emptyOr: Tri)
    ensures var vs := ItemMeanings(e, r, items, emptyOr);
            |vs| == |items| && forall i :: 0 <= i < |items| ==> vs[i] == WhereMeaning(e, r, items[i], emptyOr)
    decreases |items|
  {
    hide WhereMeaning;
    if items != [] {
      ItemsAt(e, r, items[1..], emptyOr);
    }
  }

  lemma {:induction false} EntriesAt(e: Env, r: Resolver, entries: seq<Entry>, emptyOr: Tri)
    ensures var vs := EntryMeanings(e, r, entries, emptyOr);
            |vs| == |entries| && forall i :: 0 <= i < |entries| ==> vs[i] == EntryMeaning(e, r, entries[i], emptyOr)
    decreases |entries|
  {
    hide EntryMeaning;
    if entries != [] {
      EntriesAt(e, r, entries[1..], emptyOr);
    }
  }

  lemma AllKept(e: Env, r: Resolver, items: seq<Where>, emptyOr: Tri)
    ensures AndAll(ItemMeanings(e, r, items, emptyOr)) == Yes <==> forall i :: 0 <= i < |items| ==> Kept(e, r, items[i], emptyOr)
    ensures OrAll(ItemMeanings(e, r, items, emptyOr)) == Yes <==> exists i :: 0 <= i < |items| && Kept(e, r, items[i], emptyOr)
  {
    hide WhereMeaning, ItemMeanings, AndAll, OrAll;
    var vs := ItemMeanings(e, r, items, emptyOr);
    ItemsAt(e, r, items, emptyOr);
    AllYes(vs);
    SomeYes(vs);
  }

  /** What the readings of a tree have to do with each other. */
  predicate Exact(e: Env, r: Resolver, w: Where) {
    && (Kept(e, r, w, No) ==> Kept(e, r, w, Yes))
    && (Leans(e, r, w) <==> Kept(e, r, w, Yes) && !Kept(e, r, w, No))
  }

  predicate ExactEntry(e: Env, r: Resolver, entry: Entry) {
    && (EntryMeaning(e, r, entry, No) == Yes ==> EntryMeaning(e, r, entry, Yes) == Yes)
    && (EntryLeans(e, r, entry) <==> EntryMeaning(e, r, entry, Yes) == Yes && EntryMeaning(e, r, entry, No) != Yes)
  }

  lemma {:induction false} LeansExactly(e: Env, r: Resolver, w: Where)
    ensures Exact(e, r, w)
    decreases w
  {
    match w
    case Array(items) =>
      forall i | 0 <= i < |items| ensures Exact(e, r, items[i]) {
        LeansExactly(e, r, items[i]);
      }
      ArrayExact(e, r, items);
    case Object(entries) =>
      forall i | 0 <= i < |entries| ensures ExactEntry(e, r, entries[i]) {
        EntryLeansExactly(e, r, entries[i]);
      }
      ObjectExact(e, r, entries);
  }

  lemma {:induction false} EntryLeansExactly(e: Env, r: Resolver, entry: Entry)
    ensures ExactEntry(e, r, entry)
    decreases entry
  {
    match entry
    case Property(_, _) =>
    case AndEntry(items) =>
      forall i | 0 <= i < |items| ensures Exact(e, r, items[i]) {
        LeansExactly(e, r, items[i]);
      }
      AndExact(e, r, items);
    case OrEntry(items) =>
      forall i | 0 <= i < |items| ensures Exact(e, r, items[i]) {
        LeansExactly(e, r, items[i]);
      }
      OrExact(e, r, items);
  }

  lemma ArrayExact(e: Env, r: Resolver, items: seq<Where>)
    requires forall i :: 0 <= i < |items| ==> Exact(e, r, items[i])
    ensures Exact(e, r, Array(items))
  {
    hide ItemMeanings, AndAll, OrAll;
    AllKept(e, r, items, Yes);
    AllKept(e, r, items, No);
    assert forall i :: 0 <= i < |items| ==> Exact(e, r, items[i]);
    ReadsArray(e, r, items, Yes);
    ReadsArray(e, r, items, No);
    hide Kept;
  }

  lemma ReadsArray(e: Env, r: Resolver, items: seq<Where>, emptyOr: Tri)
    ensures WhereMeaning(e, r, Array(items), emptyOr) == AndAll(ItemMeanings(e, r, items, emptyOr))
    ensures EntryMeaning(e, r, AndEntry(items), emptyOr) == AndAll(ItemMeanings(e, r, items, emptyOr))
    ensures EntryMeaning(e, r, OrEntry(items), emptyOr) == if items == [] then emptyOr else OrAll(ItemMeanings(e, r, items, emptyOr))
  {
    hide ItemMeanings, AndAll, OrAll;
  }

  lemma AndExact(e: Env, r: Resolver, items: seq<Where>)
    requires forall i :: 0 <= i < |items| ==> Exact(e, r, items[i])
    ensures ExactEntry(e, r, AndEntry(items))
  {
    hide ItemMeanings, AndAll, OrAll, EntryMeaning;
    AllKept(e, r, items, Yes);
    AllKept(e, r, items, No);
    ReadsArray(e, r, items, Yes);
    ReadsArray(e, r, items, No);
    hide Kept;
  }

  lemma OrExact(e: Env, r: Resolver, items: seq<Where>)
    requires forall i :: 0 <= i < |items| ==> Exact(e, r, items[i])
    ensures ExactEntry(e, r, OrEntry(items))
  {
    hide ItemMeanings, AndAll, OrAll, EntryMeaning;
    AllKept(e, r, items, Yes);
    AllKept(e, r, items, No);
    ReadsArray(e, r, items, Yes);
    ReadsArray(e, r, items, No);
    hide Kept;
  }

  lemma ObjectExact(e: Env, r: Resolver, entries: seq<Entry>)
    requires forall i :: 0 <= i < |entries| ==> ExactEntry(e, r, entries[i])
    ensures Exact(e, r, Object(entries))
  {
    hide EntryMeanings, AndAll, EntryMeaning;
    EntriesAt(e, r, entries, Yes);
    EntriesAt(e, r, entries, No);
    var ys, ns := EntryMeanings(e, r, entries, Yes), EntryMeanings(e, r, entries, No);
    AllYes(ys);
    AllYes(ns);
    assert WhereMeaning(e, r, Object(entries), Yes) == AndAll(ys) && WhereMeaning(e, r, Object(entries), No) == AndAll(ns);
    hide WhereMeaning;
    assert forall i :: 0 <= i < |entries| ==> ExactEntry(e, r, entries[i]) && ys[i] == EntryMeaning(e, r, entries[i], Yes)
                                              && ns[i] == EntryMeaning(e, r, entries[i], No);
  }

  /** The emitted condition keeps a row that logic drops exactly when the row leans on an empty
      disjunction; it never drops a row that logic keeps. */
  lemma EmptyOrExactly(e: Env, d: Dialect, r: Resolver, w: Where, ps: seq<Value>)
    requires EmitWhere(d, r, w, ps).Some?
    requires EmitWhere(d, r, w, ps).value.params <= e.params
    ensures var emitted, logical := ConditionValue(e, EmitWhere(d, r, w, ps).value.tokens, |ps|), WhereMeaning(e, r, w, No);
            && (logical == Yes ==> emitted == Some(Yes))
            && (emitted == Some(Yes) && logical != Yes <==> Leans(e, r, w))
  {
    hide WhereMeaning, EmitWhere, ConditionValue, Leans;
    WhereTranslation(e, d, r, w, ps);
    LeansExactly(e, r, w);
  }
}
