/** Joins for navigation paths: fields like `customer/region/name` share the joins of their common
    prefixes, and each new prefix gets a fresh alias. */
module JoinManager {
  import opened ByteStrings

  type Model = string

  /** A relation followed from one model to another. */
  datatype Segment = Segment(relationName: string, targetModel: Model, sourceKey: string, targetKey: string)

  datatype Lookup = NoRelation | Refused | Follows(segment: Segment)

  /** What the application declares. `relation` is keyed by model and relation name; `table` is
      absent for a model without SQL metadata; `column` maps a property (or structured property
      path) of a model to its column. */
  datatype Schema = Schema(
    baseModel: Model,
    baseAlias: string,
    maxDepth: nat,
    relation: (Model, string) -> Lookup,
    table: Model -> Option<string>,
    column: (Model, string) -> Option<string>)

  datatype Condition = Condition(sourceAlias: string, sourceColumn: string, alias: string, targetColumn: string)

  datatype JoinNode = JoinNode(alias: string, tableRef: string, condition: Condition, targetModel: Model)

  datatype Clause = LeftJoin(tableRef: string, alias: string, condition: Condition)

  datatype Column = Column(alias: string, name: string)

  datatype Path = Path(joins: seq<Segment>, property: seq<string>)

  // ------------------------------------------------------------------ names in a path

  /** The parts of a path between slashes, without empty ones; `current` is the part being read. */
  function SplitNames(s: string, current: string): seq<string>
    decreases |s|
  {
    var done := if current == "" then [] else [current];
    if s == "" then done
    else if s[0] == '/' then done + SplitNames(s[1..], "")
    else SplitNames(s[1..], current + [s[0]])
  }

  predicate IsName(s: string) {
    s != "" && '/' !in s
  }

  predicate AreNames(names: seq<string>) {
    forall i :: 0 <= i < |names| ==> IsName(names[i])
  }

  lemma {:induction false} SplitGivesNames(s: string, current: string)
    requires '/' !in current
    ensures AreNames(SplitNames(s, current))
    decreases |s|
  {
    if s != "" {
      if s[0] == '/' {
        SplitGivesNames(s[1..], "");
      } else {
        SplitGivesNames(s[1..], current + [s[0]]);
      }
    }
  }

  /** Follows relations as long as the names are relations; the rest is a property path. */
  function Follow(s: Schema, model: Model, names: seq<string>, depth: nat): Option<Path>
    decreases |names|
  {
    if names == [] then Some(Path([], []))
    else if depth >= s.maxDepth then None
    else match s.relation(model, names[0])
      case NoRelation => Some(Path([], names))
      case Refused => None
      case Follows(segment) =>
        match Follow(s, segment.targetModel, names[1..], depth + 1)
        case None => None
        case Some(path) => Some(Path([segment] + path.joins, path.property))
  }

  function ResolvePath(s: Schema, field: string): Option<Path> {
    var names := SplitNames(field, "");
    if names == [] then None else Follow(s, s.baseModel, names, 0)
  }

  /** Relations carry their own name. */
  ghost predicate Named(s: Schema) {
    forall m, name :: s.relation(m, name).Follows? ==> s.relation(m, name).segment.relationName == name
  }

  /** The segments are relations, one after the other, from `model` on. */
  predicate Walk(s: Schema, model: Model, joins: seq<Segment>)
    decreases |joins|
  {
    joins == [] ||
    (&& IsName(joins[0].relationName)
     && s.relation(model, joins[0].relationName) == Follows(joins[0])
     && Walk(s, joins[0].targetModel, joins[1..]))
  }

  lemma {:induction false} FollowWalks(s: Schema, model: Model, names: seq<string>, depth: nat)
    requires Named(s) && AreNames(names) && Follow(s, model, names, depth).Some?
    ensures Walk(s, model, Follow(s, model, names, depth).value.joins)
    decreases |names|
  {
    if names != [] && s.relation(model, names[0]).Follows? {
      var segment := s.relation(model, names[0]).segment;
      assert IsName(names[0]);
      assert AreNames(names[1..]) by {
        forall i | 0 <= i < |names[1..]| ensures IsName(names[1..][i]) {
          assert names[1..][i] == names[i + 1];
        }
      }
      FollowWalks(s, segment.targetModel, names[1..], depth + 1);
      var rest := Follow(s, segment.targetModel, names[1..], depth + 1).value.joins;
      assert ([segment] + rest)[1..] == rest;
    }
  }

  // ------------------------------------------------------------------ the manager's state

  datatype Joins = Joins(nodes: map<string, JoinNode>, order: seq<string>, counter: nat)

  const NO_JOINS := Joins(map[], [], 0)

  function Alias(n: nat): string {
    "j" + Decimal(n)
  }

  function Extend(key: string, name: string): string {
    if key == "" then name else key + "/" + name
  }

  datatype Place = Place(alias: string, model: Model)

  /** The join for one segment below `key`: an existing one, or a new one. A refusal after the
      alias was drawn leaves the counter advanced. */
  function EnsureJoin(s: Schema, from: Place, key: string, segment: Segment, st: Joins): (r: (Joins, Option<JoinNode>)) {
    var path := Extend(key, segment.relationName);
    if path in st.nodes then (st, Some(st.nodes[path]))
    else if s.table(from.model).None? || s.table(segment.targetModel).None? then (st, None)
    else
      var drawn := st.(counter := st.counter + 1);
      var alias := Alias(drawn.counter);
      var sourceColumn, targetColumn := s.column(from.model, segment.sourceKey), s.column(segment.targetModel, segment.targetKey);
      if sourceColumn.None? || targetColumn.None? then (drawn, None)
      else
        var node := JoinNode(alias, s.table(segment.targetModel).value,
                             Condition(from.alias, sourceColumn.value, alias, targetColumn.value), segment.targetModel);
        (Joins(st.nodes[path := node], st.order + [path], drawn.counter), Some(node))
  }

  function EnsureChain(s: Schema, from: Place, key: string, joins: seq<Segment>, st: Joins): (Joins, Option<Place>)
    decreases |joins|
  {
    if joins == [] then (st, Some(from))
    else
      var step := EnsureJoin(s, from, key, joins[0], st);
      if step.1.None? then (step.0, None)
      else EnsureChain(s, Place(step.1.value.alias, step.1.value.targetModel), Extend(key, joins[0].relationName), joins[1..], step.0)
  }

  function ColumnAt(s: Schema, place: Place, property: seq<string>): Option<Column> {
    if property == [] || s.table(place.model).None? then None
    else match s.column(place.model, Join(property, "/"))
      case None => None
      case Some(name) => Some(Column(place.alias, name))
  }

  function Base(s: Schema): Place {
    Place(s.baseAlias, s.baseModel)
  }

  function ResolveField(s: Schema, field: string, st: Joins): (Joins, Option<Column>) {
    if field == "" then (st, None)
    else if '/' !in field then (st, ColumnAt(s, Base(s), [field]))
    else match ResolvePath(s, field)
      case None => (st, None)
      case Some(path) =>
        var chain := EnsureChain(s, Base(s), "", path.joins, st);
        (chain.0, if chain.1.None? then None else ColumnAt(s, chain.1.value, path.property))
  }

  /** Any sequence of resolutions, successful or not. */
  function ResolveAll(s: Schema, fields: seq<string>, st: Joins): Joins
    decreases |fields|
  {
    if fields == [] then st else ResolveAll(s, fields[1..], ResolveField(s, fields[0], st).0)
  }

  function JoinClauses(st: Joins): seq<Clause>
    requires forall i :: 0 <= i < |st.order| ==> st.order[i] in st.nodes
  {
    seq(|st.order|, i requires 0 <= i < |st.order| =>
      var node := st.nodes[st.order[i]]; LeftJoin(node.tableRef, node.alias, node.condition))
  }

  // ------------------------------------------------------------------ the manager

  class NavigationJoinManager {
    const schema: Schema
    var joinNodes: map<string, JoinNode>
    var joinOrder: seq<string>
    var aliasCounter: nat
    var navigationMap: map<string, Path>

    ghost function State(): Joins
      reads this
    {
      Joins(joinNodes, joinOrder, aliasCounter)
    }

    /** Remembered paths are what resolving them again would give. */
    ghost predicate Valid()
      reads this
    {
      forall field :: field in navigationMap ==> ResolvePath(schema, field) == Some(navigationMap[field])
    }

    constructor (schema: Schema, navigationPaths: map<string, Path>)
      requires forall field :: field in navigationPaths ==> ResolvePath(schema, field) == Some(navigationPaths[field])
      ensures Valid() && State() == NO_JOINS && this.schema == schema
    {
      this.schema := schema;
      joinNodes, joinOrder, aliasCounter := map[], [], 0;
      navigationMap := navigationPaths;
    }

    method NextAlias() returns (alias: string)
      modifies this`aliasCounter
      ensures aliasCounter == old(aliasCounter) + 1 && alias == Alias(aliasCounter)
    {
      aliasCounter := aliasCounter + 1;
      alias := "j" + Decimal(aliasCounter);
    }

    method JoinFor(currentAlias: string, currentModel: Model, key: string, segment: Segment) returns (r: Option<JoinNode>)
      modifies this`joinNodes, this`joinOrder, this`aliasCounter
      ensures (State(), r) == EnsureJoin(schema, Place(currentAlias, currentModel), key, segment, old(State()))
    {
      var pathKey := Extend(key, segment.relationName);
      if pathKey in joinNodes {
        return Some(joinNodes[pathKey]);
      }
      var sourceTable, targetTable := schema.table(currentModel), schema.table(segment.targetModel);
      if sourceTable.None? || targetTable.None? {
        return None;
      }
      var alias := NextAlias();
      var sourceColumn := schema.column(currentModel, segment.sourceKey);
      var targetColumn := schema.column(segment.targetModel, segment.targetKey);
      if sourceColumn.None? || targetColumn.None? {
        return None;
      }
      var condition := Condition(currentAlias, sourceColumn.value, alias, targetColumn.value);
      var node := JoinNode(alias, targetTable.value, condition, segment.targetModel);
      joinNodes := joinNodes[pathKey := node];
      joinOrder := joinOrder + [pathKey];
      return Some(node);
    }

    method EnsureJoinChain(joins: seq<Segment>) returns (r: Option<Place>)
      modifies this`joinNodes, this`joinOrder, this`aliasCounter
      ensures (State(), r) == EnsureChain(schema, Base(schema), "", joins, old(State()))
    {
      var currentAlias, currentModel, pathKey := schema.baseAlias, schema.baseModel, "";
      for i := 0 to |joins|
        invariant EnsureChain(schema, Place(currentAlias, currentModel), pathKey, joins[i..], State())
               == EnsureChain(schema, Base(schema), "", joins, old(State()))
      {
        assert joins[i..][0] == joins[i] && joins[i..][1..] == joins[i + 1..];
        var node := JoinFor(currentAlias, currentModel, pathKey, joins[i]);
        if node.None? {
          return None;
        }
        pathKey := Extend(pathKey, joins[i].relationName);
        currentAlias, currentModel := node.value.alias, node.value.targetModel;
      }
      return Some(Place(currentAlias, currentModel));
    }

    method Resolve(field: string) returns (r: Option<Column>)
      requires Valid()
      modifies this
      ensures Valid()
      ensures (State(), r) == ResolveField(schema, field, old(State()))
    {
      if field == "" {
        return None;
      }
      if '/' !in field {
        return ColumnAt(schema, Base(schema), [field]);
      }
      if field !in navigationMap {
        var resolved := ResolvePath(schema, field);
        if resolved.None? {
          return None;
        }
        navigationMap := navigationMap[field := resolved.value];
      }
      var path := navigationMap[field];
      var place := Base(schema);
      if |path.joins| > 0 {
        var chain := EnsureJoinChain(path.joins);
        if chain.None? {
          return None;
        }
        place := chain.value;
      }
      return ColumnAt(schema, place, path.property);
    }

    /** The clauses, in the order their joins were made. */
    method GetJoinClauses() returns (clauses: seq<Clause>)
      requires forall i :: 0 <= i < |joinOrder| ==> joinOrder[i] in joinNodes
      ensures clauses == JoinClauses(State())
    {
      clauses := [];
      for i := 0 to |joinOrder|
        invariant clauses == JoinClauses(State())[..i]
      {
        var node := joinNodes[joinOrder[i]];
        clauses := clauses + [LeftJoin(node.tableRef, node.alias, node.condition)];
      }
    }
  }

  // ------------------------------------------------------------------ keys

  function ParentKey(key: string): string {
    if LastSlash(key) == -1 then "" else key[..LastSlash(key)]
  }

  function LastName(key: string): string {
    key[LastSlash(key) + 1..]
  }

  lemma ExtendSplits(key: string, name: string)
    requires IsName(name)
    ensures Extend(key, name) != ""
    ensures ParentKey(Extend(key, name)) == key && LastName(Extend(key, name)) == name
  {
    var whole := Extend(key, name);
    assert forall j :: 0 <= j < |name| ==> name[j] != '/';
    LastSlashIs(whole, if key == "" then -1 else |key|);
  }

  // ------------------------------------------------------------------ the invariant

  function PlaceOf(s: Schema, st: Joins, key: string): Place {
    if key in st.nodes then Place(st.nodes[key].alias, st.nodes[key].targetModel) else Base(s)
  }

  predicate Known(st: Joins, key: string) {
    key == "" || key in st.nodes
  }

  /** A node joins its own alias to its parent's, on the columns of the relation its key ends in. */
  predicate Fits(s: Schema, st: Joins, key: string) {
    key in st.nodes &&
    var node, parent := st.nodes[key], PlaceOf(s, st, ParentKey(key));
    var relation := s.relation(parent.model, LastName(key));
    && key != "" && Known(st, ParentKey(key))
    && relation.Follows?
    && node.targetModel == relation.segment.targetModel
    && s.table(node.targetModel) == Some(node.tableRef)
    && node.condition.sourceAlias == parent.alias && node.condition.alias == node.alias
    && s.column(parent.model, relation.segment.sourceKey) == Some(node.condition.sourceColumn)
    && s.column(node.targetModel, relation.segment.targetKey) == Some(node.condition.targetColumn)
  }

  /** The key's parent is the base or stands before position `i`. */
  predicate ParentBefore(st: Joins, i: nat)
    requires i < |st.order|
  {
    ParentKey(st.order[i]) == "" || ParentKey(st.order[i]) in st.order[..i]
  }

  predicate OrderListsNodes(st: Joins) {
    && (forall key <- st.nodes :: key in st.order)
    && (forall i :: 0 <= i < |st.order| ==> st.order[i] in st.nodes)
    && (forall i, j :: 0 <= i < j < |st.order| ==> st.order[i] != st.order[j])
    && (forall i :: 0 <= i < |st.order| ==> ParentBefore(st, i))
  }

  /** `numbers` are the counter values the aliases were drawn at. */
  predicate AliasesDrawn(st: Joins, numbers: seq<nat>) {
    && |numbers| == |st.order|
    && (forall i :: 0 <= i < |st.order| ==> st.order[i] in st.nodes && st.nodes[st.order[i]].alias == Alias(numbers[i]))
    && (forall i :: 0 <= i < |numbers| ==> 1 <= numbers[i] <= st.counter)
    && (forall i, j :: 0 <= i < j < |numbers| ==> numbers[i] < numbers[j])
  }

  predicate NodesFit(s: Schema, st: Joins) {
    forall key <- st.nodes :: Fits(s, st, key)
  }

  predicate Invariant(s: Schema, st: Joins, numbers: seq<nat>) {
    OrderListsNodes(st) && AliasesDrawn(st, numbers) && NodesFit(s, st)
  }

  /** Later states keep the joins made so far and append to their order. */
  predicate Grows(st: Joins, st': Joins) {
    && |st.order| <= |st'.order| && st'.order[..|st.order|] == st.order
    && st.counter <= st'.counter
    && forall key :: key in st.nodes ==> key in st'.nodes && st'.nodes[key] == st.nodes[key]
  }

  lemma GrowsOnwards(a: Joins, b: Joins, c: Joins)
    requires Grows(a, b) && Grows(b, c)
    ensures Grows(a, c)
  {
    assert c.order[..|a.order|] == c.order[..|b.order|][..|a.order|];
  }

  lemma StillFits(s: Schema, st: Joins, st': Joins, key: string)
    requires key in st.nodes && Fits(s, st, key) && Grows(st, st') && "" !in st'.nodes
    ensures Fits(s, st', key)
  {
  }

  function Added(st: Joins, path: string, node: JoinNode): Joins {
    Joins(st.nodes[path := node], st.order + [path], st.counter + 1)
  }

  lemma AddedFits(s: Schema, st: Joins, path: string, node: JoinNode)
    requires NodesFit(s, st) && path !in st.nodes && path != "" && "" !in st.nodes
    requires Fits(s, Added(st, path, node), path)
    ensures NodesFit(s, Added(st, path, node)) && Grows(st, Added(st, path, node))
  {
    var st' := Added(st, path, node);
    hide Fits;
    assert Grows(st, st');
    forall key <- st'.nodes
      ensures Fits(s, st', key)
    {
      if key != path {
        assert key in st.nodes;
        StillFits(s, st, st', key);
      }
    }
  }

  lemma AddedKeepsOrder(st: Joins, path: string, node: JoinNode)
    requires OrderListsNodes(st) && path !in st.nodes && Known(st, ParentKey(path))
    ensures OrderListsNodes(Added(st, path, node))
  {
    hide ParentKey;
    var st' := Added(st, path, node);
    forall i | 0 <= i < |st'.order|
      ensures ParentBefore(st', i)
    {
      if i < |st.order| {
        assert ParentBefore(st, i);
        assert st'.order[..i] == st.order[..i] && st'.order[i] == st.order[i];
      } else {
        assert st'.order[..i] == st.order && st'.order[i] == path;
      }
    }
    hide ParentBefore;
  }

  lemma AddedKeepsAliases(st: Joins, numbers: seq<nat>, path: string, node: JoinNode)
    requires AliasesDrawn(st, numbers) && path !in st.nodes && node.alias == Alias(st.counter + 1)
    ensures AliasesDrawn(Added(st, path, node), numbers + [st.counter + 1])
  {
    hide Alias;
  }

  lemma NewJoinFits(s: Schema, from: Place, key: string, segment: Segment, st: Joins)
    requires Known(st, key) && from == PlaceOf(s, st, key) && IsName(segment.relationName) && "" !in st.nodes
    requires s.relation(from.model, segment.relationName) == Follows(segment)
    requires var path := Extend(key, segment.relationName);
             path !in st.nodes && EnsureJoin(s, from, key, segment, st).1.Some?
    ensures var r, path := EnsureJoin(s, from, key, segment, st), Extend(key, segment.relationName);
            && r.0 == Added(st, path, r.1.value) && Fits(s, r.0, path)
            && r.1.value.alias == Alias(st.counter + 1) && r.1.value.targetModel == segment.targetModel
  {
    hide Extend, ParentKey, LastName, Alias;
    var path := Extend(key, segment.relationName);
    ExtendSplits(key, segment.relationName);
    var node := EnsureJoin(s, from, key, segment, st).1.value;
    assert path != key;
    assert PlaceOf(s, Added(st, path, node), key) == from;
  }

  lemma OldJoinFits(s: Schema, from: Place, key: string, segment: Segment, st: Joins)
    requires NodesFit(s, st) && from == PlaceOf(s, st, key) && IsName(segment.relationName)
    requires s.relation(from.model, segment.relationName) == Follows(segment)
    requires Extend(key, segment.relationName) in st.nodes
    ensures st.nodes[Extend(key, segment.relationName)].targetModel == segment.targetModel
  {
    hide Extend, ParentKey, LastName;
    ExtendSplits(key, segment.relationName);
    assert Fits(s, st, Extend(key, segment.relationName));
  }

  lemma RefusedJoin(s: Schema, from: Place, key: string, segment: Segment, st: Joins)
    requires EnsureJoin(s, from, key, segment, st).1.None?
    ensures var st' := EnsureJoin(s, from, key, segment, st).0;
            st.counter <= st'.counter && st' == st.(counter := st'.counter)
  {
  }

  lemma FoundJoin(s: Schema, from: Place, key: string, segment: Segment, st: Joins)
    requires Extend(key, segment.relationName) in st.nodes
    ensures EnsureJoin(s, from, key, segment, st) == (st, Some(st.nodes[Extend(key, segment.relationName)]))
  {
  }

  /** One join keeps the invariant, only adds, and stands for the relation it was asked for. */
  lemma JoinKeeps(s: Schema, from: Place, key: string, segment: Segment, st: Joins, numbers: seq<nat>)
    returns (numbers': seq<nat>)
    requires Invariant(s, st, numbers) && Known(st, key) && from == PlaceOf(s, st, key)
    requires IsName(segment.relationName) && s.relation(from.model, segment.relationName) == Follows(segment)
    ensures var r := EnsureJoin(s, from, key, segment, st);
            && Invariant(s, r.0, numbers') && Grows(st, r.0)
            && (r.1.Some? ==>
                  var path := Extend(key, segment.relationName);
                  path in r.0.nodes && r.0.nodes[path] == r.1.value && r.1.value.targetModel == segment.targetModel)
  {
    hide EnsureJoin, OrderListsNodes, AliasesDrawn, NodesFit, Fits, ParentKey, Extend, Alias, PlaceOf;
    var path := Extend(key, segment.relationName);
    ExtendSplits(key, segment.relationName);
    NoEmptyKey(s, st, numbers);
    var r := EnsureJoin(s, from, key, segment, st);
    if path in st.nodes {
      FoundJoin(s, from, key, segment, st);
      OldJoinFits(s, from, key, segment, st);
      numbers' := numbers;
    } else if r.1.None? {
      RefusedJoin(s, from, key, segment, st);
      DrawnIsGood(s, st, numbers, r.0);
      numbers' := numbers;
    } else {
      numbers' := numbers + [st.counter + 1];
      NewJoinFits(s, from, key, segment, st);
      AddedFits(s, st, path, r.1.value);
      AddedKeepsOrder(st, path, r.1.value);
      AddedKeepsAliases(st, numbers, path, r.1.value);
    }
  }

  lemma DrawnIsGood(s: Schema, st: Joins, numbers: seq<nat>, st': Joins)
    requires Invariant(s, st, numbers) && st.counter <= st'.counter && st' == st.(counter := st'.counter)
    ensures Invariant(s, st', numbers) && Grows(st, st')
  {
    hide Alias, ParentKey, LastName;
    forall key <- st'.nodes ensures Fits(s, st', key) {
      assert Fits(s, st, key);
    }
    hide Fits;
    forall i | 0 <= i < |st'.order| ensures ParentBefore(st', i) {
      assert ParentBefore(st, i);
    }
  }

  function KeyOf(key: string, joins: seq<Segment>): string
    decreases |joins|
  {
    if joins == [] then key else KeyOf(Extend(key, joins[0].relationName), joins[1..])
  }

  /** Every join of the chain is there. */
  predicate Present(st: Joins, key: string, joins: seq<Segment>)
    decreases |joins|
  {
    joins == [] ||
    (var path := Extend(key, joins[0].relationName);
     path in st.nodes && st.nodes[path].targetModel == joins[0].targetModel && Present(st, path, joins[1..]))
  }

  lemma {:induction false} StaysPresent(st: Joins, st': Joins, key: string, joins: seq<Segment>)
    requires Present(st, key, joins) && Grows(st, st')
    ensures Present(st', key, joins)
    decreases |joins|
  {
    if joins != [] {
      StaysPresent(st, st', Extend(key, joins[0].relationName), joins[1..]);
    }
  }

  lemma {:induction false} ChainKeeps(s: Schema, from: Place, key: string, joins: seq<Segment>, st: Joins, numbers: seq<nat>)
    returns (numbers': seq<nat>)
    requires Invariant(s, st, numbers) && Known(st, key) && from == PlaceOf(s, st, key)
    requires Walk(s, from.model, joins)
    ensures var r := EnsureChain(s, from, key, joins, st);
            && Invariant(s, r.0, numbers') && Grows(st, r.0)
            && (r.1.Some? ==> Present(r.0, key, joins) && r.1.value == PlaceOf(s, r.0, KeyOf(key, joins)))
    decreases |joins|
  {
    hide Invariant, EnsureJoin, Extend;
    numbers' := numbers;
    if joins != [] {
      numbers' := JoinKeeps(s, from, key, joins[0], st, numbers);
      var step := EnsureJoin(s, from, key, joins[0], st);
      if step.1.Some? {
        var path := Extend(key, joins[0].relationName);
        var place := Place(step.1.value.alias, step.1.value.targetModel);
        var before := numbers';
        numbers' := ChainKeeps(s, place, path, joins[1..], step.0, before);
        GrowsOnwards(st, step.0, EnsureChain(s, place, path, joins[1..], step.0).0);
      }
    }
  }

  lemma FieldKeeps(s: Schema, field: string, st: Joins, numbers: seq<nat>) returns (numbers': seq<nat>)
    requires Named(s) && Invariant(s, st, numbers)
    ensures Invariant(s, ResolveField(s, field, st).0, numbers') && Grows(st, ResolveField(s, field, st).0)
  {
    hide Invariant, EnsureChain, Follow, SplitNames, Named;
    numbers' := numbers;
    if field != "" && '/' in field && ResolvePath(s, field).Some? {
      SplitGivesNames(field, "");
      FollowWalks(s, s.baseModel, SplitNames(field, ""), 0);
      NoEmptyKey(s, st, numbers);
      numbers' := ChainKeeps(s, Base(s), "", ResolvePath(s, field).value.joins, st, numbers);
    }
  }

  lemma NoEmptyKey(s: Schema, st: Joins, numbers: seq<nat>)
    requires Invariant(s, st, numbers)
    ensures "" !in st.nodes && PlaceOf(s, st, "") == Base(s)
  {
    hide OrderListsNodes, AliasesDrawn;
  }

  lemma {:induction false} AllKeep(s: Schema, fields: seq<string>, st: Joins, numbers: seq<nat>) returns (numbers': seq<nat>)
    requires Named(s) && Invariant(s, st, numbers)
    ensures Invariant(s, ResolveAll(s, fields, st), numbers') && Grows(st, ResolveAll(s, fields, st))
    decreases |fields|
  {
    hide Invariant, ResolveField, Named;
    numbers' := numbers;
    if fields != [] {
      var next := ResolveField(s, fields[0], st).0;
      var between := FieldKeeps(s, fields[0], st, numbers);
      numbers' := AllKeep(s, fields[1..], next, between);
      GrowsOnwards(st, next, ResolveAll(s, fields[1..], next));
    }
  }

  // ------------------------------------------------------------------ aliases

  lemma AliasesDiffer(m: nat, n: nat)
    requires m != n
    ensures Alias(m) != Alias(n)
  {
    NumberOfDecimal(m);
    NumberOfDecimal(n);
    assert Alias(m)[1..] == Decimal(m) && Alias(n)[1..] == Decimal(n);
  }

  lemma NotAnAlias(alias: string, n: nat)
    requires alias == "" || alias[0] != 'j'
    ensures Alias(n) != alias
  {
    assert Alias(n)[0] == 'j';
  }

  predicate AllKnown(st: Joins) {
    forall i :: 0 <= i < |st.order| ==> st.order[i] in st.nodes
  }

  /** What the clause list promises to the database. */
  predicate WellScoped(base: string, st: Joins)
    requires AllKnown(st)
  {
    var clauses := JoinClauses(st);
    && (forall i :: 0 <= i < |clauses| ==> clauses[i].alias != base)
    && (forall i, j :: 0 <= i < j < |clauses| ==> clauses[i].alias != clauses[j].alias)
    && (forall i :: 0 <= i < |clauses| ==> JoinsToParent(base, st, i))
  }

  /** The condition of a path's clause mentions its own alias and exactly its parent's: the base
      for a path of one relation, else the alias of the earlier clause that joins the path without
      its last relation. */
  predicate JoinsToParent(base: string, st: Joins, i: nat)
    requires AllKnown(st) && i < |st.order|
  {
    var clauses, parent := JoinClauses(st), ParentKey(st.order[i]);
    && clauses[i].condition.alias == clauses[i].alias
    && (if parent == "" then clauses[i].condition.sourceAlias == base
        else exists j :: 0 <= j < i && st.order[j] == parent && clauses[i].condition.sourceAlias == clauses[j].alias)
  }

  predicate PrefixClosedOnce(order: seq<string>) {
    && (forall i, j :: 0 <= i < j < |order| ==> order[i] != order[j])
    && (forall i :: 0 <= i < |order| ==> ParentKey(order[i]) == "" || ParentKey(order[i]) in order[..i])
  }

  lemma ClauseScoped(s: Schema, st: Joins, numbers: seq<nat>, i: nat)
    requires Invariant(s, st, numbers) && i < |st.order|
    ensures AllKnown(st) && JoinsToParent(s.baseAlias, st, i)
  {
    hide Alias, LastName, ParentKey, AliasesDrawn;
    assert ParentBefore(st, i) && Fits(s, st, st.order[i]);
    NoEmptyKey(s, st, numbers);
    var parent := ParentKey(st.order[i]);
    if parent != "" {
      var j :| 0 <= j < i && st.order[..i][j] == parent;
      assert st.order[j] == parent && JoinClauses(st)[j].alias == PlaceOf(s, st, parent).alias;
    }
  }

  lemma InvariantIsScoped(s: Schema, st: Joins, numbers: seq<nat>)
    requires Invariant(s, st, numbers) && (s.baseAlias == "" || s.baseAlias[0] != 'j')
    ensures AllKnown(st) && WellScoped(s.baseAlias, st)
  {
    hide JoinsToParent, Fits, ParentBefore, Alias;
    var clauses := JoinClauses(st);
    forall i | 0 <= i < |clauses|
      ensures clauses[i].alias != s.baseAlias && JoinsToParent(s.baseAlias, st, i)
    {
      NotAnAlias(s.baseAlias, numbers[i]);
      ClauseScoped(s, st, numbers, i);
    }
    forall i, j | 0 <= i < j < |clauses|
      ensures clauses[i].alias != clauses[j].alias
    {
      AliasesDiffer(numbers[i], numbers[j]);
    }
  }

  /** After any sequence of resolutions, successful or not: every joined path stands once, after
      its parent; aliases are pairwise distinct and differ from the base; every condition
      mentions only its own alias and its parent's. */
  lemma JoinsAreWellScoped(s: Schema, fields: seq<string>)
    requires Named(s) && (s.baseAlias == "" || s.baseAlias[0] != 'j')
    ensures var st := ResolveAll(s, fields, NO_JOINS);
            AllKnown(st) && PrefixClosedOnce(st.order) && WellScoped(s.baseAlias, st)
  {
    hide ResolveAll, WellScoped, Fits, Named;
    var numbers := AllKeep(s, fields, NO_JOINS, []);
    var st := ResolveAll(s, fields, NO_JOINS);
    InvariantIsScoped(s, st, numbers);
    forall i | 0 <= i < |st.order|
      ensures ParentKey(st.order[i]) == "" || ParentKey(st.order[i]) in st.order[..i]
    {
      assert ParentBefore(st, i);
    }
  }

  // ------------------------------------------------------------------ what the joins mean

  /** Rows of any kind: `linked` says which rows of a table a left join pairs with a row (the null
      row when there is none), given the two columns. */
  type Link<!R> = (R, string, string, string, R) -> bool

  ghost predicate Satisfies<R(!new)>(linked: Link<R>, env: string -> R, c: Clause) {
    linked(env(c.condition.sourceAlias), c.condition.sourceColumn, c.tableRef, c.condition.targetColumn, env(c.alias))
  }

  /** `target` is reached from `row` by following the relations, as the schema maps them. */
  ghost predicate Reaches<R(!new)>(linked: Link<R>, s: Schema, model: Model, row: R, joins: seq<Segment>, target: R)
    decreases |joins|
  {
    if joins == [] then target == row
    else exists mid :: NextRow(linked, s, model, row, joins[0], mid)
                       && Reaches(linked, s, joins[0].targetModel, mid, joins[1..], target)
  }

  ghost predicate NextRow<R(!new)>(linked: Link<R>, s: Schema, model: Model, row: R, segment: Segment, next: R) {
    var table := s.table(segment.targetModel);
    var sourceColumn, targetColumn := s.column(model, segment.sourceKey), s.column(segment.targetModel, segment.targetKey);
    table.Some? && sourceColumn.Some? && targetColumn.Some?
    && linked(row, sourceColumn.value, table.value, targetColumn.value, next)
  }

  lemma ClauseOf(s: Schema, st: Joins, numbers: seq<nat>, key: string) returns (i: nat)
    requires Invariant(s, st, numbers) && key in st.nodes
    ensures AllKnown(st) && i < |st.order|
    ensures JoinClauses(st)[i] == LeftJoin(st.nodes[key].tableRef, st.nodes[key].alias, st.nodes[key].condition)
  {
    hide Fits, ParentBefore, Alias;
    i :| 0 <= i < |st.order| && st.order[i] == key;
  }

  lemma NodeLinks<R(!new)>(linked: Link<R>, env: string -> R, s: Schema, st: Joins, numbers: seq<nat>, key: string, segment: Segment)
    requires Invariant(s, st, numbers) && Known(st, key) && IsName(segment.relationName)
    requires Extend(key, segment.relationName) in st.nodes
    requires s.relation(PlaceOf(s, st, key).model, segment.relationName) == Follows(segment)
    requires AllKnown(st) && forall i :: 0 <= i < |st.order| ==> Satisfies(linked, env, JoinClauses(st)[i])
    ensures var from, to := PlaceOf(s, st, key), PlaceOf(s, st, Extend(key, segment.relationName));
            NextRow(linked, s, from.model, env(from.alias), segment, env(to.alias))
  {
    hide Extend, ParentKey, LastName;
    var path := Extend(key, segment.relationName);
    ExtendSplits(key, segment.relationName);
    var i := ClauseOf(s, st, numbers, path);
    hide OrderListsNodes, AliasesDrawn, JoinClauses;
    assert Satisfies(linked, env, JoinClauses(st)[i]);
    assert Fits(s, st, path);
  }

  lemma {:induction false} ChainReaches<R(!new)>(linked: Link<R>, env: string -> R, s: Schema, st: Joins, numbers: seq<nat>,
                                                 key: string, joins: seq<Segment>)
    requires Invariant(s, st, numbers) && Known(st, key)
    requires Walk(s, PlaceOf(s, st, key).model, joins) && Present(st, key, joins)
    requires AllKnown(st) && forall i :: 0 <= i < |st.order| ==> Satisfies(linked, env, JoinClauses(st)[i])
    ensures Reaches(linked, s, PlaceOf(s, st, key).model, env(PlaceOf(s, st, key).alias), joins,
                    env(PlaceOf(s, st, KeyOf(key, joins)).alias))
    decreases |joins|
  {
    hide Invariant, Satisfies, NextRow, Extend;
    if joins != [] {
      var path := Extend(key, joins[0].relationName);
      NodeLinks(linked, env, s, st, numbers, key, joins[0]);
      ChainReaches(linked, env, s, st, numbers, path, joins[1..]);
    }
  }

  /** A resolved field reads the row its navigation path leads to: whatever was resolved before
      and after it, in every row combination that satisfies the join clauses, the row behind the
      field's alias is reached from the base row by the field's relations. */
  lemma FieldReadsItsNavigation<R(!new)>(linked: Link<R>, env: string -> R, s: Schema,
                                         before: seq<string>, field: string, after: seq<string>)
    requires Named(s) && '/' in field
    requires ResolveField(s, field, ResolveAll(s, before, NO_JOINS)).1.Some?
    requires var st := ResolveAll(s, after, ResolveField(s, field, ResolveAll(s, before, NO_JOINS)).0);
             AllKnown(st) && forall i :: 0 <= i < |st.order| ==> Satisfies(linked, env, JoinClauses(st)[i])
    ensures var column := ResolveField(s, field, ResolveAll(s, before, NO_JOINS)).1.value;
            var path := ResolvePath(s, field);
            path.Some? && Reaches(linked, s, s.baseModel, env(s.baseAlias), path.value.joins, env(column.alias))
  {
    hide ResolveAll, Invariant, EnsureChain, Satisfies, SplitNames, Follow, Reaches;
    var st0 := ResolveAll(s, before, NO_JOINS);
    var st1 := ResolveField(s, field, st0).0;
    var st := ResolveAll(s, after, st1);
    var joins := ResolvePath(s, field).value.joins;
    var n0 := StartIsGood(s, before);
    SplitGivesNames(field, "");
    FollowWalks(s, s.baseModel, SplitNames(field, ""), 0);
    NoEmptyKey(s, st0, n0);
    var n1 := ChainKeeps(s, Base(s), "", joins, st0, n0);
    var n2 := AllKeep(s, after, st1, n1);
    hide Named, Walk;
    StaysPresent(st1, st, "", joins);
    NoEmptyKey(s, st, n2);
    ChainReaches(linked, env, s, st, n2, "", joins);
    SamePlace(s, st1, n1, st, "", joins);
  }

  lemma StartIsGood(s: Schema, fields: seq<string>) returns (numbers: seq<nat>)
    requires Named(s)
    ensures Invariant(s, ResolveAll(s, fields, NO_JOINS), numbers)
  {
    hide ResolveAll, Named;
    numbers := AllKeep(s, fields, NO_JOINS, []);
  }

  lemma {:induction false} SamePlace(s: Schema, st: Joins, numbers: seq<nat>, st': Joins, key: string, joins: seq<Segment>)
    requires Grows(st, st') && Present(st, key, joins) && PlaceOf(s, st, key) == PlaceOf(s, st', key)
    ensures PlaceOf(s, st, KeyOf(key, joins)) == PlaceOf(s, st', KeyOf(key, joins))
    decreases |joins|
  {
    if joins != [] {
      SamePlace(s, st, numbers, st', Extend(key, joins[0].relationName), joins[1..]);
    }
  }
}
