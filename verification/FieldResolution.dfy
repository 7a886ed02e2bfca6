/** Which fields resolve, to which columns, and which joins are made for them: told by the schema
    alone, whatever was resolved before. */
module FieldResolution {
  import opened ByteStrings
  import opened JoinManager

  // ------------------------------------------------------------------ what the schema says

  /** Both models have tables and both keys have columns. */
  predicate Joinable(s: Schema, model: Model, segment: Segment) {
    && s.table(model).Some? && s.table(segment.targetModel).Some?
    && s.column(model, segment.sourceKey).Some? && s.column(segment.targetModel, segment.targetKey).Some?
  }

  /** From `model`, `depth` relations away from the base: the names lead along joinable relations to a
      model where the remaining names are the property with this column. */
  predicate Reads(s: Schema, model: Model, names: seq<string>, depth: nat, column: string)
    decreases |names|
  {
    names != [] && depth < s.maxDepth &&
    match s.relation(model, names[0])
    case NoRelation => s.table(model).Some? && s.column(model, Join(names, "/")) == Some(column)
    case Refused => false
    case Follows(segment) => Joinable(s, model, segment) && Reads(s, segment.targetModel, names[1..], depth + 1, column)
  }

  // ------------------------------------------------------------------ names

  lemma {:induction false} SplitOneName(name: string, current: string, rest: string)
    requires '/' !in name
    ensures SplitNames(name + rest, current) == SplitNames(rest, current + name)
    decreases |name|
  {
    if name == "" {
      assert name + rest == rest && current + name == current;
    } else {
      assert (name + rest)[1..] == name[1..] + rest;
      SplitOneName(name[1..], current + [name[0]], rest);
      assert current + [name[0]] + name[1..] == current + name;
      assert name[0] in name;
    }
  }

  /** Splitting undoes joining. */
  lemma {:induction false} SplitJoinedNames(names: seq<string>)
    requires AreNames(names) && names != []
    ensures SplitNames(Join(names, "/"), "") == names
    decreases |names|
  {
    var name := names[0];
    assert IsName(name);
    if |names| == 1 {
      SplitOneName(name, "", "");
      assert name + "" == name && "" + name == name;
    } else {
      var rest := Join(names[1..], "/");
      assert Join(names, "/") == name + ("/" + rest);
      SplitOneName(name, "", "/" + rest);
      assert "" + name == name && ("/" + rest)[1..] == rest;
      assert AreNames(names[1..]) by {
        forall i | 0 <= i < |names[1..]| ensures IsName(names[1..][i]) {
          assert names[1..][i] == names[i + 1];
        }
      }
      SplitJoinedNames(names[1..]);
      assert names == [name] + names[1..];
    }
  }

  // ------------------------------------------------------------------ joins

  /** Joins are only made where the base has a table. */
  predicate BaseHasTable(s: Schema, st: Joins) {
    |st.order| > 0 ==> s.table(s.baseModel).Some?
  }

  ghost predicate Sound(s: Schema, st: Joins, numbers: seq<nat>) {
    Invariant(s, st, numbers) && BaseHasTable(s, st)
  }

  lemma PlaceHasTable(s: Schema, st: Joins, numbers: seq<nat>, key: string)
    requires Sound(s, st, numbers) && Known(st, key) && st.order != []
    ensures s.table(PlaceOf(s, st, key).model).Some?
  {
    hide Alias, ParentKey, LastName, OrderListsNodes, AliasesDrawn;
    if key in st.nodes {
      assert Fits(s, st, key);
    }
  }

  /** A join is made or found exactly when the relation is joinable. */
  lemma JoinExactly(s: Schema, from: Place, key: string, segment: Segment, st: Joins, numbers: seq<nat>) returns (numbers': seq<nat>)
    requires Sound(s, st, numbers) && Known(st, key) && from == PlaceOf(s, st, key)
    requires IsName(segment.relationName) && s.relation(from.model, segment.relationName) == Follows(segment)
    ensures var r := EnsureJoin(s, from, key, segment, st);
            && Sound(s, r.0, numbers') && Grows(st, r.0)
            && (r.1.Some? <==> Joinable(s, from.model, segment))
            && (r.1.Some? ==>
                  var path := Extend(key, segment.relationName);
                  path in r.0.nodes && r.0.nodes[path] == r.1.value && r.1.value.targetModel == segment.targetModel)
  {
    hide Invariant, Extend, ParentKey, LastName, Alias;
    var path := Extend(key, segment.relationName);
    numbers' := JoinKeeps(s, from, key, segment, st, numbers);
    if path in st.nodes {
      FoundFits(s, from, key, segment, st, numbers);
      Ordered(s, st, numbers, path);
      PlaceHasTable(s, st, numbers, key);
    } else if key != "" {
      Ordered(s, st, numbers, key);
      PlaceHasTable(s, st, numbers, key);
    } else {
      NoEmptyKey(s, st, numbers);
    }
  }

  lemma Ordered(s: Schema, st: Joins, numbers: seq<nat>, key: string)
    requires Invariant(s, st, numbers) && key in st.nodes
    ensures st.order != []
  {
    hide AliasesDrawn, NodesFit;
    assert key in st.order;
  }

  lemma FoundFits(s: Schema, from: Place, key: string, segment: Segment, st: Joins, numbers: seq<nat>)
    requires Invariant(s, st, numbers) && from == PlaceOf(s, st, key) && IsName(segment.relationName)
    requires s.relation(from.model, segment.relationName) == Follows(segment)
    requires Extend(key, segment.relationName) in st.nodes
    ensures s.table(segment.targetModel).Some?
    ensures s.column(from.model, segment.sourceKey).Some? && s.column(segment.targetModel, segment.targetKey).Some?
  {
    hide Extend, ParentKey, LastName, OrderListsNodes, AliasesDrawn;
    ExtendSplits(key, segment.relationName);
    assert Fits(s, st, Extend(key, segment.relationName));
  }

  predicate AllJoinable(s: Schema, model: Model, joins: seq<Segment>)
    decreases |joins|
  {
    joins == [] || (Joinable(s, model, joins[0]) && AllJoinable(s, joins[0].targetModel, joins[1..]))
  }

  lemma {:induction false} ChainExactly(s: Schema, from: Place, key: string, joins: seq<Segment>, st: Joins, numbers: seq<nat>)
    returns (numbers': seq<nat>)
    requires Sound(s, st, numbers) && Known(st, key) && from == PlaceOf(s, st, key) && Walk(s, from.model, joins)
    ensures var r := EnsureChain(s, from, key, joins, st);
            && Sound(s, r.0, numbers')
            && (r.1.Some? <==> AllJoinable(s, from.model, joins))
            && (r.1.Some? ==> r.1.value.model == TargetOf(from.model, joins))
    decreases |joins|
  {
    hide Sound, EnsureJoin, Extend, Joinable;
    numbers' := numbers;
    if joins != [] {
      numbers' := JoinExactly(s, from, key, joins[0], st, numbers);
      var step := EnsureJoin(s, from, key, joins[0], st);
      if step.1.Some? {
        var before := numbers';
        numbers' := ChainExactly(s, Place(step.1.value.alias, step.1.value.targetModel), Extend(key, joins[0].relationName), joins[1..],
                                 step.0, before);
      }
    }
  }

  function TargetOf(model: Model, joins: seq<Segment>): Model {
    if joins == [] then model else joins[|joins| - 1].targetModel
  }

  lemma TargetRest(model: Model, joins: seq<Segment>)
    requires joins != []
    ensures TargetOf(joins[0].targetModel, joins[1..]) == TargetOf(model, joins)
  {
  }

  // ------------------------------------------------------------------ fields

  /** What following names and reading a column comes to. */
  lemma {:induction false} ReadsByPath(s: Schema, model: Model, names: seq<string>, depth: nat, column: string)
    ensures Reads(s, model, names, depth, column) <==>
            var path := Follow(s, model, names, depth);
            && path.Some? && path.value.property != [] && AllJoinable(s, model, path.value.joins)
            && s.table(TargetOf(model, path.value.joins)).Some?
            && s.column(TargetOf(model, path.value.joins), Join(path.value.property, "/")) == Some(column)
    decreases |names|
  {
    hide Joinable, Join;
    if names != [] && depth < s.maxDepth && s.relation(model, names[0]).Follows? {
      var segment := s.relation(model, names[0]).segment;
      ReadsByPath(s, segment.targetModel, names[1..], depth + 1, column);
      var rest := Follow(s, segment.targetModel, names[1..], depth + 1);
      if rest.Some? {
        var joins := [segment] + rest.value.joins;
        assert joins[1..] == rest.value.joins;
        TargetRest(model, joins);
      }
    }
  }

  lemma FieldSound(s: Schema, field: string, st: Joins, numbers: seq<nat>) returns (numbers': seq<nat>)
    requires Named(s) && Sound(s, st, numbers)
    ensures var names := SplitNames(field, "");
            var (next, r) := ResolveField(s, field, st);
            && Sound(s, next, numbers')
            && ('/' in field ==> (r.Some? ==> Reads(s, s.baseModel, names, 0, r.value.name))
                                 && forall column :: Reads(s, s.baseModel, names, 0, column) ==> r.Some? && r.value.name == column)
  {
    hide Invariant, BaseHasTable, EnsureChain, Follow, SplitNames, Named, Reads, Join, AllJoinable, TargetOf;
    numbers' := numbers;
    var names := SplitNames(field, "");
    forall column
      ensures Reads(s, s.baseModel, names, 0, column) <==>
              var path := Follow(s, s.baseModel, names, 0);
              && path.Some? && path.value.property != [] && AllJoinable(s, s.baseModel, path.value.joins)
              && s.table(TargetOf(s.baseModel, path.value.joins)).Some?
              && s.column(TargetOf(s.baseModel, path.value.joins), Join(path.value.property, "/")) == Some(column)
    {
      ReadsByPath(s, s.baseModel, names, 0, column);
    }
    NoNames(s);
    if field != "" && '/' in field && ResolvePath(s, field).Some? {
      SplitGivesNames(field, "");
      FollowWalks(s, s.baseModel, names, 0);
      NoEmptyKey(s, st, numbers);
      numbers' := ChainExactly(s, Base(s), "", ResolvePath(s, field).value.joins, st, numbers);
    }
  }

  lemma NoNames(s: Schema)
    ensures forall column :: !Reads(s, s.baseModel, [], 0, column)
  {
  }

  lemma {:induction false} AllSound(s: Schema, fields: seq<string>, st: Joins, numbers: seq<nat>) returns (numbers': seq<nat>)
    requires Named(s) && Sound(s, st, numbers)
    ensures Sound(s, ResolveAll(s, fields, st), numbers')
    decreases |fields|
  {
    hide Sound, ResolveField, Named;
    numbers' := numbers;
    if fields != [] {
      var between := FieldSound(s, fields[0], st, numbers);
      numbers' := AllSound(s, fields[1..], ResolveField(s, fields[0], st).0, between);
    }
  }

  /** A field of several names resolves exactly when the schema reads it, and to that column, whatever was
      resolved or refused before. */
  lemma FieldResolvedExactly(s: Schema, before: seq<string>, names: seq<string>)
    requires Named(s) && AreNames(names) && |names| > 1
    ensures var r := ResolveField(s, Join(names, "/"), ResolveAll(s, before, NO_JOINS)).1;
            && (r.Some? ==> Reads(s, s.baseModel, names, 0, r.value.name))
            && forall column :: Reads(s, s.baseModel, names, 0, column) ==> r.Some? && r.value.name == column
  {
    hide ResolveAll, ResolveField, Named, Reads, SplitNames, Sound;
    assert Sound(s, NO_JOINS, []) by { NothingJoined(s); }
    var numbers := AllSound(s, before, NO_JOINS, []);
    SplitJoinedNames(names);
    SlashBetween(names);
    var last := FieldSound(s, Join(names, "/"), ResolveAll(s, before, NO_JOINS), numbers);
  }

  lemma NothingJoined(s: Schema)
    ensures Sound(s, NO_JOINS, [])
  {
  }

  lemma SlashBetween(names: seq<string>)
    requires |names| > 1
    ensures '/' in Join(names, "/")
  {
    var rest := Join(names[1..], "/");
    assert Join(names, "/") == names[0] + "/" + rest;
    assert (names[0] + "/" + rest)[|names[0]|] == '/';
  }

  /** A field of one name is read from the base, and makes no join. */
  lemma PlainFieldRead(s: Schema, st: Joins, field: string)
    requires IsName(field)
    ensures ResolveField(s, field, st) ==
            (st, if s.table(s.baseModel).None? || s.column(s.baseModel, field).None? then None
                 else Some(Column(s.baseAlias, s.column(s.baseModel, field).value)))
  {
    assert Join([field], "/") == field;
  }

  // ------------------------------------------------------------------ only the joins that are needed

  /** The key of a join is the beginning of some requested field's names. */
  ghost predicate Needed(fields: seq<string>, key: string) {
    exists f, k :: 0 <= f < |fields| && BeginsWith(fields[f], k, key)
  }

  predicate BeginsWith(field: string, k: nat, key: string) {
    var names := SplitNames(field, "");
    0 < k <= |names| && key == Join(names[..k], "/")
  }

  lemma {:induction false} ExtendJoined(names: seq<string>, k: nat)
    requires AreNames(names) && k < |names|
    ensures Extend(Join(names[..k], "/"), names[k]) == Join(names[..k + 1], "/")
    decreases |names|
  {
    if k == 0 {
      assert names[..0] == [] && names[..1] == [names[0]];
    } else {
      var rest := names[1..];
      assert AreNames(rest) by {
        forall i | 0 <= i < |rest| ensures IsName(rest[i]) {
          assert rest[i] == names[i + 1];
        }
      }
      ExtendJoined(rest, k - 1);
      assert names[..k][1..] == rest[..k - 1] && names[..k + 1][1..] == rest[..k];
      assert IsName(names[0]);
      if k == 1 {
        assert names[..1] == [names[0]] && Join(rest[..0], "/") == "" && rest[..1] == [rest[0]];
        assert Join(names[..2], "/") == names[0] + "/" + Join(rest[..1], "/");
      } else {
        assert IsName(rest[0]);
        assert Join(names[..k], "/") == names[0] + "/" + Join(rest[..k - 1], "/");
        assert Join(names[..k + 1], "/") == names[0] + "/" + Join(rest[..k], "/");
        NotEmptyJoin(rest[..k - 1]);
      }
    }
  }

  lemma NotEmptyJoin(names: seq<string>)
    requires AreNames(names) && names != []
    ensures Join(names, "/") != ""
  {
    assert IsName(names[0]);
  }

  /** New keys of a chain come from the names it follows. */
  lemma {:induction false} ChainNeeded(s: Schema, from: Place, names: seq<string>, k: nat, joins: seq<Segment>, st: Joins, key: string)
    requires AreNames(names) && k + |joins| <= |names| && forall i :: 0 <= i < |joins| ==> joins[i].relationName == names[k + i]
    requires key in EnsureChain(s, from, Join(names[..k], "/"), joins, st).0.order && key !in st.order
    ensures exists n :: k < n <= |names| && key == Join(names[..n], "/")
    decreases |joins|
  {
    hide Extend;
    if joins != [] {
      var at := Join(names[..k], "/");
      ExtendJoined(names, k);
      var step := EnsureJoin(s, from, at, joins[0], st);
      var path := Extend(at, joins[0].relationName);
      assert step.0.order == st.order || step.0.order == st.order + [path];
      if key == path {
        assert key == Join(names[..k + 1], "/");
      } else {
        assert key !in step.0.order;
        ChainNeeded(s, Place(step.1.value.alias, step.1.value.targetModel), names, k + 1, joins[1..], step.0, key);
      }
    }
  }

  lemma {:induction false} FollowNames(s: Schema, model: Model, names: seq<string>, depth: nat)
    requires Named(s) && Follow(s, model, names, depth).Some?
    ensures var joins := Follow(s, model, names, depth).value.joins;
            |joins| <= |names| && forall i :: 0 <= i < |joins| ==> joins[i].relationName == names[i]
    decreases |names|
  {
    if names != [] && s.relation(model, names[0]).Follows? {
      FollowNames(s, s.relation(model, names[0]).segment.targetModel, names[1..], depth + 1);
    }
  }

  lemma FieldNeeded(s: Schema, field: string, st: Joins, key: string)
    requires Named(s) && key in ResolveField(s, field, st).0.order && key !in st.order
    ensures Needed([field], key)
  {
    hide EnsureChain, Follow, SplitNames, Named;
    var names := SplitNames(field, "");
    SplitGivesNames(field, "");
    FollowNames(s, s.baseModel, names, 0);
    assert names[..0] == [];
    ChainNeeded(s, Base(s), names, 0, ResolvePath(s, field).value.joins, st, key);
    var n :| 0 < n <= |names| && key == Join(names[..n], "/");
    assert BeginsWith([field][0], n, key);
  }

  lemma {:induction false} AllNeeded(s: Schema, fields: seq<string>, st: Joins, key: string)
    requires Named(s) && key in ResolveAll(s, fields, st).order && key !in st.order
    ensures Needed(fields, key)
    decreases |fields|
  {
    hide ResolveField, Named, BeginsWith;
    if fields != [] {
      var next := ResolveField(s, fields[0], st).0;
      if key in next.order {
        FieldNeeded(s, fields[0], st, key);
        var f, k :| 0 <= f < |[fields[0]]| && BeginsWith([fields[0]][f], k, key);
        assert BeginsWith(fields[0], k, key);
      } else {
        AllNeeded(s, fields[1..], next, key);
        var f, k :| 0 <= f < |fields[1..]| && BeginsWith(fields[1..][f], k, key);
        assert BeginsWith(fields[f + 1], k, key);
      }
    }
  }

  /** No join is made that no requested field begins with. */
  lemma OnlyNeededJoins(s: Schema, fields: seq<string>, i: nat)
    requires Named(s) && i < |ResolveAll(s, fields, NO_JOINS).order|
    ensures Needed(fields, ResolveAll(s, fields, NO_JOINS).order[i])
  {
    AllNeeded(s, fields, NO_JOINS, ResolveAll(s, fields, NO_JOINS).order[i]);
  }
}
