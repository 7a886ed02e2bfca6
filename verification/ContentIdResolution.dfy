/** The entity set a changeset request writes to. A request may name another one of its changeset
    by Content-ID; the chain of references is followed by a memoised recursion with a guard
    against cycles. */
module ContentIdResolution {
  import opened ByteStrings

  /** What a request's URL starts with: an entity set, a Content-ID reference followed by more
      path segments, or anything else. */
  datatype Start = EntitySet(name: string) | Reference(token: string, trailing: seq<string>) | Elsewhere

  datatype Request = Request(id: string, group: string, start: Start)

  /** All requests of the batch, the changeset at hand, and where navigation from an entity set
      leads. */
  datatype Batch = Batch(requests: seq<Request>, group: string, navigate: (string, seq<string>) -> Option<string>)

  /** A reference that does not lead to an earlier request of the changeset. */
  datatype ReferenceError = InvalidReference

  type Answer = Result<Option<string>, ReferenceError>

  // ------------------------------------------------------------------ one reference

  predicate IsDigits(s: string) {
    s != "" && forall i :: 0 <= i < |s| ==> '0' <= s[i] <= '9'
  }

  /** The last request of the changeset with this id among the first `n`, by position. */
  function LastWithId(b: Batch, id: string, n: nat): (r: Option<nat>)
    requires n <= |b.requests|
    ensures r.Some? ==> r.value < n && b.requests[r.value].id == id && b.requests[r.value].group == b.group
  {
    if n == 0 || id == "" then None
    else if b.requests[n - 1].id == id && b.requests[n - 1].group == b.group then Some(n - 1)
    else LastWithId(b, id, n - 1)
  }

  /** The request a token names, wherever it stands: by ordinal in the batch or by id. */
  function Named(b: Batch, token: string): (r: Option<nat>)
    ensures r.Some? ==> r.value < |b.requests|
  {
    var prefix, n := "requests(", |b.requests|;
    if StartsWith(token, prefix) && EndsWith(token, ")") && |token| > |prefix| then
      var inner := Trim(token[|prefix|..|token| - 1]);
      if IsDigits(inner) then
        if 0 < Number(inner) <= n then Some(Number(inner) - 1) else None
      else LastWithId(b, if IsQuoted(inner) then Unquoted(inner) else inner, n)
    else LastWithId(b, token, n)
  }

  /** Only an earlier request of the same changeset may be referred to. */
  function Lookup(b: Batch, i: nat, token: string): (r: Option<nat>)
    requires i < |b.requests|
    ensures r.Some? ==> r.value < i && b.requests[r.value].group == b.group
  {
    match Named(b, token)
    case None => None
    case Some(j) => if b.requests[j].group != b.group || j >= i then None else Some(j)
  }

  // ------------------------------------------------------------------ what a token means

  /** A reference by id or by place, places counted from 1. */
  datatype Meaning = ById(id: string) | ByPlace(place: nat)

  /** The number the digits spell, read from the left behind `before`. */
  function Spelled(digits: string, before: nat): nat
    requires forall i :: 0 <= i < |digits| ==> '0' <= digits[i] <= '9'
  {
    if digits == "" then before else Spelled(digits[1..], before * 10 + (digits[0] as int - '0' as int))
  }

  predicate Encloses(token: string, inner: string) {
    token == "requests(" + inner + ")"
  }

  /** What the text between the parentheses means: digits a place; a text in quotes of one kind, or a
      text that does not both begin and end with such quotes, an id. */
  predicate InnerMeans(inner: string, m: Meaning) {
    if IsDigits(inner) then m == ByPlace(Spelled(inner, 0))
    else
      && m.ById?
      && (|| inner == "'" + m.id + "'" || inner == "\"" + m.id + "\""
          || (inner == m.id && (inner == "" || (inner[0] != '\'' && inner[0] != '"') || inner[|inner| - 1] != inner[0])))
  }

  ghost predicate TokenMeans(token: string, m: Meaning) {
    if exists inner :: Encloses(token, inner)
    then exists inner :: Encloses(token, inner) && InnerMeans(Trim(inner), m)
    else m == ById(token)
  }

  /** The last request of the changeset with a non-empty id. */
  predicate LastCalled(b: Batch, id: string, j: nat) {
    && id != "" && j < |b.requests| && b.requests[j].id == id && b.requests[j].group == b.group
    && forall k :: j < k < |b.requests| && b.requests[k].group == b.group ==> b.requests[k].id != id
  }

  predicate MeansRequest(b: Batch, m: Meaning, j: nat) {
    match m
    case ById(id) => LastCalled(b, id, j)
    case ByPlace(place) => place == j + 1 && j < |b.requests|
  }

  /** The token of request `i` refers to `j`: it means that request, which stands before `i` in the
      same changeset. */
  ghost predicate Refers(b: Batch, i: nat, token: string, j: nat) {
    j < i && j < |b.requests| && b.requests[j].group == b.group && exists m :: TokenMeans(token, m) && MeansRequest(b, m, j)
  }

  lemma {:induction false} SpelledOneMore(digits: string, before: nat, c: char)
    requires (forall i :: 0 <= i < |digits| ==> '0' <= digits[i] <= '9') && '0' <= c <= '9'
    ensures Spelled(digits + [c], before) == Spelled(digits, before) * 10 + (c as int - '0' as int)
    decreases |digits|
  {
    if digits == "" {
      assert digits + [c] == [c] && [c][1..] == "";
      assert Spelled("", before * 10 + (c as int - '0' as int)) == before * 10 + (c as int - '0' as int);
    } else {
      assert (digits + [c])[1..] == digits[1..] + [c];
      SpelledOneMore(digits[1..], before * 10 + (digits[0] as int - '0' as int), c);
    }
  }

  lemma {:induction false} NumberIsSpelled(digits: string)
    requires forall i :: 0 <= i < |digits| ==> '0' <= digits[i] <= '9'
    ensures Number(digits) == Spelled(digits, 0)
    decreases |digits|
  {
    if digits != "" {
      var n := |digits| - 1;
      NumberIsSpelled(digits[..n]);
      SpelledOneMore(digits[..n], 0, digits[n]);
      assert digits[..n] + [digits[n]] == digits;
    }
  }

  lemma {:induction false} LastWithIdIs(b: Batch, id: string, n: nat, j: nat)
    requires n <= |b.requests|
    ensures LastWithId(b, id, n) == Some(j) <==>
            && id != "" && j < n && b.requests[j].id == id && b.requests[j].group == b.group
            && forall k :: j < k < n && b.requests[k].group == b.group ==> b.requests[k].id != id
    decreases n
  {
    if n > 0 && id != "" && !(b.requests[n - 1].id == id && b.requests[n - 1].group == b.group) {
      LastWithIdIs(b, id, n - 1, j);
    }
  }

  lemma Enclosed(token: string)
    ensures var prefix := "requests(";
            if StartsWith(token, prefix) && EndsWith(token, ")") && |token| > |prefix|
            then Encloses(token, token[|prefix|..|token| - 1])
            else forall inner :: !Encloses(token, inner)
  {
    var prefix := "requests(";
    if StartsWith(token, prefix) && EndsWith(token, ")") && |token| > |prefix| {
      assert token == token[..9] + token[9..|token| - 1] + token[|token| - 1..];
    } else {
      forall inner ensures !Encloses(token, inner) {
        var whole := prefix + inner + ")";
        assert whole[0..9] == prefix && whole[|whole| - 1..|whole|] == ")";
      }
    }
  }

  lemma OneInner(a: string, b: string)
    requires "requests(" + a + ")" == "requests(" + b + ")"
    ensures a == b
  {
    assert ("requests(" + a + ")")[9..][..|a|] == a && ("requests(" + b + ")")[9..][..|b|] == b;
  }

  lemma InnerNamed(b: Batch, inner: string, j: nat)
    ensures (if IsDigits(inner) then 0 < Number(inner) <= |b.requests| && j == Number(inner) - 1
             else LastWithId(b, if IsQuoted(inner) then Unquoted(inner) else inner, |b.requests|) == Some(j)) <==>
            exists m :: InnerMeans(inner, m) && MeansRequest(b, m, j)
  {
    hide LastWithId, Number, Spelled;
    if IsDigits(inner) {
      NumberIsSpelled(inner);
      assert forall m :: InnerMeans(inner, m) ==> m == ByPlace(Spelled(inner, 0));
      assert InnerMeans(inner, ByPlace(Spelled(inner, 0)));
    } else {
      var id := if IsQuoted(inner) then Unquoted(inner) else inner;
      LastWithIdIs(b, id, |b.requests|, j);
      InnerId(inner);
      assert LastCalled(b, id, j) <==> MeansRequest(b, ById(id), j);
    }
  }

  lemma InnerId(inner: string)
    requires !IsDigits(inner)
    ensures var id := if IsQuoted(inner) then Unquoted(inner) else inner;
            && (forall m :: InnerMeans(inner, m) ==> m == ById(id))
            && (id != "" ==> InnerMeans(inner, ById(id)))
  {
    var id := if IsQuoted(inner) then Unquoted(inner) else inner;
    if IsQuoted(inner) && |inner| >= 2 {
      assert inner == [inner[0]] + inner[1..|inner| - 1] + [inner[|inner| - 1]];
    }
    forall m | InnerMeans(inner, m) ensures m == ById(id) {
      if inner == "'" + m.id + "'" || inner == "\"" + m.id + "\"" {
        assert inner[1..|inner| - 1] == m.id;
      }
    }
  }

  /** A lookup finds exactly what the token refers to. */
  lemma LookupRefers(b: Batch, i: nat, token: string, j: nat)
    requires i < |b.requests|
    ensures Lookup(b, i, token) == Some(j) <==> Refers(b, i, token, j)
  {
    hide LastWithId, InnerMeans, MeansRequest, Trim, IsDigits, StartsWith, EndsWith, Number, IsQuoted, Unquoted, LastCalled;
    Enclosed(token);
    if inner :| Encloses(token, inner) {
      var mid := token[9..|token| - 1];
      assert mid == inner;
      forall other | Encloses(token, other) ensures other == inner {
        OneInner(other, inner);
      }
      InnerNamed(b, Trim(inner), j);
    } else {
      LastWithIdIs(b, token, |b.requests|, j);
      IdMeans(b, token, j);
    }
  }

  lemma IdMeans(b: Batch, id: string, j: nat)
    ensures MeansRequest(b, ById(id), j) <==> LastCalled(b, id, j)
    ensures LastCalled(b, id, j) <==>
            && id != "" && j < |b.requests| && b.requests[j].id == id && b.requests[j].group == b.group
            && forall k :: j < k < |b.requests| && b.requests[k].group == b.group ==> b.requests[k].id != id
  {
  }

  // ------------------------------------------------------------------ the plain recursion

  /** Without memory and without a guard: every hop goes to an earlier position. */
  function Resolve(b: Batch, i: nat): Answer
    requires i < |b.requests|
    decreases i
  {
    match b.requests[i].start
    case EntitySet(name) => Ok(Some(name))
    case Elsewhere => Ok(None)
    case Reference(token, trailing) =>
      match Lookup(b, i, token)
      case None => Err(InvalidReference)
      case Some(j) =>
        var base := Resolve(b, j);
        if base.Err? then base
        else if base.value.None? then Ok(None)
        else Ok(b.navigate(base.value.value, trailing))
  }

  // ------------------------------------------------------------------ the memoised recursion

  class Resolver {
    const batch: Batch
    var cache: map<nat, Option<string>>
    var visiting: set<nat>

    /** Cached answers are those of the plain recursion. */
    ghost predicate Valid()
      reads this
    {
      forall i <- cache :: i < |batch.requests| && Resolve(batch, i) == Ok(cache[i])
    }

    constructor (batch: Batch)
      ensures Valid() && this.batch == batch && visiting == {}
    {
      this.batch, cache, visiting := batch, map[], {};
    }

    /** The answer of the plain recursion, whatever is cached already, unless the guard fires;
        and it does not fire for a request that precedes all those being visited. */
    method ResolveEntitySetName(i: nat) returns (r: Answer)
      requires i < |batch.requests| && Valid()
      modifies this
      decreases i
      ensures visiting == old(visiting)
      ensures (forall v <- visiting :: v > i) ==> Valid() && r == Resolve(batch, i)
      ensures forall j <- old(cache) :: j in cache
    {
      if i in cache {
        return Ok(cache[i]);
      }
      if i in visiting {
        return Ok(None);
      }
      visiting := visiting + {i};
      r := Visit(i);
      visiting := visiting - {i};
    }

    method Visit(i: nat) returns (r: Answer)
      requires i < |batch.requests| && Valid() && i !in cache
      modifies this
      decreases i, 0
      ensures visiting == old(visiting)
      ensures (forall v <- visiting :: v >= i) ==> Valid() && r == Resolve(batch, i)
      ensures forall j <- old(cache) :: j in cache
    {
      var start := batch.requests[i].start;
      match start {
        case EntitySet(name) =>
          cache := cache[i := Some(name)];
          return Ok(Some(name));
        case Elsewhere =>
          cache := cache[i := None];
          return Ok(None);
        case Reference(token, trailing) =>
          var referenced := Lookup(batch, i, token);
          if referenced.None? {
            return Err(InvalidReference);
          }
          var base := ResolveEntitySetName(referenced.value);
          if base.Err? {
            return base;
          }
          r := if base.value.None? then Ok(None) else Ok(batch.navigate(base.value.value, trailing));
          cache := cache[i := r.value];
      }
    }

    /** The loop over a changeset: any requests, in any order, one cache. */
    method ResolveEach(order: seq<nat>) returns (answers: seq<Answer>)
      requires Valid() && visiting == {} && forall k :: 0 <= k < |order| ==> order[k] < |batch.requests|
      modifies this
      ensures Valid() && visiting == {}
      ensures |answers| == |order| && forall k :: 0 <= k < |order| ==> answers[k] == Resolve(batch, order[k])
    {
      hide Resolve;
      answers := [];
      for k := 0 to |order|
        invariant Valid() && visiting == {}
        invariant |answers| == k && forall j :: 0 <= j < k ==> answers[j] == Resolve(batch, order[j])
      {
        var answer := ResolveEntitySetName(order[k]);
        answers := answers + [answer];
      }
    }
  }

  // ------------------------------------------------------------------ what an answer means

  /** Each request on the path refers to the next. */
  ghost predicate ReferencePath(b: Batch, path: seq<nat>) {
    path != [] && forall k :: 0 <= k < |path| ==> HopAt(b, path, k)
  }

  ghost predicate HopAt(b: Batch, path: seq<nat>, k: nat)
    requires k < |path|
  {
    path[k] < |b.requests| && (k + 1 < |path| ==> Hop(b, path[k], path[k + 1]))
  }

  ghost predicate Hop(b: Batch, i: nat, j: nat)
    requires i < |b.requests|
  {
    b.requests[i].start.Reference? && Refers(b, i, b.requests[i].start.token, j)
  }

  lemma HopFound(b: Batch, i: nat, j: nat)
    requires i < |b.requests| && b.requests[i].start.Reference?
    ensures Hop(b, i, j) <==> Lookup(b, i, b.requests[i].start.token) == Some(j)
  {
    hide Refers, Lookup;
    LookupRefers(b, i, b.requests[i].start.token, j);
  }

  /** Navigation from the set `base`, along the path's trailing segments from its end back to its
      first request. */
  function Along(b: Batch, path: seq<nat>, base: string): Option<string>
    requires ReferencePath(b, path)
    decreases |path|
  {
    if |path| == 1 then Some(base)
    else
      assert HopAt(b, path, 0);
      var rest := Along(b, Tail(b, path), base);
      if rest.None? then None else b.navigate(rest.value, b.requests[path[0]].start.trailing)
  }

  function Tail(b: Batch, path: seq<nat>): (tail: seq<nat>)
    requires ReferencePath(b, path) && |path| > 1
    ensures ReferencePath(b, tail) && |tail| == |path| - 1
  {
    TailIsPath(b, path);
    path[1..]
  }

  lemma TailIsPath(b: Batch, path: seq<nat>)
    requires ReferencePath(b, path) && |path| > 1
    ensures ReferencePath(b, path[1..])
  {
    var tail := path[1..];
    forall k | 0 <= k < |tail| ensures HopAt(b, tail, k) {
      assert HopAt(b, path, k + 1);
      assert tail[k] == path[k + 1] && (k + 1 < |tail| ==> tail[k + 1] == path[k + 1 + 1]);
    }
  }

  ghost predicate Leads(b: Batch, i: nat, path: seq<nat>, base: string) {
    ReferencePath(b, path) && path[0] == i && HopAt(b, path, |path| - 1) && b.requests[path[|path| - 1]].start == EntitySet(base)
  }

  /** References that lead to an entity set resolve to where navigation goes from there. */
  lemma {:induction false} PathResolves(b: Batch, i: nat, path: seq<nat>, base: string)
    requires i < |b.requests| && Leads(b, i, path, base)
    ensures Resolve(b, i) == Ok(Along(b, path, base))
    decreases |path|
  {
    hide Hop, Lookup;
    assert HopAt(b, path, 0);
    if |path| > 1 {
      assert HopAt(b, path, 1);
      assert b.requests[path[0]].start.Reference? by { HopRefers(b, path[0], path[1]); }
      HopFound(b, path[0], path[1]);
      PathResolves(b, path[1], Tail(b, path), base);
    }
  }

  /** The chain ends at a reference that refers to nothing. */
  ghost predicate Dangles(b: Batch, path: seq<nat>) {
    && ReferencePath(b, path) && HopAt(b, path, |path| - 1) && b.requests[path[|path| - 1]].start.Reference?
    && Nowhere(b, path[|path| - 1], b.requests[path[|path| - 1]].start.token)
  }

  ghost predicate Nowhere(b: Batch, i: nat, token: string) {
    forall j :: !Refers(b, i, token, j)
  }

  /** A chain that ends at such a reference is refused; one that ends at anything else that is no entity
      set resolves to none. */
  lemma {:induction false} OtherEnds(b: Batch, i: nat, path: seq<nat>)
    requires i < |b.requests| && ReferencePath(b, path) && path[0] == i
    ensures Dangles(b, path) ==> Resolve(b, i) == Err(InvalidReference)
    ensures HopAt(b, path, |path| - 1) && b.requests[path[|path| - 1]].start.Elsewhere? ==> Resolve(b, i) == Ok(None)
    decreases |path|
  {
    hide Hop, Lookup, Refers;
    assert HopAt(b, path, 0);
    if |path| > 1 {
      assert HopAt(b, path, 1);
      assert b.requests[path[0]].start.Reference? by { HopRefers(b, path[0], path[1]); }
      HopFound(b, path[0], path[1]);
      TailIsPath(b, path);
      assert HopAt(b, path, |path| - 1) && HopAt(b, path[1..], |path[1..]| - 1);
      assert path[1..][|path| - 2] == path[|path| - 1];
      OtherEnds(b, path[1], path[1..]);
    } else if Dangles(b, path) {
      var token := b.requests[i].start.token;
      if Lookup(b, i, token).Some? {
        LookupRefers(b, i, token, Lookup(b, i, token).value);
      }
    }
  }

  lemma HopRefers(b: Batch, i: nat, j: nat)
    requires i < |b.requests| && Hop(b, i, j)
    ensures b.requests[i].start.Reference? && j < i && j < |b.requests| && b.requests[j].group == b.group
  {
  }

  /** And nothing else resolves to an entity set. */
  lemma {:induction false} ResolvedHasPath(b: Batch, i: nat) returns (path: seq<nat>, base: string)
    requires i < |b.requests| && Resolve(b, i).Ok? && Resolve(b, i).value.Some?
    ensures Leads(b, i, path, base)
    decreases i
  {
    hide Hop, Lookup;
    match b.requests[i].start
    case EntitySet(name) =>
      path, base := [i], name;
    case Reference(token, _) =>
      var j := Lookup(b, i, token).value;
      var rest;
      rest, base := ResolvedHasPath(b, j);
      path := [i] + rest;
      HopFound(b, i, j);
      forall k | 0 <= k < |path| ensures HopAt(b, path, k) {
        if k > 0 {
          assert HopAt(b, rest, k - 1);
        }
      }
  }

  /** Chains of references only go back in the batch, so they never come round, and they stay
      within the changeset. */
  lemma {:induction false} PathsGoBack(b: Batch, path: seq<nat>, j: nat, k: nat)
    requires ReferencePath(b, path) && j < k < |path|
    ensures HopAt(b, path, k) && path[k] < path[j] && b.requests[path[k]].group == b.group
    decreases k
  {
    hide Hop;
    assert HopAt(b, path, k - 1);
    HopRefers(b, path[k - 1], path[k]);
    if j < k - 1 {
      PathsGoBack(b, path, j, k - 1);
    }
  }
}
