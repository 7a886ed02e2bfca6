/** When the rewritten path of a composite key tells the key. The path holds `name=value` pairs
    joined by commas, with the values as they are: so a value may look like the end of one pair
    and the beginning of the next. */
module KeyDistinctness {
  import opened ByteStrings
  import opened PercentEncoding
  import opened KeyLiteral
  import opened KeyRoundTrip

  // ------------------------------------------------------------------ values between separators

  /** What separates a value from the next one. */
  function Separator(name: string): string {
    [','] + (name + "=")
  }

  /** The text from value `i` on. */
  function ValuesFrom(names: seq<string>, values: seq<string>, i: nat): string
    requires |names| == |values| && i < |values|
    decreases |values| - i
  {
    if i == |values| - 1 then values[i] else values[i] + (Separator(names[i + 1]) + ValuesFrom(names, values, i + 1))
  }

  predicate Holds(s: string, needle: string) {
    IndexOf(s, needle) >= 0
  }

  /** No value but the last holds the separator that follows it. */
  predicate Separable(names: seq<string>, values: seq<string>)
    requires |names| == |values|
  {
    forall i :: 0 <= i < |values| - 1 ==> !Holds(values[i], Separator(names[i + 1]))
  }

  /** No value but the first holds the separator in front of it. */
  predicate Unrepeated(names: seq<string>, values: seq<string>)
    requires |names| == |values|
  {
    forall i :: 0 < i < |values| ==> !Holds(values[i], Separator(names[i]))
  }

  predicate CommaFree(names: seq<string>) {
    forall i :: 0 <= i < |names| ==> ',' !in names[i]
  }

  /** A separator has its only comma in front: it cannot begin inside a value and reach over the
      comma behind that value. */
  lemma StopsAtComma(value: string, rest: string, name: string, p: nat)
    requires ',' !in name && rest != "" && rest[0] == ','
    requires p < |value| && OccursAt(value + rest, p, Separator(name))
    ensures Holds(value, Separator(name))
  {
    var s, sep := value + rest, Separator(name);
    assert s[p..p + |sep|] == sep && s[|value|] == ',';
    forall q | p < q < p + |sep| ensures s[q] != ',' {
      assert s[q] == s[p..p + |sep|][q - p];
      assert sep[q - p] == (name + "=")[q - p - 1];
    }
    OccursInPrefix(value, rest, p, sep);
  }

  /** Nor can it begin inside another separator. */
  lemma StartsAfter(value: string, last: string, rest: string, name: string, p: nat)
    requires ',' !in last && OccursAt(value + (Separator(last) + rest), p, Separator(name)) && p > |value|
    ensures p >= |value| + |Separator(last)|
  {
    var s := value + (Separator(last) + rest);
    assert s[p..p + |Separator(name)|][0] == s[p] == ',';
    forall q | |value| < q <= |value| + |last| + 1 ensures s[q] != ',' {
      assert s[q] == (last + "=")[q - |value| - 1];
    }
  }

  lemma ValuesFromStep(names: seq<string>, values: seq<string>, i: nat)
    requires |names| == |values| && i < |values| - 1
    ensures ValuesFrom(names, values, i) == values[i] + (Separator(names[i + 1]) + ValuesFrom(names, values, i + 1))
  {
  }

  lemma OccursBetween(a: string, needle: string, b: string)
    ensures OccursAt(a + (needle + b), |a|, needle)
  {
    assert (a + (needle + b))[|a|..|a| + |needle|] == needle;
  }

  /** The text behind position `from` of a text that is split at a later position. */
  lemma BehindSplit(head: string, tail: string, x: string, y: string)
    requires head + tail == x + y && |head| <= |x|
    ensures tail == x[|head|..] + y
  {
    assert (head + tail)[|head|..] == tail;
    DropAppend(x, y, |head|);
  }

  /** When no separator stands twice, the text from a value on does not hold its separator again
      in front of another reading of the same values. */
  lemma {:induction false} NotLater(names: seq<string>, values: seq<string>, others: seq<string>, i: nat, x: string)
    requires |names| == |values| == |others| && CommaFree(names) && Separable(names, values) && Unrepeated(names, values)
    requires 0 < i < |values|
    ensures ValuesFrom(names, values, i) != x + (Separator(names[i]) + ValuesFrom(names, others, i))
    decreases |values| - i, 2
  {
    hide Separator, Holds;
    if i < |values| - 1 {
      LaterStep(names, values, others, i, x);
    } else {
      var sep := Separator(names[i]);
      OccursBetween(x, sep, ValuesFrom(names, others, i));
      if values[i] == x + (sep + ValuesFrom(names, others, i)) {
        Occurrence(values[i], sep, |x|);
      }
    }
  }

  lemma Occurrence(s: string, needle: string, p: nat)
    requires OccursAt(s, p, needle)
    ensures Holds(s, needle)
  {
  }

  lemma SeparatorStarts(name: string, rest: string)
    ensures Separator(name) + rest != "" && (Separator(name) + rest)[0] == ','
  {
  }

  lemma LaterStep(names: seq<string>, values: seq<string>, others: seq<string>, i: nat, x: string)
    requires |names| == |values| == |others| && CommaFree(names) && Separable(names, values) && Unrepeated(names, values)
    requires 0 < i < |values| - 1
    ensures ValuesFrom(names, values, i) != x + (Separator(names[i]) + ValuesFrom(names, others, i))
    decreases |values| - i, 1
  {
    hide Separator, Holds, ValuesFrom, OccursAt;
    var value, behind := values[i], Separator(names[i + 1]) + ValuesFrom(names, values, i + 1);
    ValuesFromStep(names, values, i);
    ValuesFromStep(names, others, i);
    SeparatorStarts(names[i + 1], ValuesFrom(names, values, i + 1));
    OccursBetween(x, Separator(names[i]), ValuesFrom(names, others, i));
    assert !Holds(value, Separator(names[i]));
    hide Separable, Unrepeated;
    if |x| >= |value| {
      Regroup(x, Separator(names[i]), others[i], Separator(names[i + 1]) + ValuesFrom(names, others, i + 1));
      SeparatorNotEmpty(names[i]);
      LaterSplit(names, values, others, i, x + (Separator(names[i]) + others[i]));
    } else if ValuesFrom(names, values, i) == x + (Separator(names[i]) + ValuesFrom(names, others, i)) {
      StopsAtComma(value, behind, names[i], |x|);
    }
  }

  lemma Regroup(a: string, b: string, c: string, d: string)
    ensures a + (b + (c + d)) == a + (b + c) + d
  {
    AppendAssoc(b, c, d);
    AppendAssoc(a, b + c, d);
  }

  lemma SeparatorNotEmpty(name: string)
    ensures |Separator(name)| > 0
  {
  }

  /** No reading reaches beyond value `i` before its next separator. */
  lemma LaterSplit(names: seq<string>, values: seq<string>, others: seq<string>, i: nat, y: string)
    requires |names| == |values| == |others| && CommaFree(names) && Separable(names, values) && Unrepeated(names, values)
    requires i < |values| - 1 && |y| > |values[i]|
    ensures values[i] + (Separator(names[i + 1]) + ValuesFrom(names, values, i + 1))
         != y + (Separator(names[i + 1]) + ValuesFrom(names, others, i + 1))
    decreases |values| - i, 0
  {
    hide Separator, Holds, ValuesFrom, Separable, Unrepeated;
    var next, tail := Separator(names[i + 1]), ValuesFrom(names, values, i + 1);
    var last := next + ValuesFrom(names, others, i + 1);
    OccursBetween(y, next, ValuesFrom(names, others, i + 1));
    if values[i] + (next + tail) == y + last {
      StartsAfter(values[i], names[i + 1], tail, names[i + 1], |y|);
      AppendAssoc(values[i], next, tail);
      BehindSplit(values[i] + next, tail, y, last);
      NotLater(names, values, others, i + 1, y[|values[i] + next|..]);
    }
  }

  // ------------------------------------------------------------------ keys told apart

  /** A separable reading never ends its value `i` behind another reading. */
  lemma NotShorter(names: seq<string>, values: seq<string>, others: seq<string>, i: nat)
    requires |names| == |values| == |others| && CommaFree(names) && Separable(names, values)
    requires i < |values| - 1 && ValuesFrom(names, values, i) == ValuesFrom(names, others, i)
    ensures |values[i]| <= |others[i]|
  {
    hide Separator, Holds, ValuesFrom;
    ValuesFromStep(names, values, i);
    ValuesFromStep(names, others, i);
    SeparatorStarts(names[i + 1], ValuesFrom(names, values, i + 1));
    OccursBetween(others[i], Separator(names[i + 1]), ValuesFrom(names, others, i + 1));
    assert !Holds(values[i], Separator(names[i + 1]));
    hide Separable;
    if |others[i]| < |values[i]| {
      StopsAtComma(values[i], Separator(names[i + 1]) + ValuesFrom(names, values, i + 1), names[i + 1], |others[i]|);
    }
  }

  lemma ValuePeeled(names: seq<string>, values: seq<string>, others: seq<string>, i: nat)
    requires |names| == |values| == |others| && i < |values| - 1 && |values[i]| == |others[i]|
    requires ValuesFrom(names, values, i) == ValuesFrom(names, others, i)
    ensures values[i] == others[i] && ValuesFrom(names, values, i + 1) == ValuesFrom(names, others, i + 1)
  {
    hide ValuesFrom;
    ValuesFromStep(names, values, i);
    ValuesFromStep(names, others, i);
    var sep, v, w := Separator(names[i + 1]), ValuesFrom(names, values, i + 1), ValuesFrom(names, others, i + 1);
    SamePrefix(values[i], sep + v, others[i], sep + w);
    SamePrefix(sep, v, sep, w);
  }

  lemma SamePrefix(a: string, b: string, c: string, d: string)
    requires a + b == c + d && |a| == |c|
    ensures a == c && b == d
  {
    assert a == (a + b)[..|a|] && c == (c + d)[..|c|];
    assert b == (a + b)[|a|..] && d == (c + d)[|c|..];
  }

  lemma {:induction false} SeparableSame(names: seq<string>, values: seq<string>, others: seq<string>, i: nat)
    requires |names| == |values| == |others| && CommaFree(names) && Separable(names, values) && Separable(names, others)
    requires i < |values| && ValuesFrom(names, values, i) == ValuesFrom(names, others, i)
    ensures values[i..] == others[i..]
    decreases |values| - i
  {
    hide Separable;
    if i < |values| - 1 {
      NotShorter(names, values, others, i);
      NotShorter(names, others, values, i);
      ValuePeeled(names, values, others, i);
      SeparableSame(names, values, others, i + 1);
      assert values[i..] == [values[i]] + values[i + 1..] && others[i..] == [others[i]] + others[i + 1..];
    }
  }

  lemma {:induction false} UniqueReading(names: seq<string>, values: seq<string>, others: seq<string>, i: nat)
    requires |names| == |values| == |others| && CommaFree(names) && Separable(names, values) && Unrepeated(names, values)
    requires i < |values| && ValuesFrom(names, values, i) == ValuesFrom(names, others, i)
    ensures values[i..] == others[i..]
    decreases |values| - i
  {
    hide Separable, Unrepeated;
    if i < |values| - 1 {
      NotShorter(names, values, others, i);
      ValuesFromStep(names, values, i);
      ValuesFromStep(names, others, i);
      if |others[i]| > |values[i]| {
        LaterSplit(names, values, others, i, others[i]);
      }
      ValuePeeled(names, values, others, i);
      UniqueReading(names, values, others, i + 1);
      assert values[i..] == [values[i]] + values[i + 1..] && others[i..] == [others[i]] + others[i + 1..];
    }
  }

  // ------------------------------------------------------------------ keys mistaken for others

  /** Moving text between neighbouring values, over the separator between them. */
  lemma {:induction false} Spliced(names: seq<string>, values: seq<string>, others: seq<string>, i: nat, j: nat)
    requires |names| == |values| == |others| && j <= i < |values| - 1
    requires values[..i] == others[..i] && values[i + 2..] == others[i + 2..]
    requires values[i] + (Separator(names[i + 1]) + values[i + 1]) == others[i] + (Separator(names[i + 1]) + others[i + 1])
    ensures ValuesFrom(names, values, j) == ValuesFrom(names, others, j)
    decreases i - j
  {
    hide Separator;
    if j < i {
      assert values[j] == values[..i][j] == others[..i][j] == others[j];
      Spliced(names, values, others, i, j + 1);
    } else if i + 1 < |values| - 1 {
      BehindSplice(names, values, others, i + 2);
      var sep, more := Separator(names[i + 1]), Separator(names[i + 2]) + ValuesFrom(names, values, i + 2);
      hide ValuesFrom;
      ValuesFromStep(names, values, i);
      ValuesFromStep(names, others, i);
      ValuesFromStep(names, values, i + 1);
      ValuesFromStep(names, others, i + 1);
      Regroup(values[i], sep, values[i + 1], more);
      Regroup(others[i], sep, others[i + 1], more);
    }
  }

  lemma {:induction false} BehindSplice(names: seq<string>, values: seq<string>, others: seq<string>, i: nat)
    requires |names| == |values| == |others| && i < |values| && values[i..] == others[i..]
    ensures ValuesFrom(names, values, i) == ValuesFrom(names, others, i)
    decreases |values| - i
  {
    hide Separator;
    assert values[i] == values[i..][0] == others[i..][0] == others[i];
    if i < |values| - 1 {
      assert values[i + 1..] == values[i..][1..] && others[i + 1..] == others[i..][1..];
      BehindSplice(names, values, others, i + 1);
    }
  }

  lemma Cut(s: string, needle: string) returns (a: string, b: string)
    requires Holds(s, needle)
    ensures s == a + (needle + b)
  {
    var p := IndexOf(s, needle);
    a, b := s[..p], s[p + |needle|..];
    assert s == s[..p] + s[p..p + |needle|] + s[p + |needle|..];
  }

  /** A value that holds a separator at its side has a second reading. */
  lemma OtherReading(names: seq<string>, values: seq<string>) returns (others: seq<string>)
    requires |names| == |values| && values != [] && !(Separable(names, values) && Unrepeated(names, values))
    ensures |others| == |values| && others != values
    ensures ValuesFrom(names, others, 0) == ValuesFrom(names, values, 0)
  {
    hide Separator, ValuesFrom, Holds;
    if !Separable(names, values) {
      var i :| 0 <= i < |values| - 1 && Holds(values[i], Separator(names[i + 1]));
      others := MoveRight(names, values, i);
      Spliced(names, values, others, i, 0);
    } else {
      var i :| 0 < i < |values| && Holds(values[i], Separator(names[i]));
      others := MoveLeft(names, values, i);
      Spliced(names, values, others, i - 1, 0);
    }
  }

  lemma MoveRight(names: seq<string>, values: seq<string>, i: nat) returns (others: seq<string>)
    requires |names| == |values| && i < |values| - 1 && Holds(values[i], Separator(names[i + 1]))
    ensures |others| == |values| && others != values
    ensures others[..i] == values[..i] && others[i + 2..] == values[i + 2..]
    ensures values[i] + (Separator(names[i + 1]) + values[i + 1]) == others[i] + (Separator(names[i + 1]) + others[i + 1])
  {
    hide Holds;
    var sep := Separator(names[i + 1]);
    var a, b := Cut(values[i], sep);
    others := values[i := a][i + 1 := b + (sep + values[i + 1])];
    Regroup(a, sep, b, sep + values[i + 1]);
    assert |others[i]| < |values[i]|;
  }

  lemma MoveLeft(names: seq<string>, values: seq<string>, i: nat) returns (others: seq<string>)
    requires |names| == |values| && 0 < i < |values| && Holds(values[i], Separator(names[i]))
    ensures |others| == |values| && others != values
    ensures others[..i - 1] == values[..i - 1] && others[i + 1..] == values[i + 1..]
    ensures values[i - 1] + (Separator(names[i]) + values[i]) == others[i - 1] + (Separator(names[i]) + others[i])
  {
    hide Holds;
    var sep := Separator(names[i]);
    var a, b := Cut(values[i], sep);
    others := values[i - 1 := values[i - 1] + (sep + a)][i := b];
    Regroup(values[i - 1], sep, a, sep + b);
    assert |others[i]| < |values[i]|;
  }

  // ------------------------------------------------------------------ keys and their paths

  function NamesOf(entries: seq<KeyEntry>): (names: seq<string>)
    ensures |names| == |entries| && forall i :: 0 <= i < |entries| ==> names[i] == entries[i].name
  {
    seq(|entries|, i requires 0 <= i < |entries| => entries[i].name)
  }

  function ValuesOf(entries: seq<KeyEntry>): (values: seq<string>)
    ensures |values| == |entries| && forall i :: 0 <= i < |entries| ==> values[i] == entries[i].value.text
  {
    seq(|entries|, i requires 0 <= i < |entries| => entries[i].value.text)
  }

  predicate NamedByWords(entries: seq<KeyEntry>) {
    entries != [] && forall i :: 0 <= i < |entries| ==> PlainWord(entries[i].name)
  }

  lemma WordsAreCommaFree(entries: seq<KeyEntry>)
    requires NamedByWords(entries)
    ensures CommaFree(NamesOf(entries))
  {
    hide PlainWord;
    forall i | 0 <= i < |entries| ensures ',' !in NamesOf(entries)[i] {
      WordHasNo(entries[i].name, ',');
    }
  }

  function PairsFrom(entries: seq<KeyEntry>, i: nat): seq<string>
    requires i <= |entries|
  {
    seq(|entries| - i, k requires 0 <= k < |entries| - i => entries[i + k].name + "=" + entries[i + k].value.text)
  }

  lemma {:induction false} PairsJoined(entries: seq<KeyEntry>, i: nat)
    requires i < |entries|
    ensures Join(PairsFrom(entries, i), ",") == entries[i].name + "=" + ValuesFrom(NamesOf(entries), ValuesOf(entries), i)
    decreases |entries| - i
  {
    var head := entries[i].name + "=" + entries[i].value.text;
    if i < |entries| - 1 {
      PairsJoined(entries, i + 1);
      assert PairsFrom(entries, i)[1..] == PairsFrom(entries, i + 1);
      var name, rest := entries[i + 1].name, ValuesFrom(NamesOf(entries), ValuesOf(entries), i + 1);
      hide Join;
      assert "," + (name + "=" + rest) == Separator(name) + rest;
      AppendAssoc(entries[i].name + "=", entries[i].value.text, Separator(name) + rest);
      AppendAssoc(head, ",", name + "=" + rest);
    }
  }

  /** The text of a key is its first name, unless it is the only one, and the values with their
      separators. */
  lemma KeyTextIs(entries: seq<KeyEntry>)
    requires entries != []
    ensures KeyText(entries) ==
            (if |entries| == 1 then "" else entries[0].name + "=") + ValuesFrom(NamesOf(entries), ValuesOf(entries), 0)
  {
    if |entries| > 1 {
      PairsJoined(entries, 0);
      assert PairsFrom(entries, 0) == seq(|entries|, i requires 0 <= i < |entries| => entries[i].name + "=" + entries[i].value.text);
    }
  }

  lemma SameTexts(one: seq<KeyEntry>, other: seq<KeyEntry>)
    requires one != [] && NamesOf(one) == NamesOf(other)
    ensures KeyText(one) == KeyText(other) <==>
            ValuesFrom(NamesOf(one), ValuesOf(one), 0) == ValuesFrom(NamesOf(one), ValuesOf(other), 0)
  {
    hide KeyText, ValuesFrom;
    KeyTextIs(one);
    KeyTextIs(other);
    assert one[0].name == NamesOf(one)[0] == NamesOf(other)[0] == other[0].name;
    var head := if |one| == 1 then "" else one[0].name + "=";
    var v, w := ValuesFrom(NamesOf(one), ValuesOf(one), 0), ValuesFrom(NamesOf(one), ValuesOf(other), 0);
    if head + v == head + w {
      SamePrefix(head, v, head, w);
    }
  }

  /** Two keys of the same names, none of whose values holds the separator behind it, have the
      same text exactly when they have the same values. */
  lemma SeparableKeysApart(one: seq<KeyEntry>, other: seq<KeyEntry>)
    requires NamedByWords(one) && NamesOf(one) == NamesOf(other)
    requires Separable(NamesOf(one), ValuesOf(one)) && Separable(NamesOf(other), ValuesOf(other))
    ensures KeyText(one) == KeyText(other) <==> ValuesOf(one) == ValuesOf(other)
  {
    hide KeyText, ValuesFrom, Separable;
    SameTexts(one, other);
    WordsAreCommaFree(one);
    var v, w := ValuesOf(one), ValuesOf(other);
    if KeyText(one) == KeyText(other) {
      SeparableSame(NamesOf(one), v, w, 0);
      assert v[0..] == v && w[0..] == w;
    }
  }

  /** Every other key of the same names with the same text has the same values. */
  ghost predicate ToldByText(entries: seq<KeyEntry>) {
    forall other: seq<KeyEntry> :: NamesOf(other) == NamesOf(entries) && KeyText(other) == KeyText(entries) ==>
      ValuesOf(other) == ValuesOf(entries)
  }

  /** Exactly when a key is told by its text: no value holds, in the text of the separator, the
      name before it or the name behind it. */
  lemma KeyToldByText(entries: seq<KeyEntry>)
    requires NamedByWords(entries)
    ensures ToldByText(entries) <==>
            Separable(NamesOf(entries), ValuesOf(entries)) && Unrepeated(NamesOf(entries), ValuesOf(entries))
  {
    hide KeyText, ValuesFrom, Separable, Unrepeated;
    var names, values := NamesOf(entries), ValuesOf(entries);
    WordsAreCommaFree(entries);
    if Separable(names, values) && Unrepeated(names, values) {
      forall other: seq<KeyEntry> | NamesOf(other) == names && KeyText(other) == KeyText(entries)
        ensures ValuesOf(other) == values
      {
        SameTexts(entries, other);
        UniqueReading(names, values, ValuesOf(other), 0);
        assert values[0..] == values && ValuesOf(other)[0..] == ValuesOf(other);
      }
    } else {
      var others := OtherReading(names, values);
      var other := Requoted(names, others);
      SameTexts(entries, other);
      assert ValuesOf(other) == others && NamesOf(other) == names;
    }
  }

  function Requoted(names: seq<string>, values: seq<string>): (entries: seq<KeyEntry>)
    requires |names| == |values|
    ensures NamesOf(entries) == names && ValuesOf(entries) == values
  {
    var entries := seq(|names|, i requires 0 <= i < |names| => KeyEntry(names[i], Quoted(values[i])));
    assert NamesOf(entries) == names && ValuesOf(entries) == values;
    entries
  }

  predicate Printable(o: Options, root: string, entitySet: string, entries: seq<KeyEntry>) {
    && GoodBase(o, root, entitySet) && GoodKey(entries) && Utf8(KeyText(entries))
    && |BuildKeyLiteral(entries)| <= MAX_KEY_EXPRESSION_LENGTH
  }

  function RewrittenPath(o: Options, root: string, entitySet: string, entries: seq<KeyEntry>): string {
    RewriteODataUrl(o, BuildEntityKeyPath(root, entitySet, entries))
  }

  /** Printed paths of one set are rewritten to the same path exactly when the texts of the keys
      agree. */
  lemma PathsAgree(o: Options, root: string, entitySet: string, one: seq<KeyEntry>, other: seq<KeyEntry>)
    requires Printable(o, root, entitySet, one) && Printable(o, root, entitySet, other)
    ensures RewrittenPath(o, root, entitySet, one) == RewrittenPath(o, root, entitySet, other) <==> KeyText(one) == KeyText(other)
  {
    hide GoodBase, GoodKey, KeyText, BuildKeyLiteral, RewriteODataUrl, BuildEntityKeyPath, SetPath, Encode, PercentDecode;
    KeyRoundTrip.KeyRoundTrip(o, root, entitySet, one, "");
    KeyRoundTrip.KeyRoundTrip(o, root, entitySet, other, "");
    var p, q := BuildEntityKeyPath(root, entitySet, one), BuildEntityKeyPath(root, entitySet, other);
    assert p + "" == p && q + "" == q;
    var base, x, y := SetPath(root, entitySet) + "/", Encode(KeyText(one), true), Encode(KeyText(other), true);
    assert base + x + "" == base + x && base + y + "" == base + y;
    if base + x == base + y {
      SamePrefix(base, x, base, y);
    }
  }

  /** A key none of whose values holds a neighbouring separator is told by its rewritten path: no
      other key of its names, however odd, has the same. */
  lemma PathTellsKey(o: Options, root: string, entitySet: string, one: seq<KeyEntry>, other: seq<KeyEntry>)
    requires Printable(o, root, entitySet, one) && Printable(o, root, entitySet, other) && NamesOf(one) == NamesOf(other)
    requires Separable(NamesOf(one), ValuesOf(one)) && Unrepeated(NamesOf(one), ValuesOf(one))
    ensures RewrittenPath(o, root, entitySet, one) == RewrittenPath(o, root, entitySet, other) <==>
            ValuesOf(one) == ValuesOf(other)
  {
    hide Printable, RewrittenPath, Separable, Unrepeated, KeyText, ValuesFrom;
    PathsAgree(o, root, entitySet, one, other);
    GoodNames(o, root, entitySet, one);
    KeyToldByText(one);
    SameTexts(one, other);
  }

  lemma GoodNames(o: Options, root: string, entitySet: string, entries: seq<KeyEntry>)
    requires Printable(o, root, entitySet, entries)
    ensures NamedByWords(entries)
  {
    hide GoodBase, KeyText, BuildKeyLiteral, PlainWord;
  }

  lemma {:induction false} InJoin(parts: seq<string>, i: nat, c: char)
    requires i < |parts| && c in parts[i]
    ensures c in Join(parts, ",")
    decreases |parts|
  {
    if i > 0 {
      InJoin(parts[1..], i - 1, c);
    }
  }

  lemma ValueInText(entries: seq<KeyEntry>, i: nat, c: char)
    requires i < |entries| && c in entries[i].value.text
    ensures c in KeyText(entries)
  {
    if |entries| > 1 {
      var parts := seq(|entries|, i requires 0 <= i < |entries| => entries[i].name + "=" + entries[i].value.text);
      assert c in parts[i];
      InJoin(parts, i, c);
    }
  }

  lemma TextHasNo(entries: seq<KeyEntry>, c: char)
    requires PlainKey(entries) && (c == '%' || c == '?' || c == '#')
    ensures c !in KeyText(entries)
  {
    hide PlainWord;
    forall i | 0 <= i < |entries| ensures c !in entries[i].value.text && c !in entries[i].name {
      assert PlainValue(entries[i].value);
      WordHasNo(entries[i].name, c);
      if !entries[i].value.Quoted? {
        WordHasNo(entries[i].value.text, c);
      }
    }
    hide PlainKey;
    if |entries| != 1 {
      JoinHasNo(seq(|entries|, i requires 0 <= i < |entries| => entries[i].name + "=" + entries[i].value.text), c);
    }
  }

  /** And otherwise it is not: some other key of string values is printed and rewritten to the same
      path, as long as its literal is not too long. */
  lemma PathMistaken(o: Options, root: string, entitySet: string, one: seq<KeyEntry>) returns (other: seq<KeyEntry>)
    requires Printable(o, root, entitySet, one) && PlainKey(one)
    requires !(Separable(NamesOf(one), ValuesOf(one)) && Unrepeated(NamesOf(one), ValuesOf(one)))
    ensures NamesOf(other) == NamesOf(one) && ValuesOf(other) != ValuesOf(one) && PlainKey(other)
    ensures |BuildKeyLiteral(other)| <= MAX_KEY_EXPRESSION_LENGTH ==>
              RewrittenPath(o, root, entitySet, other) == RewrittenPath(o, root, entitySet, one)
  {
    hide GoodBase, GoodKey, KeyText, BuildKeyLiteral, RewrittenPath, Separable, Unrepeated, ValuesFrom, PlainWord, Utf8, Holds;
    GoodNames(o, root, entitySet, one);
    var others := OtherReading(NamesOf(one), ValuesOf(one));
    other := Requoted(NamesOf(one), others);
    SameTexts(one, other);
    forall i | 0 <= i < |other| ensures PlainValue(other[i].value) && PlainWord(other[i].name) {
      RequotedIsPlain(one, other, i);
    }
    PlainIsGood(other);
    if |BuildKeyLiteral(other)| <= MAX_KEY_EXPRESSION_LENGTH {
      PathsAgree(o, root, entitySet, one, other);
    }
  }

  lemma RequotedIsPlain(one: seq<KeyEntry>, other: seq<KeyEntry>, i: nat)
    requires PlainKey(one) && NamesOf(other) == NamesOf(one) && KeyText(other) == KeyText(one) && i < |other|
    requires other[i].value.Quoted?
    ensures PlainValue(other[i].value) && PlainWord(other[i].name)
  {
    hide KeyText, PlainWord;
    forall c | c in other[i].value.text && (c == '%' || c == '?' || c == '#') ensures false {
      ValueInText(other, i, c);
      TextHasNo(one, c);
    }
    assert other[i].name == NamesOf(other)[i] == NamesOf(one)[i] == one[i].name;
  }

  lemma PairText(a: string, v: string, b: string, w: string)
    ensures KeyText([KeyEntry(a, Quoted(v)), KeyEntry(b, Quoted(w))]) == (a + "=" + v) + "," + (b + "=" + w)
  {
    var es := [KeyEntry(a, Quoted(v)), KeyEntry(b, Quoted(w))];
    var parts := [a + "=" + v, b + "=" + w];
    assert seq(|es|, i requires 0 <= i < |es| => es[i].name + "=" + es[i].value.text) == parts;
    assert parts[1..] == [b + "=" + w];
    assert Join(parts[1..], ",") == b + "=" + w;
    assert Join(parts, ",") == parts[0] + "," + Join(parts[1..], ",");
  }

  /** Two keys with one text: the second value of the one holds `,b=` behind its own, the first
      value of the other before it. */
  lemma CompositeKeysCollide()
    ensures var one := [KeyEntry("a", Quoted("1")), KeyEntry("b", Quoted("2,b=3"))];
            var other := [KeyEntry("a", Quoted("1,b=2")), KeyEntry("b", Quoted("3"))];
            ValuesOf(one)[0] != ValuesOf(other)[0] && KeyText(one) == KeyText(other)
  {
    PairText("a", "1", "b", "2,b=3");
    PairText("a", "1,b=2", "b", "3");
    hide KeyText;
    assert "a=1" + "," + "b=2,b=3" == "a=1,b=2" + "," + "b=3";
    assert "a" + "=" + "1" == "a=1" && "b" + "=" + "2,b=3" == "b=2,b=3";
    assert "a" + "=" + "1,b=2" == "a=1,b=2" && "b" + "=" + "3" == "b=3";
    assert |"1"| != |"1,b=2"|;
  }
}
