/** Rewriting the path the printer makes of an entity key gives back the key's values. */
module KeyRoundTrip {
  import opened ByteStrings
  import opened PercentEncoding
  import opened KeyLiteral

  // ------------------------------------------------------------------ quoting

  lemma {:induction false} UndoubledDoubled(s: string)
    ensures Undoubled(Doubled(s)) == s
    decreases |s|
  {
    if s != "" {
      UndoubledDoubled(s[1..]);
      var rest := Doubled(s[1..]);
      assert [s[0]] + s[1..] == s;
      if s[0] == QUOTE {
        assert ([QUOTE, QUOTE] + rest)[2..] == rest;
      } else {
        assert ([s[0]] + rest)[1..] == rest;
      }
    }
  }

  lemma {:induction false} UndoubledPlain(s: string)
    requires QUOTE !in s
    ensures Undoubled(s) == s
    decreases |s|
  {
    if s != "" {
      UndoubledPlain(s[1..]);
      assert s[0] != QUOTE;
      assert [s[0]] + s[1..] == s;
    }
  }

  lemma {:induction false} DoubledKeeps(s: string, c: char)
    requires c != QUOTE
    ensures c in Doubled(s) <==> c in s
    decreases |s|
  {
    if s != "" {
      DoubledKeeps(s[1..], c);
      assert s == [s[0]] + s[1..];
    }
  }

  // ------------------------------------------------------------------ scanning what was printed

  /** Text without strings, optionally followed by one string. */
  datatype Piece = Piece(plain: string, quoted: Option<string>)

  function PieceText(p: Piece): string {
    p.plain + if p.quoted.Some? then Quote(p.quoted.value) else ""
  }

  predicate IsPlain(s: string) {
    QUOTE !in s && ',' !in s && ')' !in s
  }

  /** What may follow a string without being read as part of it. */
  predicate EndsString(rest: string) {
    rest == "" || rest[0] != QUOTE
  }

  lemma DoubledStep(s: string, rest: string)
    requires s != ""
    ensures s[0] == QUOTE ==> Doubled(s) + rest == [QUOTE, QUOTE] + (Doubled(s[1..]) + rest)
    ensures s[0] != QUOTE ==> Doubled(s) + rest == [s[0]] + (Doubled(s[1..]) + rest)
  {
    var tail := Doubled(s[1..]);
    assert Doubled(s) == (if s[0] == QUOTE then [QUOTE, QUOTE] else [s[0]]) + tail;
    hide Doubled;
    if s[0] == QUOTE {
      AppendAssoc([QUOTE, QUOTE], tail, rest);
    } else {
      AppendAssoc([s[0]], tail, rest);
    }
  }

  lemma {:induction false} KeyEndInside(s: string, rest: string, pos: nat)
    requires EndsString(rest) && pos + |Doubled(s)| <= MAX_KEY_EXPRESSION_LENGTH
    ensures KeyEnd(Doubled(s) + ([QUOTE] + rest), pos, true) == KeyEnd(rest, pos + |Doubled(s)| + 1, false)
    decreases |s|
  {
    var after := [QUOTE] + rest;
    if s == "" {
      assert Doubled(s) + after == after && after[1..] == rest;
    } else {
      DoubledStep(s, after);
      var text, tail := Doubled(s) + after, Doubled(s[1..]) + after;
      assert text[1..] == if s[0] == QUOTE then [QUOTE] + tail else tail;
      if s[0] == QUOTE {
        assert text[2..] == tail;
        KeyEndInside(s[1..], rest, pos + 2);
      } else {
        KeyEndInside(s[1..], rest, pos + 1);
      }
    }
  }

  lemma {:induction false} KeyEndPlain(x: string, rest: string, pos: nat)
    requires QUOTE !in x && ')' !in x && pos + |x| <= MAX_KEY_EXPRESSION_LENGTH + 1
    ensures KeyEnd(x + rest, pos, false) == KeyEnd(rest, pos + |x|, false)
    decreases |x|
  {
    if x == "" {
      assert x + rest == rest;
    } else {
      assert x[0] in x;
      assert (x + rest)[1..] == x[1..] + rest;
      KeyEndPlain(x[1..], rest, pos + 1);
    }
  }

  lemma KeyEndPiece(p: Piece, rest: string, pos: nat)
    requires IsPlain(p.plain) && EndsString(rest) && pos + |PieceText(p)| <= MAX_KEY_EXPRESSION_LENGTH
    ensures KeyEnd(PieceText(p) + rest, pos, false) == KeyEnd(rest, pos + |PieceText(p)|, false)
  {
    hide KeyEnd;
    if p.quoted.None? {
      assert PieceText(p) == p.plain;
      KeyEndPlain(p.plain, rest, pos);
    } else {
      var s := p.quoted.value;
      var inner := Doubled(s) + ([QUOTE] + rest);
      assert PieceText(p) + rest == p.plain + ([QUOTE] + inner);
      KeyEndPlain(p.plain, [QUOTE] + inner, pos);
      KeyEndOpens(inner, pos + |p.plain|);
      KeyEndInside(s, rest, pos + |p.plain| + 1);
    }
  }

  lemma KeyEndOpens(inner: string, pos: nat)
    ensures KeyEnd([QUOTE] + inner, pos, false) == KeyEnd(inner, pos + 1, true)
  {
    assert ([QUOTE] + inner)[1..] == inner;
  }

  lemma SplitDoubled(tail: string, current: string)
    ensures SplitTopLevel([QUOTE, QUOTE] + tail, current, true) == SplitTopLevel(tail, current + [QUOTE, QUOTE], true)
  {
    hide Part;
    assert ([QUOTE, QUOTE] + tail)[2..] == tail;
  }

  lemma SplitOther(c: char, tail: string, current: string)
    requires c != QUOTE
    ensures SplitTopLevel([c] + tail, current, true) == SplitTopLevel(tail, current + [c], true)
  {
    hide Part;
    assert ([c] + tail)[1..] == tail;
  }

  lemma SplitCloses(rest: string, current: string)
    requires EndsString(rest)
    ensures SplitTopLevel([QUOTE] + rest, current, true) == SplitTopLevel(rest, current + [QUOTE], false)
  {
    hide Part;
    assert ([QUOTE] + rest)[1..] == rest;
  }

  lemma {:induction false} SplitInside(s: string, rest: string, current: string)
    requires EndsString(rest)
    ensures SplitTopLevel(Doubled(s) + ([QUOTE] + rest), current, true)
         == SplitTopLevel(rest, current + Doubled(s) + [QUOTE], false)
    decreases |s|
  {
    hide SplitTopLevel, EndsString;
    var after := [QUOTE] + rest;
    if s == "" {
      assert Doubled(s) + after == after;
      SplitCloses(rest, current);
      assert current + Doubled(s) == current;
    } else {
      DoubledStep(s, after);
      var tail := Doubled(s[1..]) + after;
      if s[0] == QUOTE {
        SplitDoubled(tail, current);
        SplitInside(s[1..], rest, current + [QUOTE, QUOTE]);
        AppendAssoc(current, [QUOTE, QUOTE], Doubled(s[1..]));
      } else {
        SplitOther(s[0], tail, current);
        SplitInside(s[1..], rest, current + [s[0]]);
        AppendAssoc(current, [s[0]], Doubled(s[1..]));
      }
    }
  }

  lemma {:induction false} SplitPlain(x: string, rest: string, current: string)
    requires QUOTE !in x && ',' !in x
    ensures SplitTopLevel(x + rest, current, false) == SplitTopLevel(rest, current + x, false)
    decreases |x|
  {
    hide Part;
    if x == "" {
      assert x + rest == rest && current + x == current;
    } else {
      assert x[0] in x;
      assert (x + rest)[1..] == x[1..] + rest;
      SplitPlain(x[1..], rest, current + [x[0]]);
      assert current + [x[0]] + x[1..] == current + x;
    }
  }

  lemma PlainHasNo(s: string)
    requires IsPlain(s)
    ensures QUOTE !in s && ',' !in s && ')' !in s
  {
  }

  lemma SplitPiece(p: Piece, rest: string)
    requires IsPlain(p.plain) && EndsString(rest)
    ensures SplitTopLevel(PieceText(p) + rest, "", false) == SplitTopLevel(rest, PieceText(p), false)
  {
    hide SplitTopLevel, Doubled, EndsString, IsPlain;
    assert QUOTE !in p.plain && ',' !in p.plain by { PlainHasNo(p.plain); }
    assert "" + p.plain == p.plain;
    if p.quoted.None? {
      assert PieceText(p) == p.plain;
      SplitPlain(p.plain, rest, "");
    } else {
      var s := p.quoted.value;
      var inner := Doubled(s) + ([QUOTE] + rest);
      assert PieceText(p) + rest == p.plain + ([QUOTE] + inner);
      SplitPlain(p.plain, [QUOTE] + inner, "");
      SplitOpens(inner, p.plain);
      SplitInside(s, rest, p.plain + [QUOTE]);
      AppendAssoc(p.plain, [QUOTE], Doubled(s));
      AppendAssoc(p.plain, [QUOTE] + Doubled(s), [QUOTE]);
    }
  }

  lemma SplitOpens(inner: string, current: string)
    ensures SplitTopLevel([QUOTE] + inner, current, false) == SplitTopLevel(inner, current + [QUOTE], true)
  {
    assert ([QUOTE] + inner)[1..] == inner;
  }

  lemma {:induction false} EqualsInside(s: string, pos: nat)
    ensures FindTopLevelEquals(Doubled(s) + [QUOTE], pos, true) == -1
    decreases |s|
  {
    var after: string := [QUOTE];
    if s == "" {
      assert Doubled(s) + after == after && after[1..] == "";
    } else {
      DoubledStep(s, after);
      var text, tail := Doubled(s) + after, Doubled(s[1..]) + after;
      assert text[1..] == if s[0] == QUOTE then [QUOTE] + tail else tail;
      if s[0] == QUOTE {
        assert text[2..] == tail;
        EqualsInside(s[1..], pos + 2);
      } else {
        EqualsInside(s[1..], pos + 1);
      }
    }
  }

  lemma {:induction false} EqualsPlain(x: string, rest: string, pos: nat)
    requires QUOTE !in x && '=' !in x
    ensures FindTopLevelEquals(x + rest, pos, false) == FindTopLevelEquals(rest, pos + |x|, false)
    decreases |x|
  {
    if x == "" {
      assert x + rest == rest;
    } else {
      assert x[0] in x;
      assert (x + rest)[1..] == x[1..] + rest;
      EqualsPlain(x[1..], rest, pos + 1);
    }
  }

  lemma NoEquals(p: Piece)
    requires IsPlain(p.plain) && '=' !in p.plain
    ensures FindTopLevelEquals(PieceText(p), 0, false) == -1
  {
    if p.quoted.None? {
      assert PieceText(p) == p.plain + "";
      EqualsPlain(p.plain, "", 0);
    } else {
      var inner := Doubled(p.quoted.value) + [QUOTE];
      assert PieceText(p) == p.plain + ([QUOTE] + inner);
      EqualsPlain(p.plain, [QUOTE] + inner, 0);
      assert ([QUOTE] + inner)[1..] == inner;
      EqualsInside(p.quoted.value, |p.plain| + 1);
    }
  }

  // ------------------------------------------------------------------ lists of pieces

  function Texts(ps: seq<Piece>): seq<string> {
    seq(|ps|, i requires 0 <= i < |ps| => PieceText(ps[i]))
  }

  predicate PlainPieces(ps: seq<Piece>) {
    forall i :: 0 <= i < |ps| ==> IsPlain(ps[i].plain)
  }

  lemma TextsStep(ps: seq<Piece>)
    requires |ps| > 1
    ensures Texts(ps)[1..] == Texts(ps[1..])
    ensures Join(Texts(ps), ",") == PieceText(ps[0]) + ([','] + Join(Texts(ps[1..]), ","))
  {
    assert Texts(ps)[1..] == Texts(ps[1..]);
  }

  lemma {:induction false} KeyEndPieces(ps: seq<Piece>, tail: string, pos: nat)
    requires ps != [] && PlainPieces(ps) && pos + |Join(Texts(ps), ",")| <= MAX_KEY_EXPRESSION_LENGTH
    ensures KeyEnd(Join(Texts(ps), ",") + ([')'] + tail), pos, false) == Some(pos + |Join(Texts(ps), ",")|)
    decreases |ps|
  {
    hide KeyEnd, PieceText;
    var end := [')'] + tail;
    if |ps| == 1 {
      KeyEndPiece(ps[0], end, pos);
      KeyEndStops(tail, pos + |PieceText(ps[0])|);
    } else {
      TextsStep(ps);
      var more := Join(Texts(ps[1..]), ",");
      assert Join(Texts(ps), ",") + end == PieceText(ps[0]) + ([','] + (more + end));
      var at := pos + |PieceText(ps[0])|;
      KeyEndPiece(ps[0], [','] + (more + end), pos);
      KeyEndPlain([','], more + end, at);
      KeyEndPieces(ps[1..], tail, at + 1);
    }
  }

  lemma KeyEndStops(tail: string, pos: nat)
    requires pos <= MAX_KEY_EXPRESSION_LENGTH
    ensures KeyEnd([')'] + tail, pos, false) == Some(pos)
  {
  }

  predicate ProperTexts(ps: seq<Piece>) {
    forall i :: 0 <= i < |ps| ==> PieceText(ps[i]) != "" && Trim(PieceText(ps[i])) == PieceText(ps[i])
  }

  lemma {:induction false} SplitPieces(ps: seq<Piece>)
    requires ps != [] && PlainPieces(ps) && ProperTexts(ps)
    ensures SplitTopLevel(Join(Texts(ps), ","), "", false) == Texts(ps)
    decreases |ps|
  {
    hide SplitTopLevel, PieceText, Trim;
    var text := PieceText(ps[0]);
    if |ps| == 1 {
      SplitPiece(ps[0], "");
      assert Join(Texts(ps), ",") == text + "";
      SplitEnds(text);
      assert Texts(ps) == [text];
    } else {
      TextsStep(ps);
      var more := Join(Texts(ps[1..]), ",");
      SplitPiece(ps[0], [','] + more);
      SplitAtComma(more, text);
      SplitPieces(ps[1..]);
      assert Texts(ps) == [text] + Texts(ps[1..]);
    }
  }

  lemma SplitEnds(current: string)
    ensures SplitTopLevel("", current, false) == Part(current)
  {
  }

  lemma SplitAtComma(more: string, current: string)
    ensures SplitTopLevel([','] + more, current, false) == Part(current) + SplitTopLevel(more, "", false)
  {
    assert ([','] + more)[1..] == more;
  }

  // ------------------------------------------------------------------ printed keys as pieces

  /** Identifiers, numbers, dates: nothing that means something to a path or to the parser. */
  predicate PlainWord(s: string) {
    s != "" && forall c <- s :: !Special(c) && !IsSpace(c)
  }

  predicate Special(c: char) {
    c == QUOTE || c == ',' || c == '=' || c == '(' || c == ')' || c == '%' || c == '?' || c == '#'
  }

  /** Strings may hold anything but what ends a path, and nothing that decodes to something else. */
  predicate GoodValue(v: KeyValue) {
    match v
    case Bare(t) => PlainWord(t)
    case DateTime(t) => PlainWord(t)
    case Quoted(t) => '?' !in t && '#' !in t && DecodeComponent(Quote(t)) == Quote(t)
  }

  predicate GoodKey(entries: seq<KeyEntry>) {
    entries != [] && forall i :: 0 <= i < |entries| ==> PlainWord(entries[i].name) && GoodValue(entries[i].value)
  }

  lemma WithoutPercent(t: string)
    requires '?' !in t && '#' !in t && '%' !in t
    ensures GoodValue(Quoted(t))
  {
    DoubledKeeps(t, '%');
    NothingEncoded(Quote(t));
  }

  function PieceOf(v: KeyValue): Piece {
    match v
    case Bare(t) => Piece(t, None)
    case DateTime(t) => Piece("datetime", Some(t))
    case Quoted(t) => Piece("", Some(t))
  }

  lemma {:induction false} DoubledPlain(s: string)
    requires QUOTE !in s
    ensures Doubled(s) == s
    decreases |s|
  {
    if s != "" {
      DoubledPlain(s[1..]);
      assert s[0] in s && [s[0]] + s[1..] == s;
    }
  }

  lemma WordHasNo(s: string, c: char)
    requires PlainWord(s) && Special(c)
    ensures c !in s
  {
  }

  lemma WordIsPlain(s: string)
    requires PlainWord(s)
    ensures IsPlain(s) && '=' !in s
  {
    hide PlainWord;
    WordHasNo(s, QUOTE);
    WordHasNo(s, ',');
    WordHasNo(s, ')');
    WordHasNo(s, '=');
  }

  lemma ValuePiece(v: KeyValue)
    requires GoodValue(v)
    ensures SerializeKeyValue(v) == PieceText(PieceOf(v)) && IsPlain(PieceOf(v).plain) && '=' !in PieceOf(v).plain
  {
    hide PlainWord, Doubled, DecodeComponent;
    if v.Bare? {
      WordIsPlain(v.text);
      hide IsPlain;
    } else if v.DateTime? {
      WordHasNo(v.text, QUOTE);
      DoubledPlain(v.text);
      assert "datetime" + [QUOTE] == "datetime'";
    }
  }

  lemma TrimmedStays(s: string)
    requires s != "" && !IsSpace(s[0]) && !IsSpace(s[|s| - 1])
    ensures Trim(s) == s
  {
  }

  lemma ValueEnds(v: KeyValue)
    requires GoodValue(v)
    ensures var s := SerializeKeyValue(v); s != "" && !IsSpace(s[0]) && !IsSpace(s[|s| - 1])
  {
    match v
    case Bare(t) => assert t[0] in t && t[|t| - 1] in t;
    case DateTime(t) =>
    case Quoted(t) =>
  }

  lemma {:induction false} RunOf(s: string, rest: string)
    requires forall i :: 0 <= i < |s| ==> IsSegmentChar(s[i])
    requires rest != "" && !IsSegmentChar(rest[0])
    ensures SegmentRun(s + rest) == |s|
    decreases |s|
  {
    if s == "" {
      assert s + rest == rest;
    } else {
      assert (s + rest)[1..] == s[1..] + rest;
      RunOf(s[1..], rest);
    }
  }

  lemma NoPrefix(s: string)
    requires QUOTE !in s || (s != "" && s[0] == QUOTE)
    ensures TypePrefix(s) == 0
  {
  }

  lemma DatePrefix(t: string)
    ensures TypePrefix("datetime'" + t) == 9
  {
    var word, rest: string := "datetime", "'" + t;
    assert word + rest == "datetime'" + t;
    RunOf(word, rest);
  }

  lemma SerializedDecodes(v: KeyValue)
    requires GoodValue(v)
    ensures DecodeComponent(SerializeKeyValue(v)) == SerializeKeyValue(v)
  {
    hide PlainWord;
    if !v.Quoted? {
      WordHasNo(v.text, '%');
      NothingEncoded(SerializeKeyValue(v));
    }
  }

  /** The parser undoes the printer on every value. */
  lemma LiteralReadBack(v: KeyValue)
    requires GoodValue(v)
    ensures NormalizeLiteral(SerializeKeyValue(v)) == v.text
  {
    hide DecodeComponent, Trim, TypePrefix, Undoubled;
    var s := SerializeKeyValue(v);
    ValueEnds(v);
    TrimmedStays(s);
    SerializedDecodes(v);
    match v
    case Bare(t) =>
      WordHasNo(t, QUOTE);
      NoPrefix(t);
      UndoubledPlain(t);
    case DateTime(t) =>
      WordHasNo(t, QUOTE);
      assert s == "datetime'" + (t + "'");
      DatePrefix(t + "'");
      assert s[9..] == t + "'";
      UndoubledPlain(t);
    case Quoted(t) =>
      NoPrefix(s);
      assert s[1..|s| - 1] == Doubled(t);
      UndoubledDoubled(t);
  }

  function Pair(e: KeyEntry): string {
    e.name + "=" + SerializeKeyValue(e.value)
  }

  function PairPiece(e: KeyEntry): Piece {
    Piece(e.name + "=" + PieceOf(e.value).plain, PieceOf(e.value).quoted)
  }

  lemma PairAsPiece(e: KeyEntry)
    requires PlainWord(e.name) && GoodValue(e.value)
    ensures Pair(e) == PieceText(PairPiece(e)) && IsPlain(PairPiece(e).plain)
  {
    hide PlainWord, SerializeKeyValue, GoodValue;
    ValuePiece(e.value);
    WordHasNo(e.name, QUOTE);
    WordHasNo(e.name, ',');
    WordHasNo(e.name, ')');
    var p := PieceOf(e.value);
    if p.quoted.Some? {
      AppendAssoc(e.name + "=", p.plain, Quote(p.quoted.value));
    }
  }

  lemma PairReadBack(e: KeyEntry)
    requires PlainWord(e.name) && GoodValue(e.value)
    ensures IsAssignment(Pair(e)) && NormalizePair(Pair(e)) == e.name + "=" + e.value.text
    ensures Pair(e) != "" && Trim(Pair(e)) == Pair(e)
  {
    hide SerializeKeyValue, GoodValue, NormalizeLiteral, Trim, DecodeComponent, IsSpace;
    var lit := SerializeKeyValue(e.value);
    WordHasNo(e.name, QUOTE);
    WordHasNo(e.name, '=');
    WordHasNo(e.name, '%');
    assert Pair(e) == e.name + (['='] + lit);
    EqualsPlain(e.name, ['='] + lit, 0);
    assert e.name[0] in e.name && e.name[|e.name| - 1] in e.name;
    TrimmedStays(e.name);
    NothingDecoded(e.name);
    LiteralReadBack(e.value);
    ValueEnds(e.value);
    TrimmedStays(Pair(e));
    assert Pair(e)[..|e.name|] == e.name && Pair(e)[|e.name| + 1..] == lit;
  }

  lemma NothingDecoded(s: string)
    requires '%' !in s
    ensures DecodeComponent(s) == s
  {
    NothingEncoded(s);
  }

  /** What a key reads back as: the value alone, or the named values of a composite key. */
  function KeyText(entries: seq<KeyEntry>): string {
    if |entries| == 1 then entries[0].value.text
    else Join(seq(|entries|, i requires 0 <= i < |entries| => entries[i].name + "=" + entries[i].value.text), ",")
  }

  function Pieces(entries: seq<KeyEntry>): seq<Piece> {
    if |entries| == 1 then [PieceOf(entries[0].value)]
    else seq(|entries|, i requires 0 <= i < |entries| => PairPiece(entries[i]))
  }

  lemma KeyAsPieces(entries: seq<KeyEntry>)
    requires GoodKey(entries)
    ensures PlainPieces(Pieces(entries)) && KeyParts(entries) == Texts(Pieces(entries)) && |Pieces(entries)| == |entries|
    ensures ProperTexts(Pieces(entries))
  {
    hide SerializeKeyValue, PieceOf, PieceText, PairPiece, IsPlain, Trim, PlainWord, GoodValue, IsSpace;
    if |entries| == 1 {
      ValuePiece(entries[0].value);
      ValueEnds(entries[0].value);
      TrimmedStays(SerializeKeyValue(entries[0].value));
    } else {
      forall i | 0 <= i < |entries|
        ensures IsPlain(PairPiece(entries[i]).plain) && PieceText(PairPiece(entries[i])) == Pair(entries[i])
        ensures Pair(entries[i]) != "" && Trim(Pair(entries[i])) == Pair(entries[i])
      {
        PairAsPiece(entries[i]);
        PairReadBack(entries[i]);
      }
    }
  }

  lemma {:induction false} JoinEnds(parts: seq<string>)
    requires parts != [] && forall i :: 0 <= i < |parts| ==> parts[i] != ""
    ensures var s := Join(parts, ","); s != "" && s[0] == parts[0][0] && s[|s| - 1] == parts[|parts| - 1][|parts[|parts| - 1]| - 1]
    decreases |parts|
  {
    if |parts| > 1 {
      JoinEnds(parts[1..]);
    }
  }

  lemma TrimEnds(s: string)
    requires Trim(s) == s && s != ""
    ensures !IsSpace(s[0]) && !IsSpace(s[|s| - 1])
  {
  }

  lemma LiteralTrimmed(entries: seq<KeyEntry>)
    requires GoodKey(entries)
    ensures Trim(BuildKeyLiteral(entries)) == BuildKeyLiteral(entries)
    ensures BuildKeyLiteral(entries) == Join(Texts(Pieces(entries)), ",")
  {
    hide GoodKey, Trim, PieceText, Pieces, KeyParts, PlainPieces, Join, IsSpace;
    KeyAsPieces(entries);
    assert |entries| > 0 by { GoodNotEmpty(entries); }
    var texts := Texts(Pieces(entries));
    forall i | 0 <= i < |texts| ensures texts[i] != "" && Trim(texts[i]) == texts[i] {
    }
    JoinEnds(texts);
    TrimEnds(texts[0]);
    TrimEnds(texts[|texts| - 1]);
    TrimmedStays(Join(texts, ","));
  }

  lemma GoodNotEmpty(entries: seq<KeyEntry>)
    requires GoodKey(entries)
    ensures |entries| > 0
  {
  }

  /** Parsing the printed literal gives back the values. */
  lemma ExpressionReadBack(entries: seq<KeyEntry>)
    requires GoodKey(entries)
    ensures NormalizeKeyExpression(BuildKeyLiteral(entries)) == Some(KeyText(entries))
  {
    hide SerializeKeyValue, PieceOf, PieceText, PairPiece, Trim, PlainWord, GoodValue, SplitTopLevel, NormalizeLiteral, NormalizePair;
    LiteralTrimmed(entries);
    KeyAsPieces(entries);
    SplitPieces(Pieces(entries));
    hide PlainPieces, ProperTexts;
    var parts := KeyParts(entries);
    assert SplitTopLevel(Trim(BuildKeyLiteral(entries)), "", false) == parts;
    if |entries| == 1 {
      ValuePiece(entries[0].value);
      NoEquals(PieceOf(entries[0].value));
      LiteralReadBack(entries[0].value);
      SingleNormalized(parts[0]);
    } else {
      forall i | 0 <= i < |parts| ensures IsAssignment(parts[i]) && NormalizePair(parts[i]) == entries[i].name + "=" + entries[i].value.text {
        PairReadBack(entries[i]);
        assert parts[i] == Pair(entries[i]);
      }
      assert seq(|parts|, i requires 0 <= i < |parts| && IsAssignment(parts[i]) => NormalizePair(parts[i]))
          == seq(|entries|, i requires 0 <= i < |entries| => entries[i].name + "=" + entries[i].value.text);
      assert !(forall i :: 0 <= i < |parts| ==> !IsAssignment(parts[i])) by { assert IsAssignment(parts[0]); }
    }
  }

  lemma SingleNormalized(part: string)
    requires !IsAssignment(part)
    ensures var parts := [part];
            Join(seq(|parts|, i requires 0 <= i < |parts| => NormalizeLiteral(parts[i])), ",") == NormalizeLiteral(part)
  {
  }

  // ------------------------------------------------------------------ whole paths

  /** The path up to the key: an undotted set name that is not an operation and ends in a segment
      character, below a root without special characters. */
  predicate GoodBase(o: Options, root: string, entitySet: string) {
    && '(' !in root && '?' !in root && '#' !in root
    && '(' !in entitySet && '?' !in entitySet && '#' !in entitySet && '/' !in entitySet && '.' !in entitySet
    && entitySet != "" && IsSegmentChar(entitySet[|entitySet| - 1])
    && entitySet !in o.operationNames
  }

  function SetPath(root: string, entitySet: string): string {
    root + (if EndsWith(root, "/") then "" else "/") + entitySet
  }

  lemma NameOfSet(root: string, entitySet: string, rest: string)
    requires entitySet != "" && '/' !in entitySet
    ensures var base := SetPath(root, entitySet);
            SegmentStart(base + ("(" + rest), |base|) == |base| - |entitySet|
            && (base + ("(" + rest))[|base| - |entitySet|..|base|] == entitySet
  {
    var prefix := root + (if EndsWith(root, "/") then "" else "/");
    var base, path := SetPath(root, entitySet), SetPath(root, entitySet) + ("(" + rest);
    assert base == prefix + entitySet && prefix[|prefix| - 1] == '/' by {
      if EndsWith(root, "/") {
        assert root[|root| - 1..][0] == '/';
        assert prefix == root;
      }
    }
    TakeAppend(base, "(" + rest, |base|);
    assert path[..|base|] == base;
    assert base[|prefix| - 1] == '/';
    assert forall j :: |prefix| - 1 < j < |base| ==> base[j] == entitySet[j - |prefix|];
    assert forall j :: 0 <= j < |entitySet| ==> entitySet[j] in entitySet;
    LastSlashIs(base, |prefix| - 1);
    assert path[|prefix|..|base|] == base[|prefix|..];
  }

  lemma KeySegmentFound(base: string, entries: seq<KeyEntry>, tail: string)
    requires GoodKey(entries) && base != "" && IsSegmentChar(base[|base| - 1])
    requires |BuildKeyLiteral(entries)| <= MAX_KEY_EXPRESSION_LENGTH
    ensures var literal := BuildKeyLiteral(entries);
            var path := base + ("(" + literal + ")" + tail);
            ExtractKeySegment(path, |base|) == Some(|base| + 1 + |literal|)
            && path[|base| + 1..|base| + 1 + |literal|] == literal
            && path[|base| + 1 + |literal| + 1..] == tail
  {
    hide GoodKey, KeyParts, Pieces, Trim, KeyEnd, Join, PlainPieces, ProperTexts, IsSegmentChar;
    var literal := BuildKeyLiteral(entries);
    var path := base + ("(" + literal + ")" + tail);
    KeyAsPieces(entries);
    LiteralTrimmed(entries);
    GoodNotEmpty(entries);
    KeyEndPieces(Pieces(entries), tail, 0);
    assert path[|base| + 1..] == literal + ([')'] + tail);
    assert path[|base| - 1] == base[|base| - 1];
  }

  lemma FirstParenthesis(base: string, rest: string)
    requires '(' !in base
    ensures IndexOfChar(base + ("(" + rest), '(') == |base|
  {
    var path := base + ("(" + rest);
    assert forall j :: 0 <= j < |base| ==> path[j] == base[j] && base[j] in base;
    FirstCharIs(path, '(', |base|);
  }

  lemma RestUnchanged(o: Options, path: string, index: nat)
    requires index <= |path| && '(' !in path[index..]
    ensures RewriteFrom(o, path, index) == Rewritten(path[index..], [])
  {
  }

  lemma Reassociate(base: string, literal: string, tail: string)
    ensures base + "(" + literal + ")" + tail == base + ("(" + literal + ")" + tail)
    ensures "(" + literal + ")" + tail == "(" + (literal + ")" + tail)
  {
  }

  lemma PathRewritten(o: Options, root: string, entitySet: string, entries: seq<KeyEntry>, tail: string)
    requires GoodBase(o, root, entitySet) && GoodKey(entries) && '(' !in tail
    requires |BuildKeyLiteral(entries)| <= MAX_KEY_EXPRESSION_LENGTH
    ensures var base := SetPath(root, entitySet);
            RewriteFrom(o, base + "(" + BuildKeyLiteral(entries) + ")" + tail, 0)
            == Rewritten(base + "/" + Encode(KeyText(entries), true) + tail, [])
  {
    hide GoodKey, ExtractKeySegment, SegmentStart, BuildKeyLiteral, KeyText, NormalizeKeyExpression, IsSegmentChar, Encode;
    hide ClassifySegment, RewriteFrom, IndexOfChar, MAX_KEY_EXPRESSION_LENGTH;
    var base, literal, encoded := SetPath(root, entitySet), BuildKeyLiteral(entries), Encode(KeyText(entries), true);
    var path := base + ("(" + literal + ")" + tail);
    Reassociate(base, literal, tail);
    assert base != "" && base[|base| - 1] == entitySet[|entitySet| - 1] && '(' !in base;
    PathClassified(o, root, entitySet, entries, literal + ")" + tail);
    hide GoodBase, SetPath;
    FirstParenthesis(base, literal + ")" + tail);
    assert path[0..] == path && path[0..|base|] == base;
    KeySegmentFound(base, entries, tail);
    var close := |base| + 1 + |literal|;
    KeyStep(o, path, |base|, close, encoded);
    RestUnchanged(o, path, close + 1);
  }

  lemma PathClassified(o: Options, root: string, entitySet: string, entries: seq<KeyEntry>, rest: string)
    requires GoodBase(o, root, entitySet) && GoodKey(entries)
    ensures var base := SetPath(root, entitySet);
            var path := base + ("(" + rest);
            ClassifySegment(o, path[SegmentStart(path, |base|)..|base|], BuildKeyLiteral(entries)) == Key(Encode(KeyText(entries), true))
  {
    hide GoodKey, BuildKeyLiteral, KeyText, NormalizeKeyExpression, SetPath, SegmentStart, Encode;
    NameOfSet(root, entitySet, rest);
    ExpressionReadBack(entries);
  }

  lemma KeyStep(o: Options, path: string, open: nat, close: nat, encoded: string)
    requires open < close < |path| && IndexOfChar(path[0..], '(') == open && ExtractKeySegment(path, open) == Some(close)
    requires ClassifySegment(o, path[SegmentStart(path, open)..open], path[open + 1..close]) == Key(encoded)
    ensures RewriteFrom(o, path, 0) == After(path[0..open] + "/" + encoded, [], RewriteFrom(o, path, close + 1))
  {
    hide ExtractKeySegment, SegmentStart, ClassifySegment, IndexOfChar, After;
  }

  lemma NoMark(s: string, c: char)
    requires c !in s
    ensures SplitAt(s, c) == (s, None)
  {
  }

  lemma {:induction false} JoinHasNo(parts: seq<string>, c: char)
    requires c != ',' && forall i :: 0 <= i < |parts| ==> c !in parts[i]
    ensures c !in Join(parts, ",")
    decreases |parts|
  {
    if |parts| > 1 {
      JoinHasNo(parts[1..], c);
    }
  }

  lemma SerializedHasNo(v: KeyValue, c: char)
    requires GoodValue(v) && (c == '?' || c == '#')
    ensures c !in SerializeKeyValue(v)
  {
    hide PlainWord;
    if v.Quoted? {
      DoubledKeeps(v.text, c);
    } else {
      WordHasNo(v.text, c);
    }
  }

  lemma LiteralHasNo(entries: seq<KeyEntry>, c: char)
    requires GoodKey(entries) && (c == '?' || c == '#')
    ensures c !in BuildKeyLiteral(entries)
  {
    hide PlainWord, GoodValue, SerializeKeyValue;
    forall i | 0 <= i < |KeyParts(entries)| ensures c !in KeyParts(entries)[i] {
      SerializedHasNo(entries[i].value, c);
      WordHasNo(entries[i].name, c);
    }
    JoinHasNo(KeyParts(entries), c);
  }

  /** The round trip across both components: for a single or composite key, rewriting the printed
      path - with any further path behind it - yields the path of the set followed by the
      percent-encoded values, whatever quotes, commas, slashes or parentheses they hold; and the
      encoded segment decodes to the values. */
  lemma KeyRoundTrip(o: Options, root: string, entitySet: string, entries: seq<KeyEntry>, tail: string)
    requires GoodBase(o, root, entitySet) && GoodKey(entries)
    requires '(' !in tail && '?' !in tail && '#' !in tail
    requires |BuildKeyLiteral(entries)| <= MAX_KEY_EXPRESSION_LENGTH
    ensures RewriteODataUrl(o, BuildEntityKeyPath(root, entitySet, entries) + tail)
         == SetPath(root, entitySet) + "/" + Encode(KeyText(entries), true) + tail
    ensures Utf8(KeyText(entries)) ==> PercentDecode(Encode(KeyText(entries), true)) == Some(KeyText(entries))
  {
    hide GoodKey, BuildKeyLiteral, KeyText, RewriteFrom, PercentDecode, Encode, SplitAt;
    var url := BuildEntityKeyPath(root, entitySet, entries) + tail;
    assert url == SetPath(root, entitySet) + "(" + BuildKeyLiteral(entries) + ")" + tail;
    LiteralHasNo(entries, '?');
    LiteralHasNo(entries, '#');
    NoMark(url, '#');
    NoMark(url, '?');
    PathRewritten(o, root, entitySet, entries, tail);
    hide GoodBase, SetPath;
    if Utf8(KeyText(entries)) {
      EncodedDecodes(KeyText(entries), true);
    }
    NothingAppended(RewriteFrom(o, url, 0).path);
  }

  lemma NothingAppended(s: string)
    ensures s + "" + "" == s
  {
  }

  /** Strings free of `%`, `?` and `#`. */
  predicate PlainKey(entries: seq<KeyEntry>) {
    entries != [] && forall i :: 0 <= i < |entries| ==> PlainWord(entries[i].name) && PlainValue(entries[i].value)
  }

  predicate PlainValue(v: KeyValue) {
    if v.Quoted? then '%' !in v.text && '?' !in v.text && '#' !in v.text else PlainWord(v.text)
  }

  lemma PlainIsGood(entries: seq<KeyEntry>)
    requires PlainKey(entries)
    ensures GoodKey(entries)
  {
    hide PlainWord;
    forall i | 0 <= i < |entries| ensures GoodValue(entries[i].value) {
      assert PlainValue(entries[i].value);
      if entries[i].value.Quoted? {
        WithoutPercent(entries[i].value.text);
      }
    }
  }

  /** In particular the round trip holds for all keys whose strings hold no `%`, `?` or `#`. */
  lemma PlainKeyRoundTrip(o: Options, root: string, entitySet: string, entries: seq<KeyEntry>, tail: string)
    requires GoodBase(o, root, entitySet) && PlainKey(entries)
    requires '(' !in tail && '?' !in tail && '#' !in tail
    requires |BuildKeyLiteral(entries)| <= MAX_KEY_EXPRESSION_LENGTH
    ensures RewriteODataUrl(o, BuildEntityKeyPath(root, entitySet, entries) + tail)
         == SetPath(root, entitySet) + "/" + Encode(KeyText(entries), true) + tail
    ensures Utf8(KeyText(entries)) ==> PercentDecode(Encode(KeyText(entries), true)) == Some(KeyText(entries))
  {
    hide *;
    PlainIsGood(entries);
    KeyRoundTrip(o, root, entitySet, entries, tail);
  }

  // ------------------------------------------------------------------ where it does not hold

  lemma AsciiEscape()
    ensures IsCharacter("A") && EscapeAll("A") == "%41"
  {
    assert 'A' as int == 65 && 65 / 16 == 4 && 65 % 16 == 1;
    assert Hex(4) == '4' && Hex(1) == '1';
    assert Escape('A') == ['%', '4', '1'] == "%41";
    assert "A"[1..] == "" && EscapeAll("") == "";
    assert EscapeAll("A") == Escape('A') + "";
  }

  lemma PercentDecoded()
    ensures PercentDecode("'%41'") == Some("'A'")
  {
    hide PercentDecode;
    NothingEncoded("");
    DecodePlain(QUOTE, "");
    assert [QUOTE] + "" == "'";
    AsciiEscape();
    DecodeCharacter("A", "'");
    assert "%41" + "'" == "%41'" && "A" + "'" == "A'";
    DecodePlain(QUOTE, "%41'");
    assert [QUOTE] + "%41'" == "'%41'" && [QUOTE] + "A'" == "'A'";
  }

  lemma PercentDoubled()
    ensures SerializeKeyValue(Quoted("%41")) == "'%41'"
  {
    DoubledPlain("%41");
  }

  lemma {:induction false} UndoubledGrows(c: char, x: string)
    ensures |Undoubled(x)| <= |Undoubled([c] + x)| <= 1 + |Undoubled(x)|
    decreases |x|
  {
    var s := [c] + x;
    assert s[1..] == x;
    if c == QUOTE && x != "" && x[0] == QUOTE {
      assert s[2..] == x[1..];
      UndoubledGrows(QUOTE, x[1..]);
      assert [QUOTE] + x[1..] == x;
    }
  }

  lemma {:induction false} UndoubledAppend(a: string, x: string)
    ensures |Undoubled(a + x)| <= |a| + |Undoubled(x)|
    decreases |a|
  {
    if a == "" {
      assert a + x == x;
    } else {
      UndoubledAppend(a[1..], x);
      UndoubledGrows(a[0], a[1..] + x);
      assert [a[0]] + (a[1..] + x) == a + x;
    }
  }

  lemma UndoubledPair(x: string)
    ensures Undoubled([QUOTE, QUOTE] + x) == [QUOTE] + Undoubled(x)
  {
    assert ([QUOTE, QUOTE] + x)[2..] == x;
  }

  lemma DecodeKept(c: char, rest: string)
    requires c != '%'
    ensures PercentDecode([c] + rest).Some? <==> PercentDecode(rest).Some?
    ensures PercentDecode(rest).Some? ==> PercentDecode([c] + rest) == Some([c] + PercentDecode(rest).value)
  {
    assert ([c] + rest)[1..] == rest;
  }

  /** Up to its first quote, a doubled text is the text. */
  lemma {:induction false} DoubledPrefix(t: string, n: nat)
    requires n <= |Doubled(t)| && QUOTE !in Doubled(t)[..n]
    ensures n <= |t| && Doubled(t)[..n] == t[..n] && Doubled(t)[n..] == Doubled(t[n..])
    decreases n
  {
    if n > 0 {
      DoubledFront(t);
      assert Doubled(t)[..n][0] == Doubled(t)[0];
      var tail := Doubled(t[1..]);
      assert Doubled(t)[1..] == tail;
      assert Doubled(t)[..n] == [Doubled(t)[0]] + tail[..n - 1];
      DoubledPrefix(t[1..], n - 1);
      assert Doubled(t)[n..] == tail[n - 1..] && t[1..][n - 1..] == t[n..] && t[..n] == [t[0]] + t[1..][..n - 1];
    }
  }

  lemma {:induction false} EscapesHoldNoQuote(s: string, n: nat)
    requires EscapedBytes(s, n).Some?
    ensures QUOTE !in s[..3 * n]
    decreases n
  {
    if n > 0 {
      EscapesHoldNoQuote(s[3..], n - 1);
      assert s[..3 * n] == [s[0], s[1], s[2]] + s[3..][..3 * (n - 1)];
    }
  }

  /** An escaped character at the front takes three characters of the text for every byte. */
  lemma EscapeInDoubled(t: string)
    requires t != "" && t[0] == '%' && PercentDecode(Doubled(t)).Some?
    ensures EscapedCharacter(Doubled(t)).Some?
    ensures var bs := EscapedCharacter(Doubled(t)).value;
            && 0 < 3 * |bs| <= |t|
            && PercentDecode(Doubled(t[3 * |bs|..])).Some?
            && PercentDecode(Doubled(t)).value == bs + PercentDecode(Doubled(t[3 * |bs|..])).value
  {
    hide EscapedBytes;
    DoubledFront(t);
    var m := Doubled(t);
    var bs := EscapedCharacter(m).value;
    EscapesHoldNoQuote(m, |bs|);
    DoubledPrefix(t, 3 * |bs|);
  }

  lemma DoubledFront(t: string)
    ensures t == "" ==> Doubled(t) == ""
    ensures t != "" ==> Doubled(t)[0] == t[0]
    ensures t != "" && t[0] != QUOTE ==> Doubled(t)[1..] == Doubled(t[1..])
  {
  }

  /** Decoding a doubled text and undoubling it never gives a longer text, and gives a shorter one
      if anything was decoded. */
  lemma {:induction false} DecodedShorter(t: string)
    requires PercentDecode(Doubled(t)).Some?
    ensures var n := |Undoubled(PercentDecode(Doubled(t)).value)|; n <= |t| && ('%' in t ==> n < |t|)
    decreases |t|
  {
    hide PercentDecode, Undoubled, EscapedCharacter;
    if t == "" {
      NothingEncoded("");
      UndoubledPlain("");
    } else if t[0] == '%' {
      EscapeInDoubled(t);
      var bs := EscapedCharacter(Doubled(t)).value;
      DecodedShorter(t[3 * |bs|..]);
      UndoubledAppend(bs, PercentDecode(Doubled(t[3 * |bs|..])).value);
    } else {
      var rest := Doubled(t[1..]);
      assert t == [t[0]] + t[1..];
      if t[0] == QUOTE {
        assert Doubled(t) == [QUOTE] + ([QUOTE] + rest);
        DecodeKept(QUOTE, [QUOTE] + rest);
        DecodeKept(QUOTE, rest);
        DecodedShorter(t[1..]);
        UndoubledPair(PercentDecode(rest).value);
        assert [QUOTE] + ([QUOTE] + PercentDecode(rest).value) == [QUOTE, QUOTE] + PercentDecode(rest).value;
      } else {
        DecodeKept(t[0], rest);
        DecodedShorter(t[1..]);
        UndoubledGrows(t[0], PercentDecode(rest).value);
      }
    }
  }

  lemma {:induction false} DecodeClosed(m: string)
    ensures PercentDecode(m + [QUOTE]) == (if PercentDecode(m).None? then None else Some(PercentDecode(m).value + [QUOTE]))
    decreases |m|
  {
    var s := m + [QUOTE];
    if m == "" {
      assert s == [QUOTE] + "";
      NothingEncoded("");
      DecodeKept(QUOTE, "");
    } else if m[0] != '%' {
      DecodeClosed(m[1..]);
      assert [m[0]] + m[1..] == m && [m[0]] + (m[1..] + [QUOTE]) == s;
      DecodeKept(m[0], m[1..]);
      DecodeKept(m[0], m[1..] + [QUOTE]);
      if PercentDecode(m[1..]).Some? {
        AppendAssoc([m[0]], PercentDecode(m[1..]).value, [QUOTE]);
      }
    } else {
      CharacterClosed(m);
      var bs := EscapedCharacter(m);
      if bs.Some? {
        var n := 3 * |bs.value|;
        DecodeClosed(m[n..]);
        DropAppend(m, [QUOTE], n);
        if PercentDecode(m[n..]).Some? {
          AppendAssoc(bs.value, PercentDecode(m[n..]).value, [QUOTE]);
        }
      }
    }
  }

  /** A quote behind a text does not complete an escape. */
  lemma {:induction false} EscapesClosed(m: string, n: nat)
    ensures EscapedBytes(m + [QUOTE], n) == EscapedBytes(m, n)
    decreases n
  {
    if n > 0 {
      var s := m + [QUOTE];
      if |m| >= 3 {
        assert s[0] == m[0] && s[1] == m[1] && s[2] == m[2] && s[3..] == m[3..] + [QUOTE];
        EscapesClosed(m[3..], n - 1);
      } else {
        assert s[|m|] == QUOTE && HexValue(QUOTE) == None;
        assert EscapedByte(s) == None;
      }
    }
  }

  lemma CharacterClosed(m: string)
    ensures EscapedCharacter(m + [QUOTE]) == EscapedCharacter(m)
  {
    hide EscapedByte, IsCharacter, SequenceLength;
    EscapesClosed(m, 1);
    OneEscape(m);
    OneEscape(m + [QUOTE]);
    if EscapedByte(m).Some? {
      EscapesClosed(m, SequenceLength(EscapedByte(m).value));
    }
  }

  lemma OneEscape(s: string)
    ensures EscapedBytes(s, 1) == if EscapedByte(s).None? then None else Some([EscapedByte(s).value])
  {
    hide EscapedByte;
    if EscapedByte(s).Some? {
      var c := EscapedByte(s).value;
      assert |s| >= 3 by { EscapeIsLong(s); }
      assert EscapedBytes(s[3..], 0) == Some("") && [c] + "" == [c];
    }
  }

  lemma EscapeIsLong(s: string)
    requires EscapedByte(s).Some?
    ensures |s| >= 3
  {
  }

  lemma QuoteDecodes(t: string)
    ensures PercentDecode(Quote(t)) ==
            (if PercentDecode(Doubled(t)).None? then None else Some([QUOTE] + PercentDecode(Doubled(t)).value + [QUOTE]))
  {
    hide PercentDecode, Doubled;
    assert Quote(t) == [QUOTE] + (Doubled(t) + [QUOTE]);
    DecodeClosed(Doubled(t));
    DecodeKept(QUOTE, Doubled(t) + [QUOTE]);
    if PercentDecode(Doubled(t)).Some? {
      AppendAssoc([QUOTE], PercentDecode(Doubled(t)).value, [QUOTE]);
    }
  }

  lemma QuotedNormalized(raw: string, content: string)
    requires Trim(raw) == raw && DecodeComponent(raw) == [QUOTE] + content + [QUOTE]
    ensures NormalizeLiteral(raw) == Undoubled(content)
  {
    hide DecodeComponent, Undoubled, Trim, TypePrefix;
    var literal := [QUOTE] + content + [QUOTE];
    TrimmedStays(literal);
    NoPrefix(literal);
    assert literal[1..|literal| - 1] == content;
  }

  /** Exactly when a string value survives: it holds no percent sign, or one that does not start
      the escapes of a character and so keeps the literal from being decoded at all. */
  lemma StringReadBackExactly(t: string)
    ensures NormalizeLiteral(SerializeKeyValue(Quoted(t))) == t <==> '%' !in t || PercentDecode(Doubled(t)).None?
  {
    hide PercentDecode, Undoubled, NormalizeLiteral, Doubled, Trim;
    var raw := Quote(t);
    QuoteDecodes(t);
    TrimmedStays(raw);
    if PercentDecode(Doubled(t)).None? {
      QuotedNormalized(raw, Doubled(t));
      UndoubledDoubled(t);
    } else {
      QuotedNormalized(raw, PercentDecode(Doubled(t)).value);
      if '%' in t {
        DecodedShorter(t);
      } else {
        DoubledKeeps(t, '%');
        NothingEncoded(Doubled(t));
        UndoubledDoubled(t);
      }
    }
  }

  /** A string value that looks percent-encoded is decoded once too often. */
  lemma PercentLost()
    ensures NormalizeLiteral(SerializeKeyValue(Quoted("%41"))) == "A"
  {
    hide PercentDecode, SerializeKeyValue, Trim, TypePrefix;
    PercentDoubled();
    PercentDecoded();
    TrimmedStays("'%41'");
    TrimmedStays("'A'");
    NoPrefix("'A'");
    assert "'A'"[1..2] == "A";
    UndoubledPlain("A");
  }

  /** One that merely looks so is kept: FA starts no character. */
  lemma PercentKept()
    ensures NormalizeLiteral(SerializeKeyValue(Quoted("%fail"))) == "%fail"
  {
    hide NormalizeLiteral, SerializeKeyValue, PercentDecode, EscapedCharacter, Doubled;
    DoubledPlain("%fail");
    NoCharacter();
    NotDecoded("%fail");
    StringReadBackExactly("%fail");
  }

  lemma NoCharacter()
    ensures EscapedCharacter("%fail") == None
  {
    assert HexValue('f') == Some(15) && HexValue('a') == Some(10);
    assert EscapedByte("%fail") == Some(250 as char);
  }

  lemma NotDecoded(s: string)
    requires s != "" && s[0] == '%' && EscapedCharacter(s) == None
    ensures PercentDecode(s) == None
  {
  }
}
