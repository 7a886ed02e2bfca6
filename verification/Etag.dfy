/** Entity tags: weak tokens over one property or several, the If-Match header, and comparison.
    Property values are taken in their serialised form; the property list is the normalised one,
    sorted and without repetitions. What a decoded text becomes for the type of its property is a
    parameter. */
module Etag {
  import opened ByteStrings
  import opened PercentEncoding

  const BACKSLASH: char := '\\'
  const DQUOTE: char := '"'

  /** Serialised values by property; one that is null, missing or not serialisable is absent. */
  type Values = map<string, string>

  /** The value of a property with this text. */
  type Coercion<!V> = (string, string) -> V

  // ------------------------------------------------------------------ escaping

  /** Every `c` replaced by a backslash and `c`. */
  function Prefixed(s: string, c: char): string {
    if s == "" then "" else (if s[0] == c then [BACKSLASH, c] else [s[0]]) + Prefixed(s[1..], c)
  }

  /** Every backslash and `c`, from left to right, replaced by `c`. */
  function Unprefixed(s: string, c: char): string {
    if |s| >= 2 && s[0] == BACKSLASH && s[1] == c then [c] + Unprefixed(s[2..], c)
    else if s == "" then ""
    else [s[0]] + Unprefixed(s[1..], c)
  }

  function EscapeEtagValue(s: string): string {
    Prefixed(Prefixed(s, BACKSLASH), DQUOTE)
  }

  function UnescapeEtagValue(s: string): string {
    Unprefixed(Unprefixed(s, DQUOTE), BACKSLASH)
  }

  function WeakWrap(content: string): string {
    "W/\"" + content + "\""
  }

  // ------------------------------------------------------------------ encoding

  function EncodeSingle(value: string): string {
    WeakWrap(EscapeEtagValue(value))
  }

  function PairOf(key: string, value: string): string {
    Encode(key, false) + "=" + Encode(value, false)
  }

  predicate HasAll<V>(props: seq<string>, source: map<string, V>) {
    forall i :: 0 <= i < |props| ==> props[i] in source
  }

  function Pairs(props: seq<string>, source: Values): seq<string>
    requires HasAll(props, source)
  {
    seq(|props|, i requires 0 <= i < |props| => PairOf(props[i], source[props[i]]))
  }

  function EncodeComposite(props: seq<string>, source: Values): Option<string> {
    if HasAll(props, source) then Some(WeakWrap(Join(Pairs(props, source), "&"))) else None
  }

  method EncodeCompositeToken(props: seq<string>, source: Values) returns (r: Option<string>)
    ensures r == EncodeComposite(props, source)
  {
    var segments: seq<string> := [];
    for i := 0 to |props|
      invariant forall j :: 0 <= j < i ==> props[j] in source
      invariant |segments| == i && forall j :: 0 <= j < i ==> segments[j] == PairOf(props[j], source[props[j]])
    {
      if props[i] !in source {
        return None;
      }
      segments := segments + [Encode(props[i], false) + "=" + Encode(source[props[i]], false)];
    }
    assert segments == Pairs(props, source);
    return Some(WeakWrap(Join(segments, "&")));
  }

  // ------------------------------------------------------------------ decoding

  function NormalizeHeaderValue(header: string): string {
    var t := Trim(header);
    Trim(if StartsWith(t, "W/") then t[2..] else t)
  }

  function Inner(s: string): Option<string> {
    if s != "" && s[0] == DQUOTE && s[|s| - 1] == DQUOTE then Some(if |s| >= 2 then s[1..|s| - 1] else "") else None
  }

  function DecodeSingle(header: string): Option<string> {
    var n := NormalizeHeaderValue(header);
    if n == "" then None
    else if Inner(n).Some? then Some(UnescapeEtagValue(Inner(n).value))
    else Some(n)
  }

  function SplitOn(s: string, c: char): seq<string>
    decreases |s|
  {
    var i := IndexOfChar(s, c);
    if i < 0 then [s] else [s[..i]] + SplitOn(s[i + 1..], c)
  }

  /** One `key=value` segment: skipped when empty or of another property, refused when it cannot
      be decoded. */
  datatype Segment = Skipped | Broken | Field(key: string, value: string)

  function ReadSegment(segment: string, props: seq<string>): Segment {
    if segment == "" then Skipped
    else
      var halves := SplitOn(segment, '=');
      var key := PercentDecode(halves[0]);
      if key.None? || key.value == "" then Broken
      else if key.value !in props then Skipped
      else match PercentDecode(if |halves| > 1 then halves[1] else "")
        case None => Broken
        case Some(value) => Field(key.value, value)
  }

  function ReadSegments<V>(segments: seq<string>, props: seq<string>, into: Coercion<V>, result: map<string, V>): Option<map<string, V>>
    decreases |segments|
  {
    if segments == [] then Some(result)
    else match ReadSegment(segments[0], props)
      case Skipped => ReadSegments(segments[1..], props, into, result)
      case Broken => None
      case Field(key, value) => ReadSegments(segments[1..], props, into, result[key := into(key, value)])
  }

  function DecodeComposite<V>(header: string, props: seq<string>, into: Coercion<V>): Option<map<string, V>> {
    var n := NormalizeHeaderValue(header);
    var inner := if Inner(n).Some? then Inner(n).value else n;
    if inner == "" then None
    else match ReadSegments(SplitOn(inner, '&'), props, into, map[])
      case None => None
      case Some(result) => if |result| == 0 then None else Some(result)
  }

  method DecodeCompositeToken<V>(header: string, props: seq<string>, into: Coercion<V>) returns (r: Option<map<string, V>>)
    ensures r == DecodeComposite(header, props, into)
  {
    hide ReadSegment, SplitOn, NormalizeHeaderValue, Inner;
    var normalized := NormalizeHeaderValue(header);
    var inner := if Inner(normalized).Some? then Inner(normalized).value else normalized;
    if inner == "" {
      return None;
    }
    var result: map<string, V> := map[];
    var segments := SplitOn(inner, '&');
    for i := 0 to |segments|
      invariant ReadSegments(segments[i..], props, into, result) == ReadSegments(segments, props, into, map[])
    {
      assert segments[i..][0] == segments[i] && segments[i..][1..] == segments[i + 1..];
      match ReadSegment(segments[i], props) {
        case Skipped =>
        case Broken =>
          return None;
        case Field(key, value) =>
          result := result[key := into(key, value)];
      }
    }
    return if |result| == 0 then None else Some(result);
  }

  /** A decoded token: one value, or the values by property. */
  datatype TokenValue<V> = One(value: V) | Many(values: map<string, V>)

  function DecodeToken<V>(header: string, props: seq<string>, into: Coercion<V>): Option<TokenValue<V>>
    requires props != []
  {
    if |props| == 1 then
      match DecodeSingle(header)
      case None => None
      case Some(content) => Some(One(into(props[0], content)))
    else
      match DecodeComposite(header, props, into)
      case None => None
      case Some(values) => Some(Many(values))
  }

  // ------------------------------------------------------------------ headers and comparison

  datatype IfMatch = Absent | Any | Tokens(values: seq<string>)

  function TrimAll(parts: seq<string>): seq<string> {
    if parts == [] then []
    else (if Trim(parts[0]) == "" then [] else [Trim(parts[0])]) + TrimAll(parts[1..])
  }

  function ParseIfMatch(header: string): IfMatch {
    var t := Trim(header);
    if t == "" then Absent else if t == "*" then Any else Tokens(TrimAll(SplitOn(t, ',')))
  }

  function NormaliseTag(value: string): string {
    var n := NormalizeHeaderValue(value);
    if Inner(n).Some? then UnescapeEtagValue(Inner(n).value) else n
  }

  predicate MatchesEtag(encoded: Option<string>, expected: seq<string>) {
    encoded.Some? && encoded.value != "" &&
    exists i :: 0 <= i < |expected| && NormaliseTag(expected[i]) == NormaliseTag(encoded.value)
  }

  datatype Decoded<V> = Decoded(values: seq<TokenValue<V>>, invalidComposite: bool)

  /** Does the token carry every property? */
  predicate Complete<V>(t: TokenValue<V>, props: seq<string>) {
    t.Many? ==> HasAll(props, t.values)
  }

  /** The token's value, unless it does not decode or lacks a property. */
  function Usable<V>(header: string, props: seq<string>, into: Coercion<V>): Option<TokenValue<V>>
    requires props != []
  {
    var value := DecodeToken(header, props, into);
    if value.None? || !Complete(value.value, props) then None else value
  }

  /** Tokens without a usable value are dropped; composite ones are reported. */
  function DecodeAll<V>(raw: seq<string>, props: seq<string>, into: Coercion<V>): Decoded<V>
    requires props != []
    decreases |raw|
  {
    if raw == [] then Decoded([], false)
    else OneMore(DecodeAll(raw[..|raw| - 1], props, into), Usable(raw[|raw| - 1], props, into), |props| > 1)
  }

  function OneMore<V>(before: Decoded<V>, value: Option<TokenValue<V>>, composite: bool): Decoded<V> {
    if value.Some? then before.(values := before.values + [value.value])
    else before.(invalidComposite := before.invalidComposite || composite)
  }

  method DecodeIfMatchValues<V>(raw: seq<string>, props: seq<string>, into: Coercion<V>) returns (r: Decoded<V>)
    ensures r == if props == [] || raw == [] then Decoded([], false) else DecodeAll(raw, props, into)
  {
    hide Usable;
    if |props| == 0 || |raw| == 0 {
      return Decoded([], false);
    }
    var composite := |props| > 1;
    var decoded: seq<TokenValue<V>> := [];
    var invalidComposite := false;
    for i := 0 to |raw|
      invariant Decoded(decoded, invalidComposite) == DecodeAll(raw[..i], props, into)
    {
      assert raw[..i + 1][..i] == raw[..i];
      var value := DecodeUsable(raw[i], props, into);
      if value.None? {
        if composite {
          invalidComposite := true;
        }
      } else {
        decoded := decoded + [value.value];
      }
    }
    assert raw[..|raw|] == raw;
    return Decoded(decoded, invalidComposite);
  }

  method DecodeUsable<V>(header: string, props: seq<string>, into: Coercion<V>) returns (value: Option<TokenValue<V>>)
    requires props != []
    ensures value == Usable(header, props, into)
  {
    hide DecodeSingle, DecodeComposite;
    if |props| > 1 {
      var values := DecodeCompositeToken(header, props, into);
      return if values.Some? && HasAll(props, values.value) then Some(Many(values.value)) else None;
    }
    var content := DecodeSingle(header);
    return if content.Some? then Some(One(into(props[0], content.value))) else None;
  }

  // ------------------------------------------------------------------ escaping is undone

  lemma {:induction false} QuotesUnescaped(s: string)
    ensures Unprefixed(Prefixed(Prefixed(s, BACKSLASH), DQUOTE), DQUOTE) == Prefixed(s, BACKSLASH)
    decreases |s|
  {
    if s != "" {
      var rest, c := s[1..], s[0];
      QuotesUnescaped(rest);
      var inner, tail := Prefixed(rest, BACKSLASH), EscapeEtagValue(rest);
      assert tail == "" || tail[0] != DQUOTE by { NeverQuoteFirst(inner); }
      if c == BACKSLASH {
        assert Prefixed(s, BACKSLASH) == [BACKSLASH] + ([BACKSLASH] + inner);
        PrefixedOther(BACKSLASH, [BACKSLASH] + inner);
        PrefixedOther(BACKSLASH, inner);
        UnprefixedOther(BACKSLASH, [BACKSLASH] + tail);
        UnprefixedOther(BACKSLASH, tail);
      } else if c == DQUOTE {
        assert Prefixed(s, BACKSLASH) == [DQUOTE] + inner;
        assert ([DQUOTE] + inner)[1..] == inner;
        assert ([BACKSLASH, DQUOTE] + tail)[2..] == tail;
      } else {
        assert Prefixed(s, BACKSLASH) == [c] + inner;
        PrefixedOther(c, inner);
        UnprefixedOther(c, tail);
      }
    }
  }

  lemma NeverQuoteFirst(s: string)
    ensures var t := Prefixed(s, DQUOTE); t == "" || t[0] != DQUOTE
  {
  }

  lemma PrefixedOther(c: char, s: string)
    requires c != DQUOTE
    ensures Prefixed([c] + s, DQUOTE) == [c] + Prefixed(s, DQUOTE)
  {
    assert ([c] + s)[1..] == s;
  }

  lemma UnprefixedOther(c: char, s: string)
    requires c != BACKSLASH || s == "" || s[0] != DQUOTE
    ensures Unprefixed([c] + s, DQUOTE) == [c] + Unprefixed(s, DQUOTE)
  {
    assert ([c] + s)[1..] == s;
  }

  lemma {:induction false} BackslashesUnescaped(s: string)
    ensures Unprefixed(Prefixed(s, BACKSLASH), BACKSLASH) == s
    decreases |s|
  {
    if s != "" {
      var rest := Prefixed(s[1..], BACKSLASH);
      BackslashesUnescaped(s[1..]);
      assert [s[0]] + s[1..] == s;
      if s[0] == BACKSLASH {
        assert ([BACKSLASH, BACKSLASH] + rest)[2..] == rest;
      } else {
        assert ([s[0]] + rest)[1..] == rest;
      }
    }
  }

  /** The two-pass unescape undoes the escape on every string. */
  lemma UnescapeUndoesEscape(s: string)
    ensures UnescapeEtagValue(EscapeEtagValue(s)) == s
  {
    QuotesUnescaped(s);
    BackslashesUnescaped(s);
  }

  // ------------------------------------------------------------------ single-property tokens

  lemma QuotedInner(content: string)
    ensures Inner([DQUOTE] + content + [DQUOTE]) == Some(content)
  {
    var quoted := [DQUOTE] + content + [DQUOTE];
    assert quoted[1..|quoted| - 1] == content;
  }

  lemma Unwrapped(content: string)
    ensures NormalizeHeaderValue(WeakWrap(content)) == [DQUOTE] + content + [DQUOTE]
    ensures Inner(NormalizeHeaderValue(WeakWrap(content))) == Some(content)
  {
    hide Trim, Inner;
    var token, quoted := WeakWrap(content), [DQUOTE] + content + [DQUOTE];
    AsIs(token);
    assert token == "W/" + quoted;
    DropPast("W/", quoted, 0);
    TakeAppend("W/", quoted, 2);
    AsIs(quoted);
    QuotedInner(content);
  }

  lemma AsIs(s: string)
    requires s != "" && !IsSpace(s[0]) && !IsSpace(s[|s| - 1])
    ensures Trim(s) == s
  {
  }

  lemma SingleNormalised(value: string)
    ensures NormaliseTag(EncodeSingle(value)) == value && DecodeSingle(EncodeSingle(value)) == Some(value)
  {
    hide NormalizeHeaderValue, Inner, UnescapeEtagValue, EscapeEtagValue, WeakWrap;
    Unwrapped(EscapeEtagValue(value));
    UnescapeUndoesEscape(value);
  }

  /** Tokens match exactly when one of the expected ones was made from the same value. */
  lemma SingleMatchesExactly(value: string, others: seq<string>)
    ensures var tokens := seq(|others|, i requires 0 <= i < |others| => EncodeSingle(others[i]));
            MatchesEtag(Some(EncodeSingle(value)), tokens) <==> value in others
  {
    hide NormaliseTag, EscapeEtagValue;
    var tokens := seq(|others|, i requires 0 <= i < |others| => EncodeSingle(others[i]));
    SingleNormalised(value);
    forall i | 0 <= i < |others| ensures NormaliseTag(tokens[i]) == others[i] {
      SingleNormalised(others[i]);
    }
    if value in others {
      var i :| 0 <= i < |others| && others[i] == value;
      assert NormaliseTag(tokens[i]) == value;
    }
  }

  // ------------------------------------------------------------------ lists of tokens in a header

  lemma SplitFirst(part: string, rest: string, c: char)
    requires c !in part
    ensures SplitOn(part + [c] + rest, c) == [part] + SplitOn(rest, c)
  {
    var whole := part + [c] + rest;
    assert forall j :: 0 <= j < |part| ==> whole[j] == part[j] && part[j] in part;
    FirstCharIs(whole, c, |part|);
    hide IndexOfChar;
    assert whole[..|part|] == part && whole[|part| + 1..] == rest;
  }

  lemma {:induction false} SplitJoined(parts: seq<string>, c: char)
    requires parts != [] && forall i :: 0 <= i < |parts| ==> c !in parts[i]
    ensures SplitOn(Join(parts, [c]), c) == parts
    decreases |parts|
  {
    if |parts| == 1 {
      assert Join(parts, [c]) == parts[0];
    } else {
      var rest := Join(parts[1..], [c]);
      SplitFirst(parts[0], rest, c);
      SplitJoined(parts[1..], c);
      assert parts == [parts[0]] + parts[1..];
    }
  }

  lemma {:induction false} PiecesLack(s: string, c: char)
    ensures forall i :: 0 <= i < |SplitOn(s, c)| ==> c !in SplitOn(s, c)[i]
    decreases |s|
  {
    var i := IndexOfChar(s, c);
    if i >= 0 {
      PiecesLack(s[i + 1..], c);
    }
  }

  lemma TrimLacks(s: string, c: char)
    requires c !in s
    ensures c !in Trim(s)
  {
  }

  lemma {:induction false} TrimmedLack(parts: seq<string>, c: char)
    requires forall i :: 0 <= i < |parts| ==> c !in parts[i]
    ensures forall i :: 0 <= i < |TrimAll(parts)| ==> c !in TrimAll(parts)[i]
    decreases |parts|
  {
    hide Trim;
    if parts != [] {
      TrimLacks(parts[0], c);
      TrimmedLack(parts[1..], c);
    }
  }

  /** Begins and ends as tokens do: `W`, and a quote. */
  predicate IsToken(s: string) {
    |s| >= 2 && s[0] == 'W' && s[|s| - 1] == DQUOTE
  }

  function Padded(tokens: seq<string>): seq<string> {
    seq(|tokens|, i requires 0 <= i < |tokens| => if i == 0 then tokens[0] else " " + tokens[i])
  }

  lemma {:induction false} JoinPadded(tokens: seq<string>)
    requires tokens != []
    ensures Join(tokens, ", ") == Join(Padded(tokens), ",")
    decreases |tokens|
  {
    if |tokens| > 1 {
      JoinPadded(tokens[1..]);
      var rest := tokens[1..];
      var padded := Padded(tokens)[1..];
      assert padded[0] == " " + rest[0] && padded[1..] == Padded(rest)[1..];
      JoinHead(padded, Padded(rest));
      assert Join(tokens, ", ") == tokens[0] + ", " + Join(rest, ", ");
      assert ", " == "," + " ";
    }
  }

  lemma JoinHead(padded: seq<string>, plain: seq<string>)
    requires plain != [] && |padded| == |plain| && padded[0] == " " + plain[0] && padded[1..] == plain[1..]
    ensures Join(padded, ",") == " " + Join(plain, ",")
  {
    if |plain| > 1 {
      assert " " + plain[0] + "," + Join(plain[1..], ",") == " " + (plain[0] + "," + Join(plain[1..], ","));
    }
  }

  lemma {:induction false} TrimPadded(parts: seq<string>, tokens: seq<string>)
    requires |parts| == |tokens| && forall i :: 0 <= i < |tokens| ==> IsToken(tokens[i])
    requires forall i :: 0 <= i < |tokens| ==> parts[i] == tokens[i] || parts[i] == " " + tokens[i]
    ensures TrimAll(parts) == tokens
    decreases |parts|
  {
    if parts != [] {
      AsIs(tokens[0]);
      assert (" " + tokens[0])[1..] == tokens[0];
      assert Trim(parts[0]) == tokens[0];
      hide Trim;
      TrimPadded(parts[1..], tokens[1..]);
      assert tokens == [tokens[0]] + tokens[1..];
    }
  }

  lemma {:induction false} JoinedIsToken(tokens: seq<string>)
    requires tokens != [] && forall i :: 0 <= i < |tokens| ==> IsToken(tokens[i])
    ensures IsToken(Join(tokens, ", "))
    decreases |tokens|
  {
    if |tokens| > 1 {
      JoinedIsToken(tokens[1..]);
    }
  }

  /** A header made of tokens is read back as those tokens exactly when none holds a comma. */
  lemma HeaderReadBack(tokens: seq<string>)
    requires tokens != [] && forall i :: 0 <= i < |tokens| ==> IsToken(tokens[i])
    ensures ParseIfMatch(Join(tokens, ", ")) == Tokens(tokens) <==> forall i :: 0 <= i < |tokens| ==> ',' !in tokens[i]
  {
    var header := Join(tokens, ", ");
    JoinedIsToken(tokens);
    AsIs(header);
    NotStar(header);
    hide Trim, IsToken, SplitOn, TrimAll, Join, Padded;
    PiecesLack(header, ',');
    TrimmedLack(SplitOn(header, ','), ',');
    if forall i :: 0 <= i < |tokens| ==> ',' !in tokens[i] {
      JoinPadded(tokens);
      PaddedParts(tokens);
      SplitJoined(Padded(tokens), ',');
      TrimPadded(Padded(tokens), tokens);
    }
  }

  lemma NotStar(s: string)
    requires IsToken(s)
    ensures s != "" && s != "*"
  {
  }

  lemma PaddedParts(tokens: seq<string>)
    requires forall i :: 0 <= i < |tokens| ==> ',' !in tokens[i]
    ensures |Padded(tokens)| == |tokens|
    ensures forall i :: 0 <= i < |tokens| ==>
              ',' !in Padded(tokens)[i] && (Padded(tokens)[i] == tokens[i] || Padded(tokens)[i] == " " + tokens[i])
  {
  }

  lemma {:induction false} PrefixedKeeps(s: string, c: char, d: char)
    requires d != BACKSLASH && d != c
    ensures d in Prefixed(s, c) <==> d in s
    decreases |s|
  {
    if s != "" {
      PrefixedKeeps(s[1..], c, d);
      assert s == [s[0]] + s[1..];
    }
  }

  lemma CommaInToken(value: string)
    ensures ',' in EncodeSingle(value) <==> ',' in value
    ensures IsToken(EncodeSingle(value))
  {
    PrefixedKeeps(value, BACKSLASH, ',');
    PrefixedKeeps(Prefixed(value, BACKSLASH), DQUOTE, ',');
  }

  function SingleTokens(values: seq<string>): (tokens: seq<string>)
    ensures |tokens| == |values| && forall i :: 0 <= i < |values| ==> tokens[i] == EncodeSingle(values[i])
  {
    seq(|values|, i requires 0 <= i < |values| => EncodeSingle(values[i]))
  }

  lemma {:induction false} SinglesDecoded<V>(values: seq<string>, prop: string, into: Coercion<V>)
    ensures DecodeAll(SingleTokens(values), [prop], into)
         == Decoded(seq(|values|, i requires 0 <= i < |values| => One(into(prop, values[i]))), false)
    decreases |values|
  {
    hide EncodeSingle, Usable;
    if values != [] {
      var n := |values| - 1;
      SinglesDecoded(values[..n], prop, into);
      SingleUsable(values[n], prop, into);
      assert SingleTokens(values)[..n] == SingleTokens(values[..n]);
    }
  }

  lemma SingleUsable<V>(value: string, prop: string, into: Coercion<V>)
    ensures Usable(EncodeSingle(value), [prop], into) == Some(One(into(prop, value)))
  {
    hide EncodeSingle, DecodeSingle, DecodeComposite;
    SingleNormalised(value);
  }

  /** Single-property tokens survive the If-Match header exactly when no value holds a comma; the
      tokens then decode to the values, in order, and nothing is dropped. */
  lemma SingleHeaderRoundTrip<V>(values: seq<string>, prop: string, into: Coercion<V>)
    requires values != []
    ensures ParseIfMatch(Join(SingleTokens(values), ", ")) == Tokens(SingleTokens(values)) <==>
            forall i :: 0 <= i < |values| ==> ',' !in values[i]
    ensures DecodeAll(SingleTokens(values), [prop], into)
         == Decoded(seq(|values|, i requires 0 <= i < |values| => One(into(prop, values[i]))), false)
  {
    hide EncodeSingle, IsToken, ParseIfMatch, DecodeAll;
    var tokens := SingleTokens(values);
    forall i | 0 <= i < |values| ensures (',' in tokens[i] <==> ',' in values[i]) && IsToken(tokens[i]) {
      CommaInToken(values[i]);
    }
    HeaderReadBack(tokens);
    SinglesDecoded(values, prop, into);
  }

  // ------------------------------------------------------------------ composite tokens

  predicate Safe(s: string) {
    forall c <- s :: Unreserved(c) || c == '%'
  }

  lemma HexIsSafe(n: nat)
    requires n < 16
    ensures Unreserved(Hex(n))
  {
    if n < 10 {
      assert Hex(n) as int == '0' as int + n;
    } else {
      assert Hex(n) as int == 'A' as int + (n - 10);
    }
  }

  lemma {:induction false} EncodedSafe(s: string)
    ensures Safe(Encode(s, false))
    decreases |s|
  {
    if s != "" {
      EncodedSafe(s[1..]);
      HexIsSafe(s[0] as int % 256 / 16);
      HexIsSafe(s[0] as int % 256 % 16);
    }
  }

  lemma SafeLacks(s: string, c: char)
    requires Safe(s) && !Unreserved(c) && c != '%'
    ensures c !in s
  {
  }

  predicate ProperProps(props: seq<string>) {
    && |props| > 1
    && (forall i :: 0 <= i < |props| ==> props[i] != "" && Utf8(props[i]))
    && (forall i, j :: 0 <= i < j < |props| ==> props[i] != props[j])
  }

  predicate TextValues(source: Values) {
    forall k <- source :: Utf8(source[k])
  }

  lemma PairRead(key: string, value: string, props: seq<string>)
    requires key in props && key != "" && Utf8(key) && Utf8(value)
    ensures ReadSegment(PairOf(key, value), props) == Field(key, value)
    ensures forall c :: !Unreserved(c) && c != '%' && c != '=' ==> c !in PairOf(key, value)
  {
    hide PercentDecode, Encode, Safe;
    EncodedSafe(key);
    EncodedSafe(value);
    var parts := [Encode(key, false), Encode(value, false)];
    SafeLacks(parts[0], '=');
    SafeLacks(parts[1], '=');
    SplitJoined(parts, '=');
    assert parts[1..] == [parts[1]];
    assert Join(parts[1..], "=") == parts[1];
    assert Join(parts, "=") == PairOf(key, value);
    EncodedDecodes(key, false);
    EncodedDecodes(value, false);
    forall c | !Unreserved(c) && c != '%' && c != '=' ensures c !in PairOf(key, value) {
      SafeLacks(parts[0], c);
      SafeLacks(parts[1], c);
    }
  }

  /** The values some properties come to. */
  function Coerced<V>(props: seq<string>, source: Values, into: Coercion<V>): map<string, V>
    requires HasAll(props, source)
  {
    map p | p in props :: into(p, source[p])
  }

  lemma {:induction false} SegmentsRead<V>(props: seq<string>, source: Values, into: Coercion<V>, n: nat)
    requires HasAll(props, source) && TextValues(source) && ProperProps(props) && n <= |props|
    ensures HasAll(props[..n], source)
    ensures ReadSegments(Pairs(props, source)[n..], props, into, Coerced(props[..n], source, into)) == Some(Coerced(props, source, into))
    decreases |props| - n
  {
    hide ReadSegment, PairOf;
    if n == |props| {
      assert props[..n] == props;
    } else {
      var segments := Pairs(props, source)[n..];
      PairRead(props[n], source[props[n]], props);
      assert segments[0] == PairOf(props[n], source[props[n]]) && segments[1..] == Pairs(props, source)[n + 1..];
      assert props[..n + 1] == props[..n] + [props[n]];
      SegmentsRead(props, source, into, n + 1);
      assert Coerced(props[..n + 1], source, into) == Coerced(props[..n], source, into)[props[n] := into(props[n], source[props[n]])];
    }
  }

  function CompositeContent(props: seq<string>, source: Values): string
    requires HasAll(props, source)
  {
    Join(Pairs(props, source), "&")
  }

  lemma {:induction false} JoinLacks(parts: seq<string>, c: char)
    requires c != '&' && forall i :: 0 <= i < |parts| ==> c !in parts[i]
    ensures c !in Join(parts, "&")
    decreases |parts|
  {
    if |parts| > 1 {
      JoinLacks(parts[1..], c);
    }
  }

  lemma ContentLacks(props: seq<string>, source: Values, c: char)
    requires HasAll(props, source) && TextValues(source) && ProperProps(props)
    requires !Unreserved(c) && c != '%' && c != '=' && c != '&'
    ensures c !in CompositeContent(props, source)
  {
    hide ReadSegment, PairOf;
    forall i | 0 <= i < |props| ensures c !in Pairs(props, source)[i] {
      PairRead(props[i], source[props[i]], props);
    }
    JoinLacks(Pairs(props, source), c);
  }

  lemma SplitContent(props: seq<string>, source: Values)
    requires HasAll(props, source) && TextValues(source) && ProperProps(props)
    ensures SplitOn(CompositeContent(props, source), '&') == Pairs(props, source)
    ensures CompositeContent(props, source) != ""
  {
    hide ReadSegment, PairOf, SplitOn;
    forall i | 0 <= i < |props| ensures '&' !in Pairs(props, source)[i] {
      PairRead(props[i], source[props[i]], props);
    }
    SplitJoined(Pairs(props, source), '&');
  }

  /** A composite token decodes to exactly the values it was made from. */
  lemma CompositeRoundTrip<V>(props: seq<string>, source: Values, into: Coercion<V>)
    requires HasAll(props, source) && TextValues(source) && ProperProps(props)
    ensures var token := EncodeComposite(props, source);
            token.Some? && DecodeComposite(token.value, props, into) == Some(Coerced(props, source, into))
  {
    hide NormalizeHeaderValue, Inner, SplitOn, ReadSegments, Pairs, CompositeContent, WeakWrap;
    var content := CompositeContent(props, source);
    assert EncodeComposite(props, source) == Some(WeakWrap(content)) by { ContentIs(props, source); }
    Unwrapped(content);
    SplitContent(props, source);
    SegmentsRead(props, source, into, 0);
    assert Pairs(props, source)[0..] == Pairs(props, source);
    assert Coerced(props[..0], source, into) == map[];
    assert props[0] in Coerced(props, source, into);
  }

  lemma ContentIs(props: seq<string>, source: Values)
    requires HasAll(props, source)
    ensures EncodeComposite(props, source) == Some(WeakWrap(CompositeContent(props, source)))
  {
  }

  lemma {:induction false} NothingPrefixed(s: string)
    requires BACKSLASH !in s
    ensures Unprefixed(s, DQUOTE) == s && Unprefixed(s, BACKSLASH) == s
    decreases |s|
  {
    if s != "" {
      NothingPrefixed(s[1..]);
      assert s[0] in s && [s[0]] + s[1..] == s;
    }
  }

  lemma CompositeNormalised(props: seq<string>, source: Values)
    requires HasAll(props, source) && TextValues(source) && ProperProps(props)
    ensures NormaliseTag(WeakWrap(CompositeContent(props, source))) == CompositeContent(props, source)
  {
    hide NormalizeHeaderValue, Inner, CompositeContent, WeakWrap;
    var content := CompositeContent(props, source);
    Unwrapped(content);
    ContentLacks(props, source, BACKSLASH);
    NothingPrefixed(content);
  }

  /** Composite tokens match exactly when they agree on every property. */
  lemma CompositeMatchesExactly(props: seq<string>, one: Values, other: Values)
    requires ProperProps(props) && HasAll(props, one) && HasAll(props, other) && TextValues(one) && TextValues(other)
    ensures MatchesEtag(EncodeComposite(props, one), [EncodeComposite(props, other).value])
        <==> forall i :: 0 <= i < |props| ==> one[props[i]] == other[props[i]]
  {
    hide NormaliseTag, CompositeContent, DecodeComposite, EncodeComposite, ProperProps;
    ContentIs(props, one);
    ContentIs(props, other);
    CompositeNormalised(props, one);
    CompositeNormalised(props, other);
    var text: Coercion<string> := (p, v) => v;
    CompositeRoundTrip(props, one, text);
    CompositeRoundTrip(props, other, text);
    if forall i :: 0 <= i < |props| ==> one[props[i]] == other[props[i]] {
      SameContent(props, one, other);
      var tokens := [EncodeComposite(props, other).value];
      assert NormaliseTag(tokens[0]) == NormaliseTag(EncodeComposite(props, one).value);
    }
    if CompositeContent(props, one) == CompositeContent(props, other) {
      assert Coerced(props, one, text) == Coerced(props, other, text);
      forall i | 0 <= i < |props| ensures one[props[i]] == other[props[i]] {
        assert Coerced(props, one, text)[props[i]] == Coerced(props, other, text)[props[i]];
      }
    }
  }

  lemma SameContent(props: seq<string>, one: Values, other: Values)
    requires HasAll(props, one) && HasAll(props, other) && forall i :: 0 <= i < |props| ==> one[props[i]] == other[props[i]]
    ensures CompositeContent(props, one) == CompositeContent(props, other)
  {
    assert Pairs(props, one) == Pairs(props, other);
  }

  lemma CompositeIsToken(props: seq<string>, source: Values)
    requires HasAll(props, source) && TextValues(source) && ProperProps(props)
    ensures var token := WeakWrap(CompositeContent(props, source)); IsToken(token) && ',' !in token
  {
    ContentLacks(props, source, ',');
    hide CompositeContent;
  }

  lemma {:induction false} AllDecoded<V>(tokens: seq<string>, sources: seq<Values>, props: seq<string>, into: Coercion<V>)
    requires |tokens| == |sources| && ProperProps(props) && |props| > 1
    requires forall i :: 0 <= i < |sources| ==> HasAll(props, sources[i]) && TextValues(sources[i])
    requires forall i :: 0 <= i < |sources| ==> EncodeComposite(props, sources[i]) == Some(tokens[i])
    ensures DecodeAll(tokens, props, into)
         == Decoded(seq(|sources|, i requires 0 <= i < |sources| => Many(Coerced(props, sources[i], into))), false)
    decreases |tokens|
  {
    hide EncodeComposite, ProperProps, TextValues, Usable, Coerced, HasAll;
    if tokens != [] {
      var n := |tokens| - 1;
      AllDecoded(tokens[..n], sources[..n], props, into);
      CompositeUsable(props, sources[n], into);
    }
  }

  lemma CompositeUsable<V>(props: seq<string>, source: Values, into: Coercion<V>)
    requires ProperProps(props) && HasAll(props, source) && TextValues(source)
    ensures EncodeComposite(props, source).Some?
    ensures Usable(EncodeComposite(props, source).value, props, into) == Some(Many(Coerced(props, source, into)))
  {
    hide EncodeComposite, DecodeComposite, DecodeSingle, TextValues;
    CompositeRoundTrip(props, source, into);
    assert HasAll(props, Coerced(props, source, into));
  }

  /** Composite tokens, joined in an If-Match header, come back unchanged and decode to all the
      values of all the properties; none is reported invalid. */
  lemma CompositeHeaderRoundTrip<V>(props: seq<string>, sources: seq<Values>, into: Coercion<V>)
    requires ProperProps(props) && sources != []
    requires forall i :: 0 <= i < |sources| ==> HasAll(props, sources[i]) && TextValues(sources[i])
    ensures var tokens := seq(|sources|, i requires 0 <= i < |sources| => WeakWrap(CompositeContent(props, sources[i])));
            && (forall i :: 0 <= i < |sources| ==> EncodeComposite(props, sources[i]) == Some(tokens[i]))
            && ParseIfMatch(Join(tokens, ", ")) == Tokens(tokens)
            && DecodeAll(tokens, props, into)
               == Decoded(seq(|sources|, i requires 0 <= i < |sources| => Many(Coerced(props, sources[i], into))), false)
  {
    assert |props| > 1;
    hide CompositeContent, IsToken, ParseIfMatch, WeakWrap, EncodeComposite, ProperProps, TextValues, DecodeAll;
    var tokens := seq(|sources|, i requires 0 <= i < |sources| => WeakWrap(CompositeContent(props, sources[i])));
    forall i | 0 <= i < |sources|
      ensures IsToken(tokens[i]) && ',' !in tokens[i] && EncodeComposite(props, sources[i]) == Some(tokens[i])
    {
      CompositeIsToken(props, sources[i]);
      ContentIs(props, sources[i]);
    }
    HeaderReadBack(tokens);
    AllDecoded(tokens, sources, props, into);
  }
}
