/** If-Match headers of any kind: the star, tokens of either strength or none, with any white space
    and empty pieces between the commas; and what a tag of either strength matches. */
module EtagHeaders {
  import opened ByteStrings
  import opened Etag

  predicate Blank(s: string) {
    forall i :: 0 <= i < |s| ==> IsSpace(s[i])
  }

  /** What stands between two commas: a text, perhaps empty, with white space around it. */
  datatype Piece = Piece(before: string, text: string, after: string)

  predicate GoodPiece(p: Piece) {
    Blank(p.before) && Blank(p.after) && Trimmed(p.text) && ',' !in p.text
  }

  function Printed(p: Piece): string {
    p.before + p.text + p.after
  }

  function PrintedAll(ps: seq<Piece>): (r: seq<string>)
    ensures |r| == |ps| && forall i :: 0 <= i < |ps| ==> r[i] == Printed(ps[i])
  {
    seq(|ps|, i requires 0 <= i < |ps| => Printed(ps[i]))
  }

  function HeaderOf(ps: seq<Piece>): string {
    Join(PrintedAll(ps), ",")
  }

  predicate GoodPieces(ps: seq<Piece>) {
    ps != [] && forall i :: 0 <= i < |ps| ==> GoodPiece(ps[i])
  }

  /** The texts that are not empty, in order. */
  function Said(ps: seq<Piece>): seq<string> {
    if ps == [] then [] else (if ps[0].text == "" then [] else [ps[0].text]) + Said(ps[1..])
  }

  // ------------------------------------------------------------------ trimming

  lemma {:induction false} LeftBlank(a: string, s: string)
    requires Blank(a)
    ensures TrimLeft(a + s) == TrimLeft(s)
    decreases |a|
  {
    if a == "" {
      assert a + s == s;
    } else {
      assert (a + s)[1..] == a[1..] + s;
      LeftBlank(a[1..], s);
    }
  }

  lemma {:induction false} RightBlank(s: string, b: string)
    requires Blank(b)
    ensures TrimRight(s + b) == TrimRight(s)
    decreases |b|
  {
    if b == "" {
      assert s + b == s;
    } else {
      var n := |b| - 1;
      assert (s + b)[..|s + b| - 1] == s + b[..n];
      RightBlank(s, b[..n]);
    }
  }

  lemma TrimBlanks(a: string, t: string, b: string)
    requires Blank(a) && Blank(b) && Trimmed(t)
    ensures Trim(a + t + b) == t
  {
    hide TrimLeft, TrimRight, Blank;
    AppendAssoc(a, t, b);
    LeftBlank(a, t + b);
    if t == "" {
      assert t + b == b + "" && "" + b == b;
      LeftBlank(b, "");
      Nothing();
    } else {
      LeftStays(t, b);
      RightBlank(t, b);
      RightStays(t);
    }
  }

  lemma Nothing()
    ensures TrimLeft("") == "" && TrimRight("") == ""
  {
  }

  lemma LeftStays(t: string, b: string)
    requires t != "" && !IsSpace(t[0])
    ensures TrimLeft(t + b) == t + b
  {
  }

  lemma RightStays(t: string)
    requires t != "" && !IsSpace(t[|t| - 1])
    ensures TrimRight(t) == t
  {
  }

  // ------------------------------------------------------------------ headers

  lemma {:induction false} TextsSaid(ps: seq<Piece>)
    requires forall i :: 0 <= i < |ps| ==> GoodPiece(ps[i])
    ensures TrimAll(PrintedAll(ps)) == Said(ps)
    decreases |ps|
  {
    hide Trim, GoodPiece, Printed;
    if ps != [] {
      PieceTrimmed(ps[0]);
      TextsSaid(ps[1..]);
      assert PrintedAll(ps)[1..] == PrintedAll(ps[1..]);
    }
  }

  lemma PieceTrimmed(p: Piece)
    requires GoodPiece(p)
    ensures Trim(Printed(p)) == p.text && ',' !in Printed(p)
  {
    TrimBlanks(p.before, p.text, p.after);
    hide Trim;
    assert forall i :: 0 <= i < |p.before| ==> IsSpace(p.before[i]);
    assert forall i :: 0 <= i < |p.after| ==> IsSpace(p.after[i]);
  }

  /** The outer white space of a list of pieces goes. */
  function Bare(p: Piece, first: bool): Piece {
    if p.text == "" then Piece("", "", "")
    else if first then Piece("", p.text, p.after)
    else Piece(p.before, p.text, "")
  }

  function Edge(p: Piece, first: bool): string {
    if p.text == "" then p.before + p.after else if first then p.before else p.after
  }

  lemma BareIs(p: Piece, first: bool)
    requires GoodPiece(p)
    ensures GoodPiece(Bare(p, first)) && Bare(p, first).text == p.text && Blank(Edge(p, first))
    ensures Printed(p) == if first then Edge(p, first) + Printed(Bare(p, first)) else Printed(Bare(p, first)) + Edge(p, first)
  {
    if p.text == "" {
      assert p.before + "" + p.after == p.before + p.after;
    }
  }

  lemma JoinFirst(a: string, f: string, rest: seq<string>)
    ensures Join([a + f] + rest, ",") == a + Join([f] + rest, ",")
  {
    if rest != [] {
      assert ([a + f] + rest)[1..] == rest && ([f] + rest)[1..] == rest;
      assert a + f + "," + Join(rest, ",") == a + (f + "," + Join(rest, ","));
    }
  }

  lemma {:induction false} JoinLast(rest: seq<string>, l: string, b: string)
    ensures Join(rest + [l + b], ",") == Join(rest + [l], ",") + b
    decreases |rest|
  {
    if rest == [] {
      assert rest + [l + b] == [l + b] && rest + [l] == [l];
    } else {
      assert (rest + [l + b])[1..] == rest[1..] + [l + b] && (rest + [l])[1..] == rest[1..] + [l];
      JoinLast(rest[1..], l, b);
      assert rest[0] + "," + (Join(rest[1..] + [l], ",") + b) == rest[0] + "," + Join(rest[1..] + [l], ",") + b;
    }
  }

  lemma {:induction false} CommaInside(parts: seq<string>)
    requires |parts| > 1
    ensures ',' in Join(parts, ",")
  {
    assert Join(parts, ",") == parts[0] + "," + Join(parts[1..], ",");
    assert (parts[0] + "," + Join(parts[1..], ","))[|parts[0]|] == ',';
  }

  lemma JoinTrimmed(first: Piece, middle: seq<string>, last: Piece)
    requires GoodPiece(first) && GoodPiece(last) && first.before == "" && last.after == ""
    requires (first.text == "" ==> first.after == "") && (last.text == "" ==> last.before == "")
    ensures var parts := [Printed(first)] + middle + [Printed(last)]; Trimmed(Join(parts, ",")) && ',' in Join(parts, ",")
  {
    var parts := [Printed(first)] + middle + [Printed(last)];
    CommaInside(parts);
    var rest := Join(parts[1..], ",");
    assert Join(parts, ",") == Printed(first) + "," + rest;
    LastCharacter(parts[..|parts| - 1], Printed(last));
    assert parts == parts[..|parts| - 1] + [Printed(last)];
  }

  lemma {:induction false} LastCharacter(front: seq<string>, last: string)
    requires front != []
    ensures var s := Join(front + [last], ","); s != "" && s[|s| - 1] == if last == "" then ',' else last[|last| - 1]
    decreases |front|
  {
    var parts := front + [last];
    assert parts[1..] == front[1..] + [last];
    if |front| == 1 {
      assert parts[1..] == [last];
      assert Join(parts, ",") == front[0] + "," + last;
    } else {
      LastCharacter(front[1..], last);
      assert Join(parts, ",") == front[0] + "," + Join(parts[1..], ",");
    }
  }

  /** The pieces without their outer white space. */
  function Bared(ps: seq<Piece>): (qs: seq<Piece>)
    requires |ps| > 1
    ensures |qs| == |ps| && qs[0] == Bare(ps[0], true) && qs[|ps| - 1] == Bare(ps[|ps| - 1], false)
    ensures forall i :: 0 < i < |ps| - 1 ==> qs[i] == ps[i]
  {
    seq(|ps|, i requires 0 <= i < |ps| => if i == 0 then Bare(ps[0], true) else if i == |ps| - 1 then Bare(ps[i], false) else ps[i])
  }

  lemma EdgesOut(first: string, a: string, middle: seq<string>, last: string, b: string)
    ensures Join([a + first] + middle + [last + b], ",") == a + Join([first] + middle + [last], ",") + b
  {
    hide Join;
    assert [a + first] + middle + [last + b] == [a + first] + (middle + [last + b]);
    JoinFirst(a, first, middle + [last + b]);
    assert [first] + (middle + [last + b]) == ([first] + middle) + [last + b];
    JoinLast([first] + middle, last, b);
    AppendAssoc(a, Join([first] + middle + [last], ","), b);
  }

  lemma BaredHeader(ps: seq<Piece>)
    requires |ps| > 1 && GoodPieces(ps)
    ensures HeaderOf(ps) == Edge(ps[0], true) + HeaderOf(Bared(ps)) + Edge(ps[|ps| - 1], false)
  {
    hide GoodPiece, Printed, Join, Bare, Edge, Bared;
    var n := |ps| - 1;
    var middle := PrintedAll(ps[1..n]);
    BareIs(ps[0], true);
    BareIs(ps[n], false);
    assert PrintedAll(ps) == [Edge(ps[0], true) + Printed(Bare(ps[0], true))] + middle + [Printed(Bare(ps[n], false)) + Edge(ps[n], false)];
    assert PrintedAll(Bared(ps)) == [Printed(Bare(ps[0], true))] + middle + [Printed(Bare(ps[n], false))];
    EdgesOut(Printed(Bare(ps[0], true)), Edge(ps[0], true), middle, Printed(Bare(ps[n], false)), Edge(ps[n], false));
  }

  lemma BaredTrimmed(ps: seq<Piece>)
    requires |ps| > 1 && GoodPieces(ps)
    ensures Trimmed(HeaderOf(Bared(ps))) && ',' in HeaderOf(Bared(ps))
  {
    hide GoodPiece, Printed, Join, Bare, Trimmed, Bared;
    var n := |ps| - 1;
    BareIs(ps[0], true);
    BareIs(ps[n], false);
    BareEdges(ps[0], ps[n]);
    JoinTrimmed(Bare(ps[0], true), PrintedAll(ps[1..n]), Bare(ps[n], false));
    assert PrintedAll(Bared(ps)) == [Printed(Bare(ps[0], true))] + PrintedAll(ps[1..n]) + [Printed(Bare(ps[n], false))];
  }

  lemma BaredGood(ps: seq<Piece>)
    requires |ps| > 1 && GoodPieces(ps)
    ensures GoodPieces(Bared(ps)) && Said(Bared(ps)) == Said(ps)
    ensures Blank(Edge(ps[0], true)) && Blank(Edge(ps[|ps| - 1], false))
  {
    hide GoodPiece, Edge, Blank, Bare, Said, Printed, Bared;
    BareIs(ps[0], true);
    BareIs(ps[|ps| - 1], false);
    var qs := Bared(ps);
    forall i | 0 <= i < |ps| ensures GoodPiece(qs[i]) && qs[i].text == ps[i].text {
      assert 0 < i < |ps| - 1 ==> qs[i] == ps[i];
    }
    SameSaid(ps, qs);
  }

  /** A header of several pieces, without its outer white space. */
  lemma HeaderTrimmed(ps: seq<Piece>)
    requires |ps| > 1 && GoodPieces(ps)
    ensures Trim(HeaderOf(ps)) == HeaderOf(Bared(ps)) && ',' in HeaderOf(Bared(ps))
  {
    hide Trim, GoodPieces, Edge, Blank, Trimmed, HeaderOf, Bared;
    BaredGood(ps);
    BaredHeader(ps);
    BaredTrimmed(ps);
    TrimBlanks(Edge(ps[0], true), HeaderOf(Bared(ps)), Edge(ps[|ps| - 1], false));
  }

  lemma BareEdges(first: Piece, last: Piece)
    ensures var f, l := Bare(first, true), Bare(last, false);
            f.before == "" && l.after == "" && (f.text == "" ==> f.after == "") && (l.text == "" ==> l.before == "")
  {
  }

  lemma {:induction false} SameSaid(ps: seq<Piece>, qs: seq<Piece>)
    requires |ps| == |qs| && forall i :: 0 <= i < |ps| ==> ps[i].text == qs[i].text
    ensures Said(ps) == Said(qs)
    decreases |ps|
  {
    if ps != [] {
      SameSaid(ps[1..], qs[1..]);
    }
  }

  /** Every header: nothing but white space says nothing, a lone star means any, and otherwise the
      tokens are the texts between the commas, in order and without the white space around them. */
  lemma HeaderRead(ps: seq<Piece>)
    requires GoodPieces(ps)
    ensures ParseIfMatch(HeaderOf(ps)) ==
            if |ps| == 1 && ps[0].text == "" then Absent
            else if |ps| == 1 && ps[0].text == "*" then Any
            else Tokens(Said(ps))
  {
    hide Trim, GoodPiece, Printed, SplitOn, TrimAll;
    if |ps| == 1 {
      PieceTrimmed(ps[0]);
      assert HeaderOf(ps) == Printed(ps[0]);
      var p := Piece("", ps[0].text, "");
      OwnText(ps[0]);
      ListRead([p]);
      assert HeaderOf([p]) == Printed(p);
      SameSaid(ps, [p]);
    } else {
      HeaderTrimmed(ps);
      BaredGood(ps);
      ListRead(Bared(ps));
    }
  }

  lemma OwnText(q: Piece)
    requires GoodPiece(q)
    ensures var p := Piece("", q.text, ""); GoodPiece(p) && Printed(p) == q.text
  {
  }

  lemma ListRead(ps: seq<Piece>)
    requires GoodPieces(ps)
    ensures TrimAll(SplitOn(HeaderOf(ps), ',')) == Said(ps)
  {
    hide Trim, GoodPiece, Printed, SplitOn, TrimAll, Join;
    forall i | 0 <= i < |ps| ensures ',' !in PrintedAll(ps)[i] {
      PieceTrimmed(ps[i]);
    }
    SplitJoined(PrintedAll(ps), ',');
    TextsSaid(ps);
  }

  // ------------------------------------------------------------------ either strength

  /** A tag around escaped content: strong, or weak with `W/` before it. */
  function TagOf(value: string, weak: bool): string {
    if weak then "W/\"" + EscapeEtagValue(value) + "\"" else "\"" + EscapeEtagValue(value) + "\""
  }

  lemma TagNormalised(value: string, weak: bool)
    ensures NormaliseTag(TagOf(value, weak)) == value
  {
    hide EscapeEtagValue, UnescapeEtagValue, NormalizeHeaderValue, Inner;
    Unwrapped(EscapeEtagValue(value));
    StrongNormalised(EscapeEtagValue(value));
    QuotedInner(EscapeEtagValue(value));
    UnescapeUndoesEscape(value);
  }

  lemma StrongNormalised(content: string)
    ensures NormalizeHeaderValue("\"" + content + "\"") == [DQUOTE] + content + [DQUOTE]
  {
    hide Trim;
    var strong := "\"" + content + "\"";
    AsIs(strong);
    assert strong[0..2][0] == DQUOTE;
  }

  /** Comparison is weak: a tag matches exactly when one of the expected tags, of whatever strength, was
      made from the same value. */
  lemma EitherStrengthMatches(value: string, weak: bool, others: seq<string>, strengths: seq<bool>)
    requires |strengths| == |others|
    ensures var tags := seq(|others|, i requires 0 <= i < |others| => TagOf(others[i], strengths[i]));
            MatchesEtag(Some(TagOf(value, weak)), tags) <==> value in others
  {
    hide TagOf, NormaliseTag;
    var tags := seq(|others|, i requires 0 <= i < |others| => TagOf(others[i], strengths[i]));
    TagNormalised(value, weak);
    TagNotEmpty(value, weak);
    forall i | 0 <= i < |others| ensures NormaliseTag(tags[i]) == others[i] {
      TagNormalised(others[i], strengths[i]);
    }
    if value in others {
      var i :| 0 <= i < |others| && others[i] == value;
      assert NormaliseTag(tags[i]) == value;
    }
  }

  lemma TagNotEmpty(value: string, weak: bool)
    ensures TagOf(value, weak) != ""
  {
  }

  // ------------------------------------------------------------------ dropped and reported

  /** The usable values of some tokens, in order. */
  function Usables<V>(raw: seq<string>, props: seq<string>, into: Coercion<V>): seq<TokenValue<V>>
    requires props != []
  {
    if raw == [] then []
    else
      var first := Usable(raw[0], props, into);
      (if first.Some? then [first.value] else []) + Usables(raw[1..], props, into)
  }

  lemma {:induction false} UsablesMore<V>(raw: seq<string>, token: string, props: seq<string>, into: Coercion<V>)
    requires props != []
    ensures var last := Usable(token, props, into);
            Usables(raw + [token], props, into) == Usables(raw, props, into) + (if last.Some? then [last.value] else [])
    decreases |raw|
  {
    hide Usable, Usables;
    if raw == [] {
      assert raw + [token] == [token] + raw;
      UsablesCons(token, raw, props, into);
      NoUsables(props, into);
    } else {
      assert raw + [token] == [raw[0]] + (raw[1..] + [token]) && raw == [raw[0]] + raw[1..];
      UsablesCons(raw[0], raw[1..] + [token], props, into);
      UsablesCons(raw[0], raw[1..], props, into);
      UsablesMore(raw[1..], token, props, into);
    }
  }

  lemma NoUsables<V>(props: seq<string>, into: Coercion<V>)
    requires props != []
    ensures Usables([], props, into) == []
  {
  }

  lemma UsablesCons<V>(first: string, rest: seq<string>, props: seq<string>, into: Coercion<V>)
    requires props != []
    ensures var value := Usable(first, props, into);
            Usables([first] + rest, props, into) == (if value.Some? then [value.value] else []) + Usables(rest, props, into)
  {
    hide Usable;
    assert ([first] + rest)[1..] == rest;
  }

  /** The decoded values are the usable ones, in order; a batch of tokens is reported exactly when the
      properties are several and some token is not usable. */
  lemma {:induction false} DecodedExactly<V>(raw: seq<string>, props: seq<string>, into: Coercion<V>)
    requires props != []
    ensures var decoded := DecodeAll(raw, props, into);
            && decoded.values == Usables(raw, props, into)
            && (decoded.invalidComposite <==> |props| > 1 && exists i :: 0 <= i < |raw| && Usable(raw[i], props, into).None?)
    decreases |raw|
  {
    hide Usable;
    if raw != [] {
      var n := |raw| - 1;
      DecodedExactly(raw[..n], props, into);
      UsablesMore(raw[..n], raw[n], props, into);
      assert raw == raw[..n] + [raw[n]];
    }
  }

  lemma {:induction false} PartRead<V>(part: seq<string>, props: seq<string>, source: Values, into: Coercion<V>, n: nat)
    requires HasAll(part, source) && TextValues(source) && ProperProps(part) && n <= |part|
    requires forall i :: 0 <= i < |part| ==> part[i] in props
    ensures HasAll(part[..n], source)
    ensures ReadSegments(Pairs(part, source)[n..], props, into, Coerced(part[..n], source, into)) == Some(Coerced(part, source, into))
    decreases |part| - n
  {
    hide ReadSegment, PairOf;
    if n == |part| {
      assert part[..n] == part;
    } else {
      var segments := Pairs(part, source)[n..];
      PairRead(part[n], source[part[n]], props);
      assert segments[0] == PairOf(part[n], source[part[n]]) && segments[1..] == Pairs(part, source)[n + 1..];
      assert part[..n + 1] == part[..n] + [part[n]];
      PartRead(part, props, source, into, n + 1);
      assert Coerced(part[..n + 1], source, into) == Coerced(part[..n], source, into)[part[n] := into(part[n], source[part[n]])];
    }
  }

  lemma PartDecoded<V>(part: seq<string>, props: seq<string>, source: Values, into: Coercion<V>)
    requires HasAll(part, source) && TextValues(source) && ProperProps(part)
    requires forall i :: 0 <= i < |part| ==> part[i] in props
    ensures DecodeComposite(WeakWrap(CompositeContent(part, source)), props, into) == Some(Coerced(part, source, into))
  {
    hide NormalizeHeaderValue, Inner, SplitOn, ReadSegments, Pairs, CompositeContent, WeakWrap;
    Unwrapped(CompositeContent(part, source));
    SplitContent(part, source);
    PartRead(part, props, source, into, 0);
    assert Pairs(part, source)[0..] == Pairs(part, source);
    assert Coerced(part[..0], source, into) == map[];
    assert part[0] in Coerced(part, source, into);
  }

  /** A composite token is usable exactly when it was made of all the properties. */
  lemma UsableExactly<V>(part: seq<string>, props: seq<string>, source: Values, into: Coercion<V>)
    requires HasAll(part, source) && TextValues(source) && ProperProps(part) && |props| > 1
    requires forall i :: 0 <= i < |part| ==> part[i] in props
    ensures var value := Usable(WeakWrap(CompositeContent(part, source)), props, into);
            if forall i :: 0 <= i < |props| ==> props[i] in part then value == Some(Many(Coerced(part, source, into))) else value == None
  {
    hide DecodeComposite, CompositeContent, WeakWrap;
    PartDecoded(part, props, source, into);
    var values := Coerced(part, source, into);
    forall i | 0 <= i < |props| ensures props[i] in values <==> props[i] in part {
    }
  }

  // ------------------------------------------------------------------ tokens without quotes

  /** A token without quotes, weak or not, stands for its own text. */
  lemma UnquotedRead(text: string, weak: bool)
    requires text != "" && Trimmed(text) && text[0] != DQUOTE && (weak || !StartsWith(text, "W/"))
    ensures var tag := if weak then "W/" + text else text;
            NormaliseTag(tag) == text && DecodeSingle(tag) == Some(text)
  {
    hide Trim;
    var tag := if weak then "W/" + text else text;
    AsIs(text);
    AsIs(tag);
    if weak {
      assert tag[0..2] == "W/" && tag[2..] == text;
    }
  }
}
