/** Whole URLs: every segment of a path is rewritten on its own, whatever stands around it, and the
    query and the fragment of the URL are kept. */
module UrlRewriting {
  import opened ByteStrings
  import opened PercentEncoding
  import opened KeyLiteral
  import opened KeyRoundTrip

  // ------------------------------------------------------------------ where an expression ends

  function Quotes(s: string): nat {
    if s == "" then 0 else (if s[0] == QUOTE then 1 else 0) + Quotes(s[1..])
  }

  /** Is position `i` outside all strings? Strings are what stands between quotes; a doubled quote
      ends one and begins the next. */
  predicate Outside(s: string, i: nat)
    requires i <= |s|
  {
    Quotes(s[..i]) % 2 == 0
  }

  /** All strings are closed, and every closing parenthesis is inside one. */
  predicate Closed(s: string) {
    Outside(s, |s|) && forall i :: 0 <= i < |s| && s[i] == ')' ==> !Outside(s, i)
  }

  /** `Closed`, from inside or outside a string. */
  predicate ClosedFrom(s: string, inString: bool) {
    && (Quotes(s) % 2 == 1 <==> inString)
    && forall i :: 0 <= i < |s| && s[i] == ')' ==> (Quotes(s[..i]) % 2 == 1 <==> !inString)
  }

  lemma QuotesStep(s: string, i: nat)
    requires 0 < i <= |s|
    ensures Quotes(s[..i]) == (if s[0] == QUOTE then 1 else 0) + Quotes(s[1..][..i - 1])
  {
    assert s[..i][1..] == s[1..][..i - 1];
  }

  lemma ClosedRest(s: string, inString: bool)
    requires s != "" && ClosedFrom(s, inString)
    ensures ClosedFrom(s[1..], if s[0] == QUOTE then !inString else inString)
    ensures s[0] == ')' ==> inString
  {
    QuotesStep(s, |s|);
    assert s[..|s|] == s && s[1..][..|s| - 1] == s[1..];
    assert s[0] == ')' ==> Quotes(s[..0]) == 0;
    forall i | 0 <= i < |s[1..]| && s[1..][i] == ')'
      ensures Quotes(s[1..][..i]) % 2 == 1 <==> !(if s[0] == QUOTE then !inString else inString)
    {
      assert s[i + 1] == ')';
      QuotesStep(s, i + 1);
    }
  }

  /** The scan ends at the parenthesis behind a closed expression. */
  lemma {:induction false} ScanEnds(s: string, rest: string, pos: nat, inString: bool)
    requires ClosedFrom(s, inString) && pos + |s| <= 4096
    ensures KeyEnd(s + (")" + rest), pos, inString) == Some(pos + |s|)
    decreases |s|
  {
    hide ClosedFrom;
    var t := s + (")" + rest);
    if s == "" {
      assert t == ")" + rest && t[0] == ')';
      NothingOpen(inString);
    } else {
      ClosedRest(s, inString);
      assert t[0] == s[0] && t[1..] == s[1..] + (")" + rest);
      if s[0] == QUOTE && inString && |s| > 1 && s[1] == QUOTE {
        ClosedRest(s[1..], false);
        assert s[1..][1..] == s[2..] && t[2..] == s[2..] + (")" + rest);
        ScanEnds(s[2..], rest, pos + 2, true);
      } else {
        assert |s| > 1 ==> t[1] == s[1];
        assert |s| == 1 ==> t[1] == ')';
        ScanEnds(s[1..], rest, pos + 1, if s[0] == QUOTE then !inString else inString);
      }
    }
  }

  /** Behind an expression that is too long no end is found. */
  lemma {:induction false} LongRefused(s: string, rest: string, pos: nat, inString: bool)
    requires ClosedFrom(s, inString) && pos + |s| > 4096
    ensures KeyEnd(s + (")" + rest), pos, inString) == None
    decreases |s|
  {
    hide ClosedFrom;
    var t := s + (")" + rest);
    if s == "" {
      assert t == ")" + rest && t[0] == ')';
      NothingOpen(inString);
    } else {
      ClosedRest(s, inString);
      assert t[0] == s[0] && t[1..] == s[1..] + (")" + rest);
      if s[0] == QUOTE && inString && |s| > 1 && s[1] == QUOTE {
        ClosedRest(s[1..], false);
        assert s[1..][1..] == s[2..] && t[2..] == s[2..] + (")" + rest);
        LongRefused(s[2..], rest, pos + 2, true);
      } else {
        assert |s| > 1 ==> t[1] == s[1];
        assert |s| == 1 ==> t[1] == ')';
        LongRefused(s[1..], rest, pos + 1, if s[0] == QUOTE then !inString else inString);
      }
    }
  }

  lemma NothingOpen(inString: bool)
    requires ClosedFrom("", inString)
    ensures !inString
  {
  }

  // ------------------------------------------------------------------ paths in parts

  /** A segment without parentheses, or a name with an expression in parentheses. */
  datatype PathPart = Plain(text: string) | Opened(name: string, expression: string)

  function Printed(p: PathPart): string {
    match p
    case Plain(text) => "/" + text
    case Opened(name, expression) => "/" + name + "(" + expression + ")"
  }

  function PrintedAll(parts: seq<PathPart>): string {
    if parts == [] then "" else Printed(parts[0]) + PrintedAll(parts[1..])
  }

  predicate GoodPart(p: PathPart) {
    match p
    case Plain(text) => '(' !in text
    case Opened(name, expression) =>
      && name != "" && '(' !in name && '/' !in name && IsSegmentChar(name[|name| - 1])
      && Closed(expression) && |expression| <= 4096
  }

  /** A part on its own: a call keeps its name, without its namespace if it is no known operation, and
      leaves its parameters as a query; anything else is a key, and becomes a segment of its own. */
  function RewrittenPart(o: Options, p: PathPart): Rewritten {
    match p
    case Plain(text) => Rewritten("/" + text, [])
    case Opened(name, expression) =>
      var query, key := o.toQuery(expression), NormalizeKeyExpression(expression);
      if query.Some? && (name in o.operationNames || '.' in name) then
        Rewritten("/" + (if name in o.operationNames then name else o.stripNamespace(name)), if query.value == "" then [] else [query.value])
      else if key.Some? then Rewritten("/" + name + "/" + Encode(key.value, true), [])
      else Rewritten("/" + name + "(" + expression + ")", [])
  }

  function RewrittenAll(o: Options, parts: seq<PathPart>): Rewritten {
    if parts == [] then Rewritten("", [])
    else
      var first, rest := RewrittenPart(o, parts[0]), RewrittenAll(o, parts[1..]);
      Rewritten(first.path + rest.path, first.queries + rest.queries)
  }

  lemma NoneBefore(path: string, index: nat, n: nat)
    requires index + n <= |path| && forall k :: index <= k < index + n ==> path[k] != '('
    ensures var a, b := IndexOfChar(path[index..], '('), IndexOfChar(path[index + n..], '(');
            if b == -1 then a == -1 else a == n + b
  {
    var s, t := path[index..], path[index + n..];
    var b := IndexOfChar(t, '(');
    if b == -1 {
      forall j | 0 <= j < |s| ensures s[j] != '(' {
        assert s[j] == path[index + j];
        assert j >= n ==> t[j - n] == s[j] && t[j - n] in t;
      }
    } else {
      assert s[n + b] == t[b];
      forall j | 0 <= j < n + b ensures s[j] != '(' {
        assert s[j] == path[index + j];
        assert j >= n ==> s[j] == t[j - n] && t[..b][j - n] == t[j - n] && t[j - n] in t[..b];
      }
      FirstCharIs(s, '(', n + b);
    }
  }

  /** Text without a parenthesis in front of a slash is taken over. */
  lemma TextTaken(o: Options, path: string, index: nat, n: nat)
    requires index + n <= |path| && (forall k :: index <= k < index + n ==> path[k] != '(')
    requires index + n == |path| || path[index + n] == '/'
    ensures RewriteFrom(o, path, index) == After(path[index..index + n], [], RewriteFrom(o, path, index + n))
  {
    hide SegmentStep, RewriteFrom, IndexOfChar;
    NoneBefore(path, index, n);
    var b := IndexOfChar(path[index + n..], '(');
    FromUnfolds(o, path, index);
    FromUnfolds(o, path, index + n);
    if b == -1 {
      assert path[index..] == path[index..index + n] + path[index + n..];
    } else {
      FoundAt(path[index + n..]);
      var open := index + n + b;
      assert path[open] == path[index + n..][b];
      StepMoves(o, path, index, n, open);
    }
  }

  lemma FoundAt(s: string)
    ensures IndexOfChar(s, '(') >= 0 ==> s[IndexOfChar(s, '(')] == '('
  {
  }

  lemma FromUnfolds(o: Options, path: string, index: nat)
    requires index <= |path|
    ensures var at := IndexOfChar(path[index..], '(');
            RewriteFrom(o, path, index) ==
            if at == -1 then Rewritten(path[index..], [])
            else After(SegmentStep(o, path, index, index + at).text, SegmentStep(o, path, index, index + at).queries,
                       RewriteFrom(o, path, SegmentStep(o, path, index, index + at).next))
  {
    hide SegmentStep;
  }

  lemma StepMoves(o: Options, path: string, index: nat, n: nat, open: nat)
    requires index + n < open < |path| && path[index + n] == '/'
    ensures var a, b := SegmentStep(o, path, index, open), SegmentStep(o, path, index + n, open);
            a.text == path[index..index + n] + b.text && a.queries == b.queries && a.next == b.next
  {
    hide ExtractKeySegment, ClassifySegment, SegmentStart;
    SlashBefore(path, index + n, open);
    var start := SegmentStart(path, open);
    assert path[index..open + 1] == path[index..index + n] + path[index + n..open + 1];
    assert path[index..open] == path[index..index + n] + path[index + n..open];
    assert path[index..start] == path[index..index + n] + path[index + n..start];
    var close := ExtractKeySegment(path, open);
    if close.Some? {
      assert path[index..close.value + 1] == path[index..index + n] + path[index + n..close.value + 1];
      var c := ClassifySegment(o, path[start..open], path[open + 1..close.value]);
      if c.Key? {
        AppendAssoc(path[index..index + n], path[index + n..open], "/" + c.encoded);
        assert path[index..open] + "/" + c.encoded == path[index..open] + ("/" + c.encoded);
        assert path[index + n..open] + "/" + c.encoded == path[index + n..open] + ("/" + c.encoded);
      }
      if c.Call? {
        AppendAssoc(path[index..index + n], path[index + n..start], c.name);
      }
    }
  }

  lemma SlashBefore(path: string, at: nat, open: nat)
    requires at < open < |path| && path[at] == '/'
    ensures at < SegmentStart(path, open)
  {
    SlashFound(path[..open], at);
  }

  lemma {:induction false} SlashFound(s: string, at: nat)
    requires at < |s| && s[at] == '/'
    ensures LastSlash(s) >= at
    decreases |s|
  {
    if s[|s| - 1] != '/' {
      SlashFound(s[..|s| - 1], at);
    }
  }

  // ------------------------------------------------------------------ one segment

  /** A path up to a segment with an expression, which may end in anything. */
  function PathWith(before: string, name: string, expression: string, rest: string): string {
    before + ("/" + name) + ("(" + (expression + (")" + rest)))
  }

  lemma Places(before: string, name: string, expression: string, rest: string)
    requires name != "" && '/' !in name && '(' !in name
    ensures var path := PathWith(before, name, expression, rest);
            var open := |before| + 1 + |name|;
            var close := open + 1 + |expression|;
            && open < close < |path| && path[open - 1] == name[|name| - 1] && path[|before|] == '/'
            && path[|before|..open] == "/" + name && path[|before| + 1..open] == name
            && path[open + 1..] == expression + (")" + rest) && path[open + 1..close] == expression && path[close + 1..] == rest
            && path[|before|..close + 1] == "/" + name + "(" + expression + ")"
            && IndexOfChar(path[|before|..], '(') == 1 + |name|
            && path[..open] == before + ("/" + name)
  {
    var front, tail := before + ("/" + name), expression + (")" + rest);
    var path := PathWith(before, name, expression, rest);
    var open := |front|;
    assert path == front + ("(" + tail);
    assert path[open + 1..] == tail;
    assert path[|before|..] == ("/" + name) + ("(" + tail);
    assert forall j :: 0 <= j < |name| ==> name[j] in name;
    FirstParenthesis("/" + name, tail);
    assert tail == expression + ")" + rest;
  }

  lemma OpenedFound(before: string, name: string, expression: string, rest: string)
    requires GoodPart(Opened(name, expression))
    ensures var path := PathWith(before, name, expression, rest);
            var open := |before| + 1 + |name|;
            && open < |path| && ExtractKeySegment(path, open) == Some(open + 1 + |expression|)
            && SegmentStart(path, open) == |before| + 1
  {
    hide KeyEnd, PathWith, LastSlash, Closed, IsSegmentChar;
    Places(before, name, expression, rest);
    ClosedIsFrom(expression);
    ScanEnds(expression, rest, 0, false);
    NameStart(before, name);
  }

  lemma OpenedStep(o: Options, before: string, name: string, expression: string, rest: string)
    requires GoodPart(Opened(name, expression))
    ensures var path := PathWith(before, name, expression, rest);
            var open := |before| + 1 + |name|;
            var r := RewrittenPart(o, Opened(name, expression));
            open < |path| &&
            SegmentStep(o, path, |before|, open) == RewriteStep(r.path, r.queries, |before| + |Printed(Opened(name, expression))|)
  {
    hide NormalizeKeyExpression, Encode, PathWith, ExtractKeySegment, SegmentStart, Closed, IsSegmentChar, IndexOfChar;
    OpenedFound(before, name, expression, rest);
    Places(before, name, expression, rest);
    var path := PathWith(before, name, expression, rest);
    assert path[|before|..|before| + 1] == "/";
  }

  lemma ClosedIsFrom(s: string)
    requires Closed(s)
    ensures ClosedFrom(s, false)
  {
    assert s[..|s|] == s;
  }

  lemma NameStart(before: string, name: string)
    requires '/' !in name
    ensures LastSlash(before + ("/" + name)) == |before|
  {
    hide LastSlash;
    var front := before + ("/" + name);
    assert front[|before|] == '/';
    forall j | |before| < j < |front| ensures front[j] != '/' {
      assert front[j] == name[j - |before| - 1];
      assert name[j - |before| - 1] in name;
    }
    LastSlashIs(front, |before|);
  }

  // ------------------------------------------------------------------ all segments

  /** Every part of a path is rewritten on its own, in order; their queries are collected in order. */
  lemma {:induction false} EachPartRewritten(o: Options, before: string, parts: seq<PathPart>)
    requires forall i :: 0 <= i < |parts| ==> GoodPart(parts[i])
    ensures RewriteFrom(o, before + PrintedAll(parts), |before|) == RewrittenAll(o, parts)
    decreases |parts|
  {
    hide GoodPart, RewrittenPart, RewriteFrom, SegmentStep, Printed;
    var path := before + PrintedAll(parts);
    if parts == [] {
      assert path[|before|..] == "";
      FromUnfolds(o, path, |before|);
    } else {
      var p, rest := parts[0], PrintedAll(parts[1..]);
      assert path == (before + Printed(p)) + rest;
      EachPartRewritten(o, before + Printed(p), parts[1..]);
      assert GoodPart(p);
      if p.Plain? {
        PlainPart(o, before, p, parts[1..]);
      } else {
        OpenedPart(o, before, p, rest);
      }
    }
  }

  lemma RestStarts(parts: seq<PathPart>)
    ensures PrintedAll(parts) == "" || PrintedAll(parts)[0] == '/'
  {
  }

  lemma PlainPart(o: Options, before: string, p: PathPart, more: seq<PathPart>)
    requires p.Plain? && GoodPart(p)
    ensures var path := (before + Printed(p)) + PrintedAll(more);
            RewriteFrom(o, path, |before|) == After(RewrittenPart(o, p).path, [], RewriteFrom(o, path, |before + Printed(p)|))
    ensures RewrittenPart(o, p).queries == []
  {
    hide RewriteFrom, PrintedAll;
    var text, rest := Printed(p), PrintedAll(more);
    var path := (before + text) + rest;
    RestStarts(more);
    forall k | |before| <= k < |before| + |text| ensures path[k] != '(' {
      assert path[k] == text[k - |before|];
      assert k > |before| ==> text[k - |before|] == p.text[k - |before| - 1] && p.text[k - |before| - 1] in p.text;
    }
    assert path[|before|..|before| + |text|] == text;
    assert rest != "" ==> path[|before| + |text|] == rest[0];
    TextTaken(o, path, |before|, |text|);
  }

  lemma OpenIndex(before: string, name: string, expression: string, rest: string)
    requires name != "" && '/' !in name && '(' !in name
    ensures var path := PathWith(before, name, expression, rest);
            |before| <= |path| && IndexOfChar(path[|before|..], '(') == 1 + |name|
  {
    hide PathWith, IndexOfChar;
    Places(before, name, expression, rest);
  }

  lemma OpenedFrom(o: Options, before: string, name: string, expression: string, rest: string)
    requires GoodPart(Opened(name, expression))
    ensures var path := PathWith(before, name, expression, rest);
            var r := RewrittenPart(o, Opened(name, expression));
            var next := |before| + |Printed(Opened(name, expression))|;
            next <= |path| && RewriteFrom(o, path, |before|) == After(r.path, r.queries, RewriteFrom(o, path, next))
  {
    hide RewriteFrom, SegmentStep, RewrittenPart, PathWith, IndexOfChar, After, Closed, IsSegmentChar;
    OpenedStep(o, before, name, expression, rest);
    OpenIndex(before, name, expression, rest);
    hide GoodPart, Printed;
    FromUnfolds(o, PathWith(before, name, expression, rest), |before|);
  }

  lemma OpenedPart(o: Options, before: string, p: PathPart, rest: string)
    requires p.Opened? && GoodPart(p)
    ensures var path := (before + Printed(p)) + rest;
            var r := RewrittenPart(o, p);
            RewriteFrom(o, path, |before|) == After(r.path, r.queries, RewriteFrom(o, path, |before + Printed(p)|))
  {
    hide RewriteFrom, RewrittenPart, GoodPart, After, PathWith;
    SamePath(before, p.name, p.expression, rest);
    OpenedFrom(o, before, p.name, p.expression, rest);
  }

  lemma SamePath(before: string, name: string, expression: string, rest: string)
    ensures (before + ("/" + name + "(" + expression + ")")) + rest == PathWith(before, name, expression, rest)
  {
    var inner := "/" + name + "(" + expression + ")";
    assert inner == ("/" + name) + ("(" + (expression + ")"));
    assert inner + rest == ("/" + name) + ("(" + (expression + (")" + rest)));
    AppendAssoc(before, inner, rest);
    AppendAssoc(before, "/" + name, "(" + (expression + (")" + rest)));
  }

  // ------------------------------------------------------------------ query and fragment

  /** A mark and a text behind it, if there is one. */
  function Marked(mark: string, text: Option<string>): string {
    if text.None? then "" else mark + text.value
  }

  /** Everything that has to be asked for: the URL's own query first, then what the calls left. */
  function Asked(query: Option<string>, queries: seq<string>): seq<string> {
    (if query.None? || query.value == "" then [] else [query.value]) + queries
  }

  function QueryBehind(asked: seq<string>): string {
    if asked == [] then "" else "?" + Join(asked, "&")
  }

  function HashBehind(hash: Option<string>): string {
    if hash.None? || hash.value == "" then "" else "#" + hash.value
  }

  lemma SplitMarked(s: string, c: char, text: Option<string>)
    requires c !in s
    ensures SplitAt(s + Marked([c], text), c) == (s, text)
  {
    var whole := s + Marked([c], text);
    if text.None? {
      assert whole == s;
    } else {
      assert whole[|s|] == c;
      assert forall j :: 0 <= j < |s| ==> whole[j] == s[j] && s[j] in s;
      FirstCharIs(whole, c, |s|);
      assert whole[..|s|] == s && whole[|s| + 1..] == text.value;
    }
  }

  lemma JoinNotEmpty(queries: seq<string>)
    requires forall i :: 0 <= i < |queries| ==> queries[i] != ""
    ensures Join(queries, "&") == "" <==> queries == []
  {
  }

  lemma {:induction false} QueriesNotEmpty(o: Options, path: string, index: nat)
    requires index <= |path|
    ensures forall i :: 0 <= i < |RewriteFrom(o, path, index).queries| ==> RewriteFrom(o, path, index).queries[i] != ""
    decreases |path| - index
  {
    hide SegmentStep, RewriteFrom, IndexOfChar;
    var at := IndexOfChar(path[index..], '(');
    FromUnfolds(o, path, index);
    if at >= 0 {
      var step := SegmentStep(o, path, index, index + at);
      StepQueries(o, path, index, index + at);
      QueriesNotEmpty(o, path, step.next);
    }
  }

  lemma StepQueries(o: Options, path: string, index: nat, open: nat)
    requires index <= open < |path|
    ensures var step := SegmentStep(o, path, index, open); forall i :: 0 <= i < |step.queries| ==> step.queries[i] != ""
  {
    hide ExtractKeySegment, ClassifySegment, SegmentStart;
  }

  /** Behind the rewritten path stand the URL's own query, what its calls left, joined by `&`, and the
      fragment - each exactly when it is not empty. */
  lemma UrlKept(o: Options, path: string, query: Option<string>, hash: Option<string>)
    requires '?' !in path && '#' !in path && (query.Some? ==> '#' !in query.value)
    ensures var r := RewriteFrom(o, path, 0);
            RewriteODataUrl(o, path + Marked("?", query) + Marked("#", hash)) ==
            r.path + QueryBehind(Asked(query, r.queries)) + HashBehind(hash)
  {
    hide RewriteFrom, SplitAt, Join;
    var main := path + Marked("?", query);
    assert '#' !in main;
    SplitMarked(main, '#', hash);
    SplitMarked(path, '?', query);
    var r := RewriteFrom(o, path, 0);
    QueriesNotEmpty(o, path, 0);
    JoinNotEmpty(r.queries);
    QueryMerged(query, r.queries);
  }

  lemma QueryMerged(query: Option<string>, queries: seq<string>)
    requires Join(queries, "&") == "" <==> queries == []
    ensures Suffix("?", MergeQueries(query, Join(queries, "&"))) == QueryBehind(Asked(query, queries))
  {
    var own := if query.None? || query.value == "" then [] else [query.value];
    if own == [] {
      assert own + queries == queries;
    } else if queries == [] {
      assert own + queries == own;
    } else {
      assert (own + queries)[1..] == queries;
    }
  }

  /** A URL of any parts, with a query and a fragment. */
  lemma UrlRewritten(o: Options, parts: seq<PathPart>, query: Option<string>, hash: Option<string>)
    requires forall i :: 0 <= i < |parts| ==> GoodPart(parts[i])
    requires '?' !in PrintedAll(parts) && '#' !in PrintedAll(parts) && (query.Some? ==> '#' !in query.value)
    ensures var r := RewrittenAll(o, parts);
            RewriteODataUrl(o, PrintedAll(parts) + Marked("?", query) + Marked("#", hash)) ==
            r.path + QueryBehind(Asked(query, r.queries)) + HashBehind(hash)
  {
    hide RewriteODataUrl, RewriteFrom, RewrittenAll, PrintedAll, GoodPart;
    EachPartRewritten(o, "", parts);
    assert "" + PrintedAll(parts) == PrintedAll(parts);
    UrlKept(o, PrintedAll(parts), query, hash);
  }

  /** The key round trip with a query and a fragment: the rewritten path, then the query, then the
      fragment. */
  lemma KeyUrlRoundTrip(o: Options, root: string, entitySet: string, entries: seq<KeyEntry>, tail: string,
                        query: Option<string>, hash: Option<string>)
    requires GoodBase(o, root, entitySet) && GoodKey(entries)
    requires '(' !in tail && '?' !in tail && '#' !in tail && (query.Some? ==> '#' !in query.value)
    requires |BuildKeyLiteral(entries)| <= MAX_KEY_EXPRESSION_LENGTH
    ensures RewriteODataUrl(o, BuildEntityKeyPath(root, entitySet, entries) + tail + Marked("?", query) + Marked("#", hash)) ==
            SetPath(root, entitySet) + "/" + Encode(KeyText(entries), true) + tail +
            QueryBehind(Asked(query, [])) + HashBehind(hash)
  {
    hide GoodKey, BuildKeyLiteral, KeyText, RewriteFrom, Encode, RewriteODataUrl;
    var path := BuildEntityKeyPath(root, entitySet, entries) + tail;
    assert path == SetPath(root, entitySet) + "(" + BuildKeyLiteral(entries) + ")" + tail;
    LiteralHasNo(entries, '?');
    LiteralHasNo(entries, '#');
    PathRewritten(o, root, entitySet, entries, tail);
    hide GoodBase, SetPath;
    UrlKept(o, path, query, hash);
  }

  /** A value and a named value side by side are no key, in either order. */
  lemma MixtureRefused(v: KeyValue, e: KeyEntry, first: bool)
    requires GoodValue(v) && PlainWord(e.name) && GoodValue(e.value)
    ensures var a, b := SerializeKeyValue(v), e.name + "=" + SerializeKeyValue(e.value);
            NormalizeKeyExpression(if first then a + "," + b else b + "," + a) == None
  {
    hide SerializeKeyValue, PieceOf, PieceText, PairPiece, IsPlain, Trim, PlainWord, GoodValue, IsSpace, NormalizeLiteral, NormalizePair,
         SplitTopLevel;
    var a, b := SerializeKeyValue(v), Pair(e);
    ValuePiece(v);
    ValueEnds(v);
    TrimmedStays(a);
    NoEquals(PieceOf(v));
    PairAsPiece(e);
    PairReadBack(e);
    TrimEnds(b);
    var ps := if first then [PieceOf(v), PairPiece(e)] else [PairPiece(e), PieceOf(v)];
    var texts := if first then [a, b] else [b, a];
    assert Texts(ps) == texts;
    SplitPieces(ps);
    assert texts[1..] == [texts[1]];
    var whole := texts[0] + "," + texts[1];
    assert Join(texts, ",") == whole;
    TrimmedStays(whole);
    assert !IsAssignment(a) && IsAssignment(b);
  }
}
