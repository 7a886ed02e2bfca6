/** Key literals: printed when a response is turned into the path of its entity, parsed back when
    that path is rewritten to a plain route. */
module KeyLiteral {
  import opened ByteStrings
  import opened PercentEncoding

  const MAX_KEY_EXPRESSION_LENGTH := 4096
  const QUOTE: char := '\''

  // ------------------------------------------------------------------ the printer

  /** A key value as the printer tells them apart: numbers, booleans and big integers are written
      bare, dates with a type prefix, everything else as a quoted string. */
  datatype KeyValue = Bare(text: string) | DateTime(text: string) | Quoted(text: string)

  datatype KeyEntry = KeyEntry(name: string, value: KeyValue)

  function Doubled(s: string): string {
    if s == "" then "" else (if s[0] == QUOTE then [QUOTE, QUOTE] else [s[0]]) + Doubled(s[1..])
  }

  function Quote(s: string): string {
    [QUOTE] + Doubled(s) + [QUOTE]
  }

  function SerializeKeyValue(v: KeyValue): string {
    match v
    case Bare(text) => text
    case DateTime(text) => "datetime'" + text + "'"
    case Quoted(text) => Quote(text)
  }

  /** One part per key property; a single one goes without its name. */
  function KeyParts(entries: seq<KeyEntry>): seq<string> {
    if |entries| == 1 then [SerializeKeyValue(entries[0].value)]
    else seq(|entries|, i requires 0 <= i < |entries| => entries[i].name + "=" + SerializeKeyValue(entries[i].value))
  }

  function BuildKeyLiteral(entries: seq<KeyEntry>): string {
    Join(KeyParts(entries), ",")
  }

  function BuildEntityKeyPath(root: string, entitySet: string, entries: seq<KeyEntry>): string {
    root + (if EndsWith(root, "/") then "" else "/") + entitySet + "(" + BuildKeyLiteral(entries) + ")"
  }

  // ------------------------------------------------------------------ the parser

  /** Text that does not decode is taken as it stands. */
  function DecodeComponent(s: string): string {
    match PercentDecode(s)
    case None => s
    case Some(decoded) => decoded
  }

  /** Where the key ends: the first closing parenthesis outside a string, `pos` characters after
      the opening one. */
  function KeyEnd(rest: string, pos: nat, inString: bool): (r: Option<nat>)
    ensures r.Some? ==> pos <= r.value < pos + |rest|
    decreases |rest|
  {
    if rest == "" then None
    else if rest[0] == QUOTE then
      if inString && |rest| > 1 && rest[1] == QUOTE then KeyEnd(rest[2..], pos + 2, true)
      else if inString && pos > MAX_KEY_EXPRESSION_LENGTH then None
      else KeyEnd(rest[1..], pos + 1, !inString)
    else if inString then KeyEnd(rest[1..], pos + 1, true)
    else if pos > MAX_KEY_EXPRESSION_LENGTH then None
    else if rest[0] == ')' then Some(pos)
    else KeyEnd(rest[1..], pos + 1, false)
  }

  predicate IsSegmentChar(c: char) {
    '0' <= c <= '9' || 'A' <= c <= 'Z' || 'a' <= c <= 'z' || c == '_' || c == '.'
  }

  /** Position of the parenthesis that closes the one at `open`. */
  function ExtractKeySegment(path: string, open: nat): (r: Option<nat>)
    requires open < |path|
    ensures r.Some? ==> open < r.value < |path|
  {
    if open == 0 then None
    else if path[open - 1] != '/' && path[open - 1] != ')' && !IsSegmentChar(path[open - 1]) then None
    else match KeyEnd(path[open + 1..], 0, false)
      case None => None
      case Some(n) => Some(open + 1 + n)
  }

  function Part(s: string): seq<string> {
    if Trim(s) == "" then [] else [Trim(s)]
  }

  /** The pieces between commas outside strings, trimmed, without empty ones. */
  function SplitTopLevel(rest: string, current: string, inString: bool): seq<string>
    decreases |rest|
  {
    if rest == "" then Part(current)
    else if rest[0] == QUOTE then
      if inString && |rest| > 1 && rest[1] == QUOTE then SplitTopLevel(rest[2..], current + [QUOTE, QUOTE], true)
      else SplitTopLevel(rest[1..], current + [QUOTE], !inString)
    else if !inString && rest[0] == ',' then Part(current) + SplitTopLevel(rest[1..], "", false)
    else SplitTopLevel(rest[1..], current + [rest[0]], inString)
  }

  /** The first `=` outside a string, `pos` characters on, or -1. */
  function FindTopLevelEquals(rest: string, pos: nat, inString: bool): (r: int)
    ensures r == -1 || pos <= r < pos + |rest|
    decreases |rest|
  {
    if rest == "" then -1
    else if rest[0] == QUOTE then
      if inString && |rest| > 1 && rest[1] == QUOTE then FindTopLevelEquals(rest[2..], pos + 2, true)
      else FindTopLevelEquals(rest[1..], pos + 1, !inString)
    else if !inString && rest[0] == '=' then pos
    else FindTopLevelEquals(rest[1..], pos + 1, inString)
  }

  predicate IsPrefixStart(c: char) {
    'A' <= c <= 'Z' || 'a' <= c <= 'z' || c == '_'
  }

  function SegmentRun(s: string): nat {
    if s == "" || !IsSegmentChar(s[0]) then 0 else 1 + SegmentRun(s[1..])
  }

  /** Length of a type prefix with its quote, 0 if there is none. */
  function TypePrefix(s: string): nat {
    if s == "" || !IsPrefixStart(s[0]) then 0
    else
      var n := SegmentRun(s);
      if n < |s| && s[n] == QUOTE then n + 1 else 0
  }

  function Undoubled(s: string): string {
    if |s| >= 2 && s[0] == QUOTE && s[1] == QUOTE then [QUOTE] + Undoubled(s[2..])
    else if s == "" then ""
    else [s[0]] + Undoubled(s[1..])
  }

  function Unwrapped(literal: string, hadTypePrefix: bool): string {
    if |literal| >= 2 && literal[0] == QUOTE && literal[|literal| - 1] == QUOTE then literal[1..|literal| - 1]
    else if hadTypePrefix && literal != "" && literal[|literal| - 1] == QUOTE then literal[..|literal| - 1]
    else literal
  }

  function NormalizeLiteral(raw: string): string {
    var literal := Trim(DecodeComponent(Trim(raw)));
    var n := TypePrefix(literal);
    Undoubled(Unwrapped(if 0 < n <= |literal| then literal[n..] else literal, n > 0))
  }

  function NormalizePair(part: string): string
    requires FindTopLevelEquals(part, 0, false) >= 0
  {
    var eq := FindTopLevelEquals(part, 0, false);
    DecodeComponent(Trim(part[..eq])) + "=" + NormalizeLiteral(part[eq + 1..])
  }

  predicate IsAssignment(part: string) {
    FindTopLevelEquals(part, 0, false) >= 0
  }

  /** Names and values, or values alone; a mixture is refused. */
  function NormalizeKeyExpression(expression: string): Option<string> {
    var parts := SplitTopLevel(Trim(expression), "", false);
    if forall i :: 0 <= i < |parts| ==> !IsAssignment(parts[i]) then
      Some(Join(seq(|parts|, i requires 0 <= i < |parts| => NormalizeLiteral(parts[i])), ","))
    else if forall i :: 0 <= i < |parts| ==> IsAssignment(parts[i]) then
      Some(Join(seq(|parts|, i requires 0 <= i < |parts| && IsAssignment(parts[i]) => NormalizePair(parts[i])), ","))
    else None
  }

  /** Known operations; `toQuery` turns parameters into a query, or refuses; `stripNamespace`
      shortens a qualified name. */
  datatype Options = Options(operationNames: set<string>, toQuery: string -> Option<string>, stripNamespace: string -> string)

  datatype Rewritten = Rewritten(path: string, queries: seq<string>)

  function After(text: string, queries: seq<string>, r: Rewritten): Rewritten {
    Rewritten(text + r.path, queries + r.queries)
  }

  /** What an opened segment turns out to be: a call, whose parameters become a query, a key, or
      neither. */
  datatype Segment = Call(name: string, query: string) | Key(encoded: string) | Verbatim

  function ClassifySegment(o: Options, name: string, expression: string): Segment {
    var query := o.toQuery(expression);
    if name in o.operationNames && query.Some? then Call(name, query.value)
    else if '.' in name && query.Some? then Call(o.stripNamespace(name), query.value)
    else match NormalizeKeyExpression(expression)
      case None => Verbatim
      case Some(key) => Key(Encode(key, true))
  }

  function SegmentStart(path: string, open: nat): (r: nat)
    requires open < |path|
    ensures r <= open
  {
    LastSlash(path[..open]) + 1
  }

  /** Text and query to add, and where to go on. */
  datatype RewriteStep = RewriteStep(text: string, queries: seq<string>, next: nat)

  /** The step over the parenthesis at `open`, with the text before it. */
  function SegmentStep(o: Options, path: string, index: nat, open: nat): (step: RewriteStep)
    requires index <= open < |path|
    ensures open < step.next <= |path|
  {
    match ExtractKeySegment(path, open)
    case None => RewriteStep(path[index..open + 1], [], open + 1)
    case Some(close) =>
      var start := SegmentStart(path, open);
      match ClassifySegment(o, path[start..open], path[open + 1..close])
      case Verbatim => RewriteStep(path[index..close + 1], [], close + 1)
      case Key(encoded) => RewriteStep(path[index..open] + "/" + encoded, [], close + 1)
      case Call(name, query) =>
        RewriteStep((if index <= start then path[index..start] else "") + name, if query == "" then [] else [query], close + 1)
  }

  function RewriteFrom(o: Options, path: string, index: nat): Rewritten
    requires index <= |path|
    decreases |path| - index
  {
    var at := IndexOfChar(path[index..], '(');
    if at == -1 then Rewritten(path[index..], [])
    else
      var step := SegmentStep(o, path, index, index + at);
      After(step.text, step.queries, RewriteFrom(o, path, step.next))
  }

  datatype Url = Url(path: string, query: Option<string>, hash: Option<string>)

  function SplitAt(s: string, c: char): (string, Option<string>) {
    var i := IndexOfChar(s, c);
    if i < 0 then (s, None) else (s[..i], Some(s[i + 1..]))
  }

  function SplitUrl(url: string): Url {
    var (main, hash) := SplitAt(url, '#');
    var (path, query) := SplitAt(main, '?');
    Url(path, query, hash)
  }

  function Suffix(mark: string, text: Option<string>): string {
    if text.Some? && text.value != "" then mark + text.value else ""
  }

  function MergeQueries(existing: Option<string>, extra: string): Option<string> {
    if extra == "" then existing
    else if existing.None? || existing.value == "" then Some(extra)
    else Some(existing.value + "&" + extra)
  }

  function RewriteODataUrl(o: Options, url: string): string {
    var parts := SplitUrl(url);
    var rewritten := RewriteFrom(o, parts.path, 0);
    rewritten.path + Suffix("?", MergeQueries(parts.query, Join(rewritten.queries, "&"))) + Suffix("#", parts.hash)
  }

  // ------------------------------------------------------------------ the parser's loops

  method KeyEndLoop(path: string, start: nat) returns (r: Option<nat>)
    requires start <= |path|
    ensures r == KeyEnd(path[start..], 0, false)
  {
    var i := start;
    var inString := false;
    while i < |path|
      invariant start <= i <= |path|
      invariant KeyEnd(path[i..], i - start, inString) == KeyEnd(path[start..], 0, false)
      decreases |path| - i
    {
      var ch := path[i];
      assert path[i..][1..] == path[i + 1..];
      if ch == QUOTE {
        if inString {
          if i + 1 < |path| && path[i + 1] == QUOTE {
            assert path[i..][2..] == path[i + 2..];
            i := i + 2;
            continue;
          }
          inString := false;
          if i - start > MAX_KEY_EXPRESSION_LENGTH {
            return None;
          }
        } else {
          inString := true;
        }
      } else if !inString {
        if i - start > MAX_KEY_EXPRESSION_LENGTH {
          return None;
        }
        if ch == ')' {
          return Some(i - start);
        }
      }
      i := i + 1;
    }
    return None;
  }

  method SplitLoop(input: string) returns (parts: seq<string>)
    ensures parts == SplitTopLevel(input, "", false)
  {
    parts := [];
    var current := "";
    var inString := false;
    var i := 0;
    while i < |input|
      invariant 0 <= i <= |input|
      invariant parts + SplitTopLevel(input[i..], current, inString) == SplitTopLevel(input, "", false)
    {
      var ch := input[i];
      assert input[i..][1..] == input[i + 1..];
      if ch == QUOTE {
        if inString && i + 1 < |input| && input[i + 1] == QUOTE {
          assert input[i..][2..] == input[i + 2..];
          current := current + [QUOTE, QUOTE];
          i := i + 2;
          continue;
        }
        current := current + [ch];
        inString := !inString;
      } else if !inString && ch == ',' {
        PartsRegroup(parts, Part(current), SplitTopLevel(input[i + 1..], "", false));
        parts := parts + Part(current);
        current := "";
      } else {
        current := current + [ch];
      }
      i := i + 1;
    }
    parts := parts + Part(current);
  }

  lemma PartsRegroup(a: seq<string>, b: seq<string>, c: seq<string>)
    ensures a + (b + c) == a + b + c
  {
  }

  method FindEqualsLoop(input: string) returns (r: int)
    ensures r == FindTopLevelEquals(input, 0, false)
  {
    var inString := false;
    var i := 0;
    while i < |input|
      invariant 0 <= i <= |input|
      invariant FindTopLevelEquals(input[i..], i, inString) == FindTopLevelEquals(input, 0, false)
    {
      var ch := input[i];
      assert input[i..][1..] == input[i + 1..];
      if ch == QUOTE {
        if inString && i + 1 < |input| && input[i + 1] == QUOTE {
          assert input[i..][2..] == input[i + 2..];
          i := i + 2;
          continue;
        }
        inString := !inString;
      } else if !inString && ch == '=' {
        return i;
      }
      i := i + 1;
    }
    return -1;
  }

  method RewritePath(o: Options, path: string) returns (r: Rewritten)
    ensures r == RewriteFrom(o, path, 0)
  {
    hide SegmentStep;
    var result := "";
    var queryFragments: seq<string> := [];
    var index := 0;
    while index < |path|
      invariant 0 <= index <= |path|
      invariant After(result, queryFragments, RewriteFrom(o, path, index)) == RewriteFrom(o, path, 0)
    {
      var at := IndexOfChar(path[index..], '(');
      if at == -1 {
        return Rewritten(result + path[index..], queryFragments);
      }
      var step := RewriteSegment(o, path, index, index + at);
      AfterStep(result, queryFragments, step, RewriteFrom(o, path, step.next));
      result := result + step.text;
      queryFragments := queryFragments + step.queries;
      index := step.next;
    }
    NothingToRewrite(o, path);
    return Rewritten(result, queryFragments);
  }

  lemma AfterStep(text: string, queries: seq<string>, step: RewriteStep, r: Rewritten)
    ensures After(text, queries, After(step.text, step.queries, r)) == After(text + step.text, queries + step.queries, r)
  {
  }

  lemma NothingToRewrite(o: Options, path: string)
    ensures RewriteFrom(o, path, |path|) == Rewritten("", [])
  {
    assert path[|path|..] == "";
  }

  /** The body of the loop, on the parenthesis at `openIndex`. */
  method RewriteSegment(o: Options, path: string, index: nat, openIndex: nat) returns (step: RewriteStep)
    requires index <= openIndex < |path|
    ensures step == SegmentStep(o, path, index, openIndex)
  {
    hide ClassifySegment, SegmentStart, KeyEnd;
    if openIndex == 0 || (path[openIndex - 1] != '/' && path[openIndex - 1] != ')' && !IsSegmentChar(path[openIndex - 1])) {
      return RewriteStep(path[index..openIndex + 1], [], openIndex + 1);
    }
    var length := KeyEndLoop(path, openIndex + 1);
    if length.None? {
      return RewriteStep(path[index..openIndex + 1], [], openIndex + 1);
    }
    var closeIndex := openIndex + 1 + length.value;
    var start := SegmentStart(path, openIndex);
    var segment := ClassifySegment(o, path[start..openIndex], path[openIndex + 1..closeIndex]);
    match segment {
      case Verbatim =>
        return RewriteStep(path[index..closeIndex + 1], [], closeIndex + 1);
      case Key(encoded) =>
        return RewriteStep(path[index..openIndex] + "/" + encoded, [], closeIndex + 1);
      case Call(name, query) =>
        var kept := if index <= start then path[index..start] else "";
        return RewriteStep(kept + name, if query == "" then [] else [query], closeIndex + 1);
    }
  }
}
