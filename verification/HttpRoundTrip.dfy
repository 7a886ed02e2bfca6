/** One printed response, read back: header lines, status line, headers and body. */
module HttpRoundTrip {
  import opened ByteStrings
  import opened MultipartParser
  import opened MultipartSerializer
  import opened FramingRoundTrip
  import opened MessageContents

  // ------------------------------------------------------------------ trimming and words

  lemma TrimOfTrimmed(s: string)
    requires Trimmed(s)
    ensures Trim(s) == s && Trim(" " + s) == s
  {
    TrimTrimmed(s);
    hide TrimRight;
    assert (" " + s)[1..] == s;
    assert TrimLeft(" " + s) == TrimLeft(s);
  }

  lemma TrimTrimmed(s: string)
    requires Trimmed(s)
    ensures Trim(s) == s
  {
  }

  lemma {:induction false} TrimRightKeeps(s: string, n: nat)
    requires 0 < n <= |s| && !IsSpace(s[n - 1])
    ensures |TrimRight(s)| >= n
    decreases |s|
  {
    if IsSpace(s[|s| - 1]) {
      TrimRightKeeps(s[..|s| - 1], n);
    }
  }

  lemma {:induction false} FirstWordOf(word: string, z: string)
    requires forall i :: 0 <= i < |word| ==> !IsSpace(word[i])
    requires z == "" || IsSpace(z[0])
    ensures FirstWord(word + z) == word && AfterFirstWord(word + z) == z
    decreases |word|
  {
    if word == "" {
      assert word + z == z;
    } else {
      assert (word + z)[1..] == word[1..] + z;
      FirstWordOf(word[1..], z);
    }
  }

  // ------------------------------------------------------------------ the status line

  const HTTP_VERSION := "HTTP/1.1"

  /** Trimming keeps a line up to any character that is not a space. */
  lemma TrimmedLine(head: string, tail: string) returns (z: string)
    requires head != "" && !IsSpace(head[0]) && !IsSpace(head[|head| - 1])
    requires tail != "" && IsSpace(tail[0])
    ensures Trim(head + tail) == head + z && (z == "" || IsSpace(z[0]))
  {
    var s := head + tail;
    assert TrimLeft(s) == s;
    assert s[|head| - 1] == head[|head| - 1];
    TrimRightKeeps(s, |head|);
    hide TrimRight, IsSpace;
    var t := TrimRight(s);
    z := t[|head|..];
    assert t[..|head|] == s[..|t|][..|head|] == head;
    assert z != "" ==> z[0] == t[|head|] == s[|head|] == tail[0];
  }

  predicate Word(s: string) {
    s != "" && forall i :: 0 <= i < |s| ==> !IsSpace(s[i])
  }

  lemma TwoWords(verb: string, url: string, reason: string)
    requires Word(verb) && Word(url)
    ensures var line := Trim(verb + " " + url + " " + reason);
            FirstWord(line) == verb && FirstWord(TrimLeft(AfterFirstWord(line))) == url
  {
    hide Trim, FirstWord, AfterFirstWord;
    var head := verb + " " + url;
    assert head[0] == verb[0] && head[|head| - 1] == url[|url| - 1];
    AppendAssoc(head, " ", reason);
    assert IsSpace((" " + reason)[0]);
    var z := TrimmedLine(head, " " + reason);
    assert head + z == verb + (" " + (url + z));
    FirstWordOf(verb, " " + (url + z));
    SkipSpace(url + z);
    FirstWordOf(url, z);
  }

  lemma SkipSpace(s: string)
    requires s != "" && !IsSpace(s[0])
    ensures TrimLeft(" " + s) == s
  {
    assert (" " + s)[1..] == s;
  }

  lemma RequestLineWords(status: nat, reason: string)
    ensures var line := Trim(HTTP_VERSION + " " + Decimal(status) + " " + reason);
            FirstWord(line) == HTTP_VERSION && FirstWord(TrimLeft(AfterFirstWord(line))) == Decimal(status)
  {
    hide Trim, FirstWord, AfterFirstWord, TrimLeft, Decimal;
    TwoWords(HTTP_VERSION, Decimal(status), reason);
  }

  // ------------------------------------------------------------------ header lines

  predicate CleanText(s: string) {
    CR !in s && LF !in s && Trimmed(s)
  }

  predicate CleanHeader(header: (string, string)) {
    CleanText(header.0) && ':' !in header.0 && CleanText(header.1)
  }

  /** Clean, and named in lower case as normalised headers are. */
  predicate NormalHeader(header: (string, string)) {
    CleanHeader(header) && Lower(header.0) == header.0
  }

  predicate NormalHeaders(h: HeaderList) {
    forall i :: 0 <= i < |h| ==> NormalHeader(h[i])
  }

  lemma LineParsed(h: Headers, name: string, value: string)
    requires ':' !in name && Trimmed(name) && Trimmed(value)
    ensures AddLine(h, PlainLine(name, value)) == h[Lower(name) := value]
  {
    hide IndexOfChar, Trim, Lower;
    ColonAt(name, value);
    TrimOfTrimmed(name);
    TrimOfTrimmed(value);
  }

  lemma ColonAt(name: string, value: string)
    requires ':' !in name
    ensures var line := PlainLine(name, value);
            IndexOfChar(line, ':') == |name| && line[..|name|] == name && line[|name| + 1..] == " " + value
  {
    var line := PlainLine(name, value);
    forall j | 0 <= j < |name|
      ensures line[j] != ':'
    {
      assert line[j] == name[j] && name[j] in name;
    }
    FirstCharIs(line, ':', |name|);
  }

  predicate IsPlain(c: char) {
    c != CR && c != LF && c != ':'
  }

  lemma CaseOfChar(c: char)
    ensures LowerChar(UpperChar(c)) == LowerChar(c) == LowerChar(LowerChar(c))
    ensures IsSpace(UpperChar(c)) == IsSpace(c) == IsSpace(LowerChar(c))
    ensures IsPlain(UpperChar(c)) == IsPlain(c) == IsPlain(LowerChar(c))
  {
  }

  lemma FormattedName(name: string)
    requires CleanText(name) && ':' !in name
    ensures var f := FormatHeaderName(name);
            CleanText(f) && ':' !in f && Lower(f) == Lower(name)
  {
    var f := FormatHeaderName(name);
    forall i | 0 <= i < |name|
      ensures LowerChar(f[i]) == LowerChar(name[i]) && IsSpace(f[i]) == IsSpace(name[i])
      ensures f[i] != CR && f[i] != LF && f[i] != ':'
    {
      CaseOfChar(name[i]);
      assert name[i] in name;
    }
  }

  lemma LoweredName(name: string)
    requires CleanText(name) && ':' !in name
    ensures CleanText(Lower(name)) && ':' !in Lower(name) && Lower(Lower(name)) == Lower(name)
  {
    forall i | 0 <= i < |name|
      ensures LowerChar(LowerChar(name[i])) == LowerChar(name[i]) && IsSpace(Lower(name)[i]) == IsSpace(name[i])
      ensures Lower(name)[i] != CR && Lower(name)[i] != LF && Lower(name)[i] != ':'
    {
      CaseOfChar(name[i]);
      assert name[i] in name;
    }
  }

  lemma {:induction false} PutNormal(h: HeaderList, name: string, value: string)
    requires NormalHeaders(h) && NormalHeader((name, value))
    ensures NormalHeaders(Put(h, name, value))
    decreases |h|
  {
    hide NormalHeader;
    if h != [] && h[0].0 != name {
      PutNormal(h[1..], name, value);
    }
  }

  lemma {:induction false} NormaliseNormal(h: HeaderList, headers: HeaderList)
    requires NormalHeaders(h)
    requires forall i :: 0 <= i < |headers| ==> CleanHeader(headers[i])
    ensures NormalHeaders(NormaliseInto(h, headers))
    decreases |headers|
  {
    hide NormalHeaders, Put, CleanText;
    if headers != [] {
      assert CleanHeader(headers[0]);
      LoweredName(headers[0].0);
      PutNormal(h, Lower(headers[0].0), headers[0].1);
      NormaliseNormal(Put(h, Lower(headers[0].0), headers[0].1), headers[1..]);
    }
  }

  lemma LengthHeader(n: nat)
    ensures NormalHeader(("content-length", Decimal(n)))
  {
    var d := Decimal(n);
    assert Lower("content-length") == "content-length";
  }

  lemma TypeHeader()
    ensures NormalHeader(("content-type", "application/json; charset=utf-8"))
  {
    assert Lower("content-type") == "content-type";
  }

  lemma FinalHeadersNormal(entry: Entry)
    requires forall i :: 0 <= i < |entry.headers| ==> CleanHeader(entry.headers[i])
    ensures NormalHeaders(FinalHeaders(entry))
    ensures BodyBytes(entry.body) != "" ==> FinalHeaders(entry) != []
  {
    hide NormalHeader, Put, Lookup, NormaliseInto, CleanHeader;
    var bytes := BodyBytes(entry.body);
    NormaliseNormal([], entry.headers);
    TypeHeader();
    LengthHeader(|bytes|);
    var given := NormaliseHeaders(entry.headers);
    PutNormal(given, "content-type", "application/json; charset=utf-8");
    PutNormal(given, "content-length", Decimal(|bytes|));
    PutNormal(Put(given, "content-type", "application/json; charset=utf-8"), "content-length", Decimal(|bytes|));
    PutNotEmpty(given, "content-length", Decimal(|bytes|));
    PutNotEmpty(Put(given, "content-type", "application/json; charset=utf-8"), "content-length", Decimal(|bytes|));
    LookupEmpty("content-length");
  }

  lemma PutNotEmpty(h: HeaderList, name: string, value: string)
    ensures Put(h, name, value) != []
  {
  }

  lemma LookupEmpty(name: string)
    ensures Lookup([], name) == ""
  {
  }

  lemma {:induction false} HeadersReadBack(m: Headers, h: HeaderList)
    requires NormalHeaders(h)
    ensures AddLines(m, HeaderLines(h)) == HeaderMapInto(m, h)
    decreases |h|
  {
    hide NormalHeader, AddLine, HeaderLine;
    if h != [] {
      assert NormalHeader(h[0]);
      NormalLine(m, h[0]);
      assert HeaderLines(h)[1..] == HeaderLines(h[1..]);
      HeadersReadBack(m[h[0].0 := h[0].1], h[1..]);
    }
  }

  lemma NormalLine(m: Headers, header: (string, string))
    requires NormalHeader(header)
    ensures AddLine(m, HeaderLine(header)) == m[header.0 := header.1]
    ensures CleanLine(HeaderLine(header))
  {
    hide AddLine, FormatHeaderName, Lower, PlainLine;
    var f := FormatHeaderName(header.0);
    FormattedName(header.0);
    LineParsed(m, f, header.1);
    CleanLineFrom(f, header.1);
  }

  lemma CleanLineFrom(name: string, value: string)
    requires CR !in name && LF !in name && CR !in value && LF !in value
    ensures CleanLine(PlainLine(name, value))
  {
  }

  lemma {:induction false} NormalLines(h: HeaderList)
    requires NormalHeaders(h) && h != []
    ensures CleanLines(HeaderLines(h))
  {
    hide NormalHeader, CleanLine;
    forall i | 0 <= i < |h|
      ensures CleanLine(HeaderLines(h)[i])
    {
      NormalLine(map[], h[i]);
    }
  }

  // ------------------------------------------------------------------ a whole response

  /** What the round trip needs of an entry; its body bytes are arbitrary, except that a body
      typed as JSON must be JSON. */
  ghost predicate CleanEntry(entry: Entry, reason: nat -> string, json: string -> bool) {
    && CleanText(entry.id)
    && CR !in reason(entry.status) && LF !in reason(entry.status)
    && (forall i :: 0 <= i < |entry.headers| ==> CleanHeader(entry.headers[i]))
    && !BrokenJson(EntryType(entry), OwnBytes(entry.body), json)
  }

  /** The content type an entry is printed with. */
  function EntryType(entry: Entry): string {
    var v := FinalValue(entry, "content-type");
    if v.Some? then v.value else ""
  }

  /** The body the parser makes of an entry's bytes, by the printed content type. */
  function ReadBody(entry: Entry, json: string -> bool): Result<Body, ParseError> {
    ParseBody(GetOr(HeaderMap(FinalHeaders(entry)), "content-type", ""), BodyBytes(entry.body), json)
  }

  /** The body read back is the entry's own, in the form its content type asks for. */
  lemma BodyReadBack(entry: Entry, json: string -> bool)
    ensures var r := ReadBody(entry, json);
            if BrokenJson(EntryType(entry), OwnBytes(entry.body), json) then r == Err(InvalidJson)
            else r.Ok? && Carries(EntryType(entry), OwnBytes(entry.body), r.value)
  {
    hide ParseBody, FinalValue, HeaderMap, FinalHeaders, BodyBytes, OwnBytes, Carries, BrokenJson;
    FinalHeadersSay(entry, "content-type");
    OwnBytesPrinted(entry.body);
    BodyRead(EntryType(entry), OwnBytes(entry.body), json);
  }

  lemma StatusLineBreak(line: string, rest: string)
    requires CR !in line && LF !in line && line != ""
    ensures StripLeadingEmptyLine(line + CRLF + rest) == line + CRLF + rest
    ensures FindLineBreak(line + CRLF + rest) == Some(Separator(|line|, 2))
    ensures (line + CRLF + rest)[..|line|] == line && (line + CRLF + rest)[|line| + 2..] == rest
  {
    var s := line + CRLF + rest;
    FirstBreak(line, rest);
    assert s[|line|] == CR;
    assert line[0] in line && s[0] == line[0];
    assert s[0..2][0] == s[0] != CR;
  }

  lemma StatusLineClean(status: nat, reason: nat -> string)
    requires CR !in reason(status) && LF !in reason(status)
    ensures CR !in StatusLine(status, reason) && LF !in StatusLine(status, reason) && StatusLine(status, reason) != ""
  {
  }

  /** What the parser makes of the text after the status line. */
  lemma RestParsed(h: HeaderList, body: string)
    requires NormalHeaders(h) && (body != "" ==> h != [])
    ensures var lines := HeaderLines(h);
            var rest := if lines == [] then CRLF + body else Join(lines, CRLF) + (CRLF + CRLF + body);
            var end := FindHeaderSeparator(rest);
            && ParseHeaders(if end.Some? then rest[..end.value.index] else rest) == HeaderMap(h)
            && (if end.Some? then rest[end.value.index + end.value.length..] else "") == body
  {
    hide FindHeaderSeparator, ParseHeaders, Join, HeaderLine, NormalHeaders;
    if h == [] {
      BareBreak();
      assert CRLF + "" == CRLF;
    } else {
      BlockParsed(h, body);
    }
  }

  lemma BlockParsed(h: HeaderList, body: string)
    requires NormalHeaders(h) && h != []
    ensures HeaderLines(h) != []
    ensures var head := Join(HeaderLines(h), CRLF);
            var rest := head + (CRLF + CRLF + body);
            FindHeaderSeparator(rest) == Some(Separator(|head|, 4))
            && ParseHeaders(rest[..|head|]) == HeaderMap(h) && rest[|head| + 4..] == body
  {
    hide IndexOf, AddLine, Join, HeaderLine, CleanLine, NormalHeader;
    var lines := HeaderLines(h);
    NormalLines(h);
    HeaderBlockEnd(lines, body);
    SplitJoin(lines);
    HeadersReadBack(map[], h);
    var head := Join(lines, CRLF);
    hide HeaderMapInto, AddLines, HeaderLines, SplitLines;
    TakeAppend(head, CRLF + CRLF + body, |head|);
    DropPast(head, CRLF + CRLF + body, 4);
    DropPast(CRLF + CRLF, body, 0);
  }

  lemma BareBreak()
    ensures FindHeaderSeparator(CRLF) == None && ParseHeaders(CRLF) == map[]
  {
    assert IndexOfChar(CRLF, LF) == 1 && CRLF[..1] == "\r" && CRLF[2..] == "";
    assert SplitLines("") == [""];
    assert SplitLines(CRLF) == ["", ""];
    assert AddLine(map[], "") == map[];
    assert ["", ""][1..] == [""];
    assert IndexOf(CRLF, "\n\n") == -1 by {
      assert CRLF[0..2][0] == CR;
    }
  }

  /** The printed response, read as a request: version as method, status as URL, then the final
      headers and the exact body bytes. */
  lemma ResponseParsed(entry: Entry, reason: nat -> string, json: string -> bool)
    requires CleanEntry(entry, reason, json)
    ensures var r := ParseHttpPayload(RenderHttpResponse(entry, reason), json);
            && r.Ok? && r.value.verb == HTTP_VERSION && r.value.url == Decimal(entry.status)
            && (forall name :: Get(r.value.headers, name) == FinalValue(entry, name))
            && Carries(EntryType(entry), OwnBytes(entry.body), r.value.body)
  {
    hide RenderHttpResponse, ParseHttpPayload, FinalValue, HeaderMap, FinalHeaders, Carries, ReadBody, EntryType;
    ResponseRead(entry, reason, json);
    CleanBody(entry, reason, json);
    BodyReadBack(entry, json);
    forall name ensures Get(HeaderMap(FinalHeaders(entry)), name) == FinalValue(entry, name) {
      FinalHeadersSay(entry, name);
    }
  }

  lemma CleanBody(entry: Entry, reason: nat -> string, json: string -> bool)
    requires CleanEntry(entry, reason, json)
    ensures ReadBody(entry, json).Ok?
  {
    hide ReadBody, EntryType, BrokenJson, Carries;
    BodyReadBack(entry, json);
  }

  lemma ResponseRead(entry: Entry, reason: nat -> string, json: string -> bool)
    requires CleanEntry(entry, reason, json)
    ensures ReadBody(entry, json).Ok?
    ensures ParseHttpPayload(RenderHttpResponse(entry, reason), json) ==
            Ok(Payload(HTTP_VERSION, Decimal(entry.status), HeaderMap(FinalHeaders(entry)), ReadBody(entry, json).value))
  {
    hide HeaderLines, FinalHeaders, HeaderMapInto, Join, FindHeaderSeparator, ParseHeaders, Decimal, Trim, TrimLeft,
         FirstWord, AfterFirstWord, BodyBytes, StripLeadingEmptyLine, FindLineBreak, CleanText, CleanHeader, NormalHeaders,
         BrokenJson, EntryType, OwnBytes, FinalValue;
    CleanBody(entry, reason, json);
    var line, h, body := StatusLine(entry.status, reason), FinalHeaders(entry), BodyBytes(entry.body);
    var lines := HeaderLines(h);
    var rest := if lines == [] then CRLF + body else Join(lines, CRLF) + (CRLF + CRLF + body);
    FinalHeadersNormal(entry);
    StatusLineClean(entry.status, reason);
    ResponseSplit(line, lines, body);
    StatusLineBreak(line, rest);
    LinesOfNothing(h);
    RestParsed(h, body);
    RequestLineWords(entry.status, reason(entry.status));
    VersionText();
    hide ParseBody, StatusLine, Upper, HTTP_VERSION;
  }

  lemma VersionText()
    ensures HTTP_VERSION + " " == "HTTP/1.1 " && Upper(HTTP_VERSION) == HTTP_VERSION
  {
  }

  lemma LinesOfNothing(h: HeaderList)
    ensures HeaderLines(h) == [] <==> h == []
  {
  }

  lemma ResponseSplit(line: string, lines: seq<string>, body: string)
    ensures line + (if lines == [] then "" else CRLF + Join(lines, CRLF)) + CRLF + CRLF + body ==
            line + CRLF + (if lines == [] then CRLF + body else Join(lines, CRLF) + (CRLF + CRLF + body))
  {
    hide Join;
  }

  // ------------------------------------------------------------------ a whole part

  lemma PartHeaders(id: string)
    requires CleanText(id)
    ensures CleanLines(PartHeaderLines(id))
    ensures var h := AddLines(map[], PartHeaderLines(id));
            && GetOr(h, "content-type", "") == HTTP_TYPE
            && ("content-id" in h <==> id != "")
            && (id != "" ==> h["content-id"] == id)
  {
    hide AddLine, CleanLine, PlainLine, HTTP_TYPE, BINARY, TYPE_NAME, ENCODING_NAME, ID_NAME;
    var t, e, i := PlainLine(TYPE_NAME, HTTP_TYPE), PlainLine(ENCODING_NAME, BINARY), PlainLine(ID_NAME, id);
    IdLine(id);
    if id == "" {
      assert PartHeaderLines(id) == [t, e];
      AddTwo(map[], t, e);
      TypeLine(map[]);
      EncodingLine(map["content-type" := HTTP_TYPE]);
    } else {
      assert PartHeaderLines(id) == [i] + [t, e];
      assert ([i] + [t, e])[1..] == [t, e];
      AddTwo(AddLine(map[], i), t, e);
      TypeLine(map["content-id" := id]);
      EncodingLine(map["content-id" := id]["content-type" := HTTP_TYPE]);
    }
  }

  lemma AddTwo(h: Headers, a: string, b: string)
    ensures AddLines(h, [a, b]) == AddLine(AddLine(h, a), b)
  {
    hide AddLine;
    assert [a, b][1..] == [b] && [b][1..] == [];
    assert AddLines(AddLine(h, a), [b]) == AddLine(AddLine(h, a), b);
  }

  lemma TypeLine(h: Headers)
    ensures AddLine(h, PlainLine(TYPE_NAME, HTTP_TYPE)) == h["content-type" := HTTP_TYPE]
    ensures CleanLine(PlainLine(TYPE_NAME, HTTP_TYPE))
  {
    TypeNameText();
    HttpTypeText();
    hide AddLine, PlainLine, HTTP_TYPE, TYPE_NAME;
    LineParsed(h, TYPE_NAME, HTTP_TYPE);
    CleanLineFrom(TYPE_NAME, HTTP_TYPE);
  }

  lemma TypeNameText()
    ensures CleanText(TYPE_NAME) && ':' !in TYPE_NAME && Lower(TYPE_NAME) == "content-type"
  {
  }

  lemma HttpTypeText()
    ensures CleanText(HTTP_TYPE) && CleanText(BINARY)
  {
  }

  lemma EncodingLine(h: Headers)
    ensures AddLine(h, PlainLine(ENCODING_NAME, BINARY)) == h[Lower(ENCODING_NAME) := BINARY]
    ensures Lower(ENCODING_NAME) != "content-type" && Lower(ENCODING_NAME) != "content-id"
    ensures CleanLine(PlainLine(ENCODING_NAME, BINARY))
  {
    EncodingNameText();
    HttpTypeText();
    assert |Lower(ENCODING_NAME)| != |"content-type"| && |Lower(ENCODING_NAME)| != |"content-id"|;
    hide AddLine, PlainLine, BINARY, ENCODING_NAME;
    LineParsed(h, ENCODING_NAME, BINARY);
    CleanLineFrom(ENCODING_NAME, BINARY);
  }

  lemma EncodingNameText()
    ensures CleanText(ENCODING_NAME) && ':' !in ENCODING_NAME && |ENCODING_NAME| == 25
  {
  }

  lemma IdLine(id: string)
    requires CleanText(id)
    ensures AddLine(map[], PlainLine(ID_NAME, id)) == map["content-id" := id]
    ensures CleanLine(PlainLine(ID_NAME, id))
  {
    IdNameText();
    hide AddLine, PlainLine, ID_NAME;
    LineParsed(map[], ID_NAME, id);
    CleanLineFrom(ID_NAME, id);
  }

  lemma IdNameText()
    ensures CleanText(ID_NAME) && ':' !in ID_NAME && Lower(ID_NAME) == "content-id"
  {
  }
}
