/** What the parser makes of the requests a client sends, said without the parser: any spelling
    of header names, any header order, any content type. */
module RequestReading {
  import opened ByteStrings
  import opened MultipartParser
  import opened MultipartSerializer
  import opened FramingRoundTrip
  import opened MessageContents
  import opened HttpRoundTrip
  import opened BatchRoundTrip

  /** One part of a client's batch: the part's own headers, perhaps an empty line, then a request. */
  datatype Sent = Sent(
    outer: HeaderList, lead: string,
    verb: string, url: string, version: string, headers: HeaderList, body: string)

  // ------------------------------------------------------------------ header blocks

  function SentLines(h: HeaderList): (lines: seq<string>)
    ensures |lines| == |h| && forall i :: 0 <= i < |h| ==> lines[i] == PlainLine(h[i].0, h[i].1)
  {
    seq(|h|, i requires 0 <= i < |h| => PlainLine(h[i].0, h[i].1))
  }

  predicate CleanSentHeaders(h: HeaderList) {
    h != [] && forall i :: 0 <= i < |h| ==> CleanHeader(h[i])
  }

  lemma SentLinesClean(h: HeaderList)
    requires CleanSentHeaders(h)
    ensures CleanLines(SentLines(h))
  {
    hide CleanLine, PlainLine;
    forall i | 0 <= i < |h| ensures CleanLine(SentLines(h)[i]) {
      assert CleanHeader(h[i]);
      CleanLineFrom(h[i].0, h[i].1);
    }
  }

  /** Header lines mean the last value of every name, whatever its case. */
  lemma {:induction false} HeadersRead(m: Headers, h: HeaderList, name: string)
    requires forall i :: 0 <= i < |h| ==> CleanHeader(h[i])
    ensures Get(AddLines(m, SentLines(h)), name) == OrElse(LastValue(h, name), Get(m, name))
    decreases |h|
  {
    hide AddLine, PlainLine, Lower, CleanText;
    if h != [] {
      assert CleanHeader(h[0]);
      CleanParsed(m, h[0]);
      assert SentLines(h)[1..] == SentLines(h[1..]);
      HeadersRead(m[Lower(h[0].0) := h[0].1], h[1..], name);
    }
  }

  lemma CleanParsed(m: Headers, header: (string, string))
    requires CleanHeader(header)
    ensures AddLine(m, PlainLine(header.0, header.1)) == m[Lower(header.0) := header.1]
  {
    hide AddLine, PlainLine, Lower;
    LineParsed(m, header.0, header.1);
  }

  // ------------------------------------------------------------------ one request

  function SentText(s: Sent): string {
    s.lead + (s.verb + " " + s.url + " " + s.version) + CRLF + (Join(SentLines(s.headers), CRLF) + (CRLF + CRLF + s.body))
  }

  predicate CleanSent(s: Sent) {
    && (s.lead == "" || s.lead == CRLF || s.lead == "\n")
    && Word(s.verb) && Word(s.url) && CR !in s.version && LF !in s.version
    && CleanSentHeaders(s.headers)
  }

  function Named(h: HeaderList, name: string): string {
    if LastValue(h, name).Some? then LastValue(h, name).value else ""
  }

  function SentType(s: Sent): string {
    Named(s.headers, "content-type")
  }

  lemma LeadDropped(lead: string, line: string, rest: string)
    requires lead == "" || lead == CRLF || lead == "\n"
    requires CR !in line && LF !in line && line != ""
    ensures StripLeadingEmptyLine(lead + line + CRLF + rest) == line + CRLF + rest
  {
    var text := line + CRLF + rest;
    StatusLineBreak(line, rest);
    AppendAssoc(lead, line, CRLF);
    AppendAssoc(lead, line + CRLF, rest);
    assert lead + line + CRLF + rest == lead + text;
    if lead == "" {
      assert lead + text == text;
    } else if lead == CRLF {
      assert (CRLF + text)[0..2] == CRLF;
      assert (CRLF + text)[2..] == text;
    } else {
      assert ("\n" + text)[0] == LF && ("\n" + text)[1..] == text;
      if |"\n" + text| >= 2 {
        assert ("\n" + text)[0..2][0] == LF;
      }
    }
  }

  lemma LineOf(s: Sent)
    requires CleanSent(s)
    ensures var line := s.verb + " " + s.url + " " + s.version; CR !in line && LF !in line && line != ""
  {
    forall i | 0 <= i < |s.verb| ensures s.verb[i] != CR && s.verb[i] != LF {
      assert !IsSpace(s.verb[i]);
    }
    forall i | 0 <= i < |s.url| ensures s.url[i] != CR && s.url[i] != LF {
      assert !IsSpace(s.url[i]);
    }
    var line := s.verb + " " + s.url + " " + s.version;
    forall i | 0 <= i < |line| ensures line[i] != CR && line[i] != LF {
      if i < |s.verb| {
        assert line[i] == s.verb[i];
      } else if |s.verb| < i < |s.verb| + 1 + |s.url| {
        assert line[i] == s.url[i - |s.verb| - 1];
      } else if i > |s.verb| + 1 + |s.url| {
        assert line[i] == s.version[i - |s.verb| - |s.url| - 2] && line[i] in s.version;
      }
    }
  }

  lemma BlockRead(h: HeaderList, body: string)
    requires CleanSentHeaders(h)
    ensures var head := Join(SentLines(h), CRLF);
            var rest := head + (CRLF + CRLF + body);
            && FindHeaderSeparator(rest) == Some(Separator(|head|, 4))
            && ParseHeaders(rest[..|head|]) == AddLines(map[], SentLines(h)) && rest[|head| + 4..] == body
  {
    hide IndexOf, AddLine, Join, CleanLine, CleanSentHeaders, SentLines, AddLines, SplitLines;
    var lines := SentLines(h);
    SentLinesClean(h);
    HeaderBlockEnd(lines, body);
    SplitJoin(lines);
    var head := Join(lines, CRLF);
    TakeAppend(head, CRLF + CRLF + body, |head|);
    DropPast(head, CRLF + CRLF + body, 4);
    DropPast(CRLF + CRLF, body, 0);
  }

  lemma HeadParsed(line: string, rest: string, lead: string, verb: string, url: string, version: string, json: string -> bool)
    requires Word(verb) && Word(url) && line == verb + " " + url + " " + version
    requires lead == "" || lead == CRLF || lead == "\n"
    requires CR !in line && LF !in line && line != ""
    ensures var end := FindHeaderSeparator(rest);
            var headers := ParseHeaders(if end.Some? then rest[..end.value.index] else rest);
            var raw := if end.Some? then rest[end.value.index + end.value.length..] else "";
            var b := ParseBody(GetOr(headers, "content-type", ""), raw, json);
            ParseHttpPayload(lead + line + CRLF + rest, json) ==
            if b.Err? then Err(b.error) else Ok(Payload(Upper(verb), url, headers, b.value))
  {
    hide FindHeaderSeparator, ParseHeaders, ParseBody, Trim, FirstWord, AfterFirstWord, TrimLeft, Upper, FindLineBreak,
         StripLeadingEmptyLine;
    LeadDropped(lead, line, rest);
    StatusLineBreak(line, rest);
    TwoWords(verb, url, version);
  }

  /** A client's request is read as its method in upper case, its target, its last-wins headers and
      its exact body in the form the content type asks for; it is refused exactly when the body
      should be JSON and is not. */
  lemma RequestRead(s: Sent, json: string -> bool)
    requires CleanSent(s)
    ensures var r := ParseHttpPayload(SentText(s), json);
            if BrokenJson(SentType(s), s.body, json) then r == Err(InvalidJson)
            else
              && r.Ok? && r.value.verb == Upper(s.verb) && r.value.url == s.url
              && (forall name :: Get(r.value.headers, name) == LastValue(s.headers, name))
              && Carries(SentType(s), s.body, r.value.body)
  {
    hide CleanSentHeaders, ParseHttpPayload, FindHeaderSeparator, ParseHeaders, ParseBody, Join, SentLines, Word, LastValue,
         Carries, BrokenJson, Upper, AddLines;
    var line := s.verb + " " + s.url + " " + s.version;
    var rest := Join(SentLines(s.headers), CRLF) + (CRLF + CRLF + s.body);
    LineOf(s);
    BlockRead(s.headers, s.body);
    HeadParsed(line, rest, s.lead, s.verb, s.url, s.version, json);
    var m := AddLines(map[], SentLines(s.headers));
    forall name ensures Get(m, name) == LastValue(s.headers, name) {
      CleanRead(s.headers, name);
    }
    CleanRead(s.headers, "content-type");
    BodyRead(SentType(s), s.body, json);
  }

  lemma CleanRead(h: HeaderList, name: string)
    requires CleanSentHeaders(h)
    ensures Get(AddLines(map[], SentLines(h)), name) == LastValue(h, name)
  {
    hide AddLines, SentLines, LastValue, CleanHeader;
    HeadersRead(map[], h, name);
  }

  /** Without a header there is no blank line, and the body is not seen as one. */
  lemma HeaderlessBodyLost(verb: string, url: string, version: string, body: string, json: string -> bool)
    requires Word(verb) && Word(url) && CR !in version && LF !in version
    requires CR !in body && LF !in body && ':' !in body
    ensures ParseHttpPayload(verb + " " + url + " " + version + CRLF + (CRLF + body), json) ==
            Ok(Payload(Upper(verb), url, map[], NoBody))
  {
    hide FindHeaderSeparator, ParseHeaders, ParseHttpPayload, Upper, Word;
    var s := Sent([], "", verb, url, version, [("a", "")], "");
    HeadlessLine(s);
    var line := verb + " " + url + " " + version;
    HeadParsed(line, CRLF + body, "", verb, url, version, json);
    assert "" + line + CRLF + (CRLF + body) == line + CRLF + (CRLF + body);
    NoBlankLine(body);
    NoHeaders(body);
  }

  lemma HeadlessLine(s: Sent)
    requires s.lead == "" && s.headers == [("a", "")]
    requires Word(s.verb) && Word(s.url) && CR !in s.version && LF !in s.version
    ensures var line := s.verb + " " + s.url + " " + s.version; CR !in line && LF !in line && line != ""
  {
    hide Word;
    assert CleanHeader(("a", ""));
    LineOf(s);
  }

  lemma NoBlankLine(body: string)
    requires CR !in body && LF !in body
    ensures FindHeaderSeparator(CRLF + body) == None
  {
    var s := CRLF + body;
    forall j: nat ensures !OccursAt(s, j, "\r\n\r\n") && !OccursAt(s, j, "\n\n") {
      if j + 2 <= |s| {
        assert s[j..j + 2][1] == s[j + 1];
        assert j >= 1 ==> s[j + 1] == body[j - 1] && body[j - 1] in body;
        assert s[0..2][0] == CR;
      }
      if j + 4 <= |s| {
        assert s[j..j + 4][2] == s[j + 2] == body[j] && body[j] in body;
      }
    }
    NoSeparator(s);
  }

  lemma NoHeaders(body: string)
    requires CR !in body && LF !in body && ':' !in body
    ensures ParseHeaders(CRLF + body) == map[]
  {
    hide SplitLines, AddLine, AddLines;
    assert "" + CRLF + body == CRLF + body;
    SplitFirst("", body);
    OneLine(body);
    hide CRLF;
    AddTwo(map[], "", body);
    NoColon("");
    NoColon(body);
    assert [""] + [body] == ["", body];
  }

  lemma OneLine(line: string)
    requires LF !in line
    ensures SplitLines(line) == [line]
  {
  }

  lemma NoColon(line: string)
    requires ':' !in line
    ensures AddLine(map[], line) == map[]
  {
    hide Trim, Lower;
  }

  lemma NoSeparator(s: string)
    requires forall j: nat :: !OccursAt(s, j, "\r\n\r\n") && !OccursAt(s, j, "\n\n")
    ensures FindHeaderSeparator(s) == None
  {
    hide OccursAt;
  }

  // ------------------------------------------------------------------ one part

  /** The part is declared to hold a request. */
  ghost predicate IsRequestPart(s: Sent) {
    CleanSentHeaders(s.outer) && SaysAt(Named(s.outer, "content-type"), "application/http", 0)
  }

  function NextNumber(s: Sent, autoId: nat): nat {
    if LastValue(s.outer, "content-id") == None then autoId + 1 else autoId
  }

  /** A request that says what was sent: under its Content-ID, or the next automatic one. */
  ghost predicate SaysSame(r: Request, s: Sent, group: Option<string>, autoId: nat) {
    && r.id == (if LastValue(s.outer, "content-id").Some? then Named(s.outer, "content-id") else "auto-" + Decimal(autoId + 1))
    && r.verb == Upper(s.verb) && r.url == s.url
    && (forall name :: Get(r.headers, name) == LastValue(s.headers, name))
    && Carries(SentType(s), s.body, r.body)
    && r.atomicityGroup == group
  }

  /** The verdict on one more request: broken JSON, an operation too many, or the request. */
  ghost predicate Verdict(cfg: Config, p: Progress, s: Sent, r: Result<Progress, ParseError>) {
    if BrokenJson(SentType(s), s.body, cfg.json) then r == Err(InvalidJson)
    else if !Within(cfg.limits.maxOperations, p.counters.totalOperations + 1) then r == Err(OperationLimit)
    else if cfg.InChangeset() && !Within(cfg.limits.maxChangesetOperations, p.position + 1)
    then r == Err(ChangesetOperationLimit)
    else Appended(cfg, p, s, r)
  }

  ghost predicate Appended(cfg: Config, p: Progress, s: Sent, r: Result<Progress, ParseError>) {
    var n := |p.requests|;
    && r.Ok? && |r.value.requests| == n + 1 && r.value.requests[..n] == p.requests
    && SaysSame(r.value.requests[n], s, cfg.changesetId, p.counters.autoId)
    && r.value.position == (if cfg.InChangeset() then p.position + 1 else p.position)
    && r.value.counters == Counters(NextNumber(s, p.counters.autoId), p.counters.totalOperations + 1)
  }

  lemma TypeDispatch(contentType: string)
    requires SaysAt(contentType, "application/http", 0)
    ensures StartsWith(Lower(contentType), "application/http") && !StartsWith(Lower(contentType), "multipart/mixed")
  {
    hide Lower;
    OccursInLower(contentType, "application/http", 0);
    OccursInLower(contentType, "multipart/mixed", 0);
    assert LowerChar(contentType[0 + 0]) == "application/http"[0];
    assert "application/http"[0] != "multipart/mixed"[0];
  }

  /** A part with a request is appended as what was sent, or refused for the reason that holds. */
  lemma PartRead(cfg: Config, p: Progress, s: Sent)
    requires IsRequestPart(s) && CleanSent(s)
    ensures Verdict(cfg, p, s, AcceptPart(cfg, p, SentText(s), AddLines(map[], SentLines(s.outer))))
  {
    hide CleanSentHeaders, AddLines, SentLines, SentText, LastValue, ParseHttpPayload, Carries, BrokenJson, Lower, SaysAt,
         CleanSent, Decimal, Upper, StartsWith;
    var headers := AddLines(map[], SentLines(s.outer));
    CleanRead(s.outer, "content-type");
    CleanRead(s.outer, "content-id");
    TypeDispatch(Named(s.outer, "content-type"));
    RequestRead(s, cfg.json);
    assert AcceptPart(cfg, p, SentText(s), headers) == AcceptRequest(cfg, p, SentText(s), headers);
    RequestVerdict(cfg, p, s, headers);
  }

  lemma RequestVerdict(cfg: Config, p: Progress, s: Sent, headers: Headers)
    requires CleanSent(s) && Get(headers, "content-id") == LastValue(s.outer, "content-id")
    ensures Verdict(cfg, p, s, AcceptRequest(cfg, p, SentText(s), headers))
  {
    hide CleanSent, LastValue, ParseHttpPayload, Carries, BrokenJson, Decimal, Upper, SentText, SentType;
    RequestRead(s, cfg.json);
  }

  /** Any other part is refused, unless it is a changeset. */
  lemma OtherPartRefused(cfg: Config, p: Progress, outer: HeaderList, payload: string)
    requires CleanSentHeaders(outer)
    requires !SaysAt(Named(outer, "content-type"), "application/http", 0)
    requires !SaysAt(Named(outer, "content-type"), "multipart/mixed", 0)
    ensures AcceptPart(cfg, p, payload, AddLines(map[], SentLines(outer))) == Err(UnsupportedContentType)
  {
    hide CleanSentHeaders, AddLines, SentLines, LastValue, Lower, SaysAt, OccursAt;
    CleanRead(outer, "content-type");
    OccursInLower(Named(outer, "content-type"), "application/http", 0);
    OccursInLower(Named(outer, "content-type"), "multipart/mixed", 0);
  }

  // ------------------------------------------------------------------ a whole batch

  function SentParts(sents: seq<Sent>): (parts: seq<Part>)
    ensures |parts| == |sents|
    ensures forall i :: 0 <= i < |sents| ==> parts[i] == Part(SentLines(sents[i].outer), SentText(sents[i]))
  {
    seq(|sents|, i requires 0 <= i < |sents| => Part(SentLines(sents[i].outer), SentText(sents[i])))
  }

  ghost predicate CleanSents(sents: seq<Sent>) {
    forall i :: 0 <= i < |sents| ==> IsRequestPart(sents[i]) && CleanSent(sents[i])
  }

  /** A part is small and its body, where it should be JSON, is. */
  ghost predicate Readable(cfg: Config, s: Sent) {
    Within(cfg.limits.maxPartBodyBytes, |SentText(s)|) && !BrokenJson(SentType(s), s.body, cfg.json)
  }

  ghost predicate AllReadable(cfg: Config, p: Progress, sents: seq<Sent>) {
    && (forall i :: 0 <= i < |sents| ==> Readable(cfg, sents[i]))
    && Within(cfg.limits.maxOperations, p.counters.totalOperations + |sents|)
    && (cfg.InChangeset() ==> Within(cfg.limits.maxChangesetOperations, p.position + |sents|))
  }

  /** Automatic ids given out before each request. */
  function NumberAt(sents: seq<Sent>, i: nat, autoId: nat): nat
    requires i <= |sents|
  {
    if i == 0 then autoId else NextNumber(sents[i - 1], NumberAt(sents, i - 1, autoId))
  }

  ghost predicate SaySame(rs: seq<Request>, sents: seq<Sent>, group: Option<string>, autoId: nat) {
    && |rs| == |sents|
    && forall i :: 0 <= i < |rs| ==> SaysSame(rs[i], sents[i], group, NumberAt(sents, i, autoId))
  }

  lemma {:induction false} NumberShift(sents: seq<Sent>, i: nat, autoId: nat)
    requires 0 < i <= |sents|
    ensures NumberAt(sents, i, autoId) == NumberAt(sents[1..], i - 1, NextNumber(sents[0], autoId))
    decreases i
  {
    hide NextNumber;
    if i > 1 {
      NumberShift(sents, i - 1, autoId);
      assert sents[1..][i - 2] == sents[i - 1];
    } else {
      assert NumberAt(sents, 0, autoId) == autoId;
    }
  }

  ghost predicate FoldedAs(cfg: Config, p: Progress, sents: seq<Sent>, r: Result<Progress, ParseError>) {
    var n := |p.requests|;
    if AllReadable(cfg, p, sents)
    then
      && r.Ok? && |r.value.requests| >= n && r.value.requests[..n] == p.requests
      && SaySame(r.value.requests[n..], sents, cfg.changesetId, p.counters.autoId)
    else r.Err?
  }

  lemma {:induction false} PartsRead(cfg: Config, p: Progress, sents: seq<Sent>)
    requires CleanSents(sents)
    requires Within(cfg.limits.maxOperations, p.counters.totalOperations)
    requires cfg.InChangeset() ==> Within(cfg.limits.maxChangesetOperations, p.position)
    ensures FoldedAs(cfg, p, sents, FoldParts(cfg, p, SentParts(sents)))
    decreases |sents|
  {
    hide AcceptPart, SentText, SentLines, AddLines, IsRequestPart, CleanSent, FoldedAs, Verdict, Within, Readable, FoldParts,
         Config.InChangeset, BrokenJson;
    if sents == [] {
      NothingSent(cfg, p);
    } else {
      var s, parts := sents[0], SentParts(sents);
      assert parts[1..] == SentParts(sents[1..]);
      FirstEntryFolded(cfg, p, parts);
      PartRead(cfg, p, s);
      var r := AcceptPart(cfg, p, SentText(s), AddLines(map[], SentLines(s.outer)));
      VerdictFits(cfg, p, s, sents, r);
      if Within(cfg.limits.maxPartBodyBytes, |SentText(s)|) && r.Ok? {
        PartsRead(cfg, r.value, sents[1..]);
        OneMore(cfg, p, r.value, sents, FoldParts(cfg, r.value, parts[1..]));
      } else {
        NotFolded(cfg, p, sents, FoldParts(cfg, p, parts).error);
      }
    }
  }

  lemma NothingSent(cfg: Config, p: Progress)
    requires Within(cfg.limits.maxOperations, p.counters.totalOperations)
    requires cfg.InChangeset() ==> Within(cfg.limits.maxChangesetOperations, p.position)
    ensures FoldedAs(cfg, p, [], FoldParts(cfg, p, SentParts([])))
  {
    assert p.requests[..|p.requests|] == p.requests;
  }

  lemma NotFolded(cfg: Config, p: Progress, sents: seq<Sent>, e: ParseError)
    requires !AllReadable(cfg, p, sents)
    ensures FoldedAs(cfg, p, sents, Err(e))
  {
    hide AllReadable;
  }

  lemma VerdictFits(cfg: Config, p: Progress, s: Sent, sents: seq<Sent>, r: Result<Progress, ParseError>)
    requires sents != [] && s == sents[0] && Verdict(cfg, p, s, r)
    ensures !(Within(cfg.limits.maxPartBodyBytes, |SentText(s)|) && r.Ok?) ==> !AllReadable(cfg, p, sents)
    ensures Within(cfg.limits.maxPartBodyBytes, |SentText(s)|) && r.Ok? ==>
              && Appended(cfg, p, s, r) && Readable(cfg, s)
              && Within(cfg.limits.maxOperations, r.value.counters.totalOperations)
              && (cfg.InChangeset() ==> Within(cfg.limits.maxChangesetOperations, r.value.position))
              && (AllReadable(cfg, p, sents) <==> AllReadable(cfg, r.value, sents[1..]))
  {
    hide SentText, BrokenJson, SaysSame, NextNumber, Config.InChangeset;
    var tail := sents[1..];
    assert forall i :: 0 <= i < |tail| ==> tail[i] == sents[i + 1];
    assert forall i :: 1 <= i < |sents| ==> sents[i] == tail[i - 1];
    if AllReadable(cfg, p, sents) {
      assert Readable(cfg, sents[0]);
    }
  }

  lemma OneMore(cfg: Config, p: Progress, next: Progress, sents: seq<Sent>, r: Result<Progress, ParseError>)
    requires sents != [] && Appended(cfg, p, sents[0], Ok(next))
    requires AllReadable(cfg, p, sents) <==> AllReadable(cfg, next, sents[1..])
    requires FoldedAs(cfg, next, sents[1..], r)
    ensures FoldedAs(cfg, p, sents, r)
  {
    hide AllReadable, SaysSame, NextNumber;
    if AllReadable(cfg, p, sents) {
      var n, rs := |p.requests|, r.value.requests;
      assert rs[..n] == rs[..n + 1][..n];
      assert rs[n] == rs[..n + 1][n];
      forall i | 0 <= i < |rs[n..]|
        ensures SaysSame(rs[n..][i], sents[i], cfg.changesetId, NumberAt(sents, i, p.counters.autoId))
      {
        if i > 0 {
          NumberShift(sents, i, p.counters.autoId);
          assert rs[n..][i] == rs[n + 1..][i - 1] && sents[1..][i - 1] == sents[i];
        }
      }
    }
  }

  /** A client's batch is read as the requests that were sent, in order, if and only if no limit is
      exceeded and no JSON body is broken; otherwise it is refused. */
  lemma BatchRead(cfg: Config, counters: Counters, sents: seq<Sent>, tail: string)
    requires CR !in cfg.boundary && CleanSents(sents)
    requires forall i :: 0 <= i < |sents| ==> IndexOf(SentText(sents[i]), cfg.Marker()) == -1
    requires Within(cfg.limits.maxOperations, counters.totalOperations)
    ensures var r := ParseWhole(cfg, counters, Frame(cfg.boundary, SentParts(sents)) + tail);
            if AllReadable(cfg, Progress([], 0, counters), sents)
            then r.Ok? && SaySame(r.value.requests, sents, cfg.changesetId, counters.autoId)
            else r.Err?
  {
    hide ParseWhole, Frame, FoldParts, SentText, SentLines, CleanSent, IndexOf, AllReadable, SaySame, CleanLines;
    var p := Progress([], 0, counters);
    forall i | 0 <= i < |sents| ensures FitPart(cfg, SentParts(sents)[i]) {
      assert IsRequestPart(sents[i]);
      SentLinesClean(sents[i].outer);
    }
    Framing(cfg, counters, SentParts(sents), tail);
    NoneYet(cfg.limits.maxChangesetOperations);
    PartsRead(cfg, p, sents);
    var r := FoldParts(cfg, p, SentParts(sents));
    if r.Ok? {
      assert r.value.requests[0..] == r.value.requests;
    }
  }

  // ------------------------------------------------------------------ a changeset part

  /** A boundary attribute as clients write it: perhaps quoted, perhaps with more behind it. */
  function Attribute(b: string, quoted: bool): string {
    if quoted then "\"" + b + "\"" else b
  }

  lemma AttributeRead(b: string, quoted: bool, more: string)
    requires PlainBoundary(b) && (more == "" || more[0] == ';')
    ensures ExtractBoundary(MIXED + (Attribute(b, quoted) + more)) == Some(b)
  {
    hide IndexFrom, MIXED, Lower, Trim, StripQuotes, Attribute, PlainBoundary, UpTo, OccursAt;
    MixedText();
    var value := Attribute(b, quoted) + more;
    LowerAppend(MIXED, value);
    MixedAttribute(Lower(value));
    DropPast(MIXED, value, 0);
    AttributeEnds(b, quoted, more);
  }

  lemma AttributeEnds(b: string, quoted: bool, more: string)
    requires PlainBoundary(b) && (more == "" || more[0] == ';')
    ensures var a := Attribute(b, quoted);
            UpTo(a + more, ';') == a && a != "" && Trim(a) == a && StripQuotes(a) == b
  {
    hide Trim;
    var a := Attribute(b, quoted);
    forall i | 0 <= i < |a| ensures a[i] != ';' {
      var k := if quoted then i - 1 else i;
      assert 0 <= k < |b| ==> a[i] == b[k] && b[k] in b;
    }
    if more == "" {
      assert a + more == a;
      NoDelimiter(a, ';');
    } else {
      FirstCharIs(a + more, ';', |a|);
    }
    TrimOfTrimmed(a);
    if quoted {
      assert a[1..] == b + "\"" && (b + "\"")[..|b|] == b;
    } else {
      NoQuotes(b);
    }
  }

  /** The parser of a nested changeset: named by its Content-ID, or else by its boundary. */
  function Inner(cfg: Config, outer: HeaderList, b: string): Config {
    var id := LastValue(outer, "content-id");
    Config(Lower(b), cfg.depth + 1, Some(if id.Some? then id.value else Lower(b)), cfg.limits, cfg.json)
  }

  /** A changeset is refused when it nests too deeply, does not parse or is empty; else its requests
      are appended. Its boundary is taken in lower case. */
  lemma ChangesetPartRead(cfg: Config, p: Progress, outer: HeaderList, head: string, b: string, quoted: bool, more: string,
                          payload: string)
    requires CleanSentHeaders(outer) && Lower(head) == "multipart/mixed; boundary="
    requires PlainBoundary(b) && (more == "" || more[0] == ';')
    requires LastValue(outer, "content-type") == Some(head + (Attribute(b, quoted) + more))
    ensures var r := AcceptPart(cfg, p, payload, AddLines(map[], SentLines(outer)));
            var nested := ParseWhole(Inner(cfg, outer, b), p.counters, payload);
            if !(cfg.limits.maxDepth <= 0 || cfg.depth + 1 < cfg.limits.maxDepth) then r == Err(DepthLimit)
            else if nested.Err? then r == Err(nested.error)
            else if nested.value.requests == [] then r == Err(EmptyChangeset)
            else r == Ok(Progress(p.requests + nested.value.requests, p.position, nested.value.counters))
  {
    hide CleanSentHeaders, AddLines, SentLines, LastValue, ParseWhole, ExtractBoundary, Lower, StartsWith, PlainBoundary, MIXED,
         AcceptRequest;
    CleanRead(outer, "content-type");
    CleanRead(outer, "content-id");
    LoweredType(head, b, quoted, more);
  }

  lemma LoweredType(head: string, b: string, quoted: bool, more: string)
    requires Lower(head) == "multipart/mixed; boundary=" && PlainBoundary(b) && (more == "" || more[0] == ';')
    ensures var t := Lower(head + (Attribute(b, quoted) + more));
            StartsWith(t, "multipart/mixed") && ExtractBoundary(t) == Some(Lower(b)) && Lower(b) != ""
  {
    LoweredAttribute(b, quoted, more);
    assert more != "" ==> Lower(more)[0] == ';';
    LowerPlain(b);
    MixedText();
    hide Lower, ExtractBoundary, Attribute, OccursAt;
    LowerAppend(head, Attribute(b, quoted) + more);
    AttributeRead(Lower(b), quoted, Lower(more));
    OccursInPrefix(MIXED, Attribute(Lower(b), quoted) + Lower(more), 0, "multipart/mixed");
  }

  lemma LoweredAttribute(b: string, quoted: bool, more: string)
    ensures Lower(Attribute(b, quoted) + more) == Attribute(Lower(b), quoted) + Lower(more)
  {
    LowerAppend(Attribute(b, quoted), more);
    if quoted {
      LowerAppend("\"" + b, "\"");
      LowerAppend("\"", b);
      assert Lower("\"") == "\"";
    }
  }
}
