/** Feeding the printed batch to the parser.

    First layer: parsing a frame of parts is handling the parts in order. Second layer: handling
    a printed part gives back its entry. The last lemmas put both together for whole batches. */
module FramingRoundTrip {
  import opened ByteStrings
  import opened MultipartParser
  import opened MultipartSerializer

  // ------------------------------------------------------------------ lines

  /** A header line as it may appear on the wire. */
  predicate CleanLine(line: string) {
    line != "" && CR !in line && LF !in line
  }

  predicate CleanLines(lines: seq<string>) {
    lines != [] && forall i :: 0 <= i < |lines| ==> CleanLine(lines[i])
  }

  lemma NoMatchInside(line: string, x: string, j: nat, needle: string)
    requires CR !in line && LF !in line
    requires j < |line| && needle != "" && (needle[0] == CR || needle[0] == LF)
    ensures !OccursAt(line + x, j, needle)
  {
    if j + |needle| <= |line + x| {
      assert (line + x)[j..j + |needle|][0] == (line + x)[j] == line[j];
      assert line[j] in line;
    }
  }

  /** The header separator after one clean line, given what the text after it starts with. */
  lemma BreakIsNoSeparator(line: string, x: string)
    requires CR !in line && LF !in line
    requires x != "" && x[0] != CR && x[0] != LF
    ensures forall j :: 0 <= j < |line| + 2 ==>
              !OccursAt(line + CRLF + x, j, "\r\n\r\n") && !OccursAt(line + CRLF + x, j, "\n\n")
  {
    var s := line + CRLF + x;
    AppendAssoc(line, CRLF, x);
    assert s[|line|] == CR && s[|line| + 1] == LF && s[|line| + 2] == x[0];
    forall j: nat | j < |line| + 2
      ensures !OccursAt(s, j, "\r\n\r\n") && !OccursAt(s, j, "\n\n")
    {
      if j < |line| {
        NoMatchInside(line, CRLF + x, j, "\r\n\r\n");
        NoMatchInside(line, CRLF + x, j, "\n\n");
      } else {
        if j + 4 <= |s| {
          assert s[j..j + 4][0] == s[j] && s[j..j + 4][2] == s[j + 2];
        }
        if j + 2 <= |s| {
          assert s[j..j + 2][0] == s[j] && s[j..j + 2][1] == s[j + 1];
        }
      }
    }
  }

  lemma LastLine(line: string, x: string)
    requires CleanLine(line)
    ensures var s := line + (CRLF + CRLF + x);
            && IndexOf(s, "\r\n\r\n") == |line|
            && (IndexOf(s, "\n\n") == -1 || IndexOf(s, "\n\n") > |line|)
  {
    var t := CRLF + CRLF + x;
    var s := line + t;
    assert t[0] == CR && t[1] == LF && t[2] == CR && t[3] == LF;
    forall j: nat | j < |line|
      ensures !OccursAt(s, j, "\r\n\r\n") && !OccursAt(s, j, "\n\n")
    {
      NoMatchInside(line, t, j, "\r\n\r\n");
      NoMatchInside(line, t, j, "\n\n");
    }
    assert s[|line|..|line| + 4] == t[..4] == "\r\n\r\n";
    IndexOfIs(s, "\r\n\r\n", |line|);
    assert s[|line|..|line| + 2] == t[..2] == CRLF;
  }

  lemma {:induction false} HeaderBlockEnd(lines: seq<string>, x: string)
    requires CleanLines(lines)
    ensures var s := Join(lines, CRLF) + (CRLF + CRLF + x);
            && IndexOf(s, "\r\n\r\n") == |Join(lines, CRLF)|
            && (IndexOf(s, "\n\n") == -1 || IndexOf(s, "\n\n") > |Join(lines, CRLF)|)
    decreases |lines|
  {
    if |lines| == 1 {
      LastLine(lines[0], x);
    } else {
      var line, more := lines[0], Join(lines[1..], CRLF);
      HeaderBlockEnd(lines[1..], x);
      JoinStart(lines[1..]);
      var t := more + (CRLF + CRLF + x);
      BreakIsNoSeparator(line, t);
      ShiftBoth(line + CRLF, t);
      assert Join(lines, CRLF) + (CRLF + CRLF + x) == line + CRLF + t;
    }
  }

  lemma JoinStart(lines: seq<string>)
    requires CleanLines(lines)
    ensures Join(lines, CRLF) != "" && Join(lines, CRLF)[0] != CR && Join(lines, CRLF)[0] != LF
  {
    assert CleanLine(lines[0]) && lines[0][0] in lines[0];
  }

  lemma ShiftBoth(p: string, t: string)
    requires forall j :: 0 <= j < |p| ==> !OccursAt(p + t, j, "\r\n\r\n") && !OccursAt(p + t, j, "\n\n")
    ensures IndexOf(p + t, "\r\n\r\n") == if IndexOf(t, "\r\n\r\n") == -1 then -1 else |p| + IndexOf(t, "\r\n\r\n")
    ensures IndexOf(p + t, "\n\n") == if IndexOf(t, "\n\n") == -1 then -1 else |p| + IndexOf(t, "\n\n")
  {
    IndexOfShift(p, t, "\r\n\r\n");
    IndexOfShift(p, t, "\n\n");
  }

  lemma FirstBreak(line: string, x: string)
    requires LF !in line
    ensures IndexOfChar(line + CRLF + x, LF) == |line| + 1
  {
    var s := line + CRLF + x;
    assert s[|line| + 1] == LF && s[|line|] == CR;
    forall j | 0 <= j < |line|
      ensures s[j] != LF
    {
      assert s[j] == line[j] && line[j] in line;
    }
    FirstCharIs(s, LF, |line| + 1);
  }

  lemma SplitFirst(line: string, more: string)
    requires LF !in line
    ensures SplitLines(line + CRLF + more) == [line] + SplitLines(more)
  {
    FirstBreak(line, more);
    var s := line + CRLF + more;
    assert s[..|line| + 1] == line + "\r" && s[|line| + 2..] == more;
    assert StripCr(line + "\r") == line;
  }

  /** Splitting undoes joining. */
  lemma {:induction false} SplitJoin(lines: seq<string>)
    requires CleanLines(lines)
    ensures SplitLines(Join(lines, CRLF)) == lines
    decreases |lines|
  {
    if |lines| == 1 {
      assert IndexOfChar(lines[0], LF) == -1;
      assert lines == [lines[0]];
    } else {
      var line, more := lines[0], Join(lines[1..], CRLF);
      SplitJoin(lines[1..]);
      assert Join(lines, CRLF) == line + CRLF + more;
      SplitFirst(line, more);
      assert lines == [line] + lines[1..];
    }
  }

  // ------------------------------------------------------------------ frames

  datatype Part = Part(lines: seq<string>, payload: string)

  /** A multipart body without its final line break. */
  function Frame(boundary: string, parts: seq<Part>): string
    decreases |parts|, 1
  {
    if parts == [] then DASHES + boundary + DASHES
    else DASHES + boundary + CRLF + Inside(boundary, parts)
  }

  /** The frame from the first part's headers on. */
  function Inside(boundary: string, parts: seq<Part>): string
    requires parts != []
    decreases |parts|, 0
  {
    Join(parts[0].lines, CRLF) + (CRLF + CRLF + (parts[0].payload + CRLF + Frame(boundary, parts[1..])))
  }

  predicate FitPart(cfg: Config, part: Part) {
    CleanLines(part.lines) && IndexOf(part.payload, cfg.Marker()) == -1
  }

  /** The parts handled one after the other. */
  function FoldParts(cfg: Config, p: Progress, parts: seq<Part>): Result<Progress, ParseError>
    decreases |parts|
  {
    if parts == [] then Ok(p)
    else if Exceeds(cfg.limits.maxPartBodyBytes, |parts[0].payload|) then Err(PartSizeLimit)
    else
      match AcceptPart(cfg, p, parts[0].payload, AddLines(map[], parts[0].lines))
      case Err(e) => Err(e)
      case Ok(next) => FoldParts(cfg, next, parts[1..])
  }

  /** What follows a delimiter inside a frame. */
  function AfterMarker(boundary: string, parts: seq<Part>): string {
    if parts == [] then DASHES else CRLF + Inside(boundary, parts)
  }

  lemma FrameIsMarked(boundary: string, parts: seq<Part>)
    ensures Frame(boundary, parts) == DASHES + boundary + AfterMarker(boundary, parts)
  {
  }

  /** The parser reads the header block of a framed part. */
  lemma HeadersOfPart(cfg: Config, p: Progress, lines: seq<string>, rest: string)
    requires CleanLines(lines)
    ensures StepHeaders(State(Join(lines, CRLF) + (CRLF + CRLF + rest), InHeaders, p), true) ==
            Continue(State(rest, InBody(AddLines(map[], lines)), p))
  {
    hide IndexOf, Join, SplitLines;
    var head := Join(lines, CRLF);
    HeaderBlockEnd(lines, rest);
    SplitJoin(lines);
    hide CleanLines;
    TakeAppend(head, CRLF + CRLF + rest, |head|);
    DropPast(head, CRLF + CRLF + rest, 4);
    DropPast(CRLF + CRLF, rest, 0);
  }

  /** A boundary without carriage returns cannot overlap itself into the payload. */
  lemma PayloadEnd(cfg: Config, payload: string, rest: string)
    requires CR !in cfg.boundary
    requires IndexOf(payload, cfg.Marker()) == -1
    ensures IndexOf(payload + (cfg.Marker() + rest), cfg.Marker()) == |payload|
  {
    var marker := cfg.Marker();
    var s := payload + (marker + rest);
    assert marker[0] == CR;
    forall k | 1 <= k < |marker|
      ensures marker[k] != CR
    {
      assert k >= 4 ==> marker[k] == cfg.boundary[k - 4] && cfg.boundary[k - 4] in cfg.boundary;
    }
    assert s[|payload|..|payload| + |marker|] == marker;
    forall j: nat | j < |payload|
      ensures !OccursAt(s, j, marker)
    {
      if j + |marker| <= |payload| {
        OccursInPrefix(payload, marker + rest, j, marker);
      } else if j + |marker| <= |s| {
        assert s[j..j + |marker|][|payload| - j] == s[|payload|] == CR;
      }
    }
    IndexOfIs(s, marker, |payload|);
  }

  lemma AfterMarkerLands(boundary: string, parts: seq<Part>, tail: string, p: Progress)
    ensures var st := AfterDelimiter(AfterMarker(boundary, parts) + tail, p);
            if parts == [] then st.phase.Ended? else st == State(Inside(boundary, parts) + tail, InHeaders, p)
  {
    hide Inside;
    var rest := AfterMarker(boundary, parts) + tail;
    if parts == [] {
      assert rest[0..2] == DASHES;
    } else {
      assert rest == CRLF + (Inside(boundary, parts) + tail);
      assert rest[0..2] == CRLF;
    }
  }

  /** The body turn at a framed part. */
  lemma BodyOfPart(cfg: Config, p: Progress, headers: Headers, payload: string, rest: string)
    requires CR !in cfg.boundary && IndexOf(payload, cfg.Marker()) == -1
    ensures StepBody(cfg, State(payload + (cfg.Marker() + rest), InBody(headers), p), true) ==
            if Exceeds(cfg.limits.maxPartBodyBytes, |payload|) then Fail(PartSizeLimit)
            else
              var r := AcceptPart(cfg, p, payload, headers);
              if r.Err? then Fail(r.error) else Continue(EatFinalBreak(AfterDelimiter(rest, r.value)))
  {
    hide IndexOf, AcceptPart, AfterDelimiter, EatFinalBreak;
    PayloadEnd(cfg, payload, rest);
    TakeAppend(payload, cfg.Marker() + rest, |payload|);
    DropPast(payload, cfg.Marker() + rest, |cfg.Marker()|);
    DropPast(cfg.Marker(), rest, 0);
  }

  lemma InsideSplit(cfg: Config, parts: seq<Part>, tail: string)
    requires parts != []
    ensures Inside(cfg.boundary, parts) + tail ==
            Join(parts[0].lines, CRLF) + (CRLF + CRLF + (parts[0].payload + (cfg.Marker() + (AfterMarker(cfg.boundary, parts[1..]) + tail))))
  {
    hide Join, AfterMarker;
    FrameIsMarked(cfg.boundary, parts[1..]);
    var head, payload, after := Join(parts[0].lines, CRLF), parts[0].payload, AfterMarker(cfg.boundary, parts[1..]);
    assert Inside(cfg.boundary, parts) == head + (CRLF + CRLF + (payload + CRLF + (DASHES + cfg.boundary + after)));
    Reassociate(head, payload, cfg.boundary, after, tail);
  }

  lemma Reassociate(head: string, payload: string, boundary: string, after: string, tail: string)
    ensures head + (CRLF + CRLF + (payload + CRLF + (DASHES + boundary + after))) + tail ==
            head + (CRLF + CRLF + (payload + (CRLF + DASHES + boundary + (after + tail))))
  {
    var marked := CRLF + DASHES + boundary;
    assert payload + CRLF + (DASHES + boundary + after) == payload + (marked + after);
    AppendAssoc(head, CRLF + CRLF + (payload + (marked + after)), tail);
    AppendAssoc(CRLF + CRLF, payload + (marked + after), tail);
    AppendAssoc(payload, marked + after, tail);
    AppendAssoc(marked, after, tail);
  }

  lemma {:induction false} FramedParts(cfg: Config, p: Progress, parts: seq<Part>, tail: string)
    requires parts != [] && CR !in cfg.boundary
    requires forall i :: 0 <= i < |parts| ==> FitPart(cfg, parts[i])
    ensures Finish(Run(cfg, State(Inside(cfg.boundary, parts) + tail, InHeaders, p), true)) == FoldParts(cfg, p, parts)
    decreases |parts|
  {
    hide AcceptPart, Join, IndexOf, StepHeaders, AfterDelimiter, AfterMarker, Inside, CleanLines;
    var part, headers := parts[0], AddLines(map[], parts[0].lines);
    assert FitPart(cfg, part);
    var rest := AfterMarker(cfg.boundary, parts[1..]) + tail;
    var st0 := State(Inside(cfg.boundary, parts) + tail, InHeaders, p);
    var st1 := State(part.payload + (cfg.Marker() + rest), InBody(headers), p);
    InsideSplit(cfg, parts, tail);
    HeadersOfPart(cfg, p, part.lines, st1.buf);
    RunMove(cfg, st0, true);
    BodyOfPart(cfg, p, headers, part.payload, rest);
    assert Step(cfg, st1, true) == StepBody(cfg, st1, true);
    RunMove(cfg, st1, true);
    hide Step, Run;
    var r := AcceptPart(cfg, p, part.payload, headers);
    if r.Ok? && !Exceeds(cfg.limits.maxPartBodyBytes, |part.payload|) {
      AfterMarkerLands(cfg.boundary, parts[1..], tail, r.value);
      var next := EatFinalBreak(AfterDelimiter(rest, r.value));
      if parts[1..] == [] {
        RunEnded(cfg, next, true);
      } else {
        FramedParts(cfg, r.value, parts[1..], tail);
      }
    }
  }

  /** Parsing a frame is handling its parts in order, whatever follows the frame. */
  lemma Framing(cfg: Config, counters: Counters, parts: seq<Part>, tail: string)
    requires CR !in cfg.boundary
    requires forall i :: 0 <= i < |parts| ==> FitPart(cfg, parts[i])
    ensures ParseWhole(cfg, counters, Frame(cfg.boundary, parts) + tail) == FoldParts(cfg, Progress([], 0, counters), parts)
  {
    hide AfterDelimiter, AfterMarker, Inside, FitPart, AcceptPart;
    var p := Progress([], 0, counters);
    var text := Frame(cfg.boundary, parts) + tail;
    var rest := AfterMarker(cfg.boundary, parts) + tail;
    var prefix := cfg.Prefix();
    FrameIsMarked(cfg.boundary, parts);
    hide Frame;
    AppendAssoc(prefix, AfterMarker(cfg.boundary, parts), tail);
    TakeAppend(prefix, rest, |prefix|);
    DropPast(prefix, rest, 0);
    assert FindAnchor(cfg, text, true) == Anchored(|prefix|);
    var st := Initial(text, counters);
    assert Step(cfg, st, true) == Continue(AfterDelimiter(rest, p));
    RunMove(cfg, st, true);
    hide Step, Run;
    AfterMarkerLands(cfg.boundary, parts, tail, p);
    if parts == [] {
      RunEnded(cfg, AfterDelimiter(rest, p), true);
    } else {
      FramedParts(cfg, p, parts, tail);
    }
  }

  // ------------------------------------------------------------------ around the frame

  /** One line break in front of the first delimiter changes nothing. */
  lemma LeadingBreakSkipped(cfg: Config, counters: Counters, rest: string)
    ensures ParseWhole(cfg, counters, CRLF + (cfg.Prefix() + rest)) == ParseWhole(cfg, counters, cfg.Prefix() + rest)
  {
    hide AfterDelimiter, AcceptPart, StepBody;
    var prefix := cfg.Prefix();
    var text, led := prefix + rest, CRLF + (prefix + rest);
    assert prefix[0] == '-' && led[0] == CR;
    assert text[0..|prefix|] == prefix && led[2..2 + |prefix|] == prefix && led[0..2] == CRLF;
    assert led[0..|prefix|][0] == CR;
    assert text[|prefix|..] == rest && led[2 + |prefix|..] == rest;
    assert FindAnchor(cfg, text, true) == Anchored(|prefix|) && FindAnchor(cfg, led, true) == Anchored(2 + |prefix|);
    var a, b := Initial(text, counters), Initial(led, counters);
    assert Step(cfg, a, true) == Step(cfg, b, true) == Continue(AfterDelimiter(rest, a.progress));
    RunMove(cfg, a, true);
    RunMove(cfg, b, true);
  }

  /** Anything else in front of it is refused. */
  lemma OtherStartRefused(cfg: Config, counters: Counters, bytes: string)
    requires !StartsWith(bytes, cfg.Prefix()) && !StartsWith(bytes, CRLF + cfg.Prefix())
    ensures ParseWhole(cfg, counters, bytes) == Err(if bytes == "" then BoundaryNotFound else BoundaryNotAtStart)
  {
    hide Run;
    var prefix, st := cfg.Prefix(), Initial(bytes, counters);
    BothParts(bytes, prefix);
    assert Step(cfg, st, true) == Fail(if bytes == "" then BoundaryNotFound else BoundaryNotAtStart);
    RunMove(cfg, st, true);
  }

  lemma BothParts(bytes: string, prefix: string)
    ensures StartsWith(bytes, CRLF) && OccursAt(bytes, 2, prefix) ==> StartsWith(bytes, CRLF + prefix)
  {
    if StartsWith(bytes, CRLF) && OccursAt(bytes, 2, prefix) {
      assert bytes[0..2 + |prefix|] == bytes[0..2] + bytes[2..2 + |prefix|];
    }
  }

  ghost predicate Closes(cfg: Config, buf: string) {
    exists i: nat :: OccursAt(buf, i, DASHES + cfg.boundary + DASHES)
  }

  lemma ClosesEarlier(cfg: Config, front: string, buf: string)
    requires Closes(cfg, buf)
    ensures Closes(cfg, front + buf)
  {
    var closing := DASHES + cfg.boundary + DASHES;
    var i: nat :| OccursAt(buf, i, closing);
    assert (front + buf)[|front| + i..|front| + i + |closing|] == buf[i..i + |closing|];
    assert OccursAt(front + buf, |front| + i, closing);
  }

  lemma ClosedBehind(cfg: Config, buf: string, at: nat, n: nat)
    requires at <= n <= |buf| && buf[at..n] == DASHES + cfg.boundary && StartsWith(buf[n..], DASHES)
    ensures Closes(cfg, buf)
  {
    assert buf[at..n + 2] == buf[at..n] + buf[n..][0..2];
    assert OccursAt(buf, at, DASHES + cfg.boundary + DASHES);
  }

  /** A turn that ends the parse has met the closing delimiter; any other leaves the rest of the buffer. */
  lemma StepCloses(cfg: Config, st: State, final: bool)
    requires !st.phase.Ended? && Step(cfg, st, final).Continue?
    ensures var next := Step(cfg, st, final).next;
            if next.phase.Ended? then Closes(cfg, st.buf) else Closes(cfg, next.buf) ==> Closes(cfg, st.buf)
  {
    hide AcceptPart, IndexOf, Closes, FindHeaderEnd;
    var next := Step(cfg, st, final).next;
    match st.phase
    case AtStart =>
      var n, prefix := FindAnchor(cfg, st.buf, final).length, cfg.Prefix();
      AnchorEnds(cfg, st.buf, final);
      DelimiterPassed(cfg, st.buf, n - |prefix|, n, st.progress);
    case InHeaders =>
      var end := FindHeaderEnd(st.buf).value;
      var k := end.index + end.length;
      assert st.buf == st.buf[..k] + st.buf[k..];
      if Closes(cfg, next.buf) {
        ClosesEarlier(cfg, st.buf[..k], st.buf[k..]);
      }
    case InBody(headers) =>
      var at, marker := IndexOf(st.buf, cfg.Marker()), cfg.Marker();
      MarkerAt(st.buf, marker);
      var p := AcceptPart(cfg, st.progress, st.buf[..at], headers).value;
      assert st.buf[at..at + |marker|][2..] == st.buf[at + 2..at + |marker|];
      assert marker[2..] == DASHES + cfg.boundary;
      DelimiterPassed(cfg, st.buf, at + 2, at + |marker|, p);
  }

  lemma MarkerAt(s: string, needle: string)
    ensures IndexOf(s, needle) >= 0 ==> var at := IndexOf(s, needle); at + |needle| <= |s| && s[at..at + |needle|] == needle
  {
  }

  lemma AnchorEnds(cfg: Config, buf: string, final: bool)
    requires FindAnchor(cfg, buf, final).Anchored?
    ensures var n, prefix := FindAnchor(cfg, buf, final).length, cfg.Prefix();
            |prefix| <= n <= |buf| && buf[n - |prefix|..n] == prefix
  {
  }

  /** What follows a delimiter that ends at `n`. */
  lemma DelimiterPassed(cfg: Config, buf: string, at: nat, n: nat, p: Progress)
    requires at <= n <= |buf| && buf[at..n] == DASHES + cfg.boundary
    ensures var after := AfterDelimiter(buf[n..], p);
            var eaten := EatFinalBreak(after);
            && (after.phase.Ended? ==> Closes(cfg, buf)) && (Closes(cfg, after.buf) ==> Closes(cfg, buf))
            && eaten.phase == after.phase && (!eaten.phase.Ended? ==> eaten == after)
  {
    hide Closes;
    var rest := buf[n..];
    var after := AfterDelimiter(rest, p);
    if StartsWith(rest, DASHES) {
      ClosedBehind(cfg, buf, at, n);
    }
    if Closes(cfg, after.buf) {
      var k := |buf| - |after.buf|;
      assert after.buf == buf[k..] && buf == buf[..k] + buf[k..];
      ClosesEarlier(cfg, buf[..k], buf[k..]);
    }
  }

  lemma {:induction false} RunCloses(cfg: Config, st: State, final: bool)
    requires !st.phase.Ended? && Run(cfg, st, final).Ok? && Run(cfg, st, final).value.phase.Ended?
    ensures Closes(cfg, st.buf)
    decreases |st.buf|
  {
    hide Closes, Step;
    RunMove(cfg, st, final);
    var move := Step(cfg, st, final);
    if move.Continue? {
      StepCloses(cfg, st, final);
      StepShrinks(cfg, st, final);
      if !move.next.phase.Ended? {
        RunCloses(cfg, move.next, final);
      }
    }
  }

  lemma StepShrinks(cfg: Config, st: State, final: bool)
    requires !st.phase.Ended? && Step(cfg, st, final).Continue?
    ensures |Step(cfg, st, final).next.buf| < |st.buf|
  {
  }

  /** Whatever is accepted holds the closing delimiter. */
  lemma AcceptedIsClosed(cfg: Config, counters: Counters, bytes: string)
    requires ParseWhole(cfg, counters, bytes).Ok?
    ensures Closes(cfg, bytes)
  {
    hide Run, Closes;
    RunCloses(cfg, Initial(bytes, counters), true);
  }
}
