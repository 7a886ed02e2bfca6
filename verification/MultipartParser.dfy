/** The resumable multipart `$batch` parser: header/body state machine, nested changesets and
    size limits. The functions say what one pass over the buffered bytes does; the class does it
    in place on a BufferQueue and is proved to follow them. */
module MultipartParser {
  import opened ByteStrings
  import opened BufferQueues

  /** Configured limits; 0 stands for a limit that is not set. */
  datatype Limits = Limits(
    maxPayloadBytes: int,
    maxOperations: int,
    maxChangesetOperations: int,
    maxDepth: int,
    maxPartBodyBytes: int)

  predicate Exceeds(limit: int, amount: int) {
    limit > 0 && amount > limit
  }

  datatype ParseError =
    | PayloadLimit | OperationLimit | ChangesetOperationLimit | DepthLimit | PartSizeLimit
    | MissingClosingBoundary | BoundaryNotFound | BoundaryNotAtStart
    | MissingHeaderSeparator | UnterminatedBody
    | MissingBoundaryAttribute | EmptyChangeset | UnsupportedContentType
    | MissingRequestLine | InvalidRequestLine | InvalidJson

  type Headers = map<string, string>

  /** A parsed body: JSON text handed to `JSON.parse`, text kept as string and bytes, or bytes. */
  datatype Body = NoBody | Json(text: string) | Text(raw: string) | Raw(raw: string)

  datatype Request = Request(
    id: string,
    verb: string,
    url: string,
    headers: Headers,
    body: Body,
    atomicityGroup: Option<string>)

  function GetOr(h: Headers, name: string, default: string): string {
    if name in h then h[name] else default
  }

  // ------------------------------------------------------------------ header blocks

  /** The pieces of `s` between line breaks, a break being LF with an optional CR before it. */
  function SplitLines(s: string): (lines: seq<string>)
    ensures lines != []
    decreases |s|
  {
    var i := IndexOfChar(s, LF);
    if i == -1 then [s] else [StripCr(s[..i])] + SplitLines(s[i + 1..])
  }

  function StripCr(line: string): string {
    if line != "" && line[|line| - 1] == CR then line[..|line| - 1] else line
  }

  function AddLine(h: Headers, line: string): Headers {
    var separator := IndexOfChar(line, ':');
    if separator < 0 then h
    else h[Lower(Trim(line[..separator])) := Trim(line[separator + 1..])]
  }

  function AddLines(h: Headers, lines: seq<string>): Headers
    decreases |lines|
  {
    if lines == [] then h else AddLines(AddLine(h, lines[0]), lines[1..])
  }

  function ParseHeaders(raw: string): Headers {
    AddLines(map[], SplitLines(raw))
  }

  datatype Separator = Separator(index: nat, length: nat)

  /** Earliest blank line in the buffered bytes (`findHeaderSeparatorInQueue`). */
  function FindHeaderEnd(s: string): (r: Option<Separator>)
    ensures r.Some? ==> r.value.length >= 2 && r.value.index + r.value.length <= |s|
  {
    var crlf, lf := IndexOf(s, "\r\n\r\n"), IndexOf(s, "\n\n");
    if crlf == -1 then
      if lf >= 0 then Some(Separator(lf, 2)) else None
    else if lf == -1 || crlf <= lf then Some(Separator(crlf, 4))
    else Some(Separator(lf, 2))
  }

  // ------------------------------------------------------------------ one HTTP request

  datatype Payload = Payload(verb: string, url: string, headers: Headers, body: Body)

  function StripLeadingEmptyLine(s: string): string {
    if StartsWith(s, CRLF) then s[2..]
    else if s != "" && s[0] == LF then s[1..]
    else s
  }

  /** First line break: at a CR directly before the first LF, else at that LF. */
  function FindLineBreak(s: string): (r: Option<Separator>)
    ensures r.Some? ==> r.value.index + r.value.length <= |s|
  {
    var i := IndexOfChar(s, LF);
    if i == -1 then None
    else if i > 0 && s[i - 1] == CR then Some(Separator(i - 1, 2))
    else Some(Separator(i, 1))
  }

  /** Inside an embedded request CRLFCRLF wins over LFLF wherever it occurs. */
  function FindHeaderSeparator(s: string): (r: Option<Separator>)
    ensures r.Some? ==> r.value.index + r.value.length <= |s|
  {
    var crlf, lf := IndexOf(s, "\r\n\r\n"), IndexOf(s, "\n\n");
    if crlf >= 0 then Some(Separator(crlf, 4))
    else if lf >= 0 then Some(Separator(lf, 2))
    else None
  }

  function FirstWord(s: string): string {
    if s == "" || IsSpace(s[0]) then "" else [s[0]] + FirstWord(s[1..])
  }

  function AfterFirstWord(s: string): string {
    if s == "" || IsSpace(s[0]) then s else AfterFirstWord(s[1..])
  }

  function ParseBody(contentType: string, raw: string, json: string -> bool): Result<Body, ParseError> {
    if raw == "" then Ok(NoBody)
    else if IndexOf(Lower(contentType), "application/json") >= 0 then
      if json(raw) then Ok(Json(raw)) else Err(InvalidJson)
    else if StartsWith(Lower(contentType), "text/") then Ok(Text(raw))
    else Ok(Raw(raw))
  }

  function ParseHttpPayload(bytes: string, json: string -> bool): Result<Payload, ParseError> {
    var sanitized := StripLeadingEmptyLine(bytes);
    match FindLineBreak(sanitized)
    case None => Err(MissingRequestLine)
    case Some(br) =>
      var requestLine := Trim(sanitized[..br.index]);
      var rest := sanitized[br.index + br.length..];
      var verb := FirstWord(requestLine);
      var url := FirstWord(TrimLeft(AfterFirstWord(requestLine)));
      if verb == "" || url == "" then Err(InvalidRequestLine)
      else
        var end := FindHeaderSeparator(rest);
        var headers := ParseHeaders(if end.Some? then rest[..end.value.index] else rest);
        var raw := if end.Some? then rest[end.value.index + end.value.length..] else "";
        match ParseBody(GetOr(headers, "content-type", ""), raw, json)
        case Err(e) => Err(e)
        case Ok(body) => Ok(Payload(Upper(verb), url, headers, body))
  }

  /** The boundary attribute of a content type; one pair of surrounding quotes is dropped. */
  function ExtractBoundary(contentType: string): Option<string> {
    BoundaryFrom(contentType, 0)
  }

  function BoundaryFrom(contentType: string, from: nat): Option<string>
    decreases |contentType| - from
  {
    var at := IndexFrom(Lower(contentType), "boundary=", from);
    if at == -1 then None
    else
      var value := UpTo(contentType[at + 9..], ';');
      if value == "" then BoundaryFrom(contentType, at + 1) else Some(StripQuotes(Trim(value)))
  }

  function UpTo(s: string, c: char): string {
    var i := IndexOfChar(s, c);
    if i == -1 then s else s[..i]
  }

  function StripQuotes(s: string): string {
    var t := if s != "" && s[0] == '"' then s[1..] else s;
    if t != "" && t[|t| - 1] == '"' then t[..|t| - 1] else t
  }

  // ------------------------------------------------------------------ the state machine

  /** Parser configuration; `json` says which texts `JSON.parse` accepts. */
  datatype Config = Config(
    boundary: string,
    depth: nat,
    changesetId: Option<string>,
    limits: Limits,
    json: string -> bool)
  {
    function Prefix(): string { DASHES + boundary }
    function Marker(): (m: string)
      ensures |m| == 4 + |boundary|
    {
      CRLF + DASHES + boundary
    }
    function Closing(): (m: string)
      ensures |m| == 6 + |boundary|
    {
      CRLF + DASHES + boundary + DASHES
    }
    function Headroom(): nat { |Closing()| + 4 }
    predicate InChangeset() { changesetId.Some? && changesetId.value != "" }
  }

  /** Counters shared by a parser and the parsers of its nested changesets. */
  datatype Counters = Counters(autoId: nat, totalOperations: nat)

  datatype Progress = Progress(requests: seq<Request>, position: nat, counters: Counters)

  datatype Phase = AtStart | InHeaders | InBody(headers: Headers) | Ended

  datatype State = State(buf: string, phase: Phase, progress: Progress)
  {
    function Plus(more: string): State { this.(buf := buf + more) }
  }

  function Initial(buf: string, counters: Counters): State {
    State(buf, AtStart, Progress([], 0, counters))
  }

  datatype Move = Continue(next: State) | Wait | Fail(error: ParseError)

  datatype Anchor = Anchored(length: nat) | NeedMore | Misplaced(error: ParseError)

  /** The first boundary must open the payload, after at most one line break. */
  function FindAnchor(cfg: Config, buf: string, final: bool): (a: Anchor)
    ensures a.Anchored? ==> 2 <= a.length <= |buf|
  {
    var prefix := cfg.Prefix();
    if StartsWith(buf, prefix) then Anchored(|prefix|)
    else if |buf| < 2 && !final then NeedMore
    else if StartsWith(buf, CRLF) && |buf| < 2 + |prefix| && !final then NeedMore
    else if StartsWith(buf, CRLF) && OccursAt(buf, 2, prefix) then Anchored(2 + |prefix|)
    else if buf == "" then Misplaced(BoundaryNotFound)
    else if |buf| < |prefix| && (buf[0] == '-' || buf[0] == CR) && !final then NeedMore
    else Misplaced(BoundaryNotAtStart)
  }

  function SkipCrlf(s: string): (r: string)
    ensures |r| <= |s|
  {
    if StartsWith(s, CRLF) then s[2..] else s
  }

  /** What follows a matched delimiter is looked at only if two bytes are there already. */
  function AfterDelimiter(rest: string, progress: Progress): (st: State)
    ensures |st.buf| <= |rest| && st.progress == progress && (st.phase.Ended? || st.phase.InHeaders?)
  {
    if StartsWith(rest, DASHES) then State(rest[2..], Ended, progress)
    else State(SkipCrlf(rest), InHeaders, progress)
  }

  /** The line break after the closing delimiter is eaten too. */
  function EatFinalBreak(st: State): (r: State)
    ensures |r.buf| <= |st.buf| && r.progress == st.progress && r.phase == st.phase
  {
    if st.phase.Ended? then State(SkipCrlf(st.buf), Ended, st.progress) else st
  }

  function StepStart(cfg: Config, st: State, final: bool): Move {
    match FindAnchor(cfg, st.buf, final)
    case NeedMore => Wait
    case Misplaced(e) => Fail(e)
    case Anchored(n) => Continue(AfterDelimiter(st.buf[n..], st.progress))
  }

  function StepHeaders(st: State, final: bool): Move {
    match FindHeaderEnd(st.buf)
    case None => if final then Fail(MissingHeaderSeparator) else Wait
    case Some(end) =>
      Continue(State(st.buf[end.index + end.length..], InBody(ParseHeaders(st.buf[..end.index])), st.progress))
  }

  function StepBody(cfg: Config, st: State, final: bool): Move
    requires st.phase.InBody?
    decreases |st.buf|, 0
  {
    var at := IndexOf(st.buf, cfg.Marker());
    if at < 0 then
      if Exceeds(cfg.limits.maxPartBodyBytes, |st.buf| - cfg.Headroom()) then Fail(PartSizeLimit)
      else if final then Fail(UnterminatedBody)
      else Wait
    else if Exceeds(cfg.limits.maxPartBodyBytes, at) then Fail(PartSizeLimit)
    else match AcceptPart(cfg, st.progress, st.buf[..at], st.phase.headers)
      case Err(e) => Fail(e)
      case Ok(progress) =>
        Continue(EatFinalBreak(AfterDelimiter(st.buf[at + |cfg.Marker()|..], progress)))
  }

  function AcceptPart(cfg: Config, p: Progress, body: string, headers: Headers): Result<Progress, ParseError>
    decreases |body|, 4
  {
    var contentType := Lower(GetOr(headers, "content-type", ""));
    if StartsWith(contentType, "multipart/mixed") then
      match ExtractBoundary(contentType)
      case None => Err(MissingBoundaryAttribute)
      case Some(boundary) =>
        if boundary == "" then Err(MissingBoundaryAttribute)
        else if cfg.limits.maxDepth > 0 && cfg.depth + 1 >= cfg.limits.maxDepth then Err(DepthLimit)
        else
          var groupId := GetOr(headers, "content-id", boundary);
          var nested := cfg.(boundary := boundary, depth := cfg.depth + 1, changesetId := Some(groupId));
          match ParseWhole(nested, p.counters, body)
          case Err(e) => Err(e)
          case Ok(inner) =>
            if inner.requests == [] then Err(EmptyChangeset)
            else Ok(p.(requests := p.requests + inner.requests, counters := inner.counters))
    else if StartsWith(contentType, "application/http") then
      AcceptRequest(cfg, p, body, headers)
    else
      Err(UnsupportedContentType)
  }

  function AcceptRequest(cfg: Config, p: Progress, body: string, headers: Headers): Result<Progress, ParseError> {
    var autoId := if "content-id" in headers then p.counters.autoId else p.counters.autoId + 1;
    var id := if "content-id" in headers then headers["content-id"] else "auto-" + Decimal(autoId);
    match ParseHttpPayload(body, cfg.json)
    case Err(e) => Err(e)
    case Ok(payload) =>
      var position := if cfg.InChangeset() then p.position + 1 else p.position;
      var counters := Counters(autoId, p.counters.totalOperations + 1);
      if Exceeds(cfg.limits.maxOperations, counters.totalOperations) then Err(OperationLimit)
      else if cfg.InChangeset() && Exceeds(cfg.limits.maxChangesetOperations, position) then Err(ChangesetOperationLimit)
      else
        var request := Request(id, payload.verb, payload.url, payload.headers, payload.body, cfg.changesetId);
        Ok(Progress(p.requests + [request], position, counters))
  }

  /** One turn of the parser, by the phase it is in. Every turn that continues eats bytes. */
  function Step(cfg: Config, st: State, final: bool): (m: Move)
    requires !st.phase.Ended?
    ensures m.Continue? ==> |m.next.buf| + 2 <= |st.buf| && !m.next.phase.AtStart?
    decreases |st.buf|, 1
  {
    match st.phase
    case AtStart => StepStart(cfg, st, final)
    case InHeaders => StepHeaders(st, final)
    case InBody(_) => StepBody(cfg, st, final)
  }

  /** One call of `processBuffer`: turns until the end, until more bytes are needed, or an error. */
  function Run(cfg: Config, st: State, final: bool): Result<State, ParseError>
    decreases |st.buf|, 2
  {
    if st.phase.Ended? then Ok(st)
    else match Step(cfg, st, final)
      case Continue(next) => Run(cfg, next, final)
      case Wait => Ok(st)
      case Fail(e) => Err(e)
  }

  /** What a parser hands back once its input is over. */
  function Finish(r: Result<State, ParseError>): Result<Progress, ParseError> {
    match r
    case Err(e) => Err(e)
    case Ok(st) => if st.phase.Ended? then Ok(st.progress) else Err(MissingClosingBoundary)
  }

  /** `parseBuffer`: the whole input in one buffer. */
  function ParseWhole(cfg: Config, counters: Counters, bytes: string): Result<Progress, ParseError>
    decreases |bytes|, 3
  {
    Finish(Run(cfg, Initial(bytes, counters), true))
  }

  /** `parse`: chunk by chunk, each followed by a pass, then a final pass. */
  function Feed(cfg: Config, st: State, chunks: seq<string>): Result<Progress, ParseError>
    decreases |chunks|
  {
    if chunks == [] then Finish(Run(cfg, st, true))
    else match Run(cfg, st.Plus(chunks[0]), false)
      case Err(e) => Err(e)
      case Ok(next) => Feed(cfg, next, chunks[1..])
  }

  /** `parseMultipartBatch`: the payload limit is checked on every chunk before it is fed. */
  function FeedLimited(cfg: Config, st: State, total: nat, chunks: seq<string>): Result<Progress, ParseError>
    decreases |chunks|
  {
    if chunks == [] then Finish(Run(cfg, st, true))
    else if Exceeds(cfg.limits.maxPayloadBytes, total + |chunks[0]|) then Err(PayloadLimit)
    else match Run(cfg, st.Plus(chunks[0]), false)
      case Err(e) => Err(e)
      case Ok(next) => FeedLimited(cfg, next, total + |chunks[0]|, chunks[1..])
  }

  function ParseBatch(boundary: string, limits: Limits, json: string -> bool, chunks: seq<string>)
    : Result<Progress, ParseError>
  {
    FeedLimited(Config(boundary, 0, None, limits, json), Initial("", Counters(0, 0)), 0, chunks)
  }

  // ------------------------------------------------------------------ the parser object

  class ParserContext {
    var autoId: nat
    var totalOperations: nat

    constructor ()
      ensures autoId == 0 && totalOperations == 0
    {
      autoId, totalOperations := 0, 0;
    }

    ghost function View(): Counters
      reads this
    {
      Counters(autoId, totalOperations)
    }
  }

  datatype Turn = Again | Stop | Thrown(error: ParseError)

  /** What a turn of the object must do when the state machine makes move `m` in state `st`. */
  ghost predicate Follows(turn: Turn, m: Move, before: State, after: State) {
    match m
    case Continue(next) => turn == Again && after == next
    case Wait => turn == Stop && after == before
    case Fail(e) => turn == Thrown(e)
  }

  lemma RunMove(cfg: Config, st: State, final: bool)
    requires !st.phase.Ended?
    ensures var m := Step(cfg, st, final);
            Run(cfg, st, final) ==
            if m.Continue? then Run(cfg, m.next, final) else if m.Wait? then Ok(st) else Err(m.error)
  {
  }

  lemma RunEnded(cfg: Config, st: State, final: bool)
    requires st.phase.Ended?
    ensures Run(cfg, st, final) == Ok(st)
  {
  }

  /** The closing delimiter is the plain one followed by two dashes: the earliest closing
      delimiter is the earliest plain one exactly when two dashes follow that one. */
  lemma EarliestDelimiter(cfg: Config, s: string)
    ensures var closing, plain := IndexOf(s, cfg.Closing()), IndexOf(s, cfg.Marker());
            && (plain == -1 ==> closing == -1)
            && (plain >= 0 ==>
                  ((closing >= 0 && closing <= plain) <==> StartsWith(s[plain + |cfg.Marker()|..], DASHES)) &&
                  (closing >= 0 && closing <= plain ==> closing == plain))
  {
    var marker := cfg.Marker();
    var closing, plain := IndexOf(s, cfg.Closing()), IndexOf(s, marker);
    forall i | OccursAt(s, i, cfg.Closing())
      ensures OccursAt(s, i, marker) && StartsWith(s[i + |marker|..], DASHES)
    {
      var here := s[i..i + |marker| + 2];
      assert here[..|marker|] == marker;
      assert here[..|marker|] == s[i..i + |marker|];
      assert here[|marker|..] == DASHES;
      assert here[|marker|..] == s[i + |marker|..][..2];
    }
    if plain >= 0 && StartsWith(s[plain + |marker|..], DASHES) {
      assert s[plain..plain + |marker| + 2] == s[plain..plain + |marker|] + s[plain + |marker|..][..2];
      assert OccursAt(s, plain, cfg.Closing());
    }
  }

  class StreamingBatchParser {
    const cfg: Config
    const context: ParserContext
    const buffer: BufferQueue
    var firstBoundarySeen: bool
    var inBody: bool
    var currentHeaders: Option<Headers>
    var currentPartBytes: nat
    var ended: bool
    var requests: seq<Request>
    var changesetOperationIndex: nat

    constructor (cfg: Config, context: ParserContext)
      ensures Valid() && this.cfg == cfg && this.context == context && fresh(buffer)
      ensures View() == Initial("", context.View())
    {
      this.cfg, this.context := cfg, context;
      buffer := new BufferQueue();
      firstBoundarySeen, inBody, currentHeaders, currentPartBytes := false, false, None, 0;
      ended, requests, changesetOperationIndex := false, [], 0;
    }

    ghost predicate Valid()
      reads this, buffer
    {
      && buffer.Valid()
      && (inBody ==> firstBoundarySeen && currentHeaders.Some?)
      && !Exceeds(cfg.limits.maxPartBodyBytes, currentPartBytes)
    }

    ghost function View(): State
      reads this, buffer, context
      requires Valid()
    {
      var phase :=
        if ended then Ended
        else if !firstBoundarySeen then AtStart
        else if inBody then InBody(currentHeaders.value)
        else InHeaders;
      State(buffer.Contents, phase, Progress(requests, changesetOperationIndex, context.View()))
    }

    method Peek(first: byte, second: byte) returns (b: bool)
      requires buffer.Valid()
      modifies buffer`cache
      ensures buffer.Valid()
      ensures b == StartsWith(buffer.Contents, [first, second])
    {
      hide BufferQueue.Valid;
      var n := buffer.Length();
      if n < 2 {
        return false;
      }
      var b0 := buffer.ByteAt(0);
      var b1 := buffer.ByteAt(1);
      return b0.value == first && b1.value == second;
    }

    method ConsumeAnchoredFirstBoundary(finalPass: bool) returns (r: Anchor)
      requires buffer.Valid()
      modifies buffer
      ensures buffer.Valid()
      ensures r == FindAnchor(cfg, old(buffer.Contents), finalPass)
      ensures buffer.Contents == if r.Anchored? then old(buffer.Contents)[r.length..] else old(buffer.Contents)
    {
      hide BufferQueue.Valid;
      var prefix := cfg.Prefix();
      var n := buffer.Length();
      if n >= |prefix| {
        var here := buffer.StartsWith(prefix, 0);
        if here {
          var _ := buffer.Consume(|prefix|);
          return Anchored(|prefix|);
        }
      }
      if n < 2 {
        if !finalPass {
          return NeedMore;
        }
      } else {
        var crlf := Peek(CR, LF);
        if crlf {
          var required := 2 + |prefix|;
          if n < required {
            if !finalPass {
              return NeedMore;
            }
          } else {
            var here := buffer.StartsWith(prefix, 2);
            if here {
              var _ := buffer.Consume(required);
              return Anchored(required);
            }
          }
        }
      }
      if n == 0 {
        return Misplaced(BoundaryNotFound);
      }
      if n < |prefix| {
        var b0 := buffer.ByteAt(0);
        if (b0.value == '-' || b0.value == CR) && !finalPass {
          return NeedMore;
        }
      }
      return Misplaced(BoundaryNotAtStart);
    }

    method FindNextBoundary() returns (index: int, closing: bool)
      requires buffer.Valid()
      modifies buffer`cache
      ensures buffer.Valid()
      ensures index == IndexOf(buffer.Contents, cfg.Marker())
      ensures index >= 0 ==> closing == StartsWith(buffer.Contents[index + |cfg.Marker()|..], DASHES)
    {
      hide BufferQueue.Valid, IndexFrom;
      var closingIndex := buffer.IndexOf(cfg.Closing(), 0);
      var markerIndex := buffer.IndexOf(cfg.Marker(), 0);
      EarliestDelimiter(cfg, buffer.Contents);
      if closingIndex == -1 && markerIndex == -1 {
        return -1, false;
      }
      if closingIndex >= 0 && (markerIndex == -1 || closingIndex <= markerIndex) {
        return closingIndex, true;
      }
      return markerIndex, false;
    }

    /** True when the bytes held for the current part already exceed the limit. */
    method EnforceStreamingPartLimit() returns (exceeded: bool)
      requires Valid()
      modifies this`currentPartBytes
      ensures exceeded == Exceeds(cfg.limits.maxPartBodyBytes, |buffer.Contents| - cfg.Headroom())
      ensures !exceeded ==> Valid()
    {
      var maxPartBodyBytes := cfg.limits.maxPartBodyBytes;
      if maxPartBodyBytes <= 0 {
        return false;
      }
      var n := buffer.Length();
      var safeLength := if n < cfg.Headroom() then 0 else n - cfg.Headroom();
      if safeLength <= currentPartBytes {
        return false;
      }
      currentPartBytes := safeLength;
      return Exceeds(maxPartBodyBytes, safeLength);
    }

    method SkipLineBreak()
      requires buffer.Valid()
      modifies buffer
      ensures buffer.Valid() && buffer.Contents == SkipCrlf(old(buffer.Contents))
    {
      hide BufferQueue.Valid;
      var crlf := Peek(CR, LF);
      if crlf {
        var _ := buffer.Consume(2);
      }
    }

    method StartTurn(finalPass: bool) returns (turn: Turn)
      requires Valid() && View().phase.AtStart?
      modifies this, buffer
      ensures Valid()
      ensures Follows(turn, StepStart(cfg, old(View()), finalPass), old(View()), View())
    {
      hide BufferQueue.Valid, FindAnchor;
      var anchor := ConsumeAnchoredFirstBoundary(finalPass);
      match anchor
      case NeedMore => return Stop;
      case Misplaced(e) => return Thrown(e);
      case Anchored(_) =>
        firstBoundarySeen := true;
        var closing := Peek('-', '-');
        if closing {
          var _ := buffer.Consume(2);
          ended := true;
          return Again;
        }
        SkipLineBreak();
        inBody := false;
        return Again;
    }

    method HeadersTurn(finalPass: bool) returns (turn: Turn)
      requires Valid() && View().phase.InHeaders?
      modifies this, buffer
      ensures Valid()
      ensures Follows(turn, StepHeaders(old(View()), finalPass), old(View()), View())
    {
      hide BufferQueue.Valid, IndexFrom, ParseHeaders;
      var crlfIdx := buffer.IndexOf("\r\n\r\n", 0);
      var lfIdx := buffer.IndexOf("\n\n", 0);
      var index, length;
      if crlfIdx == -1 {
        if lfIdx < 0 {
          return if finalPass then Thrown(MissingHeaderSeparator) else Stop;
        }
        index, length := lfIdx, 2;
      } else if lfIdx == -1 || crlfIdx <= lfIdx {
        index, length := crlfIdx, 4;
      } else {
        index, length := lfIdx, 2;
      }
      var headerBuffer := buffer.Slice(0, index);
      currentHeaders := Some(ParseHeaders(headerBuffer.value));
      var _ := buffer.Consume(index + length);
      inBody := true;
      currentPartBytes := 0;
      return Again;
    }

    method BodyTurn(finalPass: bool) returns (turn: Turn)
      requires Valid() && View().phase.InBody?
      modifies this, buffer, context
      ensures !turn.Thrown? ==> Valid()
      ensures Follows(turn, StepBody(cfg, old(View()), finalPass), old(View()), if turn.Thrown? then old(View()) else View())
      decreases |buffer.Contents|, 0
    {
      hide BufferQueue.Valid, IndexOf, AcceptPart, OccursAt;
      var index, closing := FindNextBoundary();
      if index < 0 {
        var exceeded := EnforceStreamingPartLimit();
        if exceeded {
          return Thrown(PartSizeLimit);
        }
        return if finalPass then Thrown(UnterminatedBody) else Stop;
      }
      var bodyBuffer := buffer.Slice(0, index);
      if Exceeds(cfg.limits.maxPartBodyBytes, |bodyBuffer.value|) {
        return Thrown(PartSizeLimit);
      }
      var failure := this.HandlePart(bodyBuffer.value, currentHeaders.value);
      if failure.Some? {
        return Thrown(failure.value);
      }
      currentHeaders := None;
      currentPartBytes := 0;
      inBody := false;
      LeavePart(index, closing);
      return Again;
    }

    /** Eats the part with its delimiter and, when it is there, the line break after it. */
    method LeavePart(index: nat, closing: bool)
      requires Valid() && View().phase.InHeaders?
      requires index + |cfg.Marker()| <= |buffer.Contents|
      requires closing == StartsWith(buffer.Contents[index + |cfg.Marker()|..], DASHES)
      modifies this`ended, buffer
      ensures Valid()
      ensures View() == EatFinalBreak(AfterDelimiter(old(buffer.Contents)[index + |cfg.Marker()|..], old(View().progress)))
    {
      hide BufferQueue.Valid, Config.Marker, Config.Closing;
      DropDrop(buffer.Contents, index + |cfg.Marker()|, if closing then 2 else 0);
      var markerLength := if closing then |cfg.Closing()| else |cfg.Marker()|;
      var _ := buffer.Consume(index + markerLength);
      SkipLineBreak();
      if closing {
        ended := true;
      }
    }

    method HandlePart(body: string, headers: Headers) returns (failure: Option<ParseError>)
      requires Valid()
      modifies this`requests, this`changesetOperationIndex, context
      ensures var r := AcceptPart(cfg, old(View().progress), body, headers);
              if r.Ok?
              then failure == None && Progress(requests, changesetOperationIndex, context.View()) == r.value
              else failure == Some(r.error)
      decreases |body|, 3
    {
      hide BufferQueue.Valid, ParseWhole, ParseHttpPayload, ExtractBoundary;
      var contentType := Lower(GetOr(headers, "content-type", ""));
      if StartsWith(contentType, "multipart/mixed") {
        var nestedBoundary := ExtractBoundary(contentType);
        if nestedBoundary.None? || nestedBoundary.value == "" {
          return Some(MissingBoundaryAttribute);
        }
        if cfg.limits.maxDepth > 0 && cfg.depth + 1 >= cfg.limits.maxDepth {
          return Some(DepthLimit);
        }
        var groupId := GetOr(headers, "content-id", nestedBoundary.value);
        var nestedCfg := Config(nestedBoundary.value, cfg.depth + 1, Some(groupId), cfg.limits, cfg.json);
        var nestedParser := new StreamingBatchParser(nestedCfg, context);
        var result := nestedParser.ParseBuffer(body);
        if result.Err? {
          return Some(result.error);
        }
        if result.value == [] {
          return Some(EmptyChangeset);
        }
        requests := requests + result.value;
        return None;
      }
      if StartsWith(contentType, "application/http") {
        failure := HandleHttpPart(body, headers);
        return;
      }
      return Some(UnsupportedContentType);
    }

    method HandleHttpPart(body: string, headers: Headers) returns (failure: Option<ParseError>)
      modifies this`requests, this`changesetOperationIndex, context
      ensures var r := AcceptRequest(cfg, Progress(old(requests), old(changesetOperationIndex), old(context.View())), body, headers);
              if r.Ok?
              then failure == None && Progress(requests, changesetOperationIndex, context.View()) == r.value
              else failure == Some(r.error)
    {
      hide BufferQueue.Valid, ParseHttpPayload, Decimal;
      var id;
      if "content-id" in headers {
        id := headers["content-id"];
      } else {
        context.autoId := context.autoId + 1;
        id := "auto-" + Decimal(context.autoId);
      }
      var payload := ParseHttpPayload(body, cfg.json);
      if payload.Err? {
        return Some(payload.error);
      }
      if cfg.InChangeset() {
        changesetOperationIndex := changesetOperationIndex + 1;
      }
      context.totalOperations := context.totalOperations + 1;
      if Exceeds(cfg.limits.maxOperations, context.totalOperations) {
        return Some(OperationLimit);
      }
      if cfg.InChangeset() && Exceeds(cfg.limits.maxChangesetOperations, changesetOperationIndex) {
        return Some(ChangesetOperationLimit);
      }
      var p := payload.value;
      requests := requests + [Request(id, p.verb, p.url, p.headers, p.body, cfg.changesetId)];
      return None;
    }

    method ProcessBuffer(finalPass: bool) returns (error: Option<ParseError>)
      requires Valid()
      modifies this, buffer, context
      ensures error.None? ==> Valid()
      ensures var r := Run(cfg, old(View()), finalPass);
              if r.Ok? then error == None && View() == r.value else error == Some(r.error)
      decreases |buffer.Contents|, 1
    {
      hide BufferQueue.Valid, Run, StepStart, StepHeaders, StepBody;
      if ended {
        RunEnded(cfg, View(), finalPass);
        return None;
      }
      ghost var target := Run(cfg, View(), finalPass);
      while !ended
        invariant Valid()
        invariant Run(cfg, View(), finalPass) == target
        invariant |buffer.Contents| <= old(|buffer.Contents|)
        decreases |buffer.Contents|
      {
        ghost var before := View();
        RunMove(cfg, before, finalPass);
        var turn;
        if !firstBoundarySeen {
          turn := StartTurn(finalPass);
        } else if !inBody {
          turn := HeadersTurn(finalPass);
        } else {
          turn := BodyTurn(finalPass);
        }
        if turn.Thrown? {
          return Some(turn.error);
        }
        if turn.Stop? {
          return None;
        }
      }
      RunEnded(cfg, View(), finalPass);
      return None;
    }

    /** The whole input in one buffer, on a parser that has seen nothing yet. */
    method ParseBuffer(bytes: string) returns (r: Result<seq<Request>, ParseError>)
      requires Valid() && View() == Initial("", context.View())
      modifies this, buffer, context
      ensures var w := ParseWhole(cfg, old(context.View()), bytes);
              if w.Ok? then r == Ok(w.value.requests) && context.View() == w.value.counters else r == Err(w.error)
      decreases |bytes|, 2
    {
      hide BufferQueue.Valid, Run;
      buffer.Push(bytes);
      assert View() == Initial(bytes, old(context.View()));
      var error := ProcessBuffer(true);
      if error.Some? {
        return Err(error.value);
      }
      if !ended {
        return Err(MissingClosingBoundary);
      }
      return Ok(requests);
    }

    /** The streamed input, with the payload limit checked on every chunk first. */
    method Parse(chunks: seq<string>) returns (r: Result<seq<Request>, ParseError>)
      requires Valid() && View() == Initial("", context.View())
      modifies this, buffer, context
      ensures var w := FeedLimited(cfg, old(View()), 0, chunks);
              if w.Ok? then r == Ok(w.value.requests) && context.View() == w.value.counters else r == Err(w.error)
    {
      hide BufferQueue.Valid, Run;
      var total: nat := 0;
      ghost var target := FeedLimited(cfg, View(), 0, chunks);
      for i := 0 to |chunks|
        invariant Valid()
        invariant FeedLimited(cfg, View(), total, chunks[i..]) == target
      {
        assert chunks[i..][0] == chunks[i] && chunks[i..][1..] == chunks[i + 1..];
        ghost var before := View();
        total := total + |chunks[i]|;
        if Exceeds(cfg.limits.maxPayloadBytes, total) {
          return Err(PayloadLimit);
        }
        buffer.Push(chunks[i]);
        assert View() == before.Plus(chunks[i]);
        var error := ProcessBuffer(false);
        if error.Some? {
          return Err(error.value);
        }
      }
      var error := ProcessBuffer(true);
      if error.Some? {
        return Err(error.value);
      }
      if !ended {
        return Err(MissingClosingBoundary);
      }
      return Ok(requests);
    }
  }
}
