/** How the split of a byte stream into chunks affects the parse.

    The parser looks at the two bytes after a delimiter only if they are buffered when the
    delimiter is matched. So a chunk that ends at, or one byte past, a delimiter hides what
    follows it. This file proves exactly when that matters: streaming and whole-buffer parsing
    agree on every chunk list, unless the whole input is accepted and some chunk ends there
    before `--`, before an empty header block, or before a lone line feed. */
module ChunkInsensitivity {
  import opened ByteStrings
  import opened MultipartParser

  /** Bytes after a delimiter that a chunk must not hide. */
  predicate Sensitive(rest: string) {
    StartsWith(rest, DASHES) || StartsWith(rest, "\r\n\r\n") || StartsWith(rest, "\r\n\n")
  }

  /** Offset just past the delimiter the next turn matches, or -1. */
  function DelimiterEnd(cfg: Config, st: State): (e: int) {
    match st.phase
    case AtStart =>
      var a := FindAnchor(cfg, st.buf, true);
      if a.Anchored? then a.length else -1
    case InBody(_) =>
      var at := IndexOf(st.buf, cfg.Marker());
      if at < 0 then -1 else at + |cfg.Marker()|
    case _ => -1
  }

  /** Does a cut after `k` bytes fall 0 or 1 bytes past a delimiter of the whole-buffer parse of
      `st`, with sensitive bytes after that delimiter? */
  predicate BadCut(cfg: Config, st: State, k: int)
    decreases |st.buf|
  {
    !st.phase.Ended? &&
    var m := Step(cfg, st, true);
    m.Continue? &&
    ( var e := DelimiterEnd(cfg, st);
      (0 <= e <= k <= e + 1 && e <= |st.buf| && Sensitive(st.buf[e..])) ||
      BadCut(cfg, m.next, k - (|st.buf| - |m.next.buf|)))
  }

  /** Does a chunk of this list, of which `base` bytes came before, end at a bad cut? */
  predicate BadSplit(cfg: Config, whole: State, base: int, chunks: seq<string>)
    decreases |chunks|
  {
    chunks != [] &&
    (BadCut(cfg, whole, base + |chunks[0]|) || BadSplit(cfg, whole, base + |chunks[0]|, chunks[1..]))
  }

  /** Same result, or both reject. */
  predicate Same<T(==)>(a: Result<T, ParseError>, b: Result<T, ParseError>) {
    a == b || (a.Err? && b.Err?)
  }

  /** The outcome of handing all remaining bytes over at once. */
  function Rest(cfg: Config, st: State, more: string): Result<Progress, ParseError> {
    Finish(Run(cfg, st.Plus(more), true))
  }

  // ------------------------------------------------------------------ searches and more input

  lemma HeaderEndStable(s: string, x: string)
    ensures FindHeaderEnd(s).Some? ==> FindHeaderEnd(s + x) == FindHeaderEnd(s)
    ensures FindHeaderEnd(s).None? && FindHeaderEnd(s + x).Some?
            ==> FindHeaderEnd(s + x).value.index + FindHeaderEnd(s + x).value.length > |s|
  {
    IndexOfStable(s, x, "\r\n\r\n");
    IndexOfStable(s, x, "\n\n");
    var lf, crlf := IndexOf(s + x, "\n\n"), IndexOf(s + x, "\r\n\r\n");
    if crlf >= 0 {
      var here := (s + x)[crlf..crlf + 4];
      assert here[0] == (s + x)[crlf] == CR && here[2] == (s + x)[crlf + 2] == CR;
    }
    if lf >= 0 {
      var here := (s + x)[lf..lf + 2];
      assert here[0] == (s + x)[lf] == LF && here[1] == (s + x)[lf + 1] == LF;
    }
    assert crlf >= 0 && lf >= 0 ==> crlf != lf && crlf != lf - 1;
  }

  lemma AnchorStable(cfg: Config, s: string, x: string)
    ensures var a, b := FindAnchor(cfg, s, false), FindAnchor(cfg, s + x, true);
            && (a.Anchored? ==> b == a)
            && (a.Misplaced? ==> b.Misplaced?)
            && (a.NeedMore? && b.Anchored? ==> b.length > |s|)
  {
    var prefix := cfg.Prefix();
    if |prefix| <= |s| {
      OccursInPrefix(s, x, 0, prefix);
    }
    if 2 <= |s| {
      OccursInPrefix(s, x, 0, CRLF);
    }
    if 2 + |prefix| <= |s| {
      OccursInPrefix(s, x, 2, prefix);
    }
    assert prefix[0] == '-';
    if StartsWith(s + x, prefix) {
      assert (s + x)[0] == (s + x)[0..|prefix|][0] == '-';
    }
    if StartsWith(s + x, CRLF) {
      assert (s + x)[0] == (s + x)[0..2][0] == CR;
    }
  }

  /** A part that is already too big stays too big, however it goes on. */
  lemma OversizeStays(cfg: Config, st: State, x: string)
    requires st.phase.InBody?
    requires IndexOf(st.buf, cfg.Marker()) < 0
    requires Exceeds(cfg.limits.maxPartBodyBytes, |st.buf| - cfg.Headroom())
    ensures StepBody(cfg, st.Plus(x), true) == Fail(PartSizeLimit)
    ensures IndexOf(st.buf + x, cfg.Marker()) >= 0
            ==> Exceeds(cfg.limits.maxPartBodyBytes, IndexOf(st.buf + x, cfg.Marker()))
  {
    IndexOfStable(st.buf, x, cfg.Marker());
  }

  // ------------------------------------------------------------------ turns and more input

  /** Where a delimiter turn lands, given the bytes after the delimiter. */
  function Landing(phase: Phase, rest: string, progress: Progress): State {
    var st := AfterDelimiter(rest, progress);
    if phase.InBody? then EatFinalBreak(st) else st
  }

  /** States that behave alike from here on. */
  predicate Alike(a: State, b: State) {
    a == b || (a.phase.Ended? && b.phase.Ended? && a.progress == b.progress)
  }

  /** A delimiter turn that continues on some input continues, with the same progress, on more. */
  lemma DelimiterTurn(cfg: Config, st: State, x: string) returns (progress: Progress)
    requires st.phase.AtStart? || st.phase.InBody?
    requires Step(cfg, st, false).Continue?
    ensures var e := DelimiterEnd(cfg, st);
            && 2 <= e <= |st.buf|
            && DelimiterEnd(cfg, st.Plus(x)) == e
            && Step(cfg, st, false).next == Landing(st.phase, st.buf[e..], progress)
            && Step(cfg, st.Plus(x), true) == Continue(Landing(st.phase, st.buf[e..] + x, progress))
  {
    hide AfterDelimiter, EatFinalBreak, AcceptPart, FindAnchor, OccursAt;
    if st.phase.AtStart? {
      AnchorStable(cfg, st.buf, x);
      AnchorStable(cfg, st.buf, "");
      assert st.buf + "" == st.buf;
      progress := st.progress;
      DropAppend(st.buf, x, FindAnchor(cfg, st.buf, false).length);
    } else {
      var at := IndexOf(st.buf, cfg.Marker());
      IndexOfStable(st.buf, x, cfg.Marker());
      TakeAppend(st.buf, x, at);
      progress := AcceptPart(cfg, st.progress, st.buf[..at], st.phase.headers).value;
      DropAppend(st.buf, x, at + |cfg.Marker()|);
    }
  }

  lemma LandingFar(phase: Phase, rest: string, x: string, progress: Progress)
    requires |rest| >= 2
    ensures Alike(Landing(phase, rest + x, progress), Landing(phase, rest, progress).Plus(x))
    ensures !Landing(phase, rest, progress).phase.Ended?
            ==> Landing(phase, rest + x, progress) == Landing(phase, rest, progress).Plus(x)
  {
    OccursInPrefix(rest, x, 0, DASHES);
    OccursInPrefix(rest, x, 0, CRLF);
    DropAppend(rest, x, 2);
  }

  lemma LandingNear(phase: Phase, rest: string, progress: Progress)
    requires |rest| < 2
    ensures Landing(phase, rest, progress) == State(rest, InHeaders, progress)
  {
  }

  lemma HeaderTurn(cfg: Config, st: State, x: string)
    requires st.phase.InHeaders? && Step(cfg, st, false).Continue?
    ensures Step(cfg, st.Plus(x), true) == Continue(Step(cfg, st, false).next.Plus(x))
  {
    hide ParseHeaders, FindHeaderEnd;
    HeaderEndStable(st.buf, x);
    var end := FindHeaderEnd(st.buf).value;
    TakeAppend(st.buf, x, end.index);
    DropAppend(st.buf, x, end.index + end.length);
  }

  lemma FailedTurn(cfg: Config, st: State, x: string)
    requires !st.phase.Ended? && Step(cfg, st, false).Fail?
    ensures Step(cfg, st.Plus(x), true).Fail?
  {
    hide AcceptPart, FindAnchor, OccursAt;
    match st.phase
    case AtStart => AnchorStable(cfg, st.buf, x);
    case InHeaders =>
    case InBody(_) =>
      var at := IndexOf(st.buf, cfg.Marker());
      if at < 0 {
        OversizeStays(cfg, st, x);
      } else {
        IndexOfStable(st.buf, x, cfg.Marker());
        TakeAppend(st.buf, x, at);
      }
  }

  /** A cut inside bytes already eaten is no concern of later turns. */
  lemma NegativeCut(cfg: Config, st: State, k: int)
    requires k < 0
    ensures !BadCut(cfg, st, k)
    decreases |st.buf|
  {
    hide Step, DelimiterEnd, Sensitive;
    if !st.phase.Ended? && Step(cfg, st, true).Continue? {
      NegativeCut(cfg, Step(cfg, st, true).next, k - (|st.buf| - |Step(cfg, st, true).next.buf|));
    }
  }

  /** A turn that waits has not met the delimiter yet. */
  lemma WaitingTurn(cfg: Config, st: State, x: string)
    requires !st.phase.Ended? && Step(cfg, st, false).Wait?
    ensures !BadCut(cfg, st.Plus(x), |st.buf|)
  {
    hide AcceptPart, FindAnchor, OccursAt, FindHeaderEnd, ParseHeaders, Sensitive, SkipCrlf, AfterDelimiter, EatFinalBreak;
    var m := Step(cfg, st.Plus(x), true);
    match st.phase {
      case AtStart =>
        AnchorStable(cfg, st.buf, x);
        assert m.Continue? ==> |m.next.buf| < |x|;
      case InHeaders =>
        HeaderEndStable(st.buf, x);
        assert m.Continue? ==> |m.next.buf| < |x|;
      case InBody(_) =>
        IndexOfStable(st.buf, x, cfg.Marker());
        assert m == StepBody(cfg, st.Plus(x), true);
        assert m.Continue? ==> |m.next.buf| < |x|;
    }
    if m.Continue? {
      assert DelimiterEnd(cfg, st.Plus(x)) == -1 || DelimiterEnd(cfg, st.Plus(x)) > |st.buf|;
      assert |st.buf| + |x| - |m.next.buf| > |st.buf|;
      NegativeCut(cfg, m.next, |st.buf| - (|st.buf| + |x| - |m.next.buf|));
    }
  }

  // ------------------------------------------------------------------ a hidden line break

  lemma HeaderEndAfterBreak(r: string)
    requires !StartsWith(r, CRLF) && !StartsWith(r, "\n")
    ensures FindHeaderEnd(CRLF + r) ==
            match FindHeaderEnd(r)
            case None => None
            case Some(end) => Some(Separator(end.index + 2, end.length))
  {
    var s := CRLF + r;
    assert s[0] == CR && s[1] == LF;
    assert |r| >= 1 ==> s[2] == r[0] && r[0..1] == [r[0]];
    assert |r| >= 2 ==> s[3] == r[1] && r[0..2] == [r[0], r[1]];
    forall j | 0 <= j < 2
      ensures !OccursAt(s, j, "\r\n\r\n") && !OccursAt(s, j, "\n\n")
    {
      if j + 4 <= |s| {
        assert s[j..j + 4][0] == s[j] && s[j..j + 4][2] == s[j + 2] && s[j..j + 4][3] == s[j + 3];
      }
      if j + 2 <= |s| {
        assert s[j..j + 2][0] == s[j] && s[j..j + 2][1] == s[j + 1];
      }
    }
    IndexOfShift(CRLF, r, "\r\n\r\n");
    IndexOfShift(CRLF, r, "\n\n");
  }

  lemma HeadersAfterBreak(h: string)
    ensures ParseHeaders(CRLF + h) == ParseHeaders(h)
  {
    var s := CRLF + h;
    assert s[0] == CR && s[1] == LF;
    forall n | 2 <= n <= |s|
      ensures LF in s[..n]
    {
      assert s[..n][1] == LF;
    }
    assert IndexOfChar(s, LF) == 1;
    assert s[..1] == "\r" && s[2..] == h;
    assert StripCr("\r") == "";
    var lines := SplitLines(h);
    assert SplitLines(s) == [""] + lines;
    assert ([""] + lines)[0] == "" && ([""] + lines)[1..] == lines;
    assert AddLine(map[], "") == map[];
  }

  /** A line break before a header block is skipped by the header parser as an empty line. */
  lemma LineBreakIgnored(cfg: Config, r: string, progress: Progress, k: int)
    requires !StartsWith(r, CRLF) && !StartsWith(r, "\n")
    ensures Run(cfg, State(CRLF + r, InHeaders, progress), true) == Run(cfg, State(r, InHeaders, progress), true)
    ensures BadCut(cfg, State(CRLF + r, InHeaders, progress), k + 2) == BadCut(cfg, State(r, InHeaders, progress), k)
  {
    hide FindHeaderEnd, ParseHeaders;
    HeaderEndAfterBreak(r);
    var end := FindHeaderEnd(r);
    if end.Some? {
      var i, n := end.value.index, end.value.length;
      DropPast(CRLF, r, i + n);
      assert (CRLF + r)[..i + 2] == CRLF + r[..i];
      HeadersAfterBreak(r[..i]);
    }
    var a, b := State(CRLF + r, InHeaders, progress), State(r, InHeaders, progress);
    assert Step(cfg, a, true) == Step(cfg, b, true);
  }

  /** A part without headers is rejected, whatever follows. */
  lemma HeaderlessPart(cfg: Config, t: string, progress: Progress)
    requires StartsWith(t, "\r\n\r\n") || StartsWith(t, "\r\n\n")
    ensures Finish(Run(cfg, State(t, InHeaders, progress), true)).Err?
  {
    var st := State(t, InHeaders, progress);
    EmptyHeaderBlock(t);
    var end := FindHeaderEnd(t).value;
    var next := State(t[end.index + end.length..], InBody(map[]), progress);
    assert Step(cfg, st, true) == Continue(next);
    assert Step(cfg, next, true) == StepBody(cfg, next, true);
    NoContentType(cfg, next);
  }

  lemma NoContentType(cfg: Config, st: State)
    requires st.phase == InBody(map[])
    ensures StepBody(cfg, st, true).Fail?
  {
    var at := IndexOf(st.buf, cfg.Marker());
    if at >= 0 {
      assert Lower("") == "";
      assert AcceptPart(cfg, st.progress, st.buf[..at], map[]) == Err(UnsupportedContentType);
    }
  }

  lemma EmptyHeaderBlock(t: string)
    requires StartsWith(t, "\r\n\r\n") || StartsWith(t, "\r\n\n")
    ensures FindHeaderEnd(t).Some? && ParseHeaders(t[..FindHeaderEnd(t).value.index]) == map[]
  {
    var crlf, lf := IndexOf(t, "\r\n\r\n"), IndexOf(t, "\n\n");
    if StartsWith(t, "\r\n\r\n") {
      assert crlf == 0;
      assert t[..0] == "";
      assert SplitLines("") == [""];
      assert AddLine(map[], "") == map[];
    } else {
      assert t[0..3][0] == t[0] == CR && t[0..3][1] == t[1] == LF && t[0..3][2] == t[2] == LF;
      assert t[1..3] == "\n\n";
      assert !OccursAt(t, 0, "\n\n") by { assert t[0..2][0] == CR; }
      IndexOfIs(t, "\n\n", 1);
      if crlf >= 0 {
        assert t[crlf..crlf + 4][0] == t[crlf] && t[crlf..crlf + 4][2] == t[crlf + 2];
        assert crlf > 1;
      }
      assert t[..1] == "\r";
      assert IndexOfChar("\r", LF) == -1;
      assert SplitLines("\r") == ["\r"];
      assert IndexOfChar("\r", ':') == -1;
      assert AddLine(map[], "\r") == map[];
    }
  }

  // ------------------------------------------------------------------ one pass ahead of the rest

  /** What the pass over the bytes at hand must guarantee about the bytes `y` still to come. */
  ghost predicate Absorbed(cfg: Config, st: State, y: string, k: int, r: Result<State, ParseError>) {
    var whole := Rest(cfg, st, y);
    if r.Err? then whole.Err?
    else if BadCut(cfg, st.Plus(y), |st.buf|) then
      || Rest(cfg, r.value, y).Err?
      || (whole.Ok? && r.value.phase.InHeaders? && whole.value.requests == r.value.progress.requests)
    else
      && Rest(cfg, r.value, y) == whole
      && (BadCut(cfg, st.Plus(y), k) <==> BadCut(cfg, r.value.Plus(y), k - |st.buf| + |r.value.buf|))
  }

  lemma AbsorbedLater(cfg: Config, st: State, next: State, y: string, k: int, r: Result<State, ParseError>)
    requires !st.phase.Ended? && Step(cfg, st.Plus(y), true) == Continue(next.Plus(y))
    requires DelimiterEnd(cfg, st.Plus(y)) + 2 <= |st.buf| <= k
    requires Absorbed(cfg, next, y, k - |st.buf| + |next.buf|, r)
    ensures Absorbed(cfg, st, y, k, r)
  {
    hide Step, DelimiterEnd, Sensitive;
    RunMove(cfg, st.Plus(y), true);
    hide Run;
  }

  lemma BadCutMove(cfg: Config, st: State, k: int)
    requires !st.phase.Ended? && Step(cfg, st, true).Continue?
    ensures var e, next := DelimiterEnd(cfg, st), Step(cfg, st, true).next;
            BadCut(cfg, st, k) <==>
            || (0 <= e <= k <= e + 1 && e <= |st.buf| && Sensitive(st.buf[e..]))
            || BadCut(cfg, next, k - (|st.buf| - |next.buf|))
  {
    hide Sensitive, DelimiterEnd, Step;
  }

  /** The pass stops in front of at most one byte after a delimiter. */
  lemma AbsorbedNear(cfg: Config, st: State, y: string, k: int, progress: Progress)
    requires st.phase.AtStart? || st.phase.InBody?
    requires var e := DelimiterEnd(cfg, st.Plus(y));
             && 0 <= e <= |st.buf| < e + 2
             && Step(cfg, st.Plus(y), true) == Continue(Landing(st.phase, st.buf[e..] + y, progress))
    requires k >= |st.buf|
    ensures Absorbed(cfg, st, y, k, Ok(State(st.buf[DelimiterEnd(cfg, st.Plus(y))..], InHeaders, progress)))
  {
    hide Step, DelimiterEnd, Run, BadCut, Sensitive;
    var e := DelimiterEnd(cfg, st.Plus(y));
    var t := st.buf[e..] + y;
    var mine := State(st.buf[e..], InHeaders, progress);
    DropAppend(st.buf, y, e);
    RunMove(cfg, st.Plus(y), true);
    BadCutMove(cfg, st.Plus(y), |st.buf|);
    BadCutMove(cfg, st.Plus(y), k);
    if Sensitive(t) {
      SensitiveNear(cfg, st.phase, t, progress);
    } else {
      hide Landing;
      PlainNear(cfg, st.phase, t, progress, k - e);
      PlainNear(cfg, st.phase, t, progress, |st.buf| - e);
      EarlyCut(cfg, State(t, InHeaders, progress), |st.buf| - e);
      assert mine.Plus(y) == State(t, InHeaders, progress);
    }
  }

  lemma SensitiveNear(cfg: Config, phase: Phase, t: string, progress: Progress)
    requires Sensitive(t)
    ensures || Finish(Run(cfg, State(t, InHeaders, progress), true)).Err?
            || Finish(Run(cfg, Landing(phase, t, progress), true)) == Ok(progress)
  {
    if !StartsWith(t, DASHES) {
      HeaderlessPart(cfg, t, progress);
    }
  }

  lemma PlainNear(cfg: Config, phase: Phase, t: string, progress: Progress, k: int)
    requires !Sensitive(t)
    ensures var landed := Landing(phase, t, progress);
            && !landed.phase.Ended? && |t| - 2 <= |landed.buf| <= |t|
            && Run(cfg, landed, true) == Run(cfg, State(t, InHeaders, progress), true)
            && BadCut(cfg, landed, k - (|t| - |landed.buf|)) == BadCut(cfg, State(t, InHeaders, progress), k)
  {
    hide Run, BadCut;
    if StartsWith(t, CRLF) {
      var r := t[2..];
      assert t == CRLF + r;
      if |r| >= 2 {
        assert t[0..4] == CRLF + r[0..2];
      }
      if |r| >= 1 {
        assert t[0..3] == CRLF + r[0..1];
      }
      LineBreakIgnored(cfg, r, progress, k - 2);
    }
  }

  /** No delimiter can be met within the first two bytes of a header block. */
  lemma EarlyCut(cfg: Config, st: State, k: int)
    requires st.phase.InHeaders? && k < 2
    ensures !BadCut(cfg, st, k)
  {
    hide Sensitive;
    var m := Step(cfg, st, true);
    if m.Continue? {
      NegativeCut(cfg, m.next, k - (|st.buf| - |m.next.buf|));
    }
  }

  lemma {:induction false} Absorb(cfg: Config, st: State, y: string, k: int)
    requires k >= |st.buf|
    ensures Absorbed(cfg, st, y, k, Run(cfg, st, false))
    decreases |st.buf|
  {
    hide Sensitive, Landing, Absorbed, BadCut, DelimiterEnd, Rest;
    if st.phase.Ended? {
      AbsorbedEnded(cfg, st, y, k);
    } else {
      RunMove(cfg, st, false);
      var m := Step(cfg, st, false);
      hide Step, Run;
      match m
      case Fail(e) =>
        AbsorbedFail(cfg, st, y, k);
      case Wait =>
        AbsorbedWait(cfg, st, y, k);
      case Continue(next) =>
        Absorb(cfg, next, y, k - |st.buf| + |next.buf|);
        AbsorbMove(cfg, st, y, k, next);
    }
  }

  lemma AbsorbedEnded(cfg: Config, st: State, y: string, k: int)
    requires st.phase.Ended?
    ensures Absorbed(cfg, st, y, k, Ok(st))
  {
  }

  lemma AbsorbedFail(cfg: Config, st: State, y: string, k: int)
    requires !st.phase.Ended? && Step(cfg, st, false).Fail?
    ensures Absorbed(cfg, st, y, k, Err(Step(cfg, st, false).error))
  {
    FailedTurn(cfg, st, y);
    RunMove(cfg, st.Plus(y), true);
  }

  lemma AbsorbedWait(cfg: Config, st: State, y: string, k: int)
    requires !st.phase.Ended? && Step(cfg, st, false).Wait?
    ensures Absorbed(cfg, st, y, k, Ok(st))
  {
    hide BadCut;
    WaitingTurn(cfg, st, y);
  }

  lemma AbsorbMove(cfg: Config, st: State, y: string, k: int, next: State)
    requires !st.phase.Ended? && Step(cfg, st, false) == Continue(next)
    requires k >= |st.buf|
    requires Absorbed(cfg, next, y, k - |st.buf| + |next.buf|, Run(cfg, next, false))
    ensures Absorbed(cfg, st, y, k, Run(cfg, next, false))
  {
    hide Absorbed, BadCut, Run, Landing, Step;
    if st.phase.InHeaders? {
      HeaderTurn(cfg, st, y);
      HeadersEatTwo(cfg, st);
      AbsorbedLater(cfg, st, next, y, k, Run(cfg, next, false));
    } else {
      var progress := DelimiterTurn(cfg, st, y);
      hide DelimiterEnd;
      var e := DelimiterEnd(cfg, st);
      var rest := st.buf[e..];
      if |rest| < 2 {
        LandingNear(st.phase, rest, progress);
        ShortHeadersWait(cfg, next);
        AbsorbedNear(cfg, st, y, k, progress);
      } else {
        LandingFar(st.phase, rest, y, progress);
        if next.phase.Ended? {
          AbsorbedAtEnd(cfg, st, y, k, next);
        } else {
          AbsorbedLater(cfg, st, next, y, k, Run(cfg, next, false));
        }
      }
    }
  }

  lemma HeadersEatTwo(cfg: Config, st: State)
    requires st.phase.InHeaders? && Step(cfg, st, false).Continue?
    ensures |st.buf| >= 2
  {
  }

  lemma ShortHeadersWait(cfg: Config, st: State)
    requires st.phase.InHeaders? && |st.buf| < 2
    ensures Run(cfg, st, false) == Ok(st)
  {
  }

  lemma AbsorbedAtEnd(cfg: Config, st: State, y: string, k: int, next: State)
    requires !st.phase.Ended? && next.phase.Ended?
    requires var m := Step(cfg, st.Plus(y), true); m.Continue? && Alike(m.next, next.Plus(y))
    requires DelimiterEnd(cfg, st.Plus(y)) + 2 <= |st.buf| <= k
    ensures Absorbed(cfg, st, y, k, Run(cfg, next, false))
  {
    hide Step, DelimiterEnd, Sensitive;
    var landed := Step(cfg, st.Plus(y), true).next;
    BadCutMove(cfg, st.Plus(y), |st.buf|);
    BadCutMove(cfg, st.Plus(y), k);
    RunMove(cfg, st.Plus(y), true);
    RunEnded(cfg, next, false);
    RunEnded(cfg, next.Plus(y), true);
    RunEnded(cfg, landed, true);
  }

  // ------------------------------------------------------------------ whole chunk lists

  /** Bad cuts further on are the same, seen from before the pass and from after it. */
  lemma {:induction false} SplitShift(cfg: Config, st: State, y: string, done: nat, chunks: seq<string>)
    requires Run(cfg, st, false).Ok? && !BadCut(cfg, st.Plus(y), |st.buf|)
    ensures var after := Run(cfg, st, false).value;
            BadSplit(cfg, st.Plus(y), |st.buf| + done, chunks) <==> BadSplit(cfg, after.Plus(y), |after.buf| + done, chunks)
    decreases |chunks|
  {
    hide Run, BadCut;
    if chunks != [] {
      Absorb(cfg, st, y, |st.buf| + done + |chunks[0]|);
      SplitShift(cfg, st, y, done + |chunks[0]|, chunks[1..]);
    }
  }

  lemma AcceptGrows(cfg: Config, p: Progress, body: string, headers: Headers)
    requires AcceptPart(cfg, p, body, headers).Ok?
    ensures |AcceptPart(cfg, p, body, headers).value.requests| > |p.requests|
  {
    hide ParseWhole, ParseHttpPayload;
  }

  predicate InPart(st: State) {
    st.phase.InHeaders? || st.phase.InBody?
  }

  lemma StepGrows(cfg: Config, st: State, final: bool)
    requires InPart(st) && Step(cfg, st, final).Continue?
    ensures var next := Step(cfg, st, final).next;
            && (InPart(next) || next.phase.Ended?)
            && |next.progress.requests| >= |st.progress.requests|
            && (next.phase.Ended? ==> |next.progress.requests| > |st.progress.requests|)
  {
    hide AcceptPart, AfterDelimiter, EatFinalBreak, FindHeaderEnd;
    if st.phase.InBody? {
      assert Step(cfg, st, final) == StepBody(cfg, st, final);
      var at := IndexOf(st.buf, cfg.Marker());
      AcceptGrows(cfg, st.progress, st.buf[..at], st.phase.headers);
    }
  }

  /** Once inside a part, a parse can end only by adding a request. */
  lemma {:induction false} RunGrows(cfg: Config, st: State, final: bool)
    requires InPart(st) && Run(cfg, st, final).Ok?
    ensures var after := Run(cfg, st, final).value;
            && (InPart(after) || after.phase.Ended?)
            && |after.progress.requests| >= |st.progress.requests|
            && (after.phase.Ended? ==> |after.progress.requests| > |st.progress.requests|)
    decreases |st.buf|
  {
    RunMove(cfg, st, final);
    hide Run;
    if Step(cfg, st, final).Continue? {
      StepGrows(cfg, st, final);
      hide Step;
      var next := Step(cfg, st, final).next;
      if next.phase.Ended? {
        RunEnded(cfg, next, final);
      } else {
        RunGrows(cfg, next, final);
      }
    }
  }

  lemma {:induction false} FeedGrows(cfg: Config, st: State, chunks: seq<string>)
    requires InPart(st) && Feed(cfg, st, chunks).Ok?
    ensures |Feed(cfg, st, chunks).value.requests| > |st.progress.requests|
    decreases |chunks|
  {
    hide Run;
    if chunks == [] {
      RunGrows(cfg, st, true);
    } else {
      RunGrows(cfg, st.Plus(chunks[0]), false);
      var after := Run(cfg, st.Plus(chunks[0]), false).value;
      if after.phase.Ended? {
        FeedEnded(cfg, after, chunks[1..]);
      } else {
        FeedGrows(cfg, after, chunks[1..]);
      }
    }
  }

  lemma {:induction false} FeedEnded(cfg: Config, st: State, chunks: seq<string>)
    requires st.phase.Ended?
    ensures Feed(cfg, st, chunks) == Ok(st.progress)
    decreases |chunks|
  {
    hide Step;
    if chunks != [] {
      RunEnded(cfg, st.Plus(chunks[0]), false);
      FeedEnded(cfg, st.Plus(chunks[0]), chunks[1..]);
    }
  }

  /** Streaming against handing everything over at once, from any parser state. */
  lemma {:induction false} FeedAgrees(cfg: Config, st: State, chunks: seq<string>)
    ensures var whole, fed := Rest(cfg, st, Concat(chunks)), Feed(cfg, st, chunks);
            && (whole.Err? ==> fed.Err?)
            && (whole.Ok? ==> (fed == whole <==> !BadSplit(cfg, st.Plus(Concat(chunks)), |st.buf|, chunks)))
    decreases |chunks|
  {
    hide Run, BadCut, Absorbed;
    if chunks == [] {
      assert st.Plus("") == st;
    } else {
      var here, y := st.Plus(chunks[0]), Concat(chunks[1..]);
      assert st.buf + (chunks[0] + y) == st.buf + chunks[0] + y;
      assert st.Plus(Concat(chunks)) == here.Plus(y);
      var r := Run(cfg, here, false);
      Absorb(cfg, here, y, |here.buf|);
      FeedStep(cfg, st, chunks, here, y);
    }
  }

  lemma {:induction false} FeedStep(cfg: Config, st: State, chunks: seq<string>, here: State, y: string)
    requires chunks != [] && here == st.Plus(chunks[0]) && y == Concat(chunks[1..])
    requires st.Plus(Concat(chunks)) == here.Plus(y)
    requires Absorbed(cfg, here, y, |here.buf|, Run(cfg, here, false))
    ensures var whole, fed := Rest(cfg, st, Concat(chunks)), Feed(cfg, st, chunks);
            && (whole.Err? ==> fed.Err?)
            && (whole.Ok? ==> (fed == whole <==> !BadSplit(cfg, st.Plus(Concat(chunks)), |st.buf|, chunks)))
    decreases |chunks|, 0
  {
    hide Run, BadCut;
    var r := Run(cfg, here, false);
    if r.Ok? {
      FeedAgrees(cfg, r.value, chunks[1..]);
      if BadCut(cfg, here.Plus(y), |here.buf|) {
        if r.value.phase.InHeaders? && Feed(cfg, r.value, chunks[1..]).Ok? {
          FeedGrows(cfg, r.value, chunks[1..]);
        }
      } else {
        SplitShift(cfg, here, y, 0, chunks[1..]);
      }
    }
  }

  /** The payload limit rejects by total size, however the bytes are split. */
  lemma {:induction false} LimitedFeed(cfg: Config, st: State, total: nat, chunks: seq<string>)
    requires !Exceeds(cfg.limits.maxPayloadBytes, total)
    ensures if Exceeds(cfg.limits.maxPayloadBytes, total + |Concat(chunks)|)
            then FeedLimited(cfg, st, total, chunks).Err?
            else FeedLimited(cfg, st, total, chunks) == Feed(cfg, st, chunks)
    decreases |chunks|
  {
    hide Run;
    if chunks != [] && !Exceeds(cfg.limits.maxPayloadBytes, total + |chunks[0]|) {
      var r := Run(cfg, st.Plus(chunks[0]), false);
      if r.Ok? {
        LimitedFeed(cfg, r.value, total + |chunks[0]|, chunks[1..]);
      }
    }
  }

  lemma SingleChunk(cfg: Config, st: State, bytes: string)
    ensures Concat([bytes]) == bytes
    ensures st.phase.AtStart? && st.buf == "" ==> !BadSplit(cfg, st.Plus(bytes), 0, [bytes])
  {
    hide Step;
    assert Concat([bytes]) == bytes + Concat([]);
    if st.phase.AtStart? && st.buf == "" {
      EndCut(cfg, st.Plus(bytes));
      assert [bytes][1..] == [];
    }
  }

  /** The end of the input hides nothing. */
  lemma {:induction false} EndCut(cfg: Config, st: State)
    ensures !BadCut(cfg, st, |st.buf|)
    decreases |st.buf|
  {
    hide Step, DelimiterEnd;
    if !st.phase.Ended? && Step(cfg, st, true).Continue? {
      EndCut(cfg, Step(cfg, st, true).next);
    }
  }

  /** Chunk insensitivity, exactly: streaming a batch in these chunks and handing it over in one
      piece give the same parse, or both reject, if and only if the whole input is rejected
      anyway or no chunk ends at a bad cut. */
  lemma ChunkInsensitivity(boundary: string, limits: Limits, json: string -> bool, chunks: seq<string>)
    ensures var cfg := Config(boundary, 0, None, limits, json);
            var streamed := ParseBatch(boundary, limits, json, chunks);
            var whole := ParseBatch(boundary, limits, json, [Concat(chunks)]);
            Same(streamed, whole) <==>
            whole.Err? || !BadSplit(cfg, Initial(Concat(chunks), Counters(0, 0)), 0, chunks)
  {
    hide Run, BadSplit;
    var cfg := Config(boundary, 0, None, limits, json);
    var st := Initial("", Counters(0, 0));
    var bytes := Concat(chunks);
    assert st.Plus(bytes) == Initial(bytes, Counters(0, 0));
    SingleChunk(cfg, st, bytes);
    LimitedFeed(cfg, st, 0, chunks);
    LimitedFeed(cfg, st, 0, [bytes]);
    FeedAgrees(cfg, st, chunks);
    FeedAgrees(cfg, st, [bytes]);
  }

  /** The excluded case is real: an empty batch cut just before its closing dashes. */
  lemma HiddenClosing(limits: Limits, json: string -> bool)
    requires !Exceeds(limits.maxPayloadBytes, 5)
    ensures ParseBatch("b", limits, json, ["--b--"]) == Ok(Progress([], 0, Counters(0, 0)))
    ensures ParseBatch("b", limits, json, ["--b", "--"]).Err?
  {
    var cfg := Config("b", 0, None, limits, json);
    var nothing := Progress([], 0, Counters(0, 0));
    var st := Initial("", Counters(0, 0));
    var chunks := ["--b", "--"];
    assert "--b--"[0..3] == cfg.Prefix() && "--b--"[3..] == "--" && "--"[2..] == "";
    assert FindAnchor(cfg, "--b--", false) == Anchored(3);
    assert FindAnchor(cfg, "--b", false) == Anchored(3);
    assert Step(cfg, Initial("--b--", Counters(0, 0)), false) == Continue(State("", Ended, nothing));
    assert Step(cfg, Initial("--b", Counters(0, 0)), false) == Continue(State("", InHeaders, nothing));
    assert FindHeaderEnd("--") == None by {
      assert "--"[0..2][0] == '-';
    }
    var s2 := State("--", InHeaders, nothing);
    assert Step(cfg, s2, false) == Wait && Step(cfg, s2, true) == Fail(MissingHeaderSeparator);
    hide Step, FindAnchor, FindHeaderEnd;
    RunMove(cfg, Initial("--b--", Counters(0, 0)), false);
    RunEnded(cfg, State("", Ended, nothing), false);
    RunMove(cfg, Initial("--b", Counters(0, 0)), false);
    ShortHeadersWait(cfg, State("", InHeaders, nothing));
    RunMove(cfg, s2, false);
    RunMove(cfg, s2, true);
    hide Run;
    FeedEnded(cfg, State("", Ended, nothing), []);
    assert st.Plus("--b--") == Initial("--b--", Counters(0, 0));
    assert Feed(cfg, st, ["--b--"]) == Ok(nothing) by {
      assert ["--b--"][1..] == [];
    }
    assert Feed(cfg, s2, []).Err?;
    assert State("", InHeaders, nothing).Plus("--") == s2;
    assert Feed(cfg, State("", InHeaders, nothing), ["--"]).Err? by {
      assert ["--"][1..] == [];
    }
    assert st.Plus("--b") == Initial("--b", Counters(0, 0));
    assert Feed(cfg, st, chunks).Err? by {
      assert chunks[1..] == ["--"];
    }
    SingleChunk(cfg, st, "--b--");
    assert Concat(chunks) == "--b--" by {
      SingleChunk(cfg, st, "--");
      assert chunks[1..] == ["--"];
    }
    LimitedFeed(cfg, st, 0, ["--b--"]);
    LimitedFeed(cfg, st, 0, chunks);
  }

  // ------------------------------------------------------------------ the streaming part limit

  /** An early size rejection is never premature: whatever follows, the part either ends above
      the limit or never ends. */
  lemma EarlyRejectionIsDue(cfg: Config, st: State, more: string)
    requires st.phase.InBody?
    requires IndexOf(st.buf, cfg.Marker()) < 0 && Step(cfg, st, false) == Fail(PartSizeLimit)
    ensures var end := IndexOf(st.buf + more, cfg.Marker());
            end >= 0 ==> Exceeds(cfg.limits.maxPartBodyBytes, end)
    ensures Rest(cfg, st, more).Err?
  {
    OversizeStays(cfg, st, more);
    assert Step(cfg, st.Plus(more), true) == StepBody(cfg, st.Plus(more), true);
    RunMove(cfg, st.Plus(more), true);
  }

  /** The buffer is bounded: a pass that leaves the parser inside a part body leaves at most the
      part limit plus the delimiter headroom in it. */
  lemma {:induction false} BodyBufferBounded(cfg: Config, st: State, final: bool)
    requires cfg.limits.maxPartBodyBytes > 0
    requires Run(cfg, st, final).Ok? && Run(cfg, st, final).value.phase.InBody?
    ensures |Run(cfg, st, final).value.buf| <= cfg.limits.maxPartBodyBytes + cfg.Headroom()
    decreases |st.buf|
  {
    hide AcceptPart, IndexOf;
    if !st.phase.Ended? {
      var m := Step(cfg, st, final);
      RunMove(cfg, st, final);
      if m.Continue? {
        BodyBufferBounded(cfg, m.next, final);
      } else {
        assert m == StepBody(cfg, st, final);
      }
    }
  }
}
