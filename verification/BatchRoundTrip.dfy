/** Printing a whole batch response and parsing it again. */
module BatchRoundTrip {
  import opened ByteStrings
  import opened MultipartParser
  import opened MultipartSerializer
  import opened FramingRoundTrip
  import opened MessageContents
  import opened HttpRoundTrip
  import opened ChunkInsensitivity

  // ------------------------------------------------------------------ what is read back

  function NextAuto(entry: Entry, autoId: nat): nat {
    if entry.id == "" then autoId + 1 else autoId
  }

  /** The request an entry reads back as: its Content-ID (or the next automatic one), status in
      place of a URL, the final header map and the body bytes. */
  function ReadEntry(entry: Entry, group: Option<string>, autoId: nat, json: string -> bool): Request
    requires ReadBody(entry, json).Ok?
  {
    Request(
      if entry.id == "" then "auto-" + Decimal(autoId + 1) else entry.id,
      HTTP_VERSION, Decimal(entry.status), HeaderMap(FinalHeaders(entry)), ReadBody(entry, json).value, group)
  }

  ghost predicate CleanEntries(entries: seq<Entry>, reason: nat -> string, json: string -> bool) {
    forall i :: 0 <= i < |entries| ==> CleanEntry(entries[i], reason, json)
  }

  function ReadEntries(entries: seq<Entry>, group: Option<string>, autoId: nat, reason: nat -> string, json: string -> bool)
    : seq<Request>
    requires CleanEntries(entries, reason, json)
  {
    if entries == [] then []
    else
      CleanBody(entries[0], reason, json);
      [ReadEntry(entries[0], group, autoId, json)] +
      ReadEntries(entries[1..], group, NextAuto(entries[0], autoId), reason, json)
  }

  function AutoAfter(entries: seq<Entry>, autoId: nat): nat
    decreases |entries|
  {
    if entries == [] then autoId else AutoAfter(entries[1..], NextAuto(entries[0], autoId))
  }

  // ------------------------------------------------------------------ entries

  function EntryPart(entry: Entry, reason: nat -> string): Part {
    Part(PartHeaderLines(entry.id), RenderHttpResponse(entry, reason))
  }

  function EntryParts(entries: seq<Entry>, reason: nat -> string): (parts: seq<Part>)
    ensures |parts| == |entries|
    ensures forall i :: 0 <= i < |entries| ==> parts[i] == EntryPart(entries[i], reason)
  {
    if entries == [] then [] else [EntryPart(entries[0], reason)] + EntryParts(entries[1..], reason)
  }

  predicate Within(limit: int, amount: int) {
    limit <= 0 || amount <= limit
  }

  lemma NotMultipart()
    ensures !StartsWith(HTTP_TYPE, "multipart/mixed") && StartsWith(HTTP_TYPE, "application/http") && Lower(HTTP_TYPE) == HTTP_TYPE
  {
    assert HTTP_TYPE[0..15][0] == 'a';
    assert HTTP_TYPE[0..16] == HTTP_TYPE;
  }

  /** Handling a printed entry adds exactly the request it reads back as. */
  lemma EntryAccepted(cfg: Config, p: Progress, entry: Entry, reason: nat -> string)
    requires CleanEntry(entry, reason, cfg.json)
    requires Within(cfg.limits.maxOperations, p.counters.totalOperations + 1)
    requires cfg.InChangeset() ==> Within(cfg.limits.maxChangesetOperations, p.position + 1)
    ensures ReadBody(entry, cfg.json).Ok?
    ensures AcceptPart(cfg, p, RenderHttpResponse(entry, reason), AddLines(map[], PartHeaderLines(entry.id))) ==
            Ok(Progress(
              p.requests + [ReadEntry(entry, cfg.changesetId, p.counters.autoId, cfg.json)],
              if cfg.InChangeset() then p.position + 1 else p.position,
              Counters(NextAuto(entry, p.counters.autoId), p.counters.totalOperations + 1)))
  {
    hide RenderHttpResponse, ParseHttpPayload, AddLines, PartHeaderLines, ParseWhole, Decimal, FinalHeaders, HeaderMap,
         HTTP_TYPE, CleanText, ReadBody, CleanLines, StartsWith, Lower;
    ResponseRead(entry, reason, cfg.json);
    PartHeaders(entry.id);
    NotMultipart();
  }

  /** One operation too many is refused. */
  lemma EntryRefused(cfg: Config, p: Progress, entry: Entry, reason: nat -> string)
    requires CleanEntry(entry, reason, cfg.json)
    requires !Within(cfg.limits.maxOperations, p.counters.totalOperations + 1) ||
             (cfg.InChangeset() && !Within(cfg.limits.maxChangesetOperations, p.position + 1))
    ensures AcceptPart(cfg, p, RenderHttpResponse(entry, reason), AddLines(map[], PartHeaderLines(entry.id))) ==
            Err(if Within(cfg.limits.maxOperations, p.counters.totalOperations + 1) then ChangesetOperationLimit else OperationLimit)
  {
    hide RenderHttpResponse, ParseHttpPayload, AddLines, PartHeaderLines, ParseWhole, Decimal, FinalHeaders, HeaderMap,
         HTTP_TYPE, CleanText, ReadBody, CleanLines, StartsWith, Lower;
    ResponseRead(entry, reason, cfg.json);
    PartHeaders(entry.id);
    NotMultipart();
  }

  predicate SmallEntries(cfg: Config, entries: seq<Entry>, reason: nat -> string) {
    forall i :: 0 <= i < |entries| ==> Within(cfg.limits.maxPartBodyBytes, |RenderHttpResponse(entries[i], reason)|)
  }

  /** Are the entries of a changeset within the limits, from where the parser stands? */
  predicate EntriesFit(cfg: Config, p: Progress, entries: seq<Entry>, reason: nat -> string) {
    && SmallEntries(cfg, entries, reason)
    && Within(cfg.limits.maxOperations, p.counters.totalOperations + |entries|)
    && Within(cfg.limits.maxChangesetOperations, p.position + |entries|)
  }

  function EntriesDone(cfg: Config, p: Progress, entries: seq<Entry>, reason: nat -> string): Progress
    requires CleanEntries(entries, reason, cfg.json)
  {
    Progress(
      p.requests + ReadEntries(entries, cfg.changesetId, p.counters.autoId, reason, cfg.json),
      p.position + |entries|,
      Counters(AutoAfter(entries, p.counters.autoId), p.counters.totalOperations + |entries|))
  }

  lemma {:induction false} EntriesAccepted(cfg: Config, p: Progress, entries: seq<Entry>, reason: nat -> string)
    requires CleanEntries(entries, reason, cfg.json)
    requires cfg.InChangeset() && Within(cfg.limits.maxOperations, p.counters.totalOperations)
    requires Within(cfg.limits.maxChangesetOperations, p.position)
    ensures var r := FoldParts(cfg, p, EntryParts(entries, reason));
            if EntriesFit(cfg, p, entries, reason) then r == Ok(EntriesDone(cfg, p, entries, reason)) else r.Err?
    decreases |entries|
  {
    hide AcceptPart, RenderHttpResponse, AddLines, PartHeaderLines, CleanEntry, EntriesDone, Within, SmallEntries;
    if entries == [] {
      NoEntries(cfg, p, reason);
    } else {
      var entry, parts := entries[0], EntryParts(entries, reason);
      assert CleanEntry(entry, reason, cfg.json);
      assert parts[1..] == EntryParts(entries[1..], reason);
      assert parts[0] == EntryPart(entry, reason);
      FirstFits(cfg, p, entries, reason);
      hide EntriesFit;
      if FitsNext(cfg, p) {
        EntryAccepted(cfg, p, entry, reason);
        var next := NextProgress(cfg, p, entry);
        EntriesAccepted(cfg, next, entries[1..], reason);
        hide FoldParts;
        SameDone(cfg, p, entries, reason);
        FirstEntryFolded(cfg, p, parts);
      } else {
        EntryRefused(cfg, p, entry, reason);
      }
    }
  }

  predicate FitsNext(cfg: Config, p: Progress) {
    && Within(cfg.limits.maxOperations, p.counters.totalOperations + 1)
    && Within(cfg.limits.maxChangesetOperations, p.position + 1)
  }

  function NextProgress(cfg: Config, p: Progress, entry: Entry): Progress
    requires ReadBody(entry, cfg.json).Ok?
  {
    Progress(p.requests + [ReadEntry(entry, cfg.changesetId, p.counters.autoId, cfg.json)], p.position + 1,
             Counters(NextAuto(entry, p.counters.autoId), p.counters.totalOperations + 1))
  }

  lemma FirstEntryFolded(cfg: Config, p: Progress, parts: seq<Part>)
    requires parts != []
    ensures FoldParts(cfg, p, parts) ==
            if !Within(cfg.limits.maxPartBodyBytes, |parts[0].payload|) then Err(PartSizeLimit)
            else
              var r := AcceptPart(cfg, p, parts[0].payload, AddLines(map[], parts[0].lines));
              if r.Err? then Err(r.error) else FoldParts(cfg, r.value, parts[1..])
  {
    hide AcceptPart, AddLines;
  }

  lemma NoEntries(cfg: Config, p: Progress, reason: nat -> string)
    requires Within(cfg.limits.maxOperations, p.counters.totalOperations)
    requires Within(cfg.limits.maxChangesetOperations, p.position)
    ensures EntriesFit(cfg, p, [], reason) && EntriesDone(cfg, p, [], reason) == p
  {
    assert p.requests + [] == p.requests;
  }

  lemma FirstFits(cfg: Config, p: Progress, entries: seq<Entry>, reason: nat -> string)
    requires entries != [] && CleanEntries(entries, reason, cfg.json)
    ensures ReadBody(entries[0], cfg.json).Ok?
    ensures EntriesFit(cfg, p, entries, reason) <==>
            && Within(cfg.limits.maxPartBodyBytes, |RenderHttpResponse(entries[0], reason)|)
            && FitsNext(cfg, p) && EntriesFit(cfg, NextProgress(cfg, p, entries[0]), entries[1..], reason)
  {
    hide RenderHttpResponse, ReadEntry, CleanEntry, ReadBody;
    assert CleanEntry(entries[0], reason, cfg.json);
    CleanBody(entries[0], reason, cfg.json);
    var tail := entries[1..];
    assert forall i :: 0 <= i < |tail| ==> tail[i] == entries[i + 1];
    assert forall i :: 1 <= i < |entries| ==> entries[i] == tail[i - 1];
  }

  lemma SameDone(cfg: Config, p: Progress, entries: seq<Entry>, reason: nat -> string)
    requires entries != [] && CleanEntries(entries, reason, cfg.json) && ReadBody(entries[0], cfg.json).Ok?
    ensures EntriesDone(cfg, NextProgress(cfg, p, entries[0]), entries[1..], reason) == EntriesDone(cfg, p, entries, reason)
  {
    hide ReadEntry, CleanEntry;
    var next := NextProgress(cfg, p, entries[0]);
    var first := ReadEntry(entries[0], cfg.changesetId, p.counters.autoId, cfg.json);
    var more := ReadEntries(entries[1..], cfg.changesetId, next.counters.autoId, reason, cfg.json);
    assert p.requests + [first] + more == p.requests + ([first] + more);
  }

  lemma {:induction false} EntriesFrame(boundary: string, entries: seq<Entry>, reason: nat -> string)
    ensures RenderEntries(boundary, entries, reason) + DASHES + boundary + DASHES == Frame(boundary, EntryParts(entries, reason))
    decreases |entries|
  {
    hide RenderHttpResponse, PartHeaderLines, Join;
    if entries != [] {
      EntriesFrame(boundary, entries[1..], reason);
      var parts := EntryParts(entries, reason);
      assert parts[0] == EntryPart(entries[0], reason) && parts[1..] == EntryParts(entries[1..], reason);
      var head, payload := Join(PartHeaderLines(entries[0].id), CRLF), RenderHttpResponse(entries[0], reason);
      PartFrame(boundary, head, payload, RenderEntries(boundary, entries[1..], reason), DASHES + boundary + DASHES);
    }
  }

  lemma PartFrame(boundary: string, head: string, payload: string, more: string, close: string)
    ensures (DASHES + boundary + CRLF + head + CRLF + CRLF + payload + CRLF + more) + close ==
            DASHES + boundary + CRLF + (head + (CRLF + CRLF + (payload + CRLF + (more + close))))
  {
  }

  // ------------------------------------------------------------------ changesets

  const MIXED := "multipart/mixed; boundary="

  /** A boundary that a content type can carry unquoted. */
  predicate PlainBoundary(b: string) {
    b != "" && CleanText(b) && ';' !in b && '"' !in b
  }

  lemma LowerPlain(b: string)
    requires PlainBoundary(b)
    ensures PlainBoundary(Lower(b)) && Lower(Lower(b)) == Lower(b)
  {
    forall i | 0 <= i < |b|
      ensures LowerChar(LowerChar(b[i])) == LowerChar(b[i]) && IsSpace(Lower(b)[i]) == IsSpace(b[i])
      ensures Lower(b)[i] != CR && Lower(b)[i] != LF && Lower(b)[i] != ';' && Lower(b)[i] != '"'
    {
      CaseOfChar(b[i]);
      assert b[i] in b;
    }
  }

  lemma LowerAppend(a: string, b: string)
    ensures Lower(a + b) == Lower(a) + Lower(b)
  {
  }

  lemma MixedText()
    ensures Lower(MIXED) == MIXED && |MIXED| == 26 && StartsWith(MIXED, "multipart/mixed")
    ensures CR !in MIXED && LF !in MIXED && MIXED[0] == 'm'
  {
    assert MIXED[0..15] == "multipart/mixed";
  }

  lemma MixedAttribute(b: string)
    ensures IndexFrom(MIXED + b, "boundary=", 0) == 17
  {
    assert MIXED[17..26] == "boundary=";
    OccursInPrefix(MIXED, b, 17, "boundary=");
    assert forall j :: 0 <= j < 17 ==> MIXED[j] != 'b';
    forall j: nat | j < 17
      ensures !OccursAt(MIXED + b, j, "boundary=")
    {
      OccursInPrefix(MIXED, b, j, "boundary=");
      assert MIXED[j..j + 9][0] == MIXED[j];
    }
    IndexOfIs(MIXED + b, "boundary=", 17);
  }

  lemma PlainAttribute(b: string)
    requires PlainBoundary(b) && Lower(b) == b
    ensures ExtractBoundary(MIXED + b) == Some(b)
  {
    hide IndexFrom, MIXED, Lower, TrimLeft, TrimRight;
    MixedText();
    LowerAppend(MIXED, b);
    MixedAttribute(b);
    DropPast(MIXED, b, 0);
    NoDelimiter(b, ';');
    TrimOfTrimmed(b);
    NoQuotes(b);
  }

  lemma NoDelimiter(s: string, c: char)
    requires c !in s
    ensures UpTo(s, c) == s
  {
  }

  lemma NoQuotes(s: string)
    requires '"' !in s
    ensures StripQuotes(s) == s
  {
    if s != "" {
      assert s[0] in s && s[|s| - 1] in s;
    }
  }

  function GroupPart(own: string, group: Group, reason: nat -> string): Part {
    match group
    case Single(entry) => EntryPart(entry, reason)
    case Changeset(_, entries) => Part([ChangesetLine(own)], Frame(own, EntryParts(entries, reason)))
  }

  lemma ChangesetHeaders(own: string)
    requires PlainBoundary(own)
    ensures AddLines(map[], [ChangesetLine(own)]) == map["content-type" := MIXED + own]
    ensures CleanLines([ChangesetLine(own)])
  {
    MixedValue(own);
    TypeNameText();
    hide AddLine, PlainLine, TYPE_NAME, CleanLine, MIXED;
    LineParsed(map[], TYPE_NAME, MIXED + own);
    CleanLineFrom(TYPE_NAME, MIXED + own);
    SameLine(own);
    assert [ChangesetLine(own)][1..] == [];
  }

  lemma SameLine(own: string)
    ensures ChangesetLine(own) == PlainLine(TYPE_NAME, MIXED + own)
  {
  }

  lemma MixedValue(own: string)
    requires PlainBoundary(own)
    ensures CleanText(MIXED + own)
  {
    MixedText();
    var s := MIXED + own;
    assert s[|s| - 1] == own[|own| - 1];
  }

  function Nested(cfg: Config, own: string): Config {
    Config(own, cfg.depth + 1, Some(own), cfg.limits, cfg.json)
  }

  lemma MixedTypeDispatched(cfg: Config, p: Progress, boundary: string, value: string, payload: string)
    requires StartsWith(Lower(value), "multipart/mixed") && ExtractBoundary(Lower(value)) == Some(boundary) && boundary != ""
    requires cfg.limits.maxDepth <= 0 || cfg.depth + 1 < cfg.limits.maxDepth
    ensures var r := ParseWhole(Nested(cfg, boundary), p.counters, payload);
            AcceptPart(cfg, p, payload, map["content-type" := value]) ==
            if r.Err? then Err(r.error)
            else if r.value.requests == [] then Err(EmptyChangeset)
            else Ok(Progress(p.requests + r.value.requests, p.position, r.value.counters))
  {
    hide ParseWhole, ExtractBoundary, Lower, StartsWith, AcceptRequest;
  }

  lemma MixedTypeRead(own: string)
    requires PlainBoundary(own)
    ensures StartsWith(Lower(MIXED + own), "multipart/mixed")
    ensures ExtractBoundary(Lower(MIXED + own)) == Some(Lower(own)) && Lower(own) != ""
  {
    LowerPlain(own);
    MixedText();
    LowerAppend(MIXED, own);
    PlainAttribute(Lower(own));
    OccursInPrefix(MIXED, Lower(own), 0, "multipart/mixed");
    hide MIXED, ExtractBoundary, Lower, OccursAt, PlainBoundary;
  }

  /** Handling a printed changeset parses its payload under the lower-cased boundary. */
  lemma ChangesetAccepted(cfg: Config, p: Progress, own: string, payload: string)
    requires PlainBoundary(own)
    requires cfg.limits.maxDepth <= 0 || cfg.depth + 1 < cfg.limits.maxDepth
    ensures var r := ParseWhole(Nested(cfg, Lower(own)), p.counters, payload);
            AcceptPart(cfg, p, payload, AddLines(map[], [ChangesetLine(own)])) ==
            if r.Err? then Err(r.error)
            else if r.value.requests == [] then Err(EmptyChangeset)
            else Ok(Progress(p.requests + r.value.requests, p.position, r.value.counters))
  {
    hide ParseWhole, AddLines, MIXED, ExtractBoundary, Lower, StartsWith, PlainBoundary, AcceptPart, Nested;
    ChangesetHeaders(own);
    MixedTypeRead(own);
    MixedTypeDispatched(cfg, p, Lower(own), MIXED + own, payload);
  }

  /** A boundary with capitals is looked for in lower case and not found. */
  lemma CapitalBoundary(cfg: Config, counters: Counters, own: string, parts: seq<Part>)
    requires own != "" && Lower(own) != own && cfg.boundary == Lower(own)
    ensures ParseWhole(cfg, counters, Frame(own, parts)).Err?
  {
    hide Lower, Inside;
    var text := Frame(own, parts);
    assert text[0..2 + |own|] == DASHES + own;
    assert (DASHES + own)[2..] == own && (DASHES + Lower(own))[2..] == Lower(own);
    assert !StartsWith(text, CRLF) by {
      assert text[0..2][0] == text[0] == '-';
    }
    var st := Initial(text, counters);
    assert Step(cfg, st, true).Fail?;
    RunMove(cfg, st, true);
  }

  // ------------------------------------------------------------------ whole batches

  /** What the round trip needs of one group in a batch read with `cfg`. */
  ghost predicate CleanGroup(cfg: Config, own: string, group: Group, reason: nat -> string) {
    && IndexOf(GroupPart(own, group, reason).payload, cfg.Marker()) == -1
    && CleanEntries(GroupEntries(group), reason, cfg.json)
    && match group
       case Single(_) => true
       case Changeset(_, entries) =>
         && PlainBoundary(own) && entries != []
         && forall i :: 0 <= i < |entries| ==>
              IndexOf(RenderHttpResponse(entries[i], reason), Nested(cfg, own).Marker()) == -1
  }

  /** The limits inside one group: nesting depth, operations and part sizes of a changeset. */
  predicate InnerFits(cfg: Config, group: Group, reason: nat -> string) {
    group.Changeset? ==>
      && (cfg.limits.maxDepth <= 0 || cfg.depth + 1 < cfg.limits.maxDepth)
      && Within(cfg.limits.maxChangesetOperations, |group.entries|)
      && SmallEntries(cfg, group.entries, reason)
  }

  predicate GroupFits(cfg: Config, own: string, group: Group, reason: nat -> string) {
    Within(cfg.limits.maxPartBodyBytes, |GroupPart(own, group, reason).payload|) && InnerFits(cfg, group, reason)
  }

  /** Are all groups within the limits, with `total` operations before them? */
  predicate GroupsFit(cfg: Config, total: nat, owns: seq<string>, groups: seq<Group>, reason: nat -> string)
    requires |owns| == |groups|
  {
    && (forall i :: 0 <= i < |groups| ==> GroupFits(cfg, owns[i], groups[i], reason))
    && Within(cfg.limits.maxOperations, total + GroupCount(groups))
  }

  ghost predicate CleanGroups(cfg: Config, owns: seq<string>, groups: seq<Group>, reason: nat -> string) {
    |owns| == |groups| && forall i :: 0 <= i < |groups| ==> CleanGroup(cfg, owns[i], groups[i], reason)
  }

  /** Is every changeset boundary free of capitals? */
  predicate LowerCase(owns: seq<string>, groups: seq<Group>)
    requires |owns| == |groups|
  {
    forall i :: 0 <= i < |groups| && groups[i].Changeset? ==> Lower(owns[i]) == owns[i]
  }

  function GroupCount(groups: seq<Group>): nat
    decreases |groups|
  {
    if groups == [] then 0 else |GroupEntries(groups[0])| + GroupCount(groups[1..])
  }

  function GroupName(own: string, group: Group): Option<string> {
    if group.Single? then None else Some(own)
  }

  /** The requests a batch reads back as: every entry, in order, under its group. */
  function ReadGroups(owns: seq<string>, groups: seq<Group>, autoId: nat, reason: nat -> string, json: string -> bool)
    : seq<Request>
    requires |owns| == |groups|
    requires forall i :: 0 <= i < |groups| ==> CleanEntries(GroupEntries(groups[i]), reason, json)
    decreases |groups|
  {
    if groups == [] then []
    else
      ReadEntries(GroupEntries(groups[0]), GroupName(owns[0], groups[0]), autoId, reason, json) +
      ReadGroups(owns[1..], groups[1..], AutoAfter(GroupEntries(groups[0]), autoId), reason, json)
  }

  function GroupAuto(groups: seq<Group>, autoId: nat): nat
    decreases |groups|
  {
    if groups == [] then autoId else GroupAuto(groups[1..], AutoAfter(GroupEntries(groups[0]), autoId))
  }

  function GroupParts(owns: seq<string>, groups: seq<Group>, reason: nat -> string): (parts: seq<Part>)
    requires |owns| == |groups|
    ensures |parts| == |groups|
    ensures forall i :: 0 <= i < |groups| ==> parts[i] == GroupPart(owns[i], groups[i], reason)
    decreases |groups|
  {
    if groups == [] then [] else [GroupPart(owns[0], groups[0], reason)] + GroupParts(owns[1..], groups[1..], reason)
  }

  /** Handling one printed group adds its entries' requests, unless its boundary has capitals or a
      limit is exceeded. */
  lemma GroupAccepted(cfg: Config, p: Progress, own: string, group: Group, reason: nat -> string)
    requires cfg.changesetId == None && CR !in cfg.boundary
    requires CleanGroup(cfg, own, group, reason)
    requires Within(cfg.limits.maxOperations, p.counters.totalOperations)
    ensures var part := GroupPart(own, group, reason);
            var r := AcceptPart(cfg, p, part.payload, AddLines(map[], part.lines));
            if (group.Changeset? && Lower(own) != own) || !InnerFits(cfg, group, reason) ||
               !Within(cfg.limits.maxOperations, p.counters.totalOperations + |GroupEntries(group)|) then r.Err?
            else r == Ok(Progress(
              p.requests + ReadEntries(GroupEntries(group), GroupName(own, group), p.counters.autoId, reason, cfg.json),
              p.position,
              Counters(AutoAfter(GroupEntries(group), p.counters.autoId), p.counters.totalOperations + |GroupEntries(group)|)))
  {
    hide AcceptPart, AddLines, RenderHttpResponse, PartHeaderLines, Frame, EntryParts, CleanEntries, ChangesetLine,
         SmallEntries, PlainBoundary, IndexOf, Lower, Config.Marker, AutoAfter, Within;
    if group.Single? {
      SingleAccepted(cfg, p, group.entry, reason);
    } else {
      ChangesetRead(cfg, p, own, group, reason);
    }
  }

  lemma SingleAccepted(cfg: Config, p: Progress, entry: Entry, reason: nat -> string)
    requires cfg.changesetId == None
    requires CleanEntries([entry], reason, cfg.json)
    ensures var part := EntryPart(entry, reason);
            var r := AcceptPart(cfg, p, part.payload, AddLines(map[], part.lines));
            if !Within(cfg.limits.maxOperations, p.counters.totalOperations + 1) then r.Err?
            else r == Ok(Progress(
              p.requests + ReadEntries([entry], None, p.counters.autoId, reason, cfg.json),
              p.position,
              Counters(AutoAfter([entry], p.counters.autoId), p.counters.totalOperations + 1)))
  {
    hide AcceptPart, RenderHttpResponse, PartHeaderLines, ReadEntry, AddLines, CleanEntry, Within;
    assert CleanEntry([entry][0], reason, cfg.json);
    if Within(cfg.limits.maxOperations, p.counters.totalOperations + 1) {
      EntryAccepted(cfg, p, entry, reason);
    } else {
      EntryRefused(cfg, p, entry, reason);
    }
    CleanBody(entry, reason, cfg.json);
    assert [entry][1..] == [];
    OneRead(entry, p.counters.autoId, reason, cfg.json);
  }

  lemma OneRead(entry: Entry, autoId: nat, reason: nat -> string, json: string -> bool)
    requires CleanEntries([entry], reason, json) && ReadBody(entry, json).Ok?
    ensures ReadEntries([entry], None, autoId, reason, json) == [ReadEntry(entry, None, autoId, json)]
    ensures AutoAfter([entry], autoId) == NextAuto(entry, autoId)
  {
    hide ReadEntry, CleanEntry;
    assert [entry][1..] == [];
    assert AutoAfter([], NextAuto(entry, autoId)) == NextAuto(entry, autoId);
  }

  lemma ChangesetRead(cfg: Config, p: Progress, own: string, group: Group, reason: nat -> string)
    requires cfg.changesetId == None
    requires group.Changeset? && CleanGroup(cfg, own, group, reason)
    requires Within(cfg.limits.maxOperations, p.counters.totalOperations)
    ensures var entries := group.entries;
            var r := AcceptPart(cfg, p, Frame(own, EntryParts(entries, reason)), AddLines(map[], [ChangesetLine(own)]));
            if Lower(own) != own || !InnerFits(cfg, group, reason) ||
               !Within(cfg.limits.maxOperations, p.counters.totalOperations + |entries|) then r.Err?
            else r == Ok(Progress(
              p.requests + ReadEntries(entries, Some(own), p.counters.autoId, reason, cfg.json),
              p.position,
              Counters(AutoAfter(entries, p.counters.autoId), p.counters.totalOperations + |entries|)))
  {
    hide AcceptPart, RenderHttpResponse, AddLines, Frame, Lower, CleanEntry, ReadEntry, IndexOf, ParseWhole, EntryParts,
         Within, SmallEntries, CleanEntries, FoldParts;
    var entries := group.entries;
    var parts := EntryParts(entries, reason);
    if cfg.limits.maxDepth > 0 && cfg.depth + 1 >= cfg.limits.maxDepth {
      TooDeep(cfg, p, own, Frame(own, parts));
    } else {
      ChangesetAccepted(cfg, p, own, Frame(own, parts));
      var nested := Nested(cfg, own);
      if Lower(own) != own {
        CapitalBoundary(Nested(cfg, Lower(own)), p.counters, own, parts);
      } else {
        EntryPartsFit(nested, entries, reason);
        Framing(nested, p.counters, parts, "");
        assert Frame(own, parts) + "" == Frame(own, parts);
        NoneYet(cfg.limits.maxChangesetOperations);
        SameLimit(cfg, nested, entries, reason);
        EntriesAccepted(nested, Progress([], 0, p.counters), entries, reason);
        ReadNotEmpty(entries, Some(own), p.counters.autoId, reason, cfg.json);
        assert [] + ReadEntries(entries, Some(own), p.counters.autoId, reason, cfg.json) ==
               ReadEntries(entries, Some(own), p.counters.autoId, reason, cfg.json);
      }
    }
  }

  lemma SameLimit(a: Config, b: Config, entries: seq<Entry>, reason: nat -> string)
    requires a.limits == b.limits
    ensures SmallEntries(a, entries, reason) == SmallEntries(b, entries, reason)
  {
  }

  lemma NoneYet(limit: int)
    ensures Within(limit, 0)
  {
  }

  /** Nesting too deeply is refused before the changeset is looked at. */
  lemma TooDeep(cfg: Config, p: Progress, own: string, payload: string)
    requires PlainBoundary(own)
    requires cfg.limits.maxDepth > 0 && cfg.depth + 1 >= cfg.limits.maxDepth
    ensures AcceptPart(cfg, p, payload, AddLines(map[], [ChangesetLine(own)])) == Err(DepthLimit)
  {
    hide ParseWhole, AddLines, MIXED, ExtractBoundary, Lower, StartsWith, PlainBoundary;
    ChangesetHeaders(own);
    MixedTypeRead(own);
    assert GetOr(AddLines(map[], [ChangesetLine(own)]), "content-type", "") == MIXED + own;
  }

  lemma ReadNotEmpty(entries: seq<Entry>, group: Option<string>, autoId: nat, reason: nat -> string, json: string -> bool)
    requires CleanEntries(entries, reason, json) && entries != []
    ensures ReadEntries(entries, group, autoId, reason, json) != []
  {
  }

  lemma EntryPartsFit(cfg: Config, entries: seq<Entry>, reason: nat -> string)
    requires CleanEntries(entries, reason, cfg.json)
    requires forall i :: 0 <= i < |entries| ==> IndexOf(RenderHttpResponse(entries[i], reason), cfg.Marker()) == -1
    ensures forall i :: 0 <= i < |entries| ==> FitPart(cfg, EntryParts(entries, reason)[i])
  {
    hide RenderHttpResponse, IndexOf, PartHeaderLines, CleanLines;
    forall i | 0 <= i < |entries|
      ensures FitPart(cfg, EntryParts(entries, reason)[i])
    {
      assert CleanEntry(entries[i], reason, cfg.json);
      EntryLines(entries[i], reason, cfg.json);
    }
  }

  lemma EntryLines(entry: Entry, reason: nat -> string, json: string -> bool)
    requires CleanEntry(entry, reason, json)
    ensures CleanLines(PartHeaderLines(entry.id))
  {
    hide PartHeaderLines, CleanLines;
    PartHeaders(entry.id);
  }

  /** What handling the parts of these groups must come to. */
  ghost predicate GroupsRead(cfg: Config, p: Progress, owns: seq<string>, groups: seq<Group>, reason: nat -> string,
                             r: Result<Progress, ParseError>)
    requires |owns| == |groups|
    requires forall i :: 0 <= i < |groups| ==> CleanEntries(GroupEntries(groups[i]), reason, cfg.json)
  {
    if LowerCase(owns, groups) && GroupsFit(cfg, p.counters.totalOperations, owns, groups, reason)
    then r == Ok(Progress(
      p.requests + ReadGroups(owns, groups, p.counters.autoId, reason, cfg.json),
      p.position,
      Counters(GroupAuto(groups, p.counters.autoId), p.counters.totalOperations + GroupCount(groups))))
    else r.Err?
  }

  lemma {:induction false} GroupsAccepted(cfg: Config, p: Progress, owns: seq<string>, groups: seq<Group>, reason: nat -> string)
    requires cfg.changesetId == None && CR !in cfg.boundary && |owns| == |groups|
    requires CleanGroups(cfg, owns, groups, reason)
    requires Within(cfg.limits.maxOperations, p.counters.totalOperations)
    ensures forall i :: 0 <= i < |groups| ==> CleanEntries(GroupEntries(groups[i]), reason, cfg.json)
    ensures GroupsRead(cfg, p, owns, groups, reason, FoldParts(cfg, p, GroupParts(owns, groups, reason)))
    decreases |groups|
  {
    hide CleanEntries, GroupsRead, CleanGroup, CleanGroups, GroupEntries, GroupParts, FoldParts, GroupCount, Within,
         AcceptPart, AddLines, GroupPart, ReadEntries, AutoAfter, GroupName, Lower, Config.InChangeset, GroupsFit, InnerFits;
    AllClean(cfg, owns, groups, reason);
    if groups == [] {
      NothingRead(cfg, p, owns, groups, reason);
    } else {
      var own, group, parts := owns[0], groups[0], GroupParts(owns, groups, reason);
      TailClean(cfg, owns, groups, reason);
      GroupAccepted(cfg, p, own, group, reason);
      FirstEntryFolded(cfg, p, parts);
      PartsTail(owns, groups, reason);
      FirstGroupFits(cfg, p.counters.totalOperations, owns, groups, reason);
      var r := AcceptPart(cfg, p, parts[0].payload, AddLines(map[], parts[0].lines));
      if r.Ok? && Within(cfg.limits.maxPartBodyBytes, |parts[0].payload|) {
        GroupsAccepted(cfg, r.value, owns[1..], groups[1..], reason);
        FirstRead(cfg, p, r.value, owns, groups, reason, FoldParts(cfg, r.value, parts[1..]));
      } else {
        FirstRefused(cfg, p, owns, groups, reason, FoldParts(cfg, p, parts).error);
      }
    }
  }

  lemma FirstGroupFits(cfg: Config, total: nat, owns: seq<string>, groups: seq<Group>, reason: nat -> string)
    requires |owns| == |groups| && groups != []
    ensures GroupsFit(cfg, total, owns, groups, reason) <==>
            && GroupFits(cfg, owns[0], groups[0], reason)
            && Within(cfg.limits.maxOperations, total + |GroupEntries(groups[0])|)
            && GroupsFit(cfg, total + |GroupEntries(groups[0])|, owns[1..], groups[1..], reason)
  {
    hide GroupFits, GroupEntries;
    assert forall i :: 1 <= i < |groups| ==> groups[i] == groups[1..][i - 1] && owns[i] == owns[1..][i - 1];
    assert forall i :: 0 <= i < |groups[1..]| ==> groups[i + 1] == groups[1..][i] && owns[i + 1] == owns[1..][i];
  }

  lemma TailClean(cfg: Config, owns: seq<string>, groups: seq<Group>, reason: nat -> string)
    requires CleanGroups(cfg, owns, groups, reason) && groups != []
    ensures CleanGroup(cfg, owns[0], groups[0], reason) && CleanGroups(cfg, owns[1..], groups[1..], reason)
  {
    hide CleanGroup;
  }

  lemma PartsTail(owns: seq<string>, groups: seq<Group>, reason: nat -> string)
    requires |owns| == |groups| && groups != []
    ensures GroupParts(owns, groups, reason)[0] == GroupPart(owns[0], groups[0], reason)
    ensures GroupParts(owns, groups, reason)[1..] == GroupParts(owns[1..], groups[1..], reason)
  {
    hide GroupPart;
  }

  lemma NothingRead(cfg: Config, p: Progress, owns: seq<string>, groups: seq<Group>, reason: nat -> string)
    requires owns == [] && groups == [] && Within(cfg.limits.maxOperations, p.counters.totalOperations)
    ensures GroupsRead(cfg, p, owns, groups, reason, FoldParts(cfg, p, GroupParts(owns, groups, reason)))
  {
    assert p.requests + [] == p.requests;
  }

  lemma FirstRefused(cfg: Config, p: Progress, owns: seq<string>, groups: seq<Group>, reason: nat -> string, e: ParseError)
    requires |owns| == |groups| && groups != []
    requires forall i :: 0 <= i < |groups| ==> CleanEntries(GroupEntries(groups[i]), reason, cfg.json)
    requires (groups[0].Changeset? && Lower(owns[0]) != owns[0]) || !GroupsFit(cfg, p.counters.totalOperations, owns, groups, reason)
    ensures GroupsRead(cfg, p, owns, groups, reason, Err(e))
  {
    hide CleanEntries, Lower, GroupsFit, ReadGroups;
  }

  lemma FirstRead(cfg: Config, p: Progress, next: Progress, owns: seq<string>, groups: seq<Group>, reason: nat -> string,
                  r: Result<Progress, ParseError>)
    requires |owns| == |groups| && groups != []
    requires forall i :: 0 <= i < |groups| ==> CleanEntries(GroupEntries(groups[i]), reason, cfg.json)
    requires !(groups[0].Changeset? && Lower(owns[0]) != owns[0])
    requires GroupFits(cfg, owns[0], groups[0], reason)
    requires Within(cfg.limits.maxOperations, p.counters.totalOperations + |GroupEntries(groups[0])|)
    requires var first := ReadEntries(GroupEntries(groups[0]), GroupName(owns[0], groups[0]), p.counters.autoId, reason, cfg.json);
             next == Progress(
               p.requests + first, p.position,
               Counters(AutoAfter(GroupEntries(groups[0]), p.counters.autoId),
                        p.counters.totalOperations + |GroupEntries(groups[0])|))
    requires GroupsRead(cfg, next, owns[1..], groups[1..], reason, r)
    ensures GroupsRead(cfg, p, owns, groups, reason, r)
  {
    hide CleanEntries, ReadEntries, Lower, AutoAfter, GroupName, GroupEntries, GroupsFit, GroupFits, Within;
    FirstGroupFits(cfg, p.counters.totalOperations, owns, groups, reason);
    var first := ReadEntries(GroupEntries(groups[0]), GroupName(owns[0], groups[0]), p.counters.autoId, reason, cfg.json);
    GroupsConcat(cfg, p, next, owns, groups, reason, first);
    hide LowerCase;
  }

  lemma AllClean(cfg: Config, owns: seq<string>, groups: seq<Group>, reason: nat -> string)
    requires CleanGroups(cfg, owns, groups, reason)
    ensures forall i :: 0 <= i < |groups| ==> CleanEntries(GroupEntries(groups[i]), reason, cfg.json)
  {
    hide CleanGroup, CleanEntries;
    forall i | 0 <= i < |groups|
      ensures CleanEntries(GroupEntries(groups[i]), reason, cfg.json)
    {
      CleanGroupEntries(cfg, owns[i], groups[i], reason);
    }
  }

  lemma CleanGroupEntries(cfg: Config, own: string, group: Group, reason: nat -> string)
    requires CleanGroup(cfg, own, group, reason)
    ensures CleanEntries(GroupEntries(group), reason, cfg.json)
  {
  }

  lemma GroupsConcat(cfg: Config, p: Progress, next: Progress, owns: seq<string>, groups: seq<Group>, reason: nat -> string,
                     first: seq<Request>)
    requires |owns| == |groups| && groups != []
    requires forall i :: 0 <= i < |groups| ==> CleanEntries(GroupEntries(groups[i]), reason, cfg.json)
    requires first == ReadEntries(GroupEntries(groups[0]), GroupName(owns[0], groups[0]), p.counters.autoId, reason, cfg.json)
    requires next.requests == p.requests + first
    requires next.counters.autoId == AutoAfter(GroupEntries(groups[0]), p.counters.autoId)
    ensures next.requests + ReadGroups(owns[1..], groups[1..], next.counters.autoId, reason, cfg.json) ==
            p.requests + ReadGroups(owns, groups, p.counters.autoId, reason, cfg.json)
    ensures LowerCase(owns, groups) <==>
            (groups[0].Changeset? ==> Lower(owns[0]) == owns[0]) && LowerCase(owns[1..], groups[1..])
  {
    hide ReadEntries, CleanEntries, Lower, AutoAfter;
    var more := ReadGroups(owns[1..], groups[1..], next.counters.autoId, reason, cfg.json);
    assert p.requests + first + more == p.requests + (first + more);
    forall i | 1 <= i < |groups|
      ensures groups[i] == groups[1..][i - 1] && owns[i] == owns[1..][i - 1]
    {
    }
  }

  lemma {:induction false} GroupsFrame(boundary: string, owns: seq<string>, groups: seq<Group>, reason: nat -> string)
    requires |owns| == |groups|
    ensures RenderGroups(boundary, owns, groups, reason) + (DASHES + boundary + DASHES) ==
            Frame(boundary, GroupParts(owns, groups, reason))
    decreases |groups|
  {
    hide RenderHttpResponse, PartHeaderLines, Join, RenderEntries, EntryParts, ChangesetLine;
    if groups != [] {
      GroupsFrame(boundary, owns[1..], groups[1..], reason);
      var parts := GroupParts(owns, groups, reason);
      assert parts[0] == GroupPart(owns[0], groups[0], reason) && parts[1..] == GroupParts(owns[1..], groups[1..], reason);
      GroupText(boundary, owns[0], groups[0], reason);
      hide GroupPart, RenderGroup;
      var head, payload := Join(parts[0].lines, CRLF), parts[0].payload;
      PartFrame(boundary, head, payload, RenderGroups(boundary, owns[1..], groups[1..], reason), DASHES + boundary + DASHES);
    }
  }

  lemma GroupText(boundary: string, own: string, group: Group, reason: nat -> string)
    ensures var part := GroupPart(own, group, reason);
            RenderGroup(boundary, own, group, reason) ==
            DASHES + boundary + CRLF + Join(part.lines, CRLF) + CRLF + CRLF + part.payload + CRLF
  {
    hide RenderHttpResponse, PartHeaderLines, RenderEntries, EntryParts, ChangesetLine, Inside;
    if group.Changeset? {
      EntriesFrame(own, group.entries, reason);
      hide Frame;
      assert Join([ChangesetLine(own)], CRLF) == ChangesetLine(own);
      ClosingText(DASHES + boundary + CRLF + ChangesetLine(own) + CRLF + CRLF, RenderEntries(own, group.entries, reason), own);
    }
  }

  lemma ClosingText(head: string, entries: string, own: string)
    ensures head + entries + (DASHES + own + DASHES + CRLF) == head + (entries + DASHES + own + DASHES) + CRLF
  {
  }

  lemma GroupPartsFit(cfg: Config, owns: seq<string>, groups: seq<Group>, reason: nat -> string)
    requires CleanGroups(cfg, owns, groups, reason)
    ensures forall i :: 0 <= i < |groups| ==> FitPart(cfg, GroupParts(owns, groups, reason)[i])
  {
    hide GroupPart, FitPart, CleanGroup;
    forall i | 0 <= i < |groups|
      ensures FitPart(cfg, GroupParts(owns, groups, reason)[i])
    {
      GroupPartFit(cfg, owns[i], groups[i], reason);
    }
  }

  lemma GroupPartFit(cfg: Config, own: string, group: Group, reason: nat -> string)
    requires CleanGroup(cfg, own, group, reason)
    ensures FitPart(cfg, GroupPart(own, group, reason))
  {
    hide IndexOf, CleanLines, PartHeaderLines, RenderHttpResponse, Frame, AddLines, ChangesetLine, CleanEntry;
    match group
    case Single(entry) =>
      assert CleanEntry([entry][0], reason, cfg.json);
      EntryLines(entry, reason, cfg.json);
    case Changeset(_, _) =>
      ChangesetHeaders(own);
  }

  /** Framing round trip. Printing a response list and parsing the bytes gives back every entry
      in order if and only if all changeset boundaries are in lower case and no limit is
      exceeded; otherwise the parse is refused. What comes back is in `ReadBackInOrder`. */
  lemma RoundTrip(boundary: string, limits: Limits, json: string -> bool,
                  entries: seq<Entry>, owns: seq<string>, reason: nat -> string)
    requires CR !in boundary
    requires CleanGroups(Config(boundary, 0, None, limits, json), owns, GroupsOf(entries), reason)
    ensures forall i :: 0 <= i < |GroupsOf(entries)| ==> CleanEntries(GroupEntries(GroupsOf(entries)[i]), reason, json)
    ensures var groups := GroupsOf(entries);
            var bytes := RenderGroups(boundary, owns, groups, reason) + RenderClosing(boundary);
            var r := ParseBatch(boundary, limits, json, [bytes]);
            if LowerCase(owns, groups) && Within(limits.maxPayloadBytes, |bytes|) &&
               GroupsFit(Config(boundary, 0, None, limits, json), 0, owns, groups, reason)
            then r.Ok? && r.value.requests == ReadGroups(owns, groups, 0, reason, json)
            else r.Err?
  {
    hide CleanGroup, CleanEntries, GroupsOf, GroupEntries, RenderGroups, Frame, FoldParts, Lower, ReadGroups, FitPart, Run, BadSplit,
         GroupAuto, GroupCount, GroupParts, ParseWhole, Within, GroupsFit;
    var cfg := Config(boundary, 0, None, limits, json);
    var groups := GroupsOf(entries);
    var bytes := RenderGroups(boundary, owns, groups, reason) + RenderClosing(boundary);
    var parts := GroupParts(owns, groups, reason);
    GroupsFrame(boundary, owns, groups, reason);
    AppendAssoc(RenderGroups(boundary, owns, groups, reason), DASHES + boundary + DASHES, CRLF);
    assert bytes == Frame(boundary, parts) + CRLF;
    GroupPartsFit(cfg, owns, groups, reason);
    Framing(cfg, Counters(0, 0), parts, CRLF);
    NoneYet(limits.maxOperations);
    GroupsAccepted(cfg, Progress([], 0, Counters(0, 0)), owns, groups, reason);
    assert [] + ReadGroups(owns, groups, 0, reason, json) == ReadGroups(owns, groups, 0, reason, json);
    OneChunk(cfg, bytes);
  }

  lemma OneChunk(cfg: Config, bytes: string)
    ensures var fed := FeedLimited(cfg, Initial("", Counters(0, 0)), 0, [bytes]);
            var whole := ParseWhole(cfg, Counters(0, 0), bytes);
            if !Within(cfg.limits.maxPayloadBytes, |bytes|) then fed == Err(PayloadLimit)
            else if whole.Ok? then fed == whole
            else fed.Err?
  {
    hide Run, BadSplit;
    var st := Initial("", Counters(0, 0));
    assert st.Plus(bytes) == Initial(bytes, Counters(0, 0));
    SingleChunk(cfg, st, bytes);
    LimitedFeed(cfg, st, 0, [bytes]);
    FeedAgrees(cfg, st, [bytes]);
  }

  // ------------------------------------------------------------------ entry by entry

  /** A request that carries what an entry carried. */
  ghost predicate Mirrors(r: Request, entry: Entry) {
    && (entry.id != "" ==> r.id == entry.id)
    && r.verb == "HTTP/1.1" && r.url == Decimal(entry.status)
    && (forall name :: Get(r.headers, name) == FinalValue(entry, name))
    && Carries(EntryType(entry), OwnBytes(entry.body), r.body)
  }

  lemma EntryMirrored(entry: Entry, group: Option<string>, autoId: nat, reason: nat -> string, json: string -> bool)
    requires CleanEntry(entry, reason, json)
    ensures ReadBody(entry, json).Ok? && Mirrors(ReadEntry(entry, group, autoId, json), entry)
  {
    hide FinalValue, HeaderMap, FinalHeaders, Carries, ReadBody, EntryType, Decimal, OwnBytes, BrokenJson;
    CleanBody(entry, reason, json);
    BodyReadBack(entry, json);
    forall name ensures Get(HeaderMap(FinalHeaders(entry)), name) == FinalValue(entry, name) {
      FinalHeadersSay(entry, name);
    }
  }

  function Flat(groups: seq<Group>): seq<Entry>
    decreases |groups|
  {
    if groups == [] then [] else GroupEntries(groups[0]) + Flat(groups[1..])
  }

  lemma {:induction false} FlatSnoc(groups: seq<Group>, g: Group)
    ensures Flat(groups + [g]) == Flat(groups) + GroupEntries(g)
    decreases |groups|
  {
    hide GroupEntries;
    if groups == [] {
      assert ([] + [g])[1..] == [];
      assert Flat([g]) == GroupEntries(g) + Flat([]);
    } else {
      assert (groups + [g])[1..] == groups[1..] + [g];
      FlatSnoc(groups[1..], g);
    }
  }

  lemma {:induction false} FlatIsUngroup(groups: seq<Group>)
    ensures Flat(groups) == Ungroup(groups)
    decreases |groups|
  {
    hide GroupEntries, Flat;
    if groups == [] {
      assert Flat([]) == [] by { FlatNothing(); }
    } else {
      var init, last := groups[..|groups| - 1], groups[|groups| - 1];
      assert groups == init + [last];
      FlatSnoc(init, last);
      FlatIsUngroup(init);
    }
  }

  lemma FlatNothing()
    ensures Flat([]) == []
  {
  }

  ghost predicate MirrorsAll(rs: seq<Request>, entries: seq<Entry>) {
    |rs| == |entries| && forall i :: 0 <= i < |rs| ==> Mirrors(rs[i], entries[i])
  }

  lemma MirrorsConcat(a: seq<Request>, x: seq<Entry>, b: seq<Request>, y: seq<Entry>)
    requires MirrorsAll(a, x) && MirrorsAll(b, y)
    ensures MirrorsAll(a + b, x + y)
  {
    hide Mirrors;
  }

  lemma {:induction false} EntriesMirror(entries: seq<Entry>, group: Option<string>, autoId: nat, reason: nat -> string, json: string -> bool)
    requires CleanEntries(entries, reason, json)
    ensures MirrorsAll(ReadEntries(entries, group, autoId, reason, json), entries)
    decreases |entries|
  {
    hide CleanEntry, Mirrors;
    if entries != [] {
      assert CleanEntry(entries[0], reason, json);
      EntryMirrored(entries[0], group, autoId, reason, json);
      EntriesMirror(entries[1..], group, NextAuto(entries[0], autoId), reason, json);
    }
  }

  lemma {:induction false} GroupsMirror(owns: seq<string>, groups: seq<Group>, autoId: nat, reason: nat -> string, json: string -> bool)
    requires |owns| == |groups|
    requires forall i :: 0 <= i < |groups| ==> CleanEntries(GroupEntries(groups[i]), reason, json)
    ensures MirrorsAll(ReadGroups(owns, groups, autoId, reason, json), Flat(groups))
    decreases |groups|
  {
    hide CleanEntries, Mirrors, ReadEntries, MirrorsAll;
    if groups == [] {
      NoneMirrored();
    } else {
      var first := ReadEntries(GroupEntries(groups[0]), GroupName(owns[0], groups[0]), autoId, reason, json);
      var next := AutoAfter(GroupEntries(groups[0]), autoId);
      EntriesMirror(GroupEntries(groups[0]), GroupName(owns[0], groups[0]), autoId, reason, json);
      GroupsMirror(owns[1..], groups[1..], next, reason, json);
      MirrorsConcat(first, GroupEntries(groups[0]), ReadGroups(owns[1..], groups[1..], next, reason, json), Flat(groups[1..]));
    }
  }

  lemma NoneMirrored()
    ensures MirrorsAll([], [])
  {
  }

  // ------------------------------------------------------------------ grouping, read back

  /** The changeset every entry is read back under. */
  function Marks(owns: seq<string>, groups: seq<Group>): seq<Option<string>>
    requires |owns| == |groups|
    decreases |groups|
  {
    if groups == [] then []
    else seq(|GroupEntries(groups[0])|, _ => GroupName(owns[0], groups[0])) + Marks(owns[1..], groups[1..])
  }

  predicate Marked(rs: seq<Request>, marks: seq<Option<string>>) {
    |rs| == |marks| && forall i :: 0 <= i < |rs| ==> rs[i].atomicityGroup == marks[i]
  }

  lemma {:induction false} EntriesMarked(entries: seq<Entry>, group: Option<string>, autoId: nat, reason: nat -> string, json: string -> bool)
    requires CleanEntries(entries, reason, json)
    ensures Marked(ReadEntries(entries, group, autoId, reason, json), seq(|entries|, _ => group))
    decreases |entries|
  {
    hide CleanEntry, HeaderMap, FinalHeaders, ReadBody, Decimal;
    if entries != [] {
      assert CleanEntry(entries[0], reason, json);
      EntriesMarked(entries[1..], group, NextAuto(entries[0], autoId), reason, json);
    }
  }

  lemma {:induction false} GroupsMarked(owns: seq<string>, groups: seq<Group>, autoId: nat, reason: nat -> string, json: string -> bool)
    requires |owns| == |groups|
    requires forall i :: 0 <= i < |groups| ==> CleanEntries(GroupEntries(groups[i]), reason, json)
    ensures Marked(ReadGroups(owns, groups, autoId, reason, json), Marks(owns, groups))
    decreases |groups|
  {
    hide CleanEntries, ReadEntries;
    if groups != [] {
      EntriesMarked(GroupEntries(groups[0]), GroupName(owns[0], groups[0]), autoId, reason, json);
      GroupsMarked(owns[1..], groups[1..], AutoAfter(GroupEntries(groups[0]), autoId), reason, json);
    }
  }

  /** Entries `i` to `j` all belong to one changeset. */
  predicate OneRun(entries: seq<Entry>, i: nat, j: nat)
    requires i <= j < |entries|
  {
    entries[i].atomicityGroup != "" && forall k :: i <= k <= j ==> entries[k].atomicityGroup == entries[i].atomicityGroup
  }

  predicate SameMark(marks: seq<Option<string>>, i: nat, j: nat)
    requires i <= j < |marks|
  {
    marks[i].Some? && marks[i] == marks[j]
  }

  /** Boundaries of different changesets differ. */
  predicate DistinctOwns(owns: seq<string>, groups: seq<Group>)
    requires |owns| == |groups|
  {
    forall a, b :: 0 <= a < b < |groups| && groups[a].Changeset? && groups[b].Changeset? ==> owns[a] != owns[b]
  }

  lemma {:induction false} MarksAreOwns(owns: seq<string>, groups: seq<Group>, i: nat)
    requires |owns| == |groups| && i < |Marks(owns, groups)|
    ensures Marks(owns, groups)[i].Some? ==>
              exists a :: 0 <= a < |groups| && groups[a].Changeset? && Marks(owns, groups)[i] == Some(owns[a])
    decreases |groups|
  {
    var n := |GroupEntries(groups[0])|;
    if i >= n {
      MarksAreOwns(owns[1..], groups[1..], i - n);
      if Marks(owns, groups)[i].Some? {
        var a :| 0 <= a < |groups[1..]| && groups[1..][a].Changeset? && Marks(owns[1..], groups[1..])[i - n] == Some(owns[1..][a]);
        assert groups[a + 1].Changeset? && owns[a + 1] == owns[1..][a];
      }
    } else {
      assert groups[0].Changeset? || GroupName(owns[0], groups[0]) == None;
    }
  }

  lemma {:induction false} FlatLength(owns: seq<string>, groups: seq<Group>)
    requires |owns| == |groups|
    ensures |Marks(owns, groups)| == |Flat(groups)|
    decreases |groups|
  {
    hide GroupEntries;
    if groups != [] {
      FlatLength(owns[1..], groups[1..]);
    }
  }

  lemma GroupsTail(owns: seq<string>, groups: seq<Group>)
    requires |owns| == |groups| && groups != [] && WellGrouped(groups)
    ensures WellGrouped(groups[1..]) && GoodGroup(groups[0])
    ensures DistinctOwns(owns, groups) ==> DistinctOwns(owns[1..], groups[1..])
  {
    hide GoodGroup, SameChangeset;
    var tail := groups[1..];
    assert forall i :: 0 <= i < |tail| ==> tail[i] == groups[i + 1];
    forall i | 0 < i < |tail| ensures !SameChangeset(tail[i - 1], tail[i]) {
      assert !SameChangeset(groups[i + 1 - 1], groups[i + 1]);
    }
  }

  lemma FlatSplit(groups: seq<Group>, k: nat)
    requires groups != [] && k < |Flat(groups)|
    ensures var n := |GroupEntries(groups[0])|;
            && |Flat(groups)| == n + |Flat(groups[1..])|
            && (k < n ==> Flat(groups)[k] == GroupEntries(groups[0])[k])
            && (k >= n ==> Flat(groups)[k] == Flat(groups[1..])[k - n])
  {
    hide GroupEntries;
  }

  /** The last entry of a group and the first of the next are not of one changeset. */
  lemma RunEnds(groups: seq<Group>)
    requires |groups| > 1 && WellGrouped(groups)
    ensures var n := |GroupEntries(groups[0])|;
            0 < n < |Flat(groups)| && !OneRun(Flat(groups), n - 1, n)
  {
    var a, b, n := groups[0], groups[1], |GroupEntries(groups[0])|;
    assert GoodGroup(a) && GoodGroup(b) && !SameChangeset(groups[1 - 1], groups[1]);
    assert groups[1..][0] == b;
    assert |Flat(groups[1..])| > 0 && Flat(groups[1..])[0] == GroupEntries(b)[0];
    hide Flat;
    assert |Flat(groups)| == n + |Flat(groups[1..])| by { FlatUnfolds(groups); }
    FlatSplit(groups, n - 1);
    FlatSplit(groups, n);
  }

  lemma FlatUnfolds(groups: seq<Group>)
    requires groups != []
    ensures |Flat(groups)| == |GroupEntries(groups[0])| + |Flat(groups[1..])|
  {
    hide GroupEntries;
  }

  lemma ShorterRun(entries: seq<Entry>, i: nat, j: nat, a: nat, b: nat)
    requires i <= a <= b <= j < |entries| && OneRun(entries, i, j)
    ensures OneRun(entries, a, b)
  {
  }

  lemma InFirstGroup(owns: seq<string>, groups: seq<Group>, i: nat, j: nat)
    requires |owns| == |groups| && groups != [] && GoodGroup(groups[0]) && i <= j < |GroupEntries(groups[0])|
    ensures j < |Flat(groups)| && j < |Marks(owns, groups)|
    ensures SameMark(Marks(owns, groups), i, j) <==> OneRun(Flat(groups), i, j)
  {
    var g := groups[0];
    FlatUnfolds(groups);
    forall k | i <= k <= j ensures Flat(groups)[k] == GroupEntries(g)[k] {
      FlatSplit(groups, k);
    }
    hide Flat;
    assert forall k :: i <= k <= j ==> Flat(groups)[k].atomicityGroup == if g.Single? then "" else g.id;
  }

  lemma MoreGroups(groups: seq<Group>, j: nat)
    requires groups != [] && |GroupEntries(groups[0])| <= j < |Flat(groups)|
    ensures |groups| > 1
  {
    OnlyGroup(groups);
  }

  lemma OnlyGroup(groups: seq<Group>)
    requires groups != []
    ensures |groups| == 1 ==> |Flat(groups)| == |GroupEntries(groups[0])|
  {
    if |groups| == 1 {
      assert groups[1..] == [];
    }
  }

  lemma AcrossGroups(owns: seq<string>, groups: seq<Group>, i: nat, j: nat)
    requires |owns| == |groups| && groups != [] && WellGrouped(groups) && DistinctOwns(owns, groups)
    requires i < |GroupEntries(groups[0])| <= j < |Flat(groups)| == |Marks(owns, groups)|
    ensures !SameMark(Marks(owns, groups), i, j) && !OneRun(Flat(groups), i, j)
  {
    var n := |GroupEntries(groups[0])|;
    MoreGroups(groups, j);
    RunEnds(groups);
    if OneRun(Flat(groups), i, j) {
      ShorterRun(Flat(groups), i, j, n - 1, n);
    }
    MarksApart(owns, groups, i, j);
  }

  lemma MarksApart(owns: seq<string>, groups: seq<Group>, i: nat, j: nat)
    requires |owns| == |groups| && groups != [] && DistinctOwns(owns, groups)
    requires i < |GroupEntries(groups[0])| <= j < |Marks(owns, groups)|
    ensures !SameMark(Marks(owns, groups), i, j)
  {
    var n, marks := |GroupEntries(groups[0])|, Marks(owns, groups);
    assert marks[i] == GroupName(owns[0], groups[0]) && marks[j] == Marks(owns[1..], groups[1..])[j - n];
    MarksAreOwns(owns[1..], groups[1..], j - n);
    hide Marks;
    if marks[i].Some? && marks[j].Some? {
      var a :| 0 <= a < |groups[1..]| && groups[1..][a].Changeset? && marks[j] == Some(owns[1..][a]);
      assert groups[a + 1] == groups[1..][a] && owns[a + 1] == owns[1..][a];
    }
  }

  lemma {:induction false} MarksFollowRuns(owns: seq<string>, groups: seq<Group>, i: nat, j: nat)
    requires |owns| == |groups| && WellGrouped(groups) && DistinctOwns(owns, groups)
    requires i <= j < |Flat(groups)| == |Marks(owns, groups)|
    ensures SameMark(Marks(owns, groups), i, j) <==> OneRun(Flat(groups), i, j)
    decreases |groups|
  {
    hide WellGrouped, GoodGroup, DistinctOwns, OneRun, SameMark;
    var n := |GroupEntries(groups[0])|;
    GroupsTail(owns, groups);
    FlatUnfolds(groups);
    if j < n {
      InFirstGroup(owns, groups, i, j);
    } else if i < n {
      AcrossGroups(owns, groups, i, j);
    } else {
      FlatLength(owns[1..], groups[1..]);
      MarksFollowRuns(owns[1..], groups[1..], i - n, j - n);
      Shifted(owns, groups, i, j);
    }
  }

  lemma ShiftedMarks(owns: seq<string>, groups: seq<Group>, i: nat)
    requires |owns| == |groups| && groups != [] && |GroupEntries(groups[0])| <= i < |Marks(owns, groups)|
    ensures var n := |GroupEntries(groups[0])|;
            i - n < |Marks(owns[1..], groups[1..])| && Marks(owns, groups)[i] == Marks(owns[1..], groups[1..])[i - n]
  {
    hide GroupEntries, GroupName;
  }

  lemma ShiftedRun(entries: seq<Entry>, tail: seq<Entry>, n: nat, i: nat, j: nat)
    requires n <= i <= j < |entries| == n + |tail|
    requires forall k :: i <= k <= j ==> entries[k] == tail[k - n]
    ensures OneRun(entries, i, j) <==> OneRun(tail, i - n, j - n)
  {
    assert forall k :: i - n <= k <= j - n ==> entries[k + n] == tail[k];
  }

  lemma Shifted(owns: seq<string>, groups: seq<Group>, i: nat, j: nat)
    requires |owns| == |groups| && groups != [] && |GroupEntries(groups[0])| <= i <= j < |Flat(groups)| == |Marks(owns, groups)|
    ensures var n := |GroupEntries(groups[0])|;
            && j - n < |Flat(groups[1..])| == |Marks(owns[1..], groups[1..])|
            && (SameMark(Marks(owns, groups), i, j) <==> SameMark(Marks(owns[1..], groups[1..]), i - n, j - n))
            && (OneRun(Flat(groups), i, j) <==> OneRun(Flat(groups[1..]), i - n, j - n))
  {
    hide GroupEntries, Flat, Marks, OneRun;
    FlatUnfolds(groups);
    FlatLength(owns[1..], groups[1..]);
    ShiftedMarks(owns, groups, i);
    ShiftedMarks(owns, groups, j);
    forall k | i <= k <= j ensures Flat(groups)[k] == Flat(groups[1..])[k - |GroupEntries(groups[0])|] {
      FlatSplit(groups, k);
    }
    ShiftedRun(Flat(groups), Flat(groups[1..]), |GroupEntries(groups[0])|, i, j);
  }

  lemma {:induction false} MarkedWhenGrouped(owns: seq<string>, groups: seq<Group>, i: nat)
    requires |owns| == |groups| && WellGrouped(groups) && i < |Flat(groups)| == |Marks(owns, groups)|
    ensures Marks(owns, groups)[i] == None <==> Flat(groups)[i].atomicityGroup == ""
    decreases |groups|
  {
    hide WellGrouped;
    var n := |GroupEntries(groups[0])|;
    GroupsTail(owns, groups);
    FlatUnfolds(groups);
    FlatSplit(groups, i);
    if i >= n {
      FlatLength(owns[1..], groups[1..]);
      MarkedWhenGrouped(owns[1..], groups[1..], i - n);
    }
  }

  /** The same grouping: a request read back has no changeset exactly when its entry had none, and
      two of them are of one changeset exactly when all the entries between them were. */
  ghost predicate SameGrouping(rs: seq<Request>, entries: seq<Entry>) {
    && |rs| == |entries|
    && (forall i :: 0 <= i < |rs| ==> (rs[i].atomicityGroup == None <==> entries[i].atomicityGroup == ""))
    && forall i, j :: 0 <= i <= j < |rs| ==>
         (rs[i].atomicityGroup.Some? && rs[i].atomicityGroup == rs[j].atomicityGroup <==> OneRun(entries, i, j))
  }

  lemma GroupingReadBack(entries: seq<Entry>, owns: seq<string>, rs: seq<Request>)
    requires |owns| == |GroupsOf(entries)| && DistinctOwns(owns, GroupsOf(entries))
    requires Marked(rs, Marks(owns, GroupsOf(entries)))
    ensures SameGrouping(rs, entries)
  {
    hide GroupsOf, Flat, Marks, WellGrouped, DistinctOwns;
    var groups := GroupsOf(entries);
    FlatIsUngroup(groups);
    GroupingIsFaithful(entries);
    FlatLength(owns, groups);
    forall i | 0 <= i < |rs| ensures rs[i].atomicityGroup == None <==> entries[i].atomicityGroup == "" {
      MarkedWhenGrouped(owns, groups, i);
    }
    forall i, j | 0 <= i <= j < |rs|
      ensures rs[i].atomicityGroup.Some? && rs[i].atomicityGroup == rs[j].atomicityGroup <==> OneRun(entries, i, j)
    {
      MarksFollowRuns(owns, groups, i, j);
    }
  }

  /** The requests read back mirror the printed entries one by one, in order, and are grouped into
      changesets as the entries were. */
  lemma ReadBackInOrder(entries: seq<Entry>, owns: seq<string>, reason: nat -> string, json: string -> bool)
    requires |owns| == |GroupsOf(entries)|
    requires forall i :: 0 <= i < |GroupsOf(entries)| ==> CleanEntries(GroupEntries(GroupsOf(entries)[i]), reason, json)
    ensures var rs := ReadGroups(owns, GroupsOf(entries), 0, reason, json);
            && MirrorsAll(rs, entries)
            && (DistinctOwns(owns, GroupsOf(entries)) ==> SameGrouping(rs, entries))
  {
    hide CleanEntries, MirrorsAll, GroupsOf, ReadGroups, Marked, Marks, DistinctOwns, SameGrouping;
    GroupsMirror(owns, GroupsOf(entries), 0, reason, json);
    FlatIsUngroup(GroupsOf(entries));
    GroupingIsFaithful(entries);
    GroupsMarked(owns, GroupsOf(entries), 0, reason, json);
    if DistinctOwns(owns, GroupsOf(entries)) {
      GroupingReadBack(entries, owns, ReadGroups(owns, GroupsOf(entries), 0, reason, json));
    }
  }
}
