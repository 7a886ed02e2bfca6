/** The running estimate of the response size, kept while a batch is executed, against the bytes
    the multipart printer writes. */
module SizeTracker {
  import opened ByteStrings
  import opened MultipartSerializer

  const ESTIMATED_BATCH_BOUNDARY := "batch_boundary"
  const ESTIMATED_CHANGESET_BOUNDARY := "changeset_boundary"

  /** A backslash, an r, a backslash and an n: the text of an escaped line break. */
  const ESCAPED_BREAK := "\\r\\n"

  /** The estimates replace escaped line breaks by real ones before they measure a prefix. */
  function Unescape(s: string): string {
    if |s| < 4 then s
    else if StartsWith(s, ESCAPED_BREAK) then CRLF + Unescape(s[4..])
    else [s[0]] + Unescape(s[1..])
  }

  /** How many of them there are. */
  function Escapes(s: string): nat {
    if |s| < 4 then 0
    else if StartsWith(s, ESCAPED_BREAK) then 1 + Escapes(s[4..])
    else Escapes(s[1..])
  }

  // ------------------------------------------------------------------ estimates

  function EstimateHttpResponse(entry: Entry, reason: nat -> string): nat {
    var lines := HeaderLines(FinalHeaders(entry));
    var head := StatusLine(entry.status, reason) + (if lines == [] then "" else CRLF + Join(lines, CRLF)) + CRLF + CRLF;
    |head| + |BodyBytes(entry.body)|
  }

  function EstimatePart(boundary: string, entry: Entry, reason: nat -> string): nat {
    |Unescape(DASHES + boundary + CRLF + Join(PartHeaderLines(entry.id), CRLF) + CRLF + CRLF)| +
    EstimateHttpResponse(entry, reason) + |CRLF|
  }

  function EstimateChangesetStart(): nat {
    |Unescape(DASHES + ESTIMATED_BATCH_BOUNDARY + CRLF + ChangesetLine(ESTIMATED_CHANGESET_BOUNDARY) + CRLF + CRLF)|
  }

  function EstimateClosing(boundary: string): nat {
    |Unescape(DASHES + boundary + DASHES + CRLF)|
  }

  /** Bytes held in memory for an entry's body. */
  function EstimateBuffered(entry: Entry): nat {
    |BodyBytes(entry.body)|
  }

  /** The JSON envelope around `count` responses. */
  function EstimateJsonEnvelope(count: nat): nat {
    var base := |"{\"responses\":"| + |"}"|;
    if count == 0 then base + |"[]"|
    else base + |"["| + |"]"| + (if count > 1 then count - 1 else 0)
  }

  // ------------------------------------------------------------------ what tracking computes

  /** Printing context: status texts, and the JSON text of a normalised entry. */
  datatype Printing = Printing(multipart: bool, reason: nat -> string, json: Entry -> string)

  datatype Totals = Totals(buffered: nat, serialized: nat, count: nat, active: string)

  /** Opening and closing of changesets in front of an entry, and the changeset then active. */
  function Transition(active: string, group: string): (nat, string) {
    if group != "" then
      ((if active != "" && active != group then EstimateClosing(ESTIMATED_CHANGESET_BOUNDARY) else 0) +
       (if active != group then EstimateChangesetStart() else 0), group)
    else
      (if active != "" then EstimateClosing(ESTIMATED_CHANGESET_BOUNDARY) else 0, "")
  }

  function Tracked(p: Printing, t: Totals, entry: Entry): Totals {
    var (edge, active) := if p.multipart then Transition(t.active, entry.atomicityGroup) else (0, t.active);
    var own :=
      if !p.multipart then |p.json(entry)|
      else if entry.atomicityGroup != "" then EstimatePart(ESTIMATED_CHANGESET_BOUNDARY, entry, p.reason)
      else EstimatePart(ESTIMATED_BATCH_BOUNDARY, entry, p.reason);
    Totals(t.buffered + EstimateBuffered(entry), t.serialized + edge + own, t.count + 1, active)
  }

  function Finalised(p: Printing, t: Totals): Totals {
    if p.multipart then
      t.(serialized := t.serialized +
        (if t.active != "" then EstimateClosing(ESTIMATED_CHANGESET_BOUNDARY) else 0) +
        EstimateClosing(ESTIMATED_BATCH_BOUNDARY),
        active := "")
    else t.(serialized := t.serialized + EstimateJsonEnvelope(t.count))
  }

  function TrackedAll(p: Printing, entries: seq<Entry>): Totals {
    if entries == [] then Totals(0, 0, 0, "")
    else Tracked(p, TrackedAll(p, entries[..|entries| - 1]), entries[|entries| - 1])
  }

  // ------------------------------------------------------------------ the tracker object

  class ResponseSizeTracker {
    const limit: int
    const printing: Printing
    var bufferedBytes: nat
    var serializedBytes: nat
    var responsesCount: nat
    var activeChangesetId: string

    constructor (limit: int, printing: Printing)
      ensures this.limit == limit && this.printing == printing && View() == Totals(0, 0, 0, "")
    {
      this.limit, this.printing := limit, printing;
      bufferedBytes, serializedBytes, responsesCount, activeChangesetId := 0, 0, 0, "";
    }

    ghost function View(): Totals
      reads this
    {
      Totals(bufferedBytes, serializedBytes, responsesCount, activeChangesetId)
    }

    predicate Over()
      reads this
    {
      bufferedBytes + serializedBytes > limit
    }

    method PrepareMultipartTrackerState(entry: Entry) returns (addition: nat)
      modifies this`activeChangesetId
      ensures (addition, activeChangesetId) == Transition(old(activeChangesetId), entry.atomicityGroup)
    {
      hide EstimateClosing, EstimateChangesetStart;
      addition := 0;
      if entry.atomicityGroup != "" {
        if activeChangesetId != "" && activeChangesetId != entry.atomicityGroup {
          addition := addition + EstimateClosing(ESTIMATED_CHANGESET_BOUNDARY);
          activeChangesetId := "";
        }
        if activeChangesetId != entry.atomicityGroup {
          addition := addition + EstimateChangesetStart();
          activeChangesetId := entry.atomicityGroup;
        }
      } else if activeChangesetId != "" {
        addition := addition + EstimateClosing(ESTIMATED_CHANGESET_BOUNDARY);
        activeChangesetId := "";
      }
    }

    /** Adds an entry; `exceeded` stands for the payload-too-large error. */
    method Track(entry: Entry) returns (exceeded: bool)
      modifies this
      ensures limit > 0 ==> View() == Tracked(printing, old(View()), entry) && exceeded == (bufferedBytes + serializedBytes > limit)
      ensures limit <= 0 ==> !exceeded && bufferedBytes == old(bufferedBytes) && serializedBytes == old(serializedBytes)
    {
      hide EstimatePart, Transition, EstimateBuffered;
      responsesCount := responsesCount + 1;
      if limit <= 0 {
        if !printing.multipart {
          return false;
        }
        activeChangesetId := entry.atomicityGroup;
        return false;
      }
      var increment := 0;
      if printing.multipart {
        var edge := PrepareMultipartTrackerState(entry);
        increment := edge +
          (if entry.atomicityGroup != "" then EstimatePart(ESTIMATED_CHANGESET_BOUNDARY, entry, printing.reason)
           else EstimatePart(ESTIMATED_BATCH_BOUNDARY, entry, printing.reason));
      } else {
        increment := |printing.json(entry)|;
      }
      bufferedBytes := bufferedBytes + EstimateBuffered(entry);
      serializedBytes := serializedBytes + increment;
      return Over();
    }

    method Finalise() returns (exceeded: bool)
      modifies this
      ensures limit > 0 ==> View() == Finalised(printing, old(View())) && exceeded == (bufferedBytes + serializedBytes > limit)
      ensures limit <= 0 ==> !exceeded && View() == old(View())
    {
      hide EstimateClosing, EstimateJsonEnvelope;
      if limit <= 0 {
        return false;
      }
      if printing.multipart {
        if activeChangesetId != "" {
          serializedBytes := serializedBytes + EstimateClosing(ESTIMATED_CHANGESET_BOUNDARY);
          activeChangesetId := "";
        }
        serializedBytes := serializedBytes + EstimateClosing(ESTIMATED_BATCH_BOUNDARY);
      } else {
        serializedBytes := serializedBytes + EstimateJsonEnvelope(responsesCount);
      }
      return Over();
    }
  }

  /** Tracking a whole list: it survives exactly as long as every prefix fits the limit. */
  method TrackAll(tracker: ResponseSizeTracker, entries: seq<Entry>) returns (exceededAt: Option<nat>)
    requires tracker.limit > 0 && tracker.View() == Totals(0, 0, 0, "")
    modifies tracker
    ensures exceededAt.None? ==>
              tracker.View() == Finalised(tracker.printing, TrackedAll(tracker.printing, entries))
              && tracker.bufferedBytes + tracker.serializedBytes <= tracker.limit
    ensures exceededAt.Some? ==> exceededAt.value <= |entries| && tracker.bufferedBytes + tracker.serializedBytes > tracker.limit
    ensures exceededAt.Some? && exceededAt.value < |entries| ==>
              tracker.View() == TrackedAll(tracker.printing, entries[..exceededAt.value + 1])
    ensures exceededAt == Some(|entries|) ==> tracker.View() == Finalised(tracker.printing, TrackedAll(tracker.printing, entries))
    ensures forall k :: 0 < k <= (if exceededAt.Some? then exceededAt.value else |entries|) ==>
              var t := TrackedAll(tracker.printing, entries[..k]); t.buffered + t.serialized <= tracker.limit
  {
    hide Tracked, Finalised;
    for i := 0 to |entries|
      invariant tracker.View() == TrackedAll(tracker.printing, entries[..i])
      invariant forall k :: 0 < k <= i ==>
                  var t := TrackedAll(tracker.printing, entries[..k]); t.buffered + t.serialized <= tracker.limit
    {
      assert entries[..i + 1][..i] == entries[..i];
      var exceeded := tracker.Track(entries[i]);
      if exceeded {
        return Some(i);
      }
    }
    assert entries[..|entries|] == entries;
    var exceeded := tracker.Finalise();
    return if exceeded then Some(|entries|) else None;
  }

  /** The bytes of the bodies, one after the other. */
  function BodiesLength(entries: seq<Entry>): nat {
    if entries == [] then 0
    else
      (match entries[0].body
       case NoContent => 0
       case Bytes(bytes) => |bytes|
       case Structured(json) => |json|) + BodiesLength(entries[1..])
  }

  lemma {:induction false} BodiesMore(entries: seq<Entry>, entry: Entry)
    ensures BodiesLength(entries + [entry]) == BodiesLength(entries) + BodiesLength([entry])
    decreases |entries|
  {
    if entries == [] {
      assert entries + [entry] == [entry];
    } else {
      assert (entries + [entry])[1..] == entries[1..] + [entry];
      BodiesMore(entries[1..], entry);
    }
  }

  /** What counts as held in memory is exactly the bodies. */
  lemma {:induction false} BufferedIsBodies(p: Printing, entries: seq<Entry>)
    ensures TrackedAll(p, entries).buffered == BodiesLength(entries) && TrackedAll(p, entries).count == |entries|
    decreases |entries|
  {
    hide EstimatePart, Transition;
    if entries != [] {
      var init, last := entries[..|entries| - 1], entries[|entries| - 1];
      BufferedIsBodies(p, init);
      BodiesMore(init, last);
      assert init + [last] == entries;
      OneBody(last);
    }
  }

  lemma OneBody(entry: Entry)
    ensures BodiesLength([entry]) == EstimateBuffered(entry)
  {
    assert [entry][1..] == [];
  }

  // ------------------------------------------------------------------ escaped line breaks

  lemma {:induction false} UnescapeLength(s: string)
    ensures |Unescape(s)| + 2 * Escapes(s) == |s|
    decreases |s|
  {
    if |s| >= 4 {
      if StartsWith(s, ESCAPED_BREAK) {
        UnescapeLength(s[4..]);
      } else {
        UnescapeLength(s[1..]);
      }
    }
  }

  predicate NoBackslash(s: string) {
    forall i :: 0 <= i < |s| ==> s[i] != '\\'
  }

  lemma {:induction false} NoEscapes(s: string)
    requires NoBackslash(s)
    ensures Escapes(s) == 0
    decreases |s|
  {
    if |s| >= 4 {
      assert s[0..4][0] == s[0];
      NoEscapes(s[1..]);
    }
  }

  lemma {:induction false} EscapesAfterPlain(a: string, s: string)
    requires NoBackslash(a)
    ensures Escapes(a + s) == Escapes(s)
    decreases |a|
  {
    if a == "" {
      assert a + s == s;
    } else {
      assert (a + s)[1..] == a[1..] + s;
      EscapesAfterPlain(a[1..], s);
      if |a + s| >= 4 {
        assert (a + s)[0..4][0] == a[0];
      }
    }
  }

  /** No escaped line break straddles the end of `s`: the text after it starts with a real one. */
  lemma {:induction false} EscapesBeforePlain(s: string, c: string)
    requires NoBackslash(c) && c != "" && c[0] == CR
    ensures Escapes(s + c) == Escapes(s)
    decreases |s|
  {
    var t := s + c;
    if s == "" {
      assert t == c;
      NoEscapes(c);
    } else if |t| >= 4 && StartsWith(t, ESCAPED_BREAK) {
      assert t[0..4][0] == t[0] && t[0..4][1] == t[1] && t[0..4][2] == t[2] && t[0..4][3] == t[3];
      assert t[|s|] == CR;
      assert |s| >= 4;
      assert s[0..4] == t[0..4] && t[4..] == s[4..] + c;
      EscapesBeforePlain(s[4..], c);
    } else {
      assert t[1..] == s[1..] + c;
      EscapesBeforePlain(s[1..], c);
      if |s| >= 4 {
        assert s[0..4] == t[0..4];
      }
    }
  }

  /** Escapes are counted exactly where the text occurs. */
  lemma {:induction false} EscapesZero(s: string)
    ensures Escapes(s) == 0 <==> IndexOf(s, ESCAPED_BREAK) == -1
    decreases |s|
  {
    if |s| >= 4 {
      if StartsWith(s, ESCAPED_BREAK) {
        assert OccursAt(s, 0, ESCAPED_BREAK);
      } else {
        EscapesZero(s[1..]);
        var p := [s[0]];
        assert p + s[1..] == s;
        IndexOfShift(p, s[1..], ESCAPED_BREAK);
      }
    }
  }

  // ------------------------------------------------------------------ one entry

  function EntryEscapes(entry: Entry): nat {
    Escapes(entry.id)
  }

  lemma HttpEstimate(entry: Entry, reason: nat -> string)
    ensures EstimateHttpResponse(entry, reason) == |RenderHttpResponse(entry, reason)|
  {
    hide Join, FinalHeaders, StatusLine, BodyBytes;
  }

  lemma FixedLines()
    ensures NoBackslash(PlainLine(TYPE_NAME, HTTP_TYPE)) && NoBackslash(PlainLine(ENCODING_NAME, BINARY)) && NoBackslash(ID_NAME)
  {
  }

  lemma PlainConcat(a: string, b: string)
    requires NoBackslash(a) && NoBackslash(b)
    ensures NoBackslash(a + b)
  {
  }

  /** The part headers in front of an entry hold the escapes of its id and no others. */
  lemma PrefixEscapes(boundary: string, id: string)
    requires NoBackslash(boundary)
    ensures Escapes(DASHES + boundary + CRLF + Join(PartHeaderLines(id), CRLF) + CRLF + CRLF) == Escapes(id)
  {
    FixedLines();
    hide TYPE_NAME, ENCODING_NAME, ID_NAME, HTTP_TYPE, BINARY, NoBackslash, Escapes;
    var t, e := PlainLine(TYPE_NAME, HTTP_TYPE), PlainLine(ENCODING_NAME, BINARY);
    hide PlainLine;
    PlainBreaks();
    PlainConcat(DASHES, boundary);
    PlainConcat(DASHES + boundary, CRLF);
    PlainConcat(t, CRLF);
    PlainConcat(t + CRLF, e);
    PlainConcat(t + CRLF + e, CRLF);
    PlainConcat(t + CRLF + e + CRLF, CRLF);
    var head, fixed := DASHES + boundary + CRLF, t + CRLF + e + CRLF + CRLF;
    HeaderText(id, t, e);
    if id == "" {
      NothingBetween(head, t + CRLF + e);
      PlainConcat(head, fixed);
      NoEscapes(head + fixed);
      NoEscapes(id);
    } else {
      var name := ID_NAME + ": ";
      PlainConcat(ID_NAME, ": ");
      PlainConcat(head, name);
      PlainConcat(CRLF, fixed);
      IdBetween(head, name, id, t + CRLF + e);
      EscapesAfterPlain(head + name, id + (CRLF + fixed));
      EscapesBeforePlain(id, CRLF + fixed);
    }
  }

  lemma IdBetween(head: string, name: string, id: string, lines: string)
    ensures head + (name + id + CRLF + lines) + CRLF + CRLF == (head + name) + (id + (CRLF + (lines + CRLF + CRLF)))
  {
  }

  lemma NothingBetween(head: string, lines: string)
    ensures head + lines + CRLF + CRLF == head + (lines + CRLF + CRLF)
  {
  }

  lemma PlainBreaks()
    ensures NoBackslash(DASHES) && NoBackslash(CRLF) && NoBackslash(": ") && NoBackslash("")
  {
  }

  lemma HeaderText(id: string, t: string, e: string)
    requires t == PlainLine(TYPE_NAME, HTTP_TYPE) && e == PlainLine(ENCODING_NAME, BINARY)
    ensures Join(PartHeaderLines(id), CRLF) ==
            if id == "" then t + CRLF + e else ID_NAME + ": " + id + CRLF + (t + CRLF + e)
  {
    hide TYPE_NAME, ENCODING_NAME, ID_NAME, HTTP_TYPE, BINARY;
    assert [t, e][1..] == [e];
    assert Join([t, e], CRLF) == t + CRLF + e;
    var i := PlainLine(ID_NAME, id);
    assert [i, t, e][1..] == [t, e];
    assert Join([i, t, e], CRLF) == i + CRLF + Join([t, e], CRLF);
    if id == "" {
      assert PartHeaderLines(id) == [t, e];
    } else {
      assert PartHeaderLines(id) == [i, t, e];
    }
  }

  /** An entry's estimate falls short of its printed part by two bytes per escape in its id. */
  lemma PartEstimate(estimated: string, boundary: string, entry: Entry, reason: nat -> string)
    requires NoBackslash(estimated) && |boundary| == |estimated|
    ensures EstimatePart(estimated, entry, reason) + 2 * EntryEscapes(entry) == |RenderEntry(boundary, entry, reason)|
  {
    hide NoBackslash, Escapes, Unescape, Join, PartHeaderLines, RenderHttpResponse, EstimateHttpResponse;
    PrefixEscapes(estimated, entry.id);
    UnescapeLength(DASHES + estimated + CRLF + Join(PartHeaderLines(entry.id), CRLF) + CRLF + CRLF);
    HttpEstimate(entry, reason);
  }

  // ------------------------------------------------------------------ whole lists

  lemma EstimatesPlain()
    ensures NoBackslash(ESTIMATED_BATCH_BOUNDARY) && NoBackslash(ESTIMATED_CHANGESET_BOUNDARY)
    ensures NoBackslash(ChangesetLine(ESTIMATED_CHANGESET_BOUNDARY))
  {
  }

  /** Opening and closing a changeset is estimated exactly. */
  lemma EdgeEstimates()
    ensures EstimateClosing(ESTIMATED_CHANGESET_BOUNDARY) == |RenderClosing(ESTIMATED_CHANGESET_BOUNDARY)|
    ensures EstimateClosing(ESTIMATED_BATCH_BOUNDARY) == |RenderClosing(ESTIMATED_BATCH_BOUNDARY)|
    ensures EstimateChangesetStart() ==
            |DASHES + ESTIMATED_BATCH_BOUNDARY + CRLF + ChangesetLine(ESTIMATED_CHANGESET_BOUNDARY) + CRLF + CRLF|
  {
    EstimatesPlain();
    PlainBreaks();
    hide NoBackslash, Unescape, Escapes, ESTIMATED_BATCH_BOUNDARY, ESTIMATED_CHANGESET_BOUNDARY, ChangesetLine;
    PlainEdge(ESTIMATED_CHANGESET_BOUNDARY, DASHES, "");
    PlainEdge(ESTIMATED_BATCH_BOUNDARY, DASHES, "");
    PlainEdge(ESTIMATED_BATCH_BOUNDARY, CRLF + ChangesetLine(ESTIMATED_CHANGESET_BOUNDARY), CRLF) by {
      PlainConcat(CRLF, ChangesetLine(ESTIMATED_CHANGESET_BOUNDARY));
    }
    assert DASHES + ESTIMATED_CHANGESET_BOUNDARY + DASHES + CRLF + "" == DASHES + ESTIMATED_CHANGESET_BOUNDARY + DASHES + CRLF;
    assert DASHES + ESTIMATED_BATCH_BOUNDARY + DASHES + CRLF + "" == DASHES + ESTIMATED_BATCH_BOUNDARY + DASHES + CRLF;
    assert DASHES + ESTIMATED_BATCH_BOUNDARY + (CRLF + ChangesetLine(ESTIMATED_CHANGESET_BOUNDARY)) + CRLF + CRLF ==
           DASHES + ESTIMATED_BATCH_BOUNDARY + CRLF + ChangesetLine(ESTIMATED_CHANGESET_BOUNDARY) + CRLF + CRLF;
  }

  lemma PlainEdge(boundary: string, a: string, b: string)
    requires NoBackslash(boundary) && NoBackslash(a) && NoBackslash(b)
    ensures |Unescape(DASHES + boundary + a + CRLF + b)| == |DASHES + boundary + a + CRLF + b|
  {
    hide NoBackslash, Unescape, Escapes;
    PlainBreaks();
    PlainConcat(DASHES, boundary);
    PlainConcat(DASHES + boundary, a);
    PlainConcat(DASHES + boundary + a, CRLF);
    PlainConcat(DASHES + boundary + a + CRLF, b);
    NoEscapes(DASHES + boundary + a + CRLF + b);
    UnescapeLength(DASHES + boundary + a + CRLF + b);
  }

  function TotalEscapes(entries: seq<Entry>): nat {
    if entries == [] then 0 else TotalEscapes(entries[..|entries| - 1]) + EntryEscapes(entries[|entries| - 1])
  }

  function GroupSize(g: Group, reason: nat -> string): nat {
    |RenderGroup(ESTIMATED_BATCH_BOUNDARY, ESTIMATED_CHANGESET_BOUNDARY, g, reason)|
  }

  function TotalSize(groups: seq<Group>, reason: nat -> string): nat
    decreases |groups|
  {
    if groups == [] then 0 else GroupSize(groups[0], reason) + TotalSize(groups[1..], reason)
  }

  lemma {:induction false} TotalSnoc(groups: seq<Group>, g: Group, reason: nat -> string)
    ensures TotalSize(groups + [g], reason) == TotalSize(groups, reason) + GroupSize(g, reason)
    decreases |groups|
  {
    hide GroupSize;
    if groups == [] {
      assert ([] + [g])[1..] == [];
      assert TotalSize([g], reason) == GroupSize(g, reason) + TotalSize([], reason);
    } else {
      assert (groups + [g])[1..] == groups[1..] + [g];
      TotalSnoc(groups[1..], g, reason);
    }
  }

  lemma {:induction false} EntriesSnoc(boundary: string, entries: seq<Entry>, e: Entry, reason: nat -> string)
    ensures |RenderEntries(boundary, entries + [e], reason)| ==
            |RenderEntries(boundary, entries, reason)| + |RenderEntry(boundary, e, reason)|
    decreases |entries|
  {
    hide RenderEntry;
    if entries == [] {
      assert ([] + [e])[1..] == [];
      assert RenderEntries(boundary, [e], reason) == RenderEntry(boundary, e, reason) + RenderEntries(boundary, [], reason);
    } else {
      assert (entries + [e])[1..] == entries[1..] + [e];
      EntriesSnoc(boundary, entries[1..], e, reason);
    }
  }

  /** The changeset that is open after the last group. */
  function OpenGroup(groups: seq<Group>): string {
    if groups != [] && groups[|groups| - 1].Changeset? then groups[|groups| - 1].id else ""
  }

  function OpenClosing(active: string): nat {
    if active != "" then EstimateClosing(ESTIMATED_CHANGESET_BOUNDARY) else 0
  }

  /** Size of a changeset with one entry, and of one more entry. */
  lemma ChangesetSizes(id: string, entries: seq<Entry>, e: Entry, reason: nat -> string)
    ensures GroupSize(Changeset(id, entries + [e]), reason) ==
            GroupSize(Changeset(id, entries), reason) + |RenderEntry(ESTIMATED_CHANGESET_BOUNDARY, e, reason)|
    ensures GroupSize(Changeset(id, [e]), reason) ==
            EstimateChangesetStart() + |RenderEntry(ESTIMATED_CHANGESET_BOUNDARY, e, reason)| +
            EstimateClosing(ESTIMATED_CHANGESET_BOUNDARY)
  {
    hide RenderEntry, EstimateChangesetStart, EstimateClosing, ChangesetLine, ESTIMATED_BATCH_BOUNDARY, ESTIMATED_CHANGESET_BOUNDARY;
    EdgeEstimates();
    EntriesSnoc(ESTIMATED_CHANGESET_BOUNDARY, entries, e, reason);
    EntriesSnoc(ESTIMATED_CHANGESET_BOUNDARY, [], e, reason);
    assert [] + [e] == [e];
    assert RenderEntries(ESTIMATED_CHANGESET_BOUNDARY, [], reason) == "";
    hide RenderEntries;
  }

  lemma AddedSize(groups: seq<Group>, e: Entry, reason: nat -> string)
    requires WellGrouped(groups)
    ensures var (edge, active) := Transition(OpenGroup(groups), e.atomicityGroup);
            var grown := AddEntry(groups, e);
            var own := if e.atomicityGroup != "" then ESTIMATED_CHANGESET_BOUNDARY else ESTIMATED_BATCH_BOUNDARY;
            && OpenGroup(grown) == active
            && TotalSize(grown, reason) + OpenClosing(OpenGroup(groups)) ==
               TotalSize(groups, reason) + edge + |RenderEntry(own, e, reason)| + OpenClosing(active)
  {
    hide RenderEntry, EstimateChangesetStart, EstimateClosing, TotalSize, RenderChangeset, ESTIMATED_BATCH_BOUNDARY,
         ESTIMATED_CHANGESET_BOUNDARY;
    var grown := AddEntry(groups, e);
    if |grown| == |groups| {
      var init, last := groups[..|groups| - 1], groups[|groups| - 1];
      assert groups == init + [last];
      TotalSnoc(init, last, reason);
      TotalSnoc(init, Changeset(last.id, last.entries + [e]), reason);
      ChangesetSizes(last.id, last.entries, e, reason);
    } else {
      TotalSnoc(groups, grown[|groups|], reason);
      ChangesetSizes(e.atomicityGroup, [], e, reason);
      assert groups != [] ==> GoodGroup(groups[|groups| - 1]);
    }
  }

  /** The running total is the size of the groups printed so far, but for the closing of the
      open changeset and two bytes per escape. */
  lemma {:induction false} TrackedMatches(p: Printing, entries: seq<Entry>)
    requires p.multipart
    ensures var t, groups := TrackedAll(p, entries), GroupsOf(entries);
            && t.active == OpenGroup(groups)
            && t.serialized + 2 * TotalEscapes(entries) + OpenClosing(t.active) == TotalSize(groups, p.reason)
    decreases |entries|
  {
    hide WellGrouped, AddEntry, EntryEscapes, EstimateClosing, EstimatePart, RenderEntry, OpenGroup, Transition, EstimateBuffered,
         ESTIMATED_BATCH_BOUNDARY, ESTIMATED_CHANGESET_BOUNDARY, NoBackslash;
    if entries == [] {
      NothingOpen(p.reason);
    } else {
      var init, e := entries[..|entries| - 1], entries[|entries| - 1];
      TrackedMatches(p, init);
      GroupingIsFaithful(init);
      AddedSize(GroupsOf(init), e, p.reason);
      hide OpenClosing, TotalSize;
      EstimatesPlain();
      PartEstimate(ESTIMATED_CHANGESET_BOUNDARY, ESTIMATED_CHANGESET_BOUNDARY, e, p.reason);
      PartEstimate(ESTIMATED_BATCH_BOUNDARY, ESTIMATED_BATCH_BOUNDARY, e, p.reason);
    }
  }

  lemma NothingOpen(reason: nat -> string)
    ensures OpenGroup([]) == "" && OpenClosing("") == 0 && TotalSize([], reason) == 0
  {
  }

  /** Sizes depend on the lengths of the boundaries only. */
  lemma {:induction false} SizeOfGroups(boundary: string, owns: seq<string>, groups: seq<Group>, reason: nat -> string)
    requires |boundary| == |ESTIMATED_BATCH_BOUNDARY| && |owns| == |groups|
    requires forall i :: 0 <= i < |owns| ==> |owns[i]| == |ESTIMATED_CHANGESET_BOUNDARY|
    ensures |RenderGroups(boundary, owns, groups, reason)| == TotalSize(groups, reason)
    decreases |groups|
  {
    if groups != [] {
      SizeOfGroups(boundary, owns[1..], groups[1..], reason);
      SizeOfGroup(boundary, owns[0], groups[0], reason);
      hide GroupSize, RenderGroup;
    }
  }

  lemma SizeOfGroup(boundary: string, own: string, group: Group, reason: nat -> string)
    requires |boundary| == |ESTIMATED_BATCH_BOUNDARY| && |own| == |ESTIMATED_CHANGESET_BOUNDARY|
    ensures |RenderGroup(boundary, own, group, reason)| == GroupSize(group, reason)
  {
    hide Join, PartHeaderLines, RenderHttpResponse, RenderEntries;
    if group.Changeset? {
      SizeOfEntries(own, ESTIMATED_CHANGESET_BOUNDARY, group.entries, reason);
    }
  }

  lemma {:induction false} SizeOfEntries(a: string, b: string, entries: seq<Entry>, reason: nat -> string)
    requires |a| == |b|
    ensures |RenderEntries(a, entries, reason)| == |RenderEntries(b, entries, reason)|
    decreases |entries|
  {
    hide Join, PartHeaderLines, RenderHttpResponse;
    if entries != [] {
      SizeOfEntries(a, b, entries[1..], reason);
    }
  }

  /** The tracker is exact up to escaped line breaks: for boundaries of the estimated lengths,
      the finalised total falls short of the printed bytes by two per escape in an id. */
  lemma TrackerIsExact(p: Printing, entries: seq<Entry>, boundary: string, owns: seq<string>)
    requires p.multipart
    requires |boundary| == |ESTIMATED_BATCH_BOUNDARY| && |owns| == |GroupsOf(entries)|
    requires forall i :: 0 <= i < |owns| ==> |owns[i]| == |ESTIMATED_CHANGESET_BOUNDARY|
    ensures Finalised(p, TrackedAll(p, entries)).serialized + 2 * TotalEscapes(entries) ==
            |RenderGroups(boundary, owns, GroupsOf(entries), p.reason) + RenderClosing(boundary)|
  {
    hide TrackedAll, TotalEscapes, RenderGroups, GroupsOf, TotalSize, EstimateClosing;
    TrackedMatches(p, entries);
    SizeOfGroups(boundary, owns, GroupsOf(entries), p.reason);
    EdgeEstimates();
  }

  /** So it equals the printed size if and only if no id holds an escaped line break. */
  lemma {:induction false} TotalEscapesZero(entries: seq<Entry>)
    ensures TotalEscapes(entries) == 0 <==>
            forall i :: 0 <= i < |entries| ==> IndexOf(entries[i].id, ESCAPED_BREAK) == -1
  {
    hide Escapes, IndexOf;
    if entries != [] {
      var n := |entries| - 1;
      TotalEscapesZero(entries[..n]);
      EscapesZero(entries[n].id);
      assert forall i :: 0 <= i < n ==> entries[..n][i] == entries[i];
    }
  }

  /** The characters of a token (RFC 7230, section 3.2.6). */
  predicate IsTokenChar(c: char) {
    || '0' <= c <= '9' || 'A' <= c <= 'Z' || 'a' <= c <= 'z'
    || c == '!' || c == '#' || c == '$' || c == '%' || c == '&' || c == '\'' || c == '*' || c == '+'
    || c == '.' || c == '^' || c == '_' || c == '`' || c == '|' || c == '~' || c == '-'
  }

  /** What an id becomes before anything is run: trimmed, and refused unless it is a token. */
  function SanitizeBatchToken(value: string): Option<string> {
    var trimmed := Trim(value);
    if trimmed != "" && forall i :: 0 <= i < |trimmed| ==> IsTokenChar(trimmed[i]) then Some(trimmed) else None
  }

  /** An entry's id is that of its request: none, or a sanitised one. */
  ghost predicate Accepted(entry: Entry) {
    entry.id == "" || exists value: string :: SanitizeBatchToken(value) == Some(entry.id)
  }

  lemma {:induction false} AcceptedHaveNoEscapes(entries: seq<Entry>)
    requires forall i :: 0 <= i < |entries| ==> Accepted(entries[i])
    ensures TotalEscapes(entries) == 0
    decreases |entries|
  {
    hide Escapes, SanitizeBatchToken;
    if entries != [] {
      var n := |entries| - 1;
      var entry := entries[n];
      assert Accepted(entry);
      AcceptedHaveNoEscapes(entries[..n]);
      if entry.id == "" {
        NoEscapes("");
      } else {
        var value: string :| SanitizeBatchToken(value) == Some(entry.id);
        SanitizedIsPlain(value);
        NoEscapes(entry.id);
      }
    }
  }

  lemma SanitizedIsPlain(value: string)
    requires SanitizeBatchToken(value).Some?
    ensures NoBackslash(SanitizeBatchToken(value).value)
  {
    hide Trim;
  }

  /** Ids are sanitised before a batch is run, and a token holds no backslash: so the tracker is
      exact on every batch that is run. */
  lemma TrackerExactWhenRun(p: Printing, entries: seq<Entry>, boundary: string, owns: seq<string>)
    requires p.multipart && forall i :: 0 <= i < |entries| ==> Accepted(entries[i])
    requires |boundary| == |ESTIMATED_BATCH_BOUNDARY| && |owns| == |GroupsOf(entries)|
    requires forall i :: 0 <= i < |owns| ==> |owns[i]| == |ESTIMATED_CHANGESET_BOUNDARY|
    ensures Finalised(p, TrackedAll(p, entries)).serialized ==
            |RenderGroups(boundary, owns, GroupsOf(entries), p.reason) + RenderClosing(boundary)|
  {
    hide TrackedAll, TotalEscapes, RenderGroups, GroupsOf, Finalised, Accepted;
    AcceptedHaveNoEscapes(entries);
    TrackerIsExact(p, entries, boundary, owns);
  }

  // ------------------------------------------------------------------ the JSON envelope

  function JsonTexts(p: Printing, entries: seq<Entry>): (texts: seq<string>)
    ensures |texts| == |entries|
  {
    if entries == [] then [] else JsonTexts(p, entries[..|entries| - 1]) + [p.json(entries[|entries| - 1])]
  }

  lemma {:induction false} JoinSnoc(lines: seq<string>, line: string)
    requires lines != []
    ensures |Join(lines + [line], ",")| == |Join(lines, ",")| + 1 + |line|
    decreases |lines|
  {
    assert (lines + [line])[1..] == lines[1..] + [line];
    if |lines| == 1 {
      assert lines[1..] + [line] == [line];
      assert Join([line], ",") == line;
    } else {
      JoinSnoc(lines[1..], line);
    }
  }

  lemma {:induction false} JsonTracked(p: Printing, entries: seq<Entry>)
    requires !p.multipart
    ensures var t := TrackedAll(p, entries);
            && t.count == |entries|
            && t.serialized + (if |entries| > 1 then |entries| - 1 else 0) == |Join(JsonTexts(p, entries), ",")|
    decreases |entries|
  {
    hide EstimateBuffered, Join;
    if entries == [] {
      assert Join([], ",") == "" by { EmptyJoin(); }
    } else {
      var init, e := entries[..|entries| - 1], entries[|entries| - 1];
      JsonTracked(p, init);
      if init == [] {
        assert JsonTexts(p, entries) == [p.json(e)];
        SingleJoin(p.json(e));
        EmptyJoin();
      } else {
        JoinSnoc(JsonTexts(p, init), p.json(e));
      }
    }
  }

  lemma EmptyJoin()
    ensures Join([], ",") == ""
  {
  }

  lemma SingleJoin(line: string)
    ensures Join([line], ",") == line
  {
  }

  /** For JSON batches the finalised total is the length of the response document. */
  lemma JsonTrackerIsExact(p: Printing, entries: seq<Entry>)
    requires !p.multipart
    ensures Finalised(p, TrackedAll(p, entries)).serialized ==
            |"{\"responses\":" + "[" + Join(JsonTexts(p, entries), ",") + "]" + "}"|
  {
    hide TrackedAll, Join, JsonTexts;
    JsonTracked(p, entries);
    if entries == [] {
      assert JsonTexts(p, entries) == [];
      EmptyJoin();
    }
  }
}
