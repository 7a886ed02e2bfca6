/** The printer of multipart `$batch` responses. Random boundary suffixes are a parameter: one
    boundary for the batch and one for every group. */
module MultipartSerializer {
  import opened ByteStrings

  /** `Bytes` is a buffer, a string or anything printed with `String()`; `Structured` is a value
      printed as JSON, by its text. */
  datatype EntryBody = NoContent | Bytes(bytes: string) | Structured(json: string)

  type HeaderList = seq<(string, string)>

  /** A response entry; an absent id or atomicity group is the empty string, which the printer
      treats alike. */
  datatype Entry = Entry(id: string, atomicityGroup: string, status: nat, headers: HeaderList, body: EntryBody)

  datatype Group = Single(entry: Entry) | Changeset(id: string, entries: seq<Entry>)

  // ------------------------------------------------------------------ headers

  /** Assigns a property: an existing one keeps its place. */
  function Put(h: HeaderList, name: string, value: string): HeaderList {
    if h == [] then [(name, value)]
    else if h[0].0 == name then [(name, value)] + h[1..]
    else [h[0]] + Put(h[1..], name, value)
  }

  /** Property value, "" when absent: both count as not set. */
  function Lookup(h: HeaderList, name: string): string {
    if h == [] then ""
    else if h[0].0 == name then h[0].1
    else Lookup(h[1..], name)
  }

  function NormaliseInto(h: HeaderList, headers: HeaderList): HeaderList
    decreases |headers|
  {
    if headers == [] then h
    else NormaliseInto(Put(h, Lower(headers[0].0), headers[0].1), headers[1..])
  }

  function NormaliseHeaders(headers: HeaderList): HeaderList {
    NormaliseInto([], headers)
  }

  /** Upper case after every dash and at the start, lower case elsewhere. */
  function FormatHeaderName(name: string): (r: string)
    ensures |r| == |name|
  {
    seq(|name|, i requires 0 <= i < |name| =>
      if i == 0 || name[i - 1] == '-' then UpperChar(name[i]) else LowerChar(name[i]))
  }

  function HeaderLine(header: (string, string)): string {
    PlainLine(FormatHeaderName(header.0), header.1)
  }

  function HeaderLines(h: HeaderList): (lines: seq<string>)
    ensures |lines| == |h| && forall i :: 0 <= i < |h| ==> lines[i] == HeaderLine(h[i])
  {
    seq(|h|, i requires 0 <= i < |h| => HeaderLine(h[i]))
  }

  function BodyBytes(body: EntryBody): string {
    match body
    case NoContent => ""
    case Bytes(bytes) => bytes
    case Structured(json) => json
  }

  /** Headers of the printed response: structured bodies default to JSON, bodies get a length. */
  function FinalHeaders(entry: Entry): HeaderList {
    var given := NormaliseHeaders(entry.headers);
    var typed :=
      if entry.body.Structured? && Lookup(given, "content-type") == ""
      then Put(given, "content-type", "application/json; charset=utf-8")
      else given;
    var bytes := BodyBytes(entry.body);
    if bytes != "" && Lookup(typed, "content-length") == ""
    then Put(typed, "content-length", Decimal(|bytes|))
    else typed
  }

  // ------------------------------------------------------------------ parts

  function StatusLine(status: nat, reason: nat -> string): string {
    "HTTP/1.1 " + Decimal(status) + " " + reason(status)
  }

  function RenderHttpResponse(entry: Entry, reason: nat -> string): string {
    var lines := HeaderLines(FinalHeaders(entry));
    StatusLine(entry.status, reason) + (if lines == [] then "" else CRLF + Join(lines, CRLF)) +
    CRLF + CRLF + BodyBytes(entry.body)
  }

  const ID_NAME := "Content-ID"
  const TYPE_NAME := "Content-Type"
  const ENCODING_NAME := "Content-Transfer-Encoding"
  const HTTP_TYPE := "application/http"
  const BINARY := "binary"

  function PlainLine(name: string, value: string): string {
    name + ": " + value
  }

  function PartHeaderLines(id: string): seq<string> {
    (if id == "" then [] else [PlainLine(ID_NAME, id)]) +
    [PlainLine(TYPE_NAME, HTTP_TYPE), PlainLine(ENCODING_NAME, BINARY)]
  }

  function RenderPart(boundary: string, lines: seq<string>, payload: string): string {
    DASHES + boundary + CRLF + Join(lines, CRLF) + CRLF + CRLF + payload + CRLF
  }

  function RenderClosing(boundary: string): string {
    DASHES + boundary + DASHES + CRLF
  }

  function RenderEntry(boundary: string, entry: Entry, reason: nat -> string): string {
    RenderPart(boundary, PartHeaderLines(entry.id), RenderHttpResponse(entry, reason))
  }

  function RenderEntries(boundary: string, entries: seq<Entry>, reason: nat -> string): string {
    if entries == [] then ""
    else RenderEntry(boundary, entries[0], reason) + RenderEntries(boundary, entries[1..], reason)
  }

  function ChangesetLine(boundary: string): string {
    PlainLine(TYPE_NAME, "multipart/mixed; boundary=" + boundary)
  }

  /** A changeset is a part whose payload is a multipart body of its own; the line break after
      its closing delimiter is the one that ends the part. */
  function RenderChangeset(boundary: string, own: string, entries: seq<Entry>, reason: nat -> string): string {
    DASHES + boundary + CRLF + ChangesetLine(own) + CRLF + CRLF +
    RenderEntries(own, entries, reason) + RenderClosing(own)
  }

  function RenderGroup(boundary: string, own: string, group: Group, reason: nat -> string): string {
    match group
    case Single(entry) => RenderEntry(boundary, entry, reason)
    case Changeset(_, entries) => RenderChangeset(boundary, own, entries, reason)
  }

  function RenderGroups(boundary: string, owns: seq<string>, groups: seq<Group>, reason: nat -> string): string
    requires |owns| == |groups|
  {
    if groups == [] then ""
    else RenderGroup(boundary, owns[0], groups[0], reason) + RenderGroups(boundary, owns[1..], groups[1..], reason)
  }

  // ------------------------------------------------------------------ grouping

  function AddEntry(groups: seq<Group>, entry: Entry): seq<Group> {
    if entry.atomicityGroup == "" then groups + [Single(entry)]
    else if groups != [] && groups[|groups| - 1].Changeset? && groups[|groups| - 1].id == entry.atomicityGroup then
      var last := groups[|groups| - 1];
      groups[..|groups| - 1] + [Changeset(last.id, last.entries + [entry])]
    else groups + [Changeset(entry.atomicityGroup, [entry])]
  }

  function GroupsOf(entries: seq<Entry>): seq<Group> {
    if entries == [] then []
    else AddEntry(GroupsOf(entries[..|entries| - 1]), entries[|entries| - 1])
  }

  function GroupEntries(group: Group): seq<Entry> {
    if group.Single? then [group.entry] else group.entries
  }

  function Ungroup(groups: seq<Group>): seq<Entry> {
    if groups == [] then [] else Ungroup(groups[..|groups| - 1]) + GroupEntries(groups[|groups| - 1])
  }

  /** A group holds what its kind says. */
  ghost predicate GoodGroup(g: Group) {
    if g.Single? then g.entry.atomicityGroup == ""
    else g.id != "" && g.entries != [] && forall i :: 0 <= i < |g.entries| ==> g.entries[i].atomicityGroup == g.id
  }

  predicate SameChangeset(a: Group, b: Group) {
    a.Changeset? && b.Changeset? && a.id == b.id
  }

  /** Every group is good and neighbouring changesets differ. */
  ghost predicate WellGrouped(groups: seq<Group>) {
    && (forall i :: 0 <= i < |groups| ==> GoodGroup(groups[i]))
    && (forall i :: 0 < i < |groups| ==> !SameChangeset(groups[i - 1], groups[i]))
  }

  lemma UngroupLast(groups: seq<Group>, g: Group)
    ensures Ungroup(groups + [g]) == Ungroup(groups) + GroupEntries(g)
  {
    assert (groups + [g])[..|groups|] == groups;
  }

  lemma AddEntryKeeps(groups: seq<Group>, entry: Entry)
    requires WellGrouped(groups)
    ensures WellGrouped(AddEntry(groups, entry))
    ensures Ungroup(AddEntry(groups, entry)) == Ungroup(groups) + [entry]
  {
    hide Ungroup;
    var grown := AddEntry(groups, entry);
    if |grown| == |groups| {
      var init, last := groups[..|groups| - 1], groups[|groups| - 1];
      assert groups == init + [last];
      assert GoodGroup(last);
      var more := Changeset(last.id, last.entries + [entry]);
      UngroupLast(init, last);
      UngroupLast(init, more);
    } else {
      UngroupLast(groups, grown[|groups|]);
    }
  }

  /** Grouping loses, invents and reorders nothing, and its groups are as long as possible. */
  lemma {:induction false} GroupingIsFaithful(entries: seq<Entry>)
    ensures Ungroup(GroupsOf(entries)) == entries && WellGrouped(GroupsOf(entries))
  {
    hide AddEntry, WellGrouped;
    if entries == [] {
      NoGroups();
    } else {
      GroupingIsFaithful(entries[..|entries| - 1]);
      AddEntryKeeps(GroupsOf(entries[..|entries| - 1]), entries[|entries| - 1]);
    }
  }

  lemma NoGroups()
    ensures WellGrouped([])
  {
  }

  method GroupResponses(entries: seq<Entry>) returns (groups: seq<Group>)
    ensures groups == GroupsOf(entries)
  {
    groups := [];
    for i := 0 to |entries|
      invariant groups == GroupsOf(entries[..i])
    {
      var entry := entries[i];
      assert entries[..i + 1][..i] == entries[..i];
      if entry.atomicityGroup != "" {
        if groups != [] && groups[|groups| - 1].Changeset? && groups[|groups| - 1].id == entry.atomicityGroup {
          var last := groups[|groups| - 1];
          groups := groups[|groups| - 1 := Changeset(last.id, last.entries + [entry])];
        } else {
          groups := groups + [Changeset(entry.atomicityGroup, [entry])];
        }
      } else {
        groups := groups + [Single(entry)];
      }
    }
    assert entries[..|entries|] == entries;
  }

  // ------------------------------------------------------------------ the printer

  method RenderChangesetPart(boundary: string, own: string, entries: seq<Entry>, reason: nat -> string)
    returns (part: string)
    ensures part == RenderChangeset(boundary, own, entries, reason)
  {
    hide Join, PartHeaderLines, RenderHttpResponse, ChangesetLine;
    var chunks := DASHES + boundary + CRLF + ChangesetLine(own) + CRLF + CRLF;
    ghost var head := chunks;
    for i := 0 to |entries|
      invariant chunks + RenderEntries(own, entries[i..], reason) == head + RenderEntries(own, entries, reason)
    {
      assert entries[i..][0] == entries[i] && entries[i..][1..] == entries[i + 1..];
      var entry := RenderEntry(own, entries[i], reason);
      hide RenderEntry;
      AppendAssoc(chunks, entry, RenderEntries(own, entries[i + 1..], reason));
      chunks := chunks + entry;
    }
    assert entries[|entries|..] == [];
    assert chunks == head + RenderEntries(own, entries, reason);
    part := chunks + RenderClosing(own);
  }

  method SerializeMultipartBatch(entries: seq<Entry>, boundary: string, owns: seq<string>, reason: nat -> string)
    returns (body: string)
    requires |owns| == |GroupsOf(entries)|
    ensures body == RenderGroups(boundary, owns, GroupsOf(entries), reason) + RenderClosing(boundary)
  {
    hide RenderEntry, RenderChangeset;
    var groups := GroupResponses(entries);
    body := "";
    for i := 0 to |groups|
      invariant body + RenderGroups(boundary, owns[i..], groups[i..], reason) == RenderGroups(boundary, owns, groups, reason)
    {
      assert owns[i..][0] == owns[i] && owns[i..][1..] == owns[i + 1..];
      assert groups[i..][0] == groups[i] && groups[i..][1..] == groups[i + 1..];
      var part;
      match groups[i] {
        case Single(entry) => part := RenderEntry(boundary, entry, reason);
        case Changeset(_, members) => part := RenderChangesetPart(boundary, owns[i], members, reason);
      }
      AppendAssoc(body, part, RenderGroups(boundary, owns[i + 1..], groups[i + 1..], reason));
      body := body + part;
    }
    assert groups[|groups|..] == [];
    body := body + RenderClosing(boundary);
  }
}
