/** What the headers and the body of a message hold, said without the parser and the printer. */
module MessageContents {
  import opened ByteStrings
  import opened MultipartParser
  import opened MultipartSerializer

  // ------------------------------------------------------------------ headers

  /** The value a list of headers gives a lower-case name: that of the last header so named in
      any case. */
  function LastValue(headers: HeaderList, name: string): (v: Option<string>)
    ensures v == None <==> forall i :: 0 <= i < |headers| ==> Lower(headers[i].0) != name
    ensures v.Some? ==> exists i :: 0 <= i < |headers| && IsLast(headers, name, i) && headers[i].1 == v.value
  {
    if headers == [] then None
    else
      var later := LastValue(headers[1..], name);
      if later.Some? then
        assert exists i :: 0 <= i < |headers[1..]| && IsLast(headers[1..], name, i) && headers[1..][i].1 == later.value;
        assert forall i :: 0 <= i < |headers[1..]| && IsLast(headers[1..], name, i) ==> IsLast(headers, name, i + 1);
        later
      else if Lower(headers[0].0) == name then
        assert IsLast(headers, name, 0);
        Some(headers[0].1)
      else None
  }

  ghost predicate IsLast(headers: HeaderList, name: string, i: nat)
    requires i < |headers|
  {
    Lower(headers[i].0) == name && forall j :: i < j < |headers| ==> Lower(headers[j].0) != name
  }

  function Get(m: Headers, name: string): Option<string> {
    if name in m then Some(m[name]) else None
  }

  function OrElse(a: Option<string>, b: Option<string>): Option<string> {
    if a.Some? then a else b
  }

  /** The bytes of an entry's own body. */
  function OwnBytes(body: EntryBody): string {
    if body.NoContent? then "" else if body.Bytes? then body.bytes else body.json
  }

  predicate Missing(v: Option<string>) {
    v == None || v == Some("")
  }

  /** What a printed entry says under a name: what it was given, but a structured body has a JSON
      type and a body a length where none was given. */
  function FinalValue(entry: Entry, name: string): Option<string> {
    var given := LastValue(entry.headers, name);
    if Missing(given) && name == "content-type" && entry.body.Structured? then Some("application/json; charset=utf-8")
    else if Missing(given) && name == "content-length" && OwnBytes(entry.body) != "" then Some(Decimal(|OwnBytes(entry.body)|))
    else given
  }

  /** The header map a list of assignments amounts to. */
  function HeaderMapInto(m: Headers, h: HeaderList): Headers
    decreases |h|
  {
    if h == [] then m else HeaderMapInto(m[h[0].0 := h[0].1], h[1..])
  }

  function HeaderMap(h: HeaderList): Headers {
    HeaderMapInto(map[], h)
  }

  function First(h: HeaderList, name: string): Option<string> {
    if h == [] then None else if h[0].0 == name then Some(h[0].1) else First(h[1..], name)
  }

  predicate Fresh(h: HeaderList, name: string) {
    forall i :: 0 <= i < |h| ==> h[i].0 != name
  }

  predicate OnceEach(h: HeaderList) {
    forall i, j :: 0 <= i < j < |h| ==> h[i].0 != h[j].0
  }

  lemma {:induction false} PutSays(h: HeaderList, name: string, value: string, x: string)
    requires OnceEach(h)
    ensures First(Put(h, name, value), x) == if x == name then Some(value) else First(h, x)
    ensures OnceEach(Put(h, name, value))
    ensures x != name && Fresh(h, x) ==> Fresh(Put(h, name, value), x)
    decreases |h|
  {
    if h != [] && h[0].0 != name {
      var tail := h[1..];
      PutSays(tail, name, value, x);
      PutSays(tail, name, value, h[0].0);
      assert Fresh(tail, h[0].0) && Fresh(Put(tail, name, value), h[0].0);
      assert Fresh(h, x) ==> Fresh(tail, x) && h[0].0 != x;
    }
  }

  lemma {:induction false} NormaliseSays(h: HeaderList, headers: HeaderList, x: string)
    requires OnceEach(h)
    ensures OnceEach(NormaliseInto(h, headers))
    ensures First(NormaliseInto(h, headers), x) == OrElse(LastValue(headers, x), First(h, x))
    decreases |headers|
  {
    hide OnceEach, First, Put, Lower;
    if headers != [] {
      var name := Lower(headers[0].0);
      PutSays(h, name, headers[0].1, x);
      NormaliseSays(Put(h, name, headers[0].1), headers[1..], x);
    }
  }

  lemma {:induction false} MapSays(m: Headers, h: HeaderList, x: string)
    requires OnceEach(h)
    ensures Get(HeaderMapInto(m, h), x) == OrElse(First(h, x), Get(m, x))
    decreases |h|
  {
    if h != [] {
      MapSays(m[h[0].0 := h[0].1], h[1..], x);
      FirstOfFresh(h[1..], h[0].0);
    }
  }

  lemma {:induction false} FirstOfFresh(h: HeaderList, name: string)
    requires Fresh(h, name)
    ensures First(h, name) == None
    decreases |h|
  {
    if h != [] {
      assert h[0].0 != name;
      FirstOfFresh(h[1..], name);
    }
  }

  lemma {:induction false} LookupSays(h: HeaderList, name: string)
    ensures Lookup(h, name) == "" <==> Missing(First(h, name))
    decreases |h|
  {
    if h != [] {
      LookupSays(h[1..], name);
    }
  }

  lemma OwnBytesPrinted(body: EntryBody)
    ensures BodyBytes(body) == OwnBytes(body)
  {
  }

  lemma NothingSaid(x: string)
    ensures OnceEach([]) && First([], x) == None
  {
  }

  /** The printed headers are the entry's own, and the two defaults. */
  lemma FinalHeadersSay(entry: Entry, x: string)
    ensures Get(HeaderMap(FinalHeaders(entry)), x) == FinalValue(entry, x)
  {
    hide OnceEach, First, Put, Lookup, NormaliseInto, HeaderMapInto, LastValue, Decimal, BodyBytes, OwnBytes;
    var given, bytes := NormaliseHeaders(entry.headers), BodyBytes(entry.body);
    OwnBytesPrinted(entry.body);
    GivenSays(entry.headers, x);
    GivenSays(entry.headers, "content-type");
    GivenSays(entry.headers, "content-length");
    LookupSays(given, "content-type");
    PutSays(given, "content-type", "application/json; charset=utf-8", x);
    PutSays(given, "content-type", "application/json; charset=utf-8", "content-length");
    var typed :=
      if entry.body.Structured? && Lookup(given, "content-type") == ""
      then Put(given, "content-type", "application/json; charset=utf-8")
      else given;
    LookupSays(typed, "content-length");
    PutSays(typed, "content-length", Decimal(|bytes|), x);
    MapSays(map[], FinalHeaders(entry), x);
  }

  lemma GivenSays(headers: HeaderList, x: string)
    ensures OnceEach(NormaliseHeaders(headers))
    ensures First(NormaliseHeaders(headers), x) == LastValue(headers, x)
  {
    hide OnceEach, First, NormaliseInto, LastValue;
    NothingSaid(x);
    NormaliseSays([], headers, x);
  }

  // ------------------------------------------------------------------ bodies

  /** Does `s` say `word`, in any case, at offset `i`? */
  ghost predicate SaysAt(s: string, word: string, i: nat) {
    i + |word| <= |s| && forall k :: 0 <= k < |word| ==> LowerChar(s[i + k]) == word[k]
  }

  ghost predicate Mentions(s: string, word: string) {
    exists i: nat :: SaysAt(s, word, i)
  }

  const JSON_TYPE := "application/json"
  const TEXT_TYPE := "text/"

  /** A body that carries the bytes `raw` in the way its content type asks for. */
  ghost predicate Carries(contentType: string, raw: string, body: Body) {
    match body
    case NoBody => raw == ""
    case Json(text) => raw != "" && text == raw && Mentions(contentType, JSON_TYPE)
    case Text(text) => raw != "" && text == raw && !Mentions(contentType, JSON_TYPE) && SaysAt(contentType, TEXT_TYPE, 0)
    case Raw(bytes) => raw != "" && bytes == raw && !Mentions(contentType, JSON_TYPE) && !SaysAt(contentType, TEXT_TYPE, 0)
  }

  /** A body that has to be JSON and is not. */
  ghost predicate BrokenJson(contentType: string, raw: string, json: string -> bool) {
    raw != "" && Mentions(contentType, JSON_TYPE) && !json(raw)
  }

  lemma OccursInLower(s: string, word: string, i: nat)
    ensures OccursAt(Lower(s), i, word) <==> SaysAt(s, word, i)
  {
    if i + |word| <= |s| {
      var part := Lower(s)[i..i + |word|];
      assert forall k :: 0 <= k < |word| ==> part[k] == LowerChar(s[i + k]);
      assert SaysAt(s, word, i) ==> part == word;
    }
  }

  lemma MentionsInLower(s: string, word: string)
    ensures IndexOf(Lower(s), word) >= 0 <==> Mentions(s, word)
  {
    hide SaysAt, OccursAt, Lower;
    var r := IndexOf(Lower(s), word);
    if r >= 0 {
      OccursInLower(s, word, r);
    }
    forall i: nat | SaysAt(s, word, i) ensures r >= 0 {
      OccursInLower(s, word, i);
    }
  }

  /** A body is refused exactly when it should be JSON and is not; else it is carried over whole. */
  lemma BodyRead(contentType: string, raw: string, json: string -> bool)
    ensures var r := ParseBody(contentType, raw, json);
            if BrokenJson(contentType, raw, json) then r == Err(InvalidJson)
            else r.Ok? && Carries(contentType, raw, r.value)
  {
    hide IndexOf, OccursAt, SaysAt, Mentions, Lower;
    MentionsInLower(contentType, JSON_TYPE);
    OccursInLower(contentType, TEXT_TYPE, 0);
  }

  /** The carried body is determined. */
  lemma CarriedOnce(contentType: string, raw: string, a: Body, b: Body)
    requires Carries(contentType, raw, a) && Carries(contentType, raw, b)
    ensures a == b
  {
  }
}
