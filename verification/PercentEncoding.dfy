/** Percent encoding as encodeURIComponent and decodeURIComponent do it, on bytes. */
module PercentEncoding {
  import opened ByteStrings

  predicate Unreserved(c: char) {
    || 'A' <= c <= 'Z' || 'a' <= c <= 'z' || '0' <= c <= '9'
    || c == '-' || c == '_' || c == '.' || c == '!' || c == '~' || c == '*' || c == '\'' || c == '(' || c == ')'
  }

  function Hex(n: nat): char
    requires n < 16
  {
    "0123456789ABCDEF"[n]
  }

  function Escape(c: char): string {
    var n := c as int % 256;
    ['%', Hex(n / 16), Hex(n % 16)]
  }

  predicate Kept(c: char, quotes: bool) {
    Unreserved(c) && !(quotes && c == '\'')
  }

  /** With `quotes`, single quotes are encoded as well. */
  function Encode(s: string, quotes: bool): string {
    if s == "" then "" else (if Kept(s[0], quotes) then [s[0]] else Escape(s[0])) + Encode(s[1..], quotes)
  }

  function HexValue(c: char): Option<nat> {
    if '0' <= c <= '9' then Some(c as int - '0' as int)
    else if 'A' <= c <= 'F' then Some(c as int - 'A' as int + 10)
    else if 'a' <= c <= 'f' then Some(c as int - 'a' as int + 10)
    else None
  }

  // ------------------------------------------------------------------ UTF-8

  /** How many bytes a character takes that starts with this one; 0 for a byte that starts none. */
  function SequenceLength(lead: char): nat {
    var b := lead as int;
    if b < 0x80 then 1 else if 0xC2 <= b < 0xE0 then 2 else if 0xE0 <= b < 0xF0 then 3 else if 0xF0 <= b < 0xF5 then 4 else 0
  }

  predicate IsContinuation(c: char) {
    0x80 <= c as int < 0xC0
  }

  /** No overlong form, no surrogate, nothing above 10FFFF. */
  predicate SecondFits(lead: char, second: char) {
    var a, b := lead as int, second as int;
    (a == 0xE0 ==> b >= 0xA0) && (a == 0xED ==> b < 0xA0) && (a == 0xF0 ==> b >= 0x90) && (a == 0xF4 ==> b < 0x90)
  }

  /** The bytes of one character. */
  predicate IsCharacter(bs: string) {
    && bs != "" && |bs| == SequenceLength(bs[0])
    && (forall i :: 1 <= i < |bs| ==> IsContinuation(bs[i]))
    && (|bs| > 1 ==> SecondFits(bs[0], bs[1]))
  }

  /** The bytes of a text (RFC 3629, section 4). */
  predicate Utf8(s: string) {
    s == "" || (var n := SequenceLength(s[0]); 0 < n <= |s| && IsCharacter(s[..n]) && Utf8(s[n..]))
  }

  // ------------------------------------------------------------------ decoding

  /** The byte of an escape at the front. */
  function EscapedByte(s: string): Option<char> {
    if |s| >= 3 && s[0] == '%' && HexValue(s[1]).Some? && HexValue(s[2]).Some?
    then Some((HexValue(s[1]).value * 16 + HexValue(s[2]).value) as char)
    else None
  }

  /** The bytes of `n` escapes at the front. */
  function EscapedBytes(s: string, n: nat): (r: Option<string>)
    ensures r.Some? ==> |r.value| == n && 3 * n <= |s|
    decreases n
  {
    if n == 0 then Some("")
    else match EscapedByte(s)
      case None => None
      case Some(b) =>
        match EscapedBytes(s[3..], n - 1)
        case None => None
        case Some(more) => Some([b] + more)
  }

  /** The escaped character at the front: as many escapes as its first byte asks for. */
  function EscapedCharacter(s: string): (r: Option<string>)
    ensures r.Some? ==> r.value != "" && 3 * |r.value| <= |s|
  {
    match EscapedByte(s)
    case None => None
    case Some(lead) =>
      match EscapedBytes(s, SequenceLength(lead))
      case None => None
      case Some(bs) => if IsCharacter(bs) then Some(bs) else None
  }

  /** Refused when a percent sign does not start the escapes of one character. */
  function PercentDecode(s: string): Option<string> {
    if s == "" then Some("")
    else if s[0] != '%' then
      (match PercentDecode(s[1..]) case None => None case Some(rest) => Some([s[0]] + rest))
    else match EscapedCharacter(s)
      case None => None
      case Some(bs) =>
        match PercentDecode(s[3 * |bs|..])
        case None => None
        case Some(rest) => Some(bs + rest)
  }

  lemma HexRead(n: nat)
    requires n < 16
    ensures HexValue(Hex(n)) == Some(n)
  {
    if n < 10 {
      assert Hex(n) as int == '0' as int + n;
    } else {
      assert Hex(n) as int == 'A' as int + (n - 10);
    }
  }

  lemma DecodePlain(c: char, rest: string)
    requires c != '%' && PercentDecode(rest).Some?
    ensures PercentDecode([c] + rest) == Some([c] + PercentDecode(rest).value)
  {
    assert ([c] + rest)[1..] == rest;
  }

  function EscapeAll(bs: string): string {
    if bs == "" then "" else Escape(bs[0]) + EscapeAll(bs[1..])
  }

  predicate Bytes(s: string) {
    forall i :: 0 <= i < |s| ==> (s[i] as int) < 256
  }

  lemma EscapeRead(c: char, rest: string)
    requires (c as int) < 256
    ensures EscapedByte(Escape(c) + rest) == Some(c) && (Escape(c) + rest)[3..] == rest
  {
    hide Hex, HexValue;
    var n := c as int;
    HexRead(n / 16);
    HexRead(n % 16);
    var s := Escape(c) + rest;
    assert s[0] == '%' && s[1] == Hex(n / 16) && s[2] == Hex(n % 16);
    assert n / 16 * 16 + n % 16 == n;
  }

  lemma {:induction false} EscapesRead(bs: string, rest: string)
    requires Bytes(bs)
    ensures EscapedBytes(EscapeAll(bs) + rest, |bs|) == Some(bs)
    ensures |EscapeAll(bs)| == 3 * |bs|
    decreases |bs|
  {
    hide EscapedByte;
    if bs != "" {
      EscapesRead(bs[1..], rest);
      EscapeRead(bs[0], EscapeAll(bs[1..]) + rest);
      AppendAssoc(Escape(bs[0]), EscapeAll(bs[1..]), rest);
      assert [bs[0]] + bs[1..] == bs;
    }
  }

  lemma CharacterBytes(bs: string)
    requires IsCharacter(bs)
    ensures Bytes(bs) && (|bs| > 1 ==> forall i :: 0 <= i < |bs| ==> !Unreserved(bs[i]))
  {
  }

  lemma CharacterRead(bs: string, rest: string)
    requires IsCharacter(bs)
    ensures EscapedCharacter(EscapeAll(bs) + rest) == Some(bs)
  {
    hide EscapedByte, SequenceLength, IsContinuation, SecondFits;
    CharacterBytes(bs);
    EscapesRead(bs, rest);
    EscapeRead(bs[0], EscapeAll(bs[1..]) + rest);
    AppendAssoc(Escape(bs[0]), EscapeAll(bs[1..]), rest);
  }

  lemma DecodeCharacter(bs: string, rest: string)
    requires IsCharacter(bs) && PercentDecode(rest).Some?
    ensures PercentDecode(EscapeAll(bs) + rest) == Some(bs + PercentDecode(rest).value)
  {
    hide EscapedCharacter, IsCharacter;
    CharacterRead(bs, rest);
    EscapesOf(bs, rest);
  }

  lemma EscapesOf(bs: string, rest: string)
    requires IsCharacter(bs)
    ensures var s := EscapeAll(bs) + rest; 0 < 3 * |bs| <= |s| && s[0] == '%' && s[3 * |bs|..] == rest
  {
    hide Hex;
    CharacterBytes(bs);
    EscapesRead(bs, rest);
    assert EscapeAll(bs) == Escape(bs[0]) + EscapeAll(bs[1..]);
    DropPast(EscapeAll(bs), rest, 0);
  }

  lemma {:induction false} EncodeEscapes(bs: string, rest: string, quotes: bool)
    requires forall i :: 0 <= i < |bs| ==> !Kept(bs[i], quotes)
    ensures Encode(bs + rest, quotes) == EscapeAll(bs) + Encode(rest, quotes)
    decreases |bs|
  {
    hide Kept, Escape;
    if bs == "" {
      assert bs + rest == rest;
    } else {
      assert (bs + rest)[1..] == bs[1..] + rest;
      EncodeEscapes(bs[1..], rest, quotes);
      AppendAssoc(Escape(bs[0]), EscapeAll(bs[1..]), Encode(rest, quotes));
    }
  }

  /** What was encoded decodes to the text it was made from. */
  lemma {:induction false} EncodedDecodes(s: string, quotes: bool)
    requires Utf8(s)
    ensures PercentDecode(Encode(s, quotes)) == Some(s)
    decreases |s|
  {
    hide PercentDecode, EscapeAll, Kept;
    if s == "" {
      NothingEncoded("");
    } else {
      var n := SequenceLength(s[0]);
      var bs, rest := s[..n], s[n..];
      assert s == bs + rest;
      EncodedDecodes(rest, quotes);
      if n == 1 && Kept(s[0], quotes) {
        KeptIsPlain(s[0], quotes);
        assert rest == s[1..] && [s[0]] + rest == s;
        DecodePlain(s[0], Encode(rest, quotes));
      } else {
        CharacterEscaped(bs, quotes);
        EncodeEscapes(bs, rest, quotes);
        DecodeCharacter(bs, Encode(rest, quotes));
      }
    }
  }

  lemma KeptIsPlain(c: char, quotes: bool)
    requires Kept(c, quotes)
    ensures c != '%'
  {
  }

  lemma CharacterEscaped(bs: string, quotes: bool)
    requires IsCharacter(bs) && !(|bs| == 1 && Kept(bs[0], quotes))
    ensures forall i :: 0 <= i < |bs| ==> !Kept(bs[i], quotes)
  {
    CharacterBytes(bs);
  }

  lemma {:induction false} NothingEncoded(s: string)
    requires '%' !in s
    ensures PercentDecode(s) == Some(s)
    decreases |s|
  {
    if s != "" {
      NothingEncoded(s[1..]);
      assert s[0] != '%';
      assert [s[0]] + s[1..] == s;
    }
  }
}
