/** Byte strings and the few string primitives the codecs share.

    A byte is modelled as the character with the same code, so that wire text can be written
    as a string literal. No proof depends on codes being below 256. */
module ByteStrings {

  type byte = char

  datatype Option<+T> = None | Some(value: T)

  datatype Result<+T, +E> = Ok(value: T) | Err(error: E)

  const CR: byte := '\r'
  const LF: byte := '\n'
  const CRLF: string := "\r\n"
  const DASHES: string := "--"

  /** Does `needle` occur in `s` at offset `i`? */
  predicate OccursAt(s: string, i: int, needle: string) {
    0 <= i && i + |needle| <= |s| && s[i..i + |needle|] == needle
  }

  predicate StartsWith(s: string, prefix: string) {
    OccursAt(s, 0, prefix)
  }

  predicate EndsWith(s: string, suffix: string) {
    OccursAt(s, |s| - |suffix|, suffix)
  }

  /** Least offset at or after `from` where `needle` occurs, or -1. */
  function IndexFrom(s: string, needle: string, from: nat): (r: int)
    ensures r == -1 || (from <= r && OccursAt(s, r, needle))
    ensures forall j :: from <= j && (r == -1 || j < r) ==> !OccursAt(s, j, needle)
    decreases |s| - from
  {
    if from + |needle| > |s| then -1
    else if OccursAt(s, from, needle) then from
    else IndexFrom(s, needle, from + 1)
  }

  function IndexOf(s: string, needle: string): (r: int)
    ensures -1 <= r && (r >= 0 ==> r + |needle| <= |s|)
    ensures r == -1 || (0 <= r && OccursAt(s, r, needle))
    ensures forall j :: 0 <= j && (r == -1 || j < r) ==> !OccursAt(s, j, needle)
  {
    IndexFrom(s, needle, 0)
  }

  /** The least match is determined by its description. */
  lemma IndexOfIs(s: string, needle: string, r: int)
    requires OccursAt(s, r, needle)
    requires forall j :: 0 <= j < r ==> !OccursAt(s, j, needle)
    ensures IndexOf(s, needle) == r
  {
  }

  lemma OccursInPrefix(s: string, x: string, i: int, needle: string)
    requires i + |needle| <= |s|
    ensures OccursAt(s + x, i, needle) <==> OccursAt(s, i, needle)
  {
    if 0 <= i {
      assert (s + x)[i..i + |needle|] == s[i..i + |needle|];
    }
  }

  /** Prefix stability: more input never moves a match that was already found, and a new match
      cannot end inside the old input. */
  lemma IndexOfStable(s: string, x: string, needle: string)
    ensures IndexOf(s, needle) >= 0 ==> IndexOf(s + x, needle) == IndexOf(s, needle)
    ensures IndexOf(s, needle) == -1 && IndexOf(s + x, needle) >= 0
            ==> IndexOf(s + x, needle) + |needle| > |s|
  {
    var i := IndexOf(s, needle);
    forall j | 0 <= j && j + |needle| <= |s|
      ensures OccursAt(s + x, j, needle) <==> OccursAt(s, j, needle)
    {
      OccursInPrefix(s, x, j, needle);
    }
    if i >= 0 {
      IndexOfIs(s + x, needle, i);
    }
  }

  lemma IndexOfShift(p: string, s: string, needle: string)
    requires forall j :: 0 <= j < |p| ==> !OccursAt(p + s, j, needle)
    ensures IndexOf(p + s, needle) == if IndexOf(s, needle) == -1 then -1 else |p| + IndexOf(s, needle)
  {
    forall j | 0 <= j
      ensures OccursAt(p + s, |p| + j, needle) <==> OccursAt(s, j, needle)
    {
      if j + |needle| <= |s| {
        assert (p + s)[|p| + j..|p| + j + |needle|] == s[j..j + |needle|];
      }
    }
    var i := IndexOf(s, needle);
    if i >= 0 {
      forall j | 0 <= j < |p| + i
        ensures !OccursAt(p + s, j, needle)
      {
        assert j < |p| || OccursAt(p + s, |p| + (j - |p|), needle) == OccursAt(s, j - |p|, needle);
      }
      assert OccursAt(p + s, |p| + i, needle);
      IndexOfIs(p + s, needle, |p| + i);
    } else {
      var k := IndexOf(p + s, needle);
      assert k >= 0 ==> OccursAt(p + s, |p| + (k - |p|), needle) == OccursAt(s, k - |p|, needle);
    }
  }

  function IndexOfChar(s: string, c: char): (r: int)
    ensures -1 <= r < |s|
    ensures r >= 0 ==> s[r] == c && c !in s[..r]
    ensures r == -1 ==> c !in s
  {
    if s == "" then -1
    else if s[0] == c then 0
    else
      var rest := IndexOfChar(s[1..], c);
      if rest == -1 then -1 else rest + 1
  }

  lemma {:induction false} FirstCharIs(s: string, c: char, i: nat)
    requires i < |s| && s[i] == c && forall j :: 0 <= j < i ==> s[j] != c
    ensures IndexOfChar(s, c) == i
    decreases i
  {
    if i > 0 {
      FirstCharIs(s[1..], c, i - 1);
    }
  }

  /** The last slash, or -1. */
  function LastSlash(s: string): (i: int)
    ensures -1 <= i < |s|
    ensures i >= 0 ==> s[i] == '/'
  {
    if s == "" then -1
    else if s[|s| - 1] == '/' then |s| - 1
    else LastSlash(s[..|s| - 1])
  }

  lemma {:induction false} LastSlashIs(s: string, k: int)
    requires -1 <= k < |s| && (k >= 0 ==> s[k] == '/') && forall j :: k < j < |s| ==> s[j] != '/'
    ensures LastSlash(s) == k
    decreases |s|
  {
    if k < |s| - 1 {
      LastSlashIs(s[..|s| - 1], k);
    }
  }

  // ---------------------------------------------------------------- case and white space

  predicate IsSpace(c: char) {
    c == ' ' || c == '\t' || c == '\n' || c == '\r' || c == '\U{000B}' || c == '\U{000C}'
  }

  function TrimLeft(s: string): (r: string)
    ensures |r| <= |s| && r == s[|s| - |r|..]
    ensures r != "" ==> !IsSpace(r[0])
  {
    if s != "" && IsSpace(s[0]) then TrimLeft(s[1..]) else s
  }

  function TrimRight(s: string): (r: string)
    ensures |r| <= |s| && r == s[..|r|]
    ensures r != "" ==> !IsSpace(r[|r| - 1])
  {
    if s != "" && IsSpace(s[|s| - 1]) then TrimRight(s[..|s| - 1]) else s
  }

  function Trim(s: string): string {
    TrimRight(TrimLeft(s))
  }

  predicate Trimmed(s: string) {
    s == "" || (!IsSpace(s[0]) && !IsSpace(s[|s| - 1]))
  }

  function LowerChar(c: char): char {
    if 'A' <= c <= 'Z' then (c as int + 32) as char else c
  }

  function UpperChar(c: char): char {
    if 'a' <= c <= 'z' then (c as int - 32) as char else c
  }

  function Lower(s: string): (r: string)
    ensures |r| == |s| && forall i :: 0 <= i < |s| ==> r[i] == LowerChar(s[i])
  {
    seq(|s|, i requires 0 <= i < |s| => LowerChar(s[i]))
  }

  function Upper(s: string): (r: string)
    ensures |r| == |s| && forall i :: 0 <= i < |s| ==> r[i] == UpperChar(s[i])
  {
    seq(|s|, i requires 0 <= i < |s| => UpperChar(s[i]))
  }

  // ---------------------------------------------------------------- slices of concatenations

  lemma AppendAssoc(a: string, b: string, c: string)
    ensures a + b + c == a + (b + c)
  {
  }

  lemma DropAppend(a: string, b: string, n: nat)
    requires n <= |a|
    ensures (a + b)[n..] == a[n..] + b
  {
  }

  lemma DropPast(a: string, b: string, n: nat)
    requires n <= |b|
    ensures (a + b)[|a| + n..] == b[n..]
  {
  }

  lemma TakeAppend(a: string, b: string, n: nat)
    requires n <= |a|
    ensures (a + b)[..n] == a[..n]
  {
  }

  lemma DropDrop(s: string, a: nat, b: nat)
    requires a + b <= |s|
    ensures s[a..][b..] == s[a + b..]
  {
  }

  // ---------------------------------------------------------------- quotes

  /** Does it start and end with the same kind of quote? A lone quote does. */
  predicate IsQuoted(s: string) {
    s != "" && ((s[0] == '\'' && s[|s| - 1] == '\'') || (s[0] == '"' && s[|s| - 1] == '"'))
  }

  function Unquoted(s: string): string {
    if |s| >= 2 then s[1..|s| - 1] else ""
  }

  // ---------------------------------------------------------------- concatenation

  function Concat(parts: seq<string>): string {
    if parts == [] then "" else parts[0] + Concat(parts[1..])
  }

  lemma {:induction false} ConcatAppend(a: seq<string>, b: seq<string>)
    ensures Concat(a + b) == Concat(a) + Concat(b)
  {
    if a == [] {
      assert a + b == b;
    } else {
      assert (a + b)[1..] == a[1..] + b;
      ConcatAppend(a[1..], b);
    }
  }

  // ---------------------------------------------------------------- printing

  function Decimal(n: nat): (s: string)
    ensures s != "" && forall i :: 0 <= i < |s| ==> '0' <= s[i] <= '9'
  {
    if n < 10 then [('0' as int + n) as char] else Decimal(n / 10) + [('0' as int + n % 10) as char]
  }

  /** The number a string of digits ends in. */
  function Number(s: string): nat {
    if s == "" || !('0' <= s[|s| - 1] <= '9') then 0 else Number(s[..|s| - 1]) * 10 + (s[|s| - 1] as int - '0' as int)
  }

  lemma {:induction false} NumberOfDecimal(n: nat)
    ensures Number(Decimal(n)) == n
  {
    if n >= 10 {
      NumberOfDecimal(n / 10);
      var c := ('0' as int + n % 10) as char;
      assert Decimal(n) == Decimal(n / 10) + [c];
      assert (Decimal(n / 10) + [c])[..|Decimal(n / 10)|] == Decimal(n / 10);
    } else {
      var c := ('0' as int + n) as char;
      assert [c][..0] == "";
    }
  }

  function Join(lines: seq<string>, separator: string): string {
    if lines == [] then ""
    else if |lines| == 1 then lines[0]
    else lines[0] + separator + Join(lines[1..], separator)
  }
}
