/** The chunk queue behind the streaming multipart parser: a list of received chunks, a read
    position inside the first unread one, and a cache of the last looked-up position. Every
    method is specified by the flat sequence of unread bytes. */
module BufferQueues {
  import opened ByteStrings

  /** The one way a call can be refused: an argument outside the buffered range. */
  datatype RangeError = OutOfRange

  /** A remembered lookup: byte `globalPos` of the unread data is `buffers[bufferIndex][bufferOffset]`. */
  datatype CacheEntry = CacheEntry(globalPos: nat, bufferIndex: nat, bufferOffset: nat)

  const COMPACTION_THRESHOLD := 64

  predicate NoEmptyChunk(buffers: seq<string>) {
    forall i :: 0 <= i < |buffers| ==> buffers[i] != ""
  }

  /** A place in the chunk list: inside a chunk, or just past the last one. */
  predicate IsPlace(buffers: seq<string>, index: int, offset: int) {
    || (0 <= index < |buffers| && 0 <= offset < |buffers[index]|)
    || (index == |buffers| && offset == 0)
  }

  /** The bytes from a place to the end of the chunk list. */
  ghost function From(buffers: seq<string>, index: int, offset: int): string
    requires IsPlace(buffers, index, offset)
  {
    if index < |buffers| then buffers[index][offset..] + Concat(buffers[index + 1..]) else ""
  }

  /** The cache names a byte of the unread data. */
  ghost predicate CacheValid(buffers: seq<string>, contents: string, cache: Option<CacheEntry>) {
    cache.Some? ==>
      var c := cache.value;
      && IsPlace(buffers, c.bufferIndex, c.bufferOffset)
      && c.globalPos < |contents|
      && contents[c.globalPos..] == From(buffers, c.bufferIndex, c.bufferOffset)
  }

  /** Advancing `n` bytes inside the chunk at hand. */
  lemma Within(buffers: seq<string>, index: int, offset: int, n: nat)
    requires IsPlace(buffers, index, offset) && index < |buffers| && offset + n < |buffers[index]|
    ensures |From(buffers, index, offset)| > n
    ensures From(buffers, index, offset)[n..] == From(buffers, index, offset + n)
    ensures From(buffers, index, offset)[n] == buffers[index][offset + n]
  {
    DropAppend(buffers[index][offset..], Concat(buffers[index + 1..]), n);
    DropDrop(buffers[index], offset, n);
  }

  /** Advancing past the rest of the chunk at hand. */
  lemma Across(buffers: seq<string>, index: int, offset: int)
    requires NoEmptyChunk(buffers)
    requires IsPlace(buffers, index, offset) && index < |buffers|
    ensures IsPlace(buffers, index + 1, 0)
    ensures |buffers[index]| - offset <= |From(buffers, index, offset)|
    ensures From(buffers, index, offset)[..|buffers[index]| - offset] == buffers[index][offset..]
    ensures From(buffers, index, offset)[|buffers[index]| - offset..] == From(buffers, index + 1, 0)
  {
    if index + 1 < |buffers| {
      assert buffers[index + 1..][1..] == buffers[index + 2..];
    }
  }

  /** Appending a chunk appends its bytes to what follows every place. */
  lemma Appended(buffers: seq<string>, chunk: string, index: int, offset: int)
    requires NoEmptyChunk(buffers) && chunk != ""
    requires IsPlace(buffers, index, offset)
    ensures NoEmptyChunk(buffers + [chunk])
    ensures IsPlace(buffers + [chunk], index, offset)
    ensures From(buffers + [chunk], index, offset) == From(buffers, index, offset) + chunk
  {
    if index < |buffers| {
      assert (buffers + [chunk])[index + 1..] == buffers[index + 1..] + [chunk];
      ConcatAppend(buffers[index + 1..], [chunk]);
      assert Concat([chunk]) == chunk;
    }
  }

  /** Dropping the chunks before a place. */
  lemma Compacted(buffers: seq<string>, index: int)
    requires NoEmptyChunk(buffers) && IsPlace(buffers, index, 0) && From(buffers, index, 0) != ""
    ensures NoEmptyChunk(buffers[index..]) && IsPlace(buffers[index..], 0, 0)
    ensures From(buffers[index..], 0, 0) == From(buffers, index, 0)
  {
    assert buffers[index..][1..] == buffers[index + 1..];
  }

  /** `n` bytes past the place, the chunk list reads `s`. */
  ghost predicate Ahead(buffers: seq<string>, index: int, offset: int, n: int, s: string) {
    IsPlace(buffers, index, offset) && 0 <= n <= |From(buffers, index, offset)| && From(buffers, index, offset)[n..] == s
  }

  /** A scan for position `pos` may start at any place known to read `contents[from..]`. */
  lemma StartScan(buffers: seq<string>, index: int, offset: int, contents: string, from: nat, pos: nat)
    requires IsPlace(buffers, index, offset) && from <= pos <= |contents|
    requires contents[from..] == From(buffers, index, offset) || (from == 0 && contents == From(buffers, index, offset))
    ensures Ahead(buffers, index, offset, pos - from, contents[pos..])
  {
    DropDrop(contents, from, pos - from);
  }

  lemma EndScan(buffers: seq<string>, index: int, offset: int, s: string)
    requires Ahead(buffers, index, offset, 0, s)
    ensures IsPlace(buffers, index, offset) && s == From(buffers, index, offset)
  {
  }

  lemma EmptyList()
    ensures IsPlace([], 0, 0) && From([], 0, 0) == ""
  {
  }

  lemma NoCache(buffers: seq<string>, contents: string)
    ensures CacheValid(buffers, contents, None)
  {
  }

  /** One iteration of a forward scan: either the target is in this chunk or it is past it. */
  lemma Scan(buffers: seq<string>, index: int, offset: int, n: int, s: string)
    requires NoEmptyChunk(buffers) && Ahead(buffers, index, offset, n, s)
    requires n > 0 || s != ""
    ensures 0 <= index < |buffers| && 0 <= offset < |buffers[index]|
    ensures var available := |buffers[index]| - offset;
            if n < available
            then Ahead(buffers, index, offset + n, 0, s) && s != "" && s[0] == buffers[index][offset + n]
            else Ahead(buffers, index + 1, 0, n - available, s)
  {
    var available := |buffers[index]| - offset;
    var here := From(buffers, index, offset);
    if n < available {
      Within(buffers, index, offset, n);
      assert here[n..][0] == here[n];
    } else {
      Across(buffers, index, offset);
      DropDrop(here, available, n - available);
    }
  }

  /** One iteration of a forward copy: what this chunk contributes to the next `n` bytes. */
  lemma Copy(buffers: seq<string>, index: int, offset: int, s: string, n: nat)
    requires NoEmptyChunk(buffers) && Ahead(buffers, index, offset, 0, s)
    requires 0 < n <= |s|
    ensures 0 <= index < |buffers| && 0 <= offset < |buffers[index]|
    ensures var available := |buffers[index]| - offset;
            var toCopy := if available < n then available else n;
            && s[..toCopy] == buffers[index][offset..offset + toCopy]
            && (toCopy < n ==> Ahead(buffers, index + 1, 0, 0, s[toCopy..]))
  {
    var available := |buffers[index]| - offset;
    var toCopy := if available < n then available else n;
    Across(buffers, index, offset);
    var here := From(buffers, index, offset);
    assert here[0..] == here;
    assert here[..available][..toCopy] == here[..toCopy];
    assert buffers[index][offset..][..toCopy] == buffers[index][offset..offset + toCopy];
  }

  /** Growing a slice on the right. */
  lemma Extend(s: string, a: nat, b: nat, n: nat)
    requires a <= b && b + n <= |s|
    ensures s[a..b + n] == s[a..b] + s[b..][..n]
    ensures s[b..][n..] == s[b + n..]
  {
  }

  class BufferQueue {
    var buffers: seq<string>
    var headIndex: nat
    var headOffset: nat
    var totalLength: nat
    var cache: Option<CacheEntry>

    /** The flat byte sequence this queue stands for. */
    ghost var Contents: string

    ghost predicate Valid()
      reads this
    {
      && NoEmptyChunk(buffers)
      && IsPlace(buffers, headIndex, headOffset)
      && Contents == From(buffers, headIndex, headOffset)
      && totalLength == |Contents|
      && CacheValid(buffers, Contents, cache)
    }

    constructor ()
      ensures Valid() && Contents == ""
    {
      buffers, headIndex, headOffset, totalLength, cache := [], 0, 0, 0, None;
      Contents := "";
    }

    method Push(buffer: string)
      requires Valid()
      modifies this
      ensures Valid() && Contents == old(Contents) + buffer
    {
      if |buffer| == 0 {
        assert Contents == Contents + buffer;
        return;
      }
      Appended(buffers, buffer, headIndex, headOffset);
      if cache.Some? {
        Appended(buffers, buffer, cache.value.bufferIndex, cache.value.bufferOffset);
        assert (Contents + buffer)[cache.value.globalPos..] == Contents[cache.value.globalPos..] + buffer;
      }
      buffers := buffers + [buffer];
      totalLength := totalLength + |buffer|;
      Contents := Contents + buffer;
    }

    method Length() returns (n: nat)
      requires Valid()
      ensures n == |Contents|
    {
      n := totalLength;
    }

    method Consume(bytes: int) returns (r: Result<(), RangeError>)
      requires Valid()
      modifies this
      ensures Valid()
      ensures r.Ok? <==> bytes <= |old(Contents)|
      ensures Contents == if 0 < bytes <= |old(Contents)| then old(Contents)[bytes..] else old(Contents)
    {
      hide From, Concat, Ahead, CacheValid;
      if bytes <= 0 {
        return Ok(());
      }
      if bytes > totalLength {
        return Err(OutOfRange);
      }
      ghost var whole := Contents;
      cache := None;
      totalLength := totalLength - bytes;
      Contents := Contents[bytes..];
      StartScan(buffers, headIndex, headOffset, whole, 0, bytes);
      NoCache(buffers, Contents);

      var remaining := bytes;
      while remaining > 0
        invariant remaining >= 0
        invariant Ahead(buffers, headIndex, headOffset, remaining, whole[bytes..])
        modifies this`headIndex, this`headOffset
      {
        Scan(buffers, headIndex, headOffset, remaining, whole[bytes..]);
        var head := buffers[headIndex];
        var headRemaining := |head| - headOffset;
        if remaining < headRemaining {
          headOffset := headOffset + remaining;
          remaining := 0;
          break;
        }
        remaining := remaining - headRemaining;
        headIndex := headIndex + 1;
        headOffset := 0;
      }
      EndScan(buffers, headIndex, headOffset, Contents);

      if totalLength == 0 {
        EmptyList();
        NoCache([], Contents);
        buffers := [];
        headIndex := 0;
        headOffset := 0;
        return Ok(());
      }

      if headIndex > COMPACTION_THRESHOLD && headOffset == 0 {
        Compacted(buffers, headIndex);
        NoCache(buffers[headIndex..], Contents);
        buffers := buffers[headIndex..];
        headIndex := 0;
      }
      return Ok(());
    }

    method Slice(start: int, end: int) returns (r: Result<string, RangeError>)
      requires Valid()
      ensures r == if 0 <= start <= end <= |Contents| then Ok(Contents[start..end]) else Err(OutOfRange)
    {
      hide From, Concat, Ahead, IsPlace, CacheValid;
      if start < 0 || end < 0 || start > end {
        return Err(OutOfRange);
      }
      if end > totalLength {
        return Err(OutOfRange);
      }
      var length := end - start;
      if length == 0 {
        assert Contents[start..end] == "";
        return Ok("");
      }
      var output := "";
      var bufferIndex := headIndex;
      var bufferOffset := headOffset;
      var skip := start;

      StartScan(buffers, bufferIndex, bufferOffset, Contents, 0, start);
      while skip > 0
        invariant skip >= 0
        invariant Ahead(buffers, bufferIndex, bufferOffset, skip, Contents[start..])
      {
        Scan(buffers, bufferIndex, bufferOffset, skip, Contents[start..]);
        var current := buffers[bufferIndex];
        var available := |current| - bufferOffset;
        if skip < available {
          bufferOffset := bufferOffset + skip;
          skip := 0;
          break;
        }
        skip := skip - available;
        bufferIndex := bufferIndex + 1;
        bufferOffset := 0;
      }

      var remaining := length;
      while remaining > 0
        invariant 0 <= remaining <= length
        invariant output == Contents[start..end - remaining]
        invariant remaining > 0 ==> Ahead(buffers, bufferIndex, bufferOffset, 0, Contents[end - remaining..])
      {
        Copy(buffers, bufferIndex, bufferOffset, Contents[end - remaining..], remaining);
        var current := buffers[bufferIndex];
        var available := |current| - bufferOffset;
        var toCopy := if available < remaining then available else remaining;
        Extend(Contents, start, end - remaining, toCopy);
        output := output + current[bufferOffset..bufferOffset + toCopy];
        remaining := remaining - toCopy;
        bufferIndex := bufferIndex + 1;
        bufferOffset := 0;
      }
      return Ok(output);
    }

    method ByteAt(pos: int) returns (r: Result<byte, RangeError>)
      requires Valid()
      modifies this`cache
      ensures Valid()
      ensures r == if 0 <= pos < |Contents| then Ok(Contents[pos]) else Err(OutOfRange)
    {
      hide From, Concat;
      if pos < 0 || pos >= totalLength {
        return Err(OutOfRange);
      }
      var bufferIndex: nat, bufferOffset: nat, remaining: nat;
      if cache.Some? && pos >= cache.value.globalPos {
        bufferIndex := cache.value.bufferIndex;
        bufferOffset := cache.value.bufferOffset;
        remaining := pos - cache.value.globalPos;
        StartScan(buffers, bufferIndex, bufferOffset, Contents, cache.value.globalPos, pos);
      } else {
        bufferIndex := headIndex;
        bufferOffset := headOffset;
        remaining := pos;
        StartScan(buffers, bufferIndex, bufferOffset, Contents, 0, pos);
      }
      assert Contents[pos..] != "" && Contents[pos..][0] == Contents[pos];
      while bufferIndex < |buffers|
        invariant Ahead(buffers, bufferIndex, bufferOffset, remaining, Contents[pos..])
      {
        Scan(buffers, bufferIndex, bufferOffset, remaining, Contents[pos..]);
        var current := buffers[bufferIndex];
        var available := |current| - bufferOffset;
        if remaining < available {
          var resolvedOffset := bufferOffset + remaining;
          EndScan(buffers, bufferIndex, resolvedOffset, Contents[pos..]);
          cache := Some(CacheEntry(pos, bufferIndex, resolvedOffset));
          return Ok(current[resolvedOffset]);
        }
        remaining := remaining - available;
        bufferIndex := bufferIndex + 1;
        bufferOffset := 0;
      }
      Scan(buffers, bufferIndex, bufferOffset, remaining, Contents[pos..]);
      assert false;
      return Err(OutOfRange);
    }

    method StartsWith(prefix: string, offset: int) returns (b: bool)
      requires Valid()
      modifies this`cache
      ensures Valid()
      ensures b == OccursAt(Contents, offset, prefix)
    {
      hide From, Concat, IsPlace, CacheValid;
      if offset < 0 {
        return false;
      }
      if |prefix| + offset > totalLength {
        return false;
      }
      for i := 0 to |prefix|
        invariant Valid()
        invariant forall k :: 0 <= k < i ==> Contents[offset + k] == prefix[k]
      {
        var c := ByteAt(offset + i);
        if c.value != prefix[i] {
          assert Contents[offset..offset + |prefix|][i] != prefix[i];
          return false;
        }
      }
      return true;
    }

    method IndexOf(needle: string, start: int) returns (r: int)
      requires Valid()
      modifies this`cache
      ensures Valid()
      ensures needle == "" ==> r == if start < 0 then 0 else if start < |Contents| then start else |Contents|
      ensures needle != "" ==> r == IndexFrom(Contents, needle, if start < 0 then 0 else start)
    {
      hide From, Concat, IsPlace, CacheValid;
      var from := start;
      if from < 0 {
        from := 0;
      }
      if |needle| == 0 {
        return if from < totalLength then from else totalLength;
      }
      if totalLength - from < |needle| {
        return -1;
      }
      var first := needle[0];
      var lastStart := totalLength - |needle|;
      var i := from;
      while i <= lastStart
        invariant Valid()
        invariant from <= i <= lastStart + 1
        invariant IndexFrom(Contents, needle, from) == IndexFrom(Contents, needle, i)
      {
        var c := ByteAt(i);
        if c.value != first {
          assert Contents[i..i + |needle|][0] != needle[0];
          i := i + 1;
          continue;
        }
        var matches := true;
        var j := 1;
        while j < |needle|
          invariant Valid()
          invariant 1 <= j <= |needle|
          invariant matches
          invariant forall k :: 0 <= k < j ==> Contents[i + k] == needle[k]
        {
          var d := ByteAt(i + j);
          if d.value != needle[j] {
            assert Contents[i..i + |needle|][j] != needle[j];
            matches := false;
            break;
          }
          j := j + 1;
        }
        if matches {
          return i;
        }
        i := i + 1;
      }
      return -1;
    }
  }

  // ------------------------------------------------------------------ whole runs

  datatype Call =
    | CallPush(buffer: string)
    | CallConsume(bytes: int)
    | CallSlice(start: int, end: int)
    | CallByteAt(pos: int)
    | CallStartsWith(prefix: string, offset: int)
    | CallIndexOf(needle: string, from: int)

  datatype Answer =
    | Done
    | Refused
    | Bytes(s: string)
    | Byte(b: byte)
    | Truth(t: bool)
    | Offset(i: int)

  /** What a call answers on the flat byte sequence `s`, and the bytes left unread. */
  function OnFlat(s: string, call: Call): (Answer, string) {
    match call
    case CallPush(buffer) => (Done, s + buffer)
    case CallConsume(n) => if n <= 0 then (Done, s) else if n <= |s| then (Done, s[n..]) else (Refused, s)
    case CallSlice(a, b) => (if 0 <= a <= b <= |s| then Bytes(s[a..b]) else Refused, s)
    case CallByteAt(p) => (if 0 <= p < |s| then Byte(s[p]) else Refused, s)
    case CallStartsWith(prefix, offset) => (Truth(OccursAt(s, offset, prefix)), s)
    case CallIndexOf(needle, from) =>
      var start := if from < 0 then 0 else from;
      (Offset(if needle == "" then (if start < |s| then start else |s|) else IndexFrom(s, needle, start)), s)
  }

  function AnswersOnFlat(s: string, calls: seq<Call>): seq<Answer>
    decreases calls
  {
    if |calls| == 0 then []
    else [OnFlat(s, calls[0]).0] + AnswersOnFlat(OnFlat(s, calls[0]).1, calls[1..])
  }

  method Issue(q: BufferQueue, call: Call) returns (answer: Answer)
    requires q.Valid()
    modifies q
    ensures q.Valid()
    ensures (answer, q.Contents) == OnFlat(old(q.Contents), call)
  {
    hide From, Concat, IsPlace, CacheValid, NoEmptyChunk, IndexFrom, OccursAt;
    match call {
      case CallPush(buffer) => q.Push(buffer); answer := Done;
      case CallConsume(n) => var r := q.Consume(n); answer := if r.Ok? then Done else Refused;
      case CallSlice(a, b) => var r := q.Slice(a, b); answer := if r.Ok? then Bytes(r.value) else Refused;
      case CallByteAt(p) => var r := q.ByteAt(p); answer := if r.Ok? then Byte(r.value) else Refused;
      case CallStartsWith(prefix, offset) => var b := q.StartsWith(prefix, offset); answer := Truth(b);
      case CallIndexOf(needle, from) => var i := q.IndexOf(needle, from); answer := Offset(i);
    }
  }

  /** Any sequence of calls on one queue is answered as on the flat byte sequence. */
  method Replay(q: BufferQueue, calls: seq<Call>) returns (answers: seq<Answer>)
    requires q.Valid()
    modifies q
    ensures q.Valid()
    ensures answers == AnswersOnFlat(old(q.Contents), calls)
  {
    hide OnFlat;
    answers := [];
    for k := 0 to |calls|
      invariant q.Valid()
      invariant answers + AnswersOnFlat(q.Contents, calls[k..]) == AnswersOnFlat(old(q.Contents), calls)
    {
      assert calls[k..][0] == calls[k] && calls[k..][1..] == calls[k + 1..];
      var answer := Issue(q, calls[k]);
      answers := answers + [answer];
    }
  }
}
