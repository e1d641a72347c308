/**
 Reading a transcript file by offset, as file.rs does: bounded reads into a reused buffer, the
 durable end, and the line around an offset. A line ends with its newline.
 */
module SourceBytes {
  import opened Wrappers

  const NEWLINE: byte := 10

  /** Where the line that byte `n` continues begins: after the last newline before `n`. */
  function LineBase(bytes: seq<byte>, n: nat): (start: nat)
    requires n <= |bytes|
  {
    if n == 0 then 0 else if bytes[n - 1] == NEWLINE then n else LineBase(bytes, n - 1)
  }

  /** Where the line of byte `n` ends: after the first newline from `n` on, or at `durable`. */
  function LineStop(bytes: seq<byte>, n: nat, durable: nat): (end: nat)
    requires durable <= |bytes|
    decreases durable - n
  {
    if n >= durable then durable else if bytes[n] == NEWLINE then n + 1 else LineStop(bytes, n + 1, durable)
  }

  ghost predicate NoNewline(bytes: seq<byte>, lo: nat, hi: nat)
    requires hi <= |bytes|
  {
    forall i :: lo <= i < hi ==> bytes[i] != NEWLINE
  }

  lemma {:induction false} LineBaseIs(bytes: seq<byte>, n: nat)
    requires n <= |bytes|
    ensures var s := LineBase(bytes, n);
            s <= n && NoNewline(bytes, s, n) && (s > 0 ==> bytes[s - 1] == NEWLINE)
  {
    if n > 0 && bytes[n - 1] != NEWLINE { LineBaseIs(bytes, n - 1); }
  }

  lemma {:induction false} LineStopIs(bytes: seq<byte>, n: nat, durable: nat)
    requires n <= durable <= |bytes|
    ensures var e := LineStop(bytes, n, durable);
            && n <= e <= durable && (e < durable || (n < e && bytes[e - 1] == NEWLINE) || NoNewline(bytes, n, durable))
            && (n < durable ==> n < e && NoNewline(bytes, n, e - 1))
            && (e < durable ==> bytes[e - 1] == NEWLINE)
    decreases durable - n
  {
    if n < durable && bytes[n] != NEWLINE { LineStopIs(bytes, n + 1, durable); }
  }

  /** Bytes without a newline all continue the same line. */
  lemma {:induction false} SameBase(bytes: seq<byte>, lo: nat, n: nat)
    requires lo <= n <= |bytes| && NoNewline(bytes, lo, n)
    ensures LineBase(bytes, n) == LineBase(bytes, lo)
    decreases n
  {
    if lo < n { SameBase(bytes, lo, n - 1); }
  }

  lemma {:induction false} SameStop(bytes: seq<byte>, n: nat, hi: nat, durable: nat)
    requires n <= hi <= durable <= |bytes| && NoNewline(bytes, n, hi)
    ensures LineStop(bytes, n, durable) == LineStop(bytes, hi, durable)
    decreases hi - n
  {
    if n < hi { SameStop(bytes, n + 1, hi, durable); }
  }

  /** Fills the head of the buffer from `offset`; a read may return fewer bytes than asked for. */
  method ReadExactAt(file: seq<byte>, buffer: array<byte>, count: nat, offset: nat) returns (complete: bool)
    requires count <= buffer.Length
    modifies buffer
    ensures complete <==> offset + count <= |file| || count == 0
    ensures complete && count > 0 ==> buffer[..count] == file[offset..offset + count]
  {
    var read := 0;
    while read < count
      invariant 0 <= read <= count && (read > 0 ==> offset + read <= |file| && buffer[..read] == file[offset..offset + read])
    {
      if offset + read >= |file| { return false; }
      var most := Min(count - read, |file| - (offset + read));
      var got :| 1 <= got <= most;
      ghost var before := buffer[..read];
      forall i | 0 <= i < got { buffer[read + i] := file[offset + read + i]; }
      assert buffer[..read + got] == file[offset..offset + (read + got)] by {
        assert buffer[..read] == before;
        forall i | 0 <= i < read + got ensures buffer[i] == file[offset + i] {
          if i < read { assert buffer[..read][i] == before[i]; } else { assert buffer[read + (i - read)] == file[offset + read + (i - read)]; }
        }
      }
      read := read + got;
    }
    return true;
  }

  /** The last newline of the buffer's head, if any. */
  method LastNewline(buffer: array<byte>, count: nat) returns (index: Option<nat>)
    requires count <= buffer.Length
    ensures index.None? ==> forall i :: 0 <= i < count ==> buffer[i] != NEWLINE
    ensures index.Some? ==> index.value < count && buffer[index.value] == NEWLINE && forall i :: index.value < i < count ==> buffer[i] != NEWLINE
  {
    var i := count;
    while i > 0
      invariant 0 <= i <= count && forall k :: i <= k < count ==> buffer[k] != NEWLINE
    {
      i := i - 1;
      if buffer[i] == NEWLINE { return Some(i); }
    }
    return None;
  }

  method FirstNewline(buffer: array<byte>, count: nat) returns (index: Option<nat>)
    requires count <= buffer.Length
    ensures index.None? ==> forall i :: 0 <= i < count ==> buffer[i] != NEWLINE
    ensures index.Some? ==> index.value < count && buffer[index.value] == NEWLINE && forall i :: 0 <= i < index.value ==> buffer[i] != NEWLINE
  {
    var i := 0;
    while i < count
      invariant 0 <= i <= count && forall k :: 0 <= k < i ==> buffer[k] != NEWLINE
    {
      if buffer[i] == NEWLINE { return Some(i); }
      i := i + 1;
    }
    return None;
  }

  /** Reads back in blocks from `end` to the start of its line; `durable_end` and `find_line_start` share this loop. */
  method ScanBack(file: seq<byte>, end: nat, block: nat) returns (start: nat)
    requires end <= |file| && block > 0
    ensures start == LineBase(file, end)
  {
    var position := end;
    var buffer := new byte[block](_ => 0);
    while position > 0
      invariant 0 <= position <= end && NoNewline(file, position, end)
    {
      var size := Min(position, block);
      var from := position - size;
      var complete := ReadExactAt(file, buffer, size, from);
      forall i | from <= i < position ensures buffer[i - from] == file[i] { assert buffer[..size][i - from] == file[from..from + size][i - from]; }
      var index := LastNewline(buffer, size);
      if index.Some? {
        forall i | from + index.value < i < position ensures file[i] != NEWLINE { assert buffer[i - from] == file[i]; }
        SameBase(file, from + index.value + 1, end);
        return from + index.value + 1;
      }
      forall i | from <= i < position ensures file[i] != NEWLINE { assert buffer[i - from] == file[i]; }
      position := from;
    }
    SameBase(file, 0, end);
    return 0;
  }

  const REVERSE_SCAN_BLOCK_BYTES: nat := 1024 * 1024
  const LINE_BLOCK_BYTES: nat := 64 * 1024

  /** The end of the last complete line of a file of `fileBytes` bytes. */
  method DurableEndOf(file: seq<byte>, fileBytes: nat) returns (end: nat)
    requires fileBytes <= |file|
    ensures end == LineBase(file, fileBytes)
  {
    if fileBytes == 0 { return 0; }
    end := ScanBack(file, fileBytes, Min(fileBytes, REVERSE_SCAN_BLOCK_BYTES));
  }

  method FindLineStart(file: seq<byte>, inside: nat) returns (start: nat)
    requires inside <= |file|
    ensures start == LineBase(file, inside)
  {
    start := ScanBack(file, inside, LINE_BLOCK_BYTES);
  }

  method FindLineEnd(file: seq<byte>, inside: nat, durable: nat) returns (end: nat)
    requires inside <= durable <= |file|
    ensures end == LineStop(file, inside, durable)
  {
    var position := inside;
    var buffer := new byte[LINE_BLOCK_BYTES](_ => 0);
    while position < durable
      invariant inside <= position <= durable && NoNewline(file, inside, position)
    {
      var size := Min(durable - position, LINE_BLOCK_BYTES);
      var complete := ReadExactAt(file, buffer, size, position);
      forall i | position <= i < position + size ensures buffer[i - position] == file[i] { assert buffer[..size][i - position] == file[position..position + size][i - position]; }
      var index := FirstNewline(buffer, size);
      if index.Some? {
        forall i | position <= i < position + index.value ensures file[i] != NEWLINE { assert buffer[i - position] == file[i]; }
        SameStop(file, inside, position + index.value, durable);
        return position + index.value + 1;
      }
      forall i | position <= i < position + size ensures file[i] != NEWLINE { assert buffer[i - position] == file[i]; }
      position := position + size;
    }
    SameStop(file, inside, durable, durable);
    return durable;
  }

  /** The complete line around an offset, with its start. */
  method ReadLineAt(file: seq<byte>, inside: nat, durable: nat) returns (start: nat, line: seq<byte>)
    requires inside <= durable <= |file|
    ensures start == LineBase(file, inside) <= LineStop(file, inside, durable) <= durable
    ensures line == file[start..LineStop(file, inside, durable)]
  {
    start := FindLineStart(file, inside);
    var end := FindLineEnd(file, inside, durable);
    LineBaseIs(file, inside);
    LineStopIs(file, inside, durable);
    var buffer := new byte[end - start](_ => 0);
    var complete := ReadExactAt(file, buffer, end - start, start);
    line := buffer[..];
  }
}
