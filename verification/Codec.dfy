/** The bytes of index rows: big-endian integers, file checkpoints in three layouts, turn and record rows. */
module Codec {
  import opened Wrappers
  import opened Transcript
  import opened Store

  const FILE_STATE_VERSION: byte := 2
  const FILE_STATE_V1_BYTES: nat := 65
  const FILE_STATE_BYTES: nat := 73
  const HASH_BYTES: nat := 32

  // --- Big-endian integers ---

  /** One past the largest integer of this many bytes. */
  function Limit(width: nat): (n: nat)
    ensures n > 0
  {
    if width == 0 then 1 else 256 * Limit(width - 1)
  }

  function Be(n: nat, width: nat): (bytes: seq<byte>)
    ensures |bytes| == width
  {
    if width == 0 then [] else Be(n / 256, width - 1) + [n % 256]
  }

  function UnBe(bytes: seq<byte>): (n: nat)
  {
    if bytes == [] then 0 else UnBe(bytes[..|bytes| - 1]) * 256 + bytes[|bytes| - 1]
  }

  /** The most significant byte comes first: byte `k` counts powers of 256. */
  lemma {:induction false} BeDigits(n: nat, width: nat, k: nat)
    requires k < width
    ensures Be(n, width)[k] == n / Limit(width - 1 - k) % 256
  {
    if k < width - 1 {
      BeDigits(n / 256, width - 1, k);
      DivideTwice(n, 256, Limit(width - 2 - k));
    }
  }

  lemma {:induction false} UnBeOfBe(n: nat, width: nat)
    requires n < Limit(width)
    ensures UnBe(Be(n, width)) == n
  {
    if width > 0 {
      UnBeOfBe(n / 256, width - 1);
      assert Be(n, width)[..width - 1] == Be(n / 256, width - 1);
    }
  }

  lemma {:induction false} BeOfUnBe(bytes: seq<byte>)
    ensures UnBe(bytes) < Limit(|bytes|) && Be(UnBe(bytes), |bytes|) == bytes
  {
    if bytes != [] {
      var init, last := bytes[..|bytes| - 1], bytes[|bytes| - 1];
      BeOfUnBe(init);
      assert UnBe(bytes) / 256 == UnBe(init) && UnBe(bytes) % 256 == last;
      assert bytes == init + [last];
    }
  }

  /** The widths in use, as the largest values they hold. */
  lemma {:induction false} Limits()
    ensures Limit(2) == 0x1_0000 && Limit(4) == 0x1_0000_0000 && Limit(8) == U64_MAX + 1
  {
    assert Limit(1) == 256 && Limit(2) == 0x1_0000 && Limit(3) == 0x100_0000 && Limit(4) == 0x1_0000_0000;
    assert Limit(5) == 0x100_0000_0000 && Limit(6) == 0x1_0000_0000_0000 && Limit(7) == 0x100_0000_0000_0000;
  }

  // --- File checkpoints ---

  /** Every field fits its integer width. */
  predicate Storable(state: FileState) {
    && state.device < Limit(8) && state.inode < Limit(8)
    && state.indexedFrom < Limit(8) && state.indexedBytes < Limit(8) && state.records < Limit(8)
    && |state.tailHash| == HASH_BYTES && state.modifiedNanos < Limit(16)
  }

  /** The first layout: a version byte, four words, a hash. */
  function Layout4(version: byte, a: seq<byte>, b: seq<byte>, c: seq<byte>, d: seq<byte>, hash: seq<byte>): (bytes: seq<byte>) {
    [version] + a + b + c + d + hash
  }

  /** The later layouts: a version byte, five words, a hash, and perhaps a modification time. */
  function Layout5(version: byte, a: seq<byte>, b: seq<byte>, c: seq<byte>, d: seq<byte>, e: seq<byte>,
          hash: seq<byte>, time: seq<byte>): (bytes: seq<byte>) {
    [version] + a + b + c + d + e + hash + time
  }

  /** Complete checkpoints without a modification time keep the first layout, so an older companion can read them. */
  function EncodeState(state: FileState): (bytes: seq<byte>) {
    if state.IsComplete() && state.modifiedNanos == 0 then
      Layout4(1, Be(state.device, 8), Be(state.inode, 8), Be(state.indexedBytes, 8), Be(state.records, 8), state.tailHash)
    else
      Layout5(if state.modifiedNanos == 0 then FILE_STATE_VERSION else 3, Be(state.device, 8), Be(state.inode, 8),
              Be(state.indexedFrom, 8), Be(state.indexedBytes, 8), Be(state.records, 8), state.tailHash,
              if state.modifiedNanos == 0 then [] else Be(state.modifiedNanos, 16))
  }

  function DecodeState(bytes: seq<byte>): (state: Option<FileState>) {
    if |bytes| == FILE_STATE_V1_BYTES && bytes[0] == 1 then
      Some(FileState(UnBe(bytes[1..9]), UnBe(bytes[9..17]), 0, UnBe(bytes[17..25]), UnBe(bytes[25..33]), bytes[33..65], 0))
    else
      var current := |bytes| == FILE_STATE_BYTES + 16 && bytes[0] == 3;
      if !current && (|bytes| != FILE_STATE_BYTES || bytes[0] != FILE_STATE_VERSION) then None
      else
        Some(FileState(UnBe(bytes[1..9]), UnBe(bytes[9..17]), UnBe(bytes[17..25]), UnBe(bytes[25..33]), UnBe(bytes[33..41]),
                       bytes[41..73], if current then UnBe(bytes[73..89]) else 0))
  }

  lemma {:induction false} SlicesOf4(version: byte, a: seq<byte>, b: seq<byte>, c: seq<byte>, d: seq<byte>, hash: seq<byte>)
    requires |a| == |b| == |c| == |d| == 8 && |hash| == HASH_BYTES
    ensures var s := Layout4(version, a, b, c, d, hash);
            |s| == FILE_STATE_V1_BYTES && s[0] == version && s[1..9] == a && s[9..17] == b && s[17..25] == c && s[25..33] == d && s[33..65] == hash
  {
  }

  lemma {:induction false} SlicesOf5(version: byte, a: seq<byte>, b: seq<byte>, c: seq<byte>, d: seq<byte>,
          e: seq<byte>, hash: seq<byte>, time: seq<byte>)
    requires |a| == |b| == |c| == |d| == |e| == 8 && |hash| == HASH_BYTES
    ensures var s := Layout5(version, a, b, c, d, e, hash, time);
            |s| == FILE_STATE_BYTES + |time| && s[0] == version && s[1..9] == a && s[9..17] == b && s[17..25] == c && s[25..33] == d && s[33..41] == e
            && s[41..73] == hash && s[73..] == time
  {
    var head := Layout5(version, a, b, c, d, e, hash, []);
    assert Layout5(version, a, b, c, d, e, hash, time) == head + time;
  }

  /** Where the fields of a checkpoint lie: a complete one without a time is in the oldest layout, the others count from its start. */
  lemma {:induction false} StateLayout(state: FileState)
    requires |state.tailHash| == 32
    ensures var bytes := EncodeState(state);
            if state.indexedFrom == 0 && state.modifiedNanos == 0 then
              |bytes| == 65 && bytes[0] == 1 && bytes[1..9] == Be(state.device, 8) && bytes[9..17] == Be(state.inode, 8)
              && bytes[17..25] == Be(state.indexedBytes, 8) && bytes[25..33] == Be(state.records, 8) && bytes[33..65] == state.tailHash
            else
              && |bytes| == (if state.modifiedNanos == 0 then 73 else 89) && bytes[0] == (if state.modifiedNanos == 0 then 2 else 3)
              && bytes[1..9] == Be(state.device, 8) && bytes[9..17] == Be(state.inode, 8) && bytes[17..25] == Be(state.indexedFrom, 8)
              && bytes[25..33] == Be(state.indexedBytes, 8) && bytes[33..41] == Be(state.records, 8) && bytes[41..73] == state.tailHash
              && (state.modifiedNanos != 0 ==> bytes[73..89] == Be(state.modifiedNanos, 16))
  {
    var device, inode, from, bytes, records := Be(state.device, 8), Be(state.inode, 8), Be(state.indexedFrom, 8), Be(state.indexedBytes, 8), Be(state.records, 8);
    if state.indexedFrom == 0 && state.modifiedNanos == 0 {
      SlicesOf4(1, device, inode, bytes, records, state.tailHash);
    } else {
      var time := if state.modifiedNanos == 0 then [] else Be(state.modifiedNanos, 16);
      SlicesOf5(if state.modifiedNanos == 0 then 2 else 3, device, inode, from, bytes, records, state.tailHash, time);
      assert EncodeState(state)[73..] == time;
    }
  }

  lemma {:induction false} Rejoin4(s: seq<byte>)
    requires |s| == FILE_STATE_V1_BYTES
    ensures s == Layout4(s[0], s[1..9], s[9..17], s[17..25], s[25..33], s[33..65])
  {
  }

  lemma {:induction false} Rejoin5(s: seq<byte>)
    requires |s| >= FILE_STATE_BYTES
    ensures s == Layout5(s[0], s[1..9], s[9..17], s[17..25], s[25..33], s[33..41], s[41..73], s[73..])
  {
  }

  /** What is written is read back, in whichever layout it was written. */
  lemma {:induction false} DecodeOfEncodeState(state: FileState)
    requires Storable(state)
    ensures DecodeState(EncodeState(state)) == Some(state)
  {
    if state.IsComplete() && state.modifiedNanos == 0 { DecodeOfLayout4(state); } else { DecodeOfLayout5(state); }
  }

  lemma {:induction false} WordsReadBack(state: FileState)
    requires Storable(state)
    ensures UnBe(Be(state.device, 8)) == state.device && UnBe(Be(state.inode, 8)) == state.inode
    ensures UnBe(Be(state.indexedFrom, 8)) == state.indexedFrom && UnBe(Be(state.indexedBytes, 8)) == state.indexedBytes
    ensures UnBe(Be(state.records, 8)) == state.records && UnBe(Be(state.modifiedNanos, 16)) == state.modifiedNanos
  {
    UnBeOfBe(state.device, 8);
    UnBeOfBe(state.inode, 8);
    UnBeOfBe(state.indexedFrom, 8);
    UnBeOfBe(state.indexedBytes, 8);
    UnBeOfBe(state.records, 8);
    UnBeOfBe(state.modifiedNanos, 16);
  }

  lemma {:induction false} DecodeOfLayout4(state: FileState)
    requires Storable(state) && state.IsComplete() && state.modifiedNanos == 0
    ensures DecodeState(EncodeState(state)) == Some(state)
  {
    WordsReadBack(state);
    SlicesOf4(1, Be(state.device, 8), Be(state.inode, 8), Be(state.indexedBytes, 8), Be(state.records, 8), state.tailHash);
  }

  lemma {:induction false} DecodeOfLayout5(state: FileState)
    requires Storable(state) && !(state.IsComplete() && state.modifiedNanos == 0)
    ensures DecodeState(EncodeState(state)) == Some(state)
  {
    WordsReadBack(state);
    var version: byte := if state.modifiedNanos == 0 then FILE_STATE_VERSION else 3;
    var time := if state.modifiedNanos == 0 then [] else Be(state.modifiedNanos, 16);
    SlicesOf5(version, Be(state.device, 8), Be(state.inode, 8), Be(state.indexedFrom, 8), Be(state.indexedBytes, 8), Be(state.records, 8), state.tailHash, time);
    if state.modifiedNanos != 0 {
      assert EncodeState(state)[73..89] == EncodeState(state)[73..];
    }
  }

  /** The layout a checkpoint would be written in today. */
  predicate CurrentLayout(bytes: seq<byte>)
    requires DecodeState(bytes).Some?
  {
    || |bytes| == FILE_STATE_V1_BYTES
    || (|bytes| == FILE_STATE_BYTES && UnBe(bytes[17..25]) != 0)
    || (|bytes| == FILE_STATE_BYTES + 16 && UnBe(bytes[73..89]) != 0)
  }

  /** Every accepted row is a storable checkpoint, and is rewritten unchanged exactly if it already has today's layout. */
  lemma {:induction false} EncodeOfDecodeState(bytes: seq<byte>)
    requires DecodeState(bytes).Some?
    ensures Storable(DecodeState(bytes).value)
    ensures EncodeState(DecodeState(bytes).value) == bytes <==> CurrentLayout(bytes)
  {
    if |bytes| == FILE_STATE_V1_BYTES { EncodeOfV1(bytes); }
    else if UnBe(bytes[17..25]) == 0 && (|bytes| == FILE_STATE_BYTES || UnBe(bytes[73..89]) == 0) { OutdatedLayout(bytes); }
    else { EncodeOfLayout5(bytes); }
  }

  lemma {:induction false} EncodeOfV1(bytes: seq<byte>)
    requires |bytes| == FILE_STATE_V1_BYTES && bytes[0] == 1
    ensures Storable(DecodeState(bytes).value) && EncodeState(DecodeState(bytes).value) == bytes
  {
    BeOfUnBe(bytes[1..9]);
    BeOfUnBe(bytes[9..17]);
    BeOfUnBe(bytes[17..25]);
    BeOfUnBe(bytes[25..33]);
    Rejoin4(bytes);
  }

  /** The words of the later layouts, each read and written again. */
  lemma {:induction false} WordsWriteBack(bytes: seq<byte>)
    requires DecodeState(bytes).Some? && |bytes| >= FILE_STATE_BYTES
    ensures var state := DecodeState(bytes).value;
            && Spells(state.device, bytes[1..9]) && Spells(state.inode, bytes[9..17]) && Spells(state.indexedFrom, bytes[17..25])
            && Spells(state.indexedBytes, bytes[25..33]) && Spells(state.records, bytes[33..41])
            && (|bytes| > FILE_STATE_BYTES ==> Spells(state.modifiedNanos, bytes[73..89])) && Storable(state)
  {
    WordWritesBack(bytes[1..9]);
    WordWritesBack(bytes[9..17]);
    WordWritesBack(bytes[17..25]);
    WordWritesBack(bytes[25..33]);
    WordWritesBack(bytes[33..41]);
    if |bytes| > FILE_STATE_BYTES { WordWritesBack(bytes[73..89]); }
  }

  predicate Spells(n: nat, word: seq<byte>) { Be(n, |word|) == word }

  lemma {:induction false} WordWritesBack(word: seq<byte>)
    ensures UnBe(word) < Limit(|word|) && Spells(UnBe(word), word)
  {
    BeOfUnBe(word);
  }

  /** A complete checkpoint without a modification time moves back to the first layout. */
  lemma {:induction false} OutdatedLayout(bytes: seq<byte>)
    requires DecodeState(bytes).Some? && |bytes| >= FILE_STATE_BYTES
    requires UnBe(bytes[17..25]) == 0 && (|bytes| == FILE_STATE_BYTES || UnBe(bytes[73..89]) == 0)
    ensures Storable(DecodeState(bytes).value) && |EncodeState(DecodeState(bytes).value)| == FILE_STATE_V1_BYTES
  {
    WordsWriteBack(bytes);
    var state := DecodeState(bytes).value;
    SlicesOf4(1, Be(state.device, 8), Be(state.inode, 8), Be(state.indexedBytes, 8), Be(state.records, 8), state.tailHash);
  }

  lemma {:induction false} EncodeOfLayout5(bytes: seq<byte>)
    requires DecodeState(bytes).Some? && |bytes| >= FILE_STATE_BYTES
    requires !(UnBe(bytes[17..25]) == 0 && (|bytes| == FILE_STATE_BYTES || UnBe(bytes[73..89]) == 0))
    ensures Storable(DecodeState(bytes).value)
    ensures EncodeState(DecodeState(bytes).value) == bytes <==> CurrentLayout(bytes)
  {
    WordsWriteBack(bytes);
    Rejoin5(bytes);
    var state := DecodeState(bytes).value;
    if |bytes| == FILE_STATE_BYTES {
      assert bytes[73..] == [];
    } else {
      assert bytes[73..] == bytes[73..89];
      if state.modifiedNanos == 0 {
        SlicesOf5(FILE_STATE_VERSION, Be(state.device, 8), Be(state.inode, 8), Be(state.indexedFrom, 8), Be(state.indexedBytes, 8), Be(state.records, 8), state.tailHash, []);
      }
    }
  }

  // --- Turn rows ---

  /** UTF-8 as the library gives it: what was printed is read back. */
  ghost predicate Faithful(utf8: string -> seq<byte>, read: seq<byte> -> Option<string>) {
    forall s :: read(utf8(s)) == Some(s)
  }

  /** `None` when the id does not fit its length field. */
  function EncodeTurn(t: Turn, utf8: string -> seq<byte>): (bytes: Option<seq<byte>>) {
    var id := utf8(t.id);
    if |id| >= Limit(2) then None
    else Some([1] + Be(t.start, 8) + Be(t.end, 8) + [if t.completed then 1 else 0] + Be(|id|, 2) + id)
  }

  function DecodeTurn(bytes: seq<byte>, read: seq<byte> -> Option<string>): (t: Option<Turn>) {
    if |bytes| < 20 || bytes[0] != 1 then None
    else if |bytes| != 20 + UnBe(bytes[18..20]) then None
    else
      match read(bytes[20..])
      case None => None
      case Some(id) => Some(Turn(id, UnBe(bytes[1..9]), UnBe(bytes[9..17]), bytes[17] != 0))
  }

  /** A turn is stored exactly if its id fits, and then reads back as itself. */
  lemma {:induction false} DecodeOfEncodeTurn(t: Turn, utf8: string -> seq<byte>, read: seq<byte> -> Option<string>)
    requires Faithful(utf8, read) && t.start < Limit(8) && t.end < Limit(8)
    ensures EncodeTurn(t, utf8).Some? <==> |utf8(t.id)| < 0x1_0000
    ensures EncodeTurn(t, utf8).Some? ==> DecodeTurn(EncodeTurn(t, utf8).value, read) == Some(t)
  {
    Limits();
    if EncodeTurn(t, utf8).Some? {
      var bytes := EncodeTurn(t, utf8).value;
      UnBeOfBe(t.start, 8);
      UnBeOfBe(t.end, 8);
      UnBeOfBe(|utf8(t.id)|, 2);
      TurnSlices(Be(t.start, 8), Be(t.end, 8), if t.completed then 1 else 0, Be(|utf8(t.id)|, 2), utf8(t.id), bytes);
    }
  }

  lemma {:induction false} TurnSlices(start: seq<byte>, end: seq<byte>, completed: byte, length: seq<byte>,
          id: seq<byte>, bytes: seq<byte>)
    requires |start| == 8 && |end| == 8 && |length| == 2 && bytes == [1] + start + end + [completed] + length + id
    ensures |bytes| == 20 + |id| && bytes[0] == 1 && bytes[17] == completed
    ensures bytes[1..9] == start && bytes[9..17] == end && bytes[18..20] == length && bytes[20..] == id
  {
  }

  // --- Record rows ---

  function EncodeRecord(r: RecordRef): (bytes: seq<byte>) {
    Be(r.offset, 8) + Be(r.length, 4) + [r.tag]
  }

  function DecodeRecord(bytes: seq<byte>): (r: Option<RecordRef>) {
    if |bytes| != 13 then None else Some(RecordRef(UnBe(bytes[..8]), UnBe(bytes[8..12]), bytes[12]))
  }

  /** A row reads back as itself exactly if its length fits four bytes and its offset eight. */
  lemma {:induction false} DecodeOfEncodeRecord(r: RecordRef)
    ensures DecodeRecord(EncodeRecord(r)) == Some(r) <==> r.offset <= U64_MAX && r.length <= 0xFFFF_FFFF
  {
    Limits();
    if r.offset < Limit(8) { UnBeOfBe(r.offset, 8); }
    if r.length < Limit(4) { UnBeOfBe(r.length, 4); }
    BeOfUnBe(Be(r.offset, 8));
    BeOfUnBe(Be(r.length, 4));
    var bytes := EncodeRecord(r);
    assert bytes[..8] == Be(r.offset, 8) && bytes[8..12] == Be(r.length, 4);
  }

  lemma {:induction false} EncodeOfDecodeRecord(bytes: seq<byte>)
    requires |bytes| == 13
    ensures EncodeRecord(DecodeRecord(bytes).value) == bytes
  {
    BeOfUnBe(bytes[..8]);
    BeOfUnBe(bytes[8..12]);
  }

  /** Where the fields of a turn row lie. */
  lemma {:induction false} TurnLayout(t: Turn, utf8: string -> seq<byte>)
    requires |utf8(t.id)| < 0x1_0000
    ensures EncodeTurn(t, utf8).Some?
    ensures var bytes := EncodeTurn(t, utf8).value;
            && |bytes| == 20 + |utf8(t.id)| && bytes[0] == 1 && bytes[1..9] == Be(t.start, 8) && bytes[9..17] == Be(t.end, 8)
            && bytes[17] == (if t.completed then 1 else 0) && bytes[18..20] == Be(|utf8(t.id)|, 2) && bytes[20..] == utf8(t.id)
  {
    Limits();
    var id := utf8(t.id);
    TurnBytes(Be(t.start, 8), Be(t.end, 8), if t.completed then 1 else 0, Be(|id|, 2), id);
  }

  lemma {:induction false} TurnBytes(start: seq<byte>, end: seq<byte>, done: byte, length: seq<byte>, id: seq<byte>)
    requires |start| == |end| == 8 && |length| == 2
    ensures var bytes := [1] + start + end + [done] + length + id;
            && |bytes| == 20 + |id| && bytes[0] == 1 && bytes[1..9] == start && bytes[9..17] == end && bytes[17] == done
            && bytes[18..20] == length && bytes[20..] == id
  {
    var head := [1] + start + end + [done];
    assert |head| == 18 && head[1..9] == start && head[9..17] == end;
    assert [1] + start + end + [done] + length + id == head + (length + id);
  }

  /** Where the fields of a record row lie. */
  lemma {:induction false} RecordLayout(r: RecordRef)
    ensures var bytes := EncodeRecord(r);
            |bytes| == 13 && bytes[..8] == Be(r.offset, 8) && bytes[8..12] == Be(r.length, 4) && bytes[12] == r.tag
  {
  }
}
