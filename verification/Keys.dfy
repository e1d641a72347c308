/**
 Row keys and their order. Rows are kept in the byte order of their keys; the ranges that store.rs
 reads or clears hold exactly the rows they are meant for.
 */
module Keys {
  import opened Wrappers
  import opened Transcript
  import opened Store
  import opened Codec
  import opened TableReads
  import opened Coverage

  /** How the table orders keys: byte by byte, a prefix first. */
  predicate BytesBefore(a: seq<byte>, b: seq<byte>) {
    if a == [] then b != []
    else if b == [] then false
    else if a[0] == b[0] then BytesBefore(a[1..], b[1..])
    else a[0] < b[0]
  }

  /** An inclusive range of keys. */
  predicate InRange(key: seq<byte>, lo: seq<byte>, hi: seq<byte>) {
    !BytesBefore(key, lo) && !BytesBefore(hi, key)
  }

  lemma {:induction false} ByteOrderIsTotal(a: seq<byte>, b: seq<byte>)
    ensures BytesBefore(a, b) || a == b || BytesBefore(b, a)
    ensures BytesBefore(a, b) ==> a != b && !BytesBefore(b, a)
  {
    if a != [] && b != [] && a[0] == b[0] {
      ByteOrderIsTotal(a[1..], b[1..]);
      assert a == [a[0]] + a[1..] && b == [b[0]] + b[1..];
    }
  }

  /** Keys of one length are ordered by their first parts, then by the rest. */
  lemma {:induction false} FirstPartDecides(p: seq<byte>, q: seq<byte>, a: seq<byte>, b: seq<byte>)
    requires |p| == |q|
    ensures BytesBefore(p + a, q + b) <==> BytesBefore(p, q) || (p == q && BytesBefore(a, b))
  {
    if p == [] {
      assert p + a == a && q + b == b;
    } else {
      assert (p + a)[1..] == p[1..] + a && (q + b)[1..] == q[1..] + b;
      FirstPartDecides(p[1..], q[1..], a, b);
      assert p == [p[0]] + p[1..] && q == [q[0]] + q[1..];
    }
  }

  /** Big-endian bytes are ordered as their integers are. */
  lemma {:induction false} BeKeepsOrder(m: nat, n: nat, width: nat)
    requires m < Limit(width) && n < Limit(width)
    ensures BytesBefore(Be(m, width), Be(n, width)) <==> m < n
  {
    if width > 0 {
      BeKeepsOrder(m / 256, n / 256, width - 1);
      FirstPartDecides(Be(m / 256, width - 1), Be(n / 256, width - 1), [m % 256], [n % 256]);
      UnBeOfBe(m / 256, width - 1);
      UnBeOfBe(n / 256, width - 1);
      LastByteDecides(m % 256, n % 256);
    }
  }

  lemma {:induction false} LastByteDecides(x: byte, y: byte)
    ensures BytesBefore([x], [y]) <==> x < y
  {
    assert [x][1..] == [] && [y][1..] == [];
  }

  // --- Offset keys: the file, then the offset ---

  function OffsetKey(file: FileId, offset: nat): (key: seq<byte>) {
    file + Be(offset, 8)
  }

  lemma {:induction false} OffsetKeysKeepOrder(f: FileId, m: nat, g: FileId, n: nat)
    requires |f| == |g| && m < Limit(8) && n < Limit(8)
    ensures BytesBefore(OffsetKey(f, m), OffsetKey(g, n)) <==> BytesBefore(f, g) || (f == g && m < n)
  {
    FirstPartDecides(f, g, Be(m, 8), Be(n, 8));
    BeKeepsOrder(m, n, 8);
  }

  /** The range between two offsets of a file holds that file's rows between them, and no other file's. */
  lemma {:induction false} OffsetRange(file: FileId, from: nat, to: nat, other: FileId, n: nat)
    requires |file| == |other| && from < Limit(8) && to < Limit(8) && n < Limit(8)
    ensures InRange(OffsetKey(other, n), OffsetKey(file, from), OffsetKey(file, to)) <==> other == file && from <= n <= to
  {
    OffsetKeysKeepOrder(other, n, file, from);
    OffsetKeysKeepOrder(file, to, other, n);
    ByteOrderIsTotal(file, other);
  }

  // --- Turn ids: the file, a zero byte, the id ---

  function IdKey(file: FileId, id: seq<byte>): (key: seq<byte>) {
    file + ([0] + id)
  }

  /** The range a reset clears holds every id of the file and no other file's. */
  lemma {:induction false} IdRange(file: FileId, other: FileId, id: seq<byte>)
    requires |file| == |other|
    ensures InRange(IdKey(other, id), file + [0], file + [255]) <==> other == file
  {
    FirstPartDecides(other, file, [0] + id, [0]);
    FirstPartDecides(file, other, [255], [0] + id);
    ByteOrderIsTotal(file, other);
    assert ([0] + id)[1..] == id && [0][1..] == [];
  }

  // --- Content keys: a digest and a file, either first, then the offset ---

  function ContentKey(first: seq<byte>, second: seq<byte>, offset: nat): (key: seq<byte>) {
    first + OffsetKey(second, offset)
  }

  function Repeat(b: byte, n: nat): (bytes: seq<byte>)
    ensures |bytes| == n
  {
    if n == 0 then [] else [b] + Repeat(b, n - 1)
  }

  lemma {:induction false} AllBytesLieBetween(bytes: seq<byte>)
    ensures !BytesBefore(bytes, Repeat(0, |bytes|)) && !BytesBefore(Repeat(255, |bytes|), bytes)
  {
    if bytes != [] {
      AllBytesLieBetween(bytes[1..]);
      assert Repeat(0, |bytes|)[1..] == Repeat(0, |bytes| - 1) && Repeat(255, |bytes|)[1..] == Repeat(255, |bytes| - 1);
    }
  }

  /** The range of one first part holds its rows for every second part and offset, and nothing else. */
  lemma {:induction false} ContentRange(first: seq<byte>, otherFirst: seq<byte>, second: seq<byte>, offset: nat)
    requires |first| == |otherFirst| && offset < Limit(8)
    ensures var lo, hi := ContentKey(first, Repeat(0, |second|), 0), ContentKey(first, Repeat(255, |second|), U64_MAX);
            InRange(ContentKey(otherFirst, second, offset), lo, hi) <==> otherFirst == first
  {
    var zeros, ffs := Repeat(0, |second|), Repeat(255, |second|);
    Limits();
    FirstPartDecides(otherFirst, first, OffsetKey(second, offset), OffsetKey(zeros, 0));
    FirstPartDecides(first, otherFirst, OffsetKey(ffs, U64_MAX), OffsetKey(second, offset));
    ByteOrderIsTotal(first, otherFirst);
    AllBytesLieBetween(second);
    OffsetKeysKeepOrder(second, offset, zeros, 0);
    OffsetKeysKeepOrder(ffs, U64_MAX, second, offset);
  }

  /** How keys are spelled: the file's hash, then the offset; the hash, a zero byte and the id; two hashes and the offset. */
  lemma {:induction false} KeySpelling(file: FileId, digest: seq<byte>, id: seq<byte>, offset: nat)
    requires |file| == |digest| == 32
    ensures var key := OffsetKey(file, offset); |key| == 40 && key[..32] == file && key[32..] == Be(offset, 8)
    ensures var key := IdKey(file, id); |key| == 33 + |id| && key[..32] == file && key[32] == 0 && key[33..] == id
    ensures var key := ContentKey(digest, file, offset); |key| == 72 && key[..32] == digest && key[32..64] == file && key[64..] == Be(offset, 8)
  {
    assert OffsetKey(file, offset)[..32] == file;
  }

  // --- Reading and clearing one file's rows ---

  /** The byte table that holds these rows, each value in its encoding. */
  ghost predicate Holds<V>(bytes: map<seq<byte>, seq<byte>>, rows: map<(FileId, nat), V>, read: seq<byte> -> Option<V>) {
    && (forall k :: k in rows ==> KeyFits(k) && OffsetKey(k.0, k.1) in bytes && read(bytes[OffsetKey(k.0, k.1)]) == Some(rows[k]))
    && (forall b :: b in bytes ==> exists k :: k in rows && OffsetKey(k.0, k.1) == b)
  }

  predicate KeyFits(k: (FileId, nat)) {
    |k.0| == HASH_BYTES && k.1 < Limit(8)
  }

  /** What a range read walks in reverse: every key of the range, the greatest first. */
  ghost predicate WalksBack(bytes: map<seq<byte>, seq<byte>>, lo: seq<byte>, hi: seq<byte>, keys: seq<seq<byte>>) {
    && (forall b :: b in keys <==> b in bytes && InRange(b, lo, hi))
    && (forall i, j :: 0 <= i < j < |keys| ==> BytesBefore(keys[j], keys[i]))
  }

  /** The last offset that `turns_desc` asks for. */
  function InclusiveEnd(before: Option<nat>): (end: nat) {
    if before.None? then U64_MAX else if before.value == 0 then 0 else before.value - 1
  }

  /** These are one file's rows below an offset, the newest first. */
  ghost predicate NewestFirst<V>(rows: map<nat, V>, before: Option<nat>, offsets: seq<nat>) {
    && (forall n :: n in offsets <==> n in rows && (before.None? || n < before.value))
    && (forall i, j :: 0 <= i < j < |offsets| ==> offsets[j] < offsets[i])
  }

  function OffsetOf(key: seq<byte>): (offset: nat) {
    if |key| < 8 then 0 else UnBe(key[|key| - 8..])
  }

  function OffsetsOf(keys: seq<seq<byte>>): (offsets: seq<nat>)
    ensures |offsets| == |keys| && forall i :: 0 <= i < |keys| ==> offsets[i] == OffsetOf(keys[i])
  {
    if keys == [] then [] else [OffsetOf(keys[0])] + OffsetsOf(keys[1..])
  }

  lemma {:induction false} OffsetOfOffsetKey(file: FileId, n: nat)
    requires n < Limit(8)
    ensures OffsetOf(OffsetKey(file, n)) == n
  {
    assert OffsetKey(file, n)[|file|..] == Be(n, 8);
    UnBeOfBe(n, 8);
  }

  /** A key of the range is an offset key of the file, below the asked offset. */
  lemma {:induction false} KeyOfRange<V>(bytes: map<seq<byte>, seq<byte>>, rows: map<(FileId, nat), V>,
          read: seq<byte> -> Option<V>, file: FileId, before: Option<nat>, key: seq<byte>)
    requires Holds(bytes, rows, read) && |file| == HASH_BYTES && before != Some(0)
    requires before.Some? ==> before.value <= U64_MAX
    ensures key in bytes && InRange(key, OffsetKey(file, 0), OffsetKey(file, InclusiveEnd(before))) <==>
            OffsetOf(key) in RowsOf(rows, file) && key == OffsetKey(file, OffsetOf(key)) && (before.None? || OffsetOf(key) < before.value)
  {
    Limits();
    if key in bytes {
      var k :| k in rows && OffsetKey(k.0, k.1) == key;
      OffsetOfOffsetKey(k.0, k.1);
      OffsetRange(file, 0, InclusiveEnd(before), k.0, k.1);
    }
    if OffsetOf(key) in RowsOf(rows, file) && key == OffsetKey(file, OffsetOf(key)) {
      var k := (file, OffsetOf(key));
      assert k in rows && KeyFits(k);
    }
  }

  /** What the walk of a file's range below an offset goes over. */
  ghost predicate FileWalk<V>(bytes: map<seq<byte>, seq<byte>>, rows: map<(FileId, nat), V>,
          read: seq<byte> -> Option<V>, file: FileId, before: Option<nat>, keys: seq<seq<byte>>) {
    && Holds(bytes, rows, read) && |file| == HASH_BYTES && before != Some(0)
    && (before.Some? ==> before.value <= U64_MAX)
    && WalksBack(bytes, OffsetKey(file, 0), OffsetKey(file, InclusiveEnd(before)), keys)
  }

  lemma {:induction false} KeyOfWalk<V>(bytes: map<seq<byte>, seq<byte>>, rows: map<(FileId, nat), V>,
          read: seq<byte> -> Option<V>, file: FileId, before: Option<nat>, keys: seq<seq<byte>>, i: nat)
    requires FileWalk(bytes, rows, read, file, before, keys) && i < |keys|
    ensures var n := OffsetOf(keys[i]);
            && keys[i] in bytes && keys[i] == OffsetKey(file, n) && n < Limit(8)
            && (file, n) in rows && (before.None? || n < before.value)
  {
    assert keys[i] in keys;
    KeyOfRange(bytes, rows, read, file, before, keys[i]);
    assert KeyFits((file, OffsetOf(keys[i])));
  }

  lemma {:induction false} RowOfWalk<V>(bytes: map<seq<byte>, seq<byte>>, rows: map<(FileId, nat), V>,
          read: seq<byte> -> Option<V>, file: FileId, before: Option<nat>, keys: seq<seq<byte>>, n: nat)
    requires FileWalk(bytes, rows, read, file, before, keys)
    requires (file, n) in rows && (before.None? || n < before.value)
    ensures n in OffsetsOf(keys)
  {
    var key := OffsetKey(file, n);
    assert KeyFits((file, n));
    OffsetOfOffsetKey(file, n);
    assert n in RowsOf(rows, file);
    KeyOfRange(bytes, rows, read, file, before, key);
    var i :| 0 <= i < |keys| && keys[i] == key;
    assert OffsetsOf(keys)[i] == n;
  }

  lemma {:induction false} OffsetOfWalk<V>(bytes: map<seq<byte>, seq<byte>>, rows: map<(FileId, nat), V>,
          read: seq<byte> -> Option<V>, file: FileId, before: Option<nat>, keys: seq<seq<byte>>, n: nat)
    requires FileWalk(bytes, rows, read, file, before, keys)
    ensures n in OffsetsOf(keys) <==> n in RowsOf(rows, file) && (before.None? || n < before.value)
  {
    if n in OffsetsOf(keys) {
      var i :| 0 <= i < |OffsetsOf(keys)| && OffsetsOf(keys)[i] == n;
      KeyOfWalk(bytes, rows, read, file, before, keys, i);
    }
    if n in RowsOf(rows, file) && (before.None? || n < before.value) {
      RowOfWalk(bytes, rows, read, file, before, keys, n);
    }
  }

  /** The reverse walk meets the file's rows newest first. */
  lemma {:induction false} WalkIsNewestFirst<V>(bytes: map<seq<byte>, seq<byte>>, rows: map<(FileId, nat), V>,
          read: seq<byte> -> Option<V>, file: FileId, before: Option<nat>, keys: seq<seq<byte>>)
    requires FileWalk(bytes, rows, read, file, before, keys)
    ensures NewestFirst(RowsOf(rows, file), before, OffsetsOf(keys))
  {
    var offsets := OffsetsOf(keys);
    forall n: nat ensures n in offsets <==> n in RowsOf(rows, file) && (before.None? || n < before.value) {
      OffsetOfWalk(bytes, rows, read, file, before, keys, n);
    }
    forall i, j | 0 <= i < j < |keys| ensures offsets[j] < offsets[i] {
      WalkDescends(bytes, rows, read, file, before, keys, i, j);
    }
  }

  lemma {:induction false} WalkDescends<V>(bytes: map<seq<byte>, seq<byte>>, rows: map<(FileId, nat), V>,
          read: seq<byte> -> Option<V>, file: FileId, before: Option<nat>, keys: seq<seq<byte>>, i: nat, j: nat)
    requires FileWalk(bytes, rows, read, file, before, keys) && i < j < |keys|
    ensures OffsetOf(keys[j]) < OffsetOf(keys[i])
  {
    KeyOfWalk(bytes, rows, read, file, before, keys, i);
    KeyOfWalk(bytes, rows, read, file, before, keys, j);
    OffsetKeysKeepOrder(file, OffsetOf(keys[j]), file, OffsetOf(keys[i]));
    ByteOrderIsTotal(file, file);
  }

  lemma {:induction false} RestIsNewestFirst<V>(rows: map<nat, V>, before: Option<nat>, offsets: seq<nat>)
    requires NewestFirst(rows, before, offsets) && offsets != []
    ensures offsets[0] in rows && (before.None? || offsets[0] < before.value)
    ensures forall n :: n in rows && (before.None? || n < before.value) ==> n <= offsets[0]
    ensures NewestFirst(rows, Some(offsets[0]), offsets[1..])
  {
    assert offsets[0] in offsets;
    var rest := offsets[1..];
    forall n | n in rest ensures n in rows && n < offsets[0] {
      var i :| 0 <= i < |rest| && rest[i] == n;
      assert offsets[i + 1] == n && n in offsets;
    }
    forall n | n in rows && (before.None? || n < before.value) ensures n == offsets[0] || (n < offsets[0] && n in rest) {
      assert n in offsets;
      var i :| 0 <= i < |offsets| && offsets[i] == n;
      if i > 0 { assert rest[i - 1] == n; }
    }
  }

  /** Taking rows newest first is the table's own descending read. */
  lemma {:induction false} NewestFirstIsTurnsDesc(rows: map<nat, Turn>, before: Option<nat>, limit: nat, offsets: seq<nat>)
    requires NewestFirst(rows, before, offsets)
    ensures |TurnsDesc(rows, before, limit)| == Min(limit, |offsets|)
    ensures forall i :: 0 <= i < |TurnsDesc(rows, before, limit)| ==> offsets[i] in rows && TurnsDesc(rows, before, limit)[i] == rows[offsets[i]]
    decreases limit
  {
    NewestIsFirst(rows, before, offsets);
    if limit == 0 || offsets == [] { return; }
    NewestFirstIsTurnsDesc(rows, Some(offsets[0]), limit - 1, offsets[1..]);
    PageOnTop(rows, offsets, TurnsDesc(rows, Some(offsets[0]), limit - 1));
  }

  lemma {:induction false} PageOnTop(rows: map<nat, Turn>, offsets: seq<nat>, rest: seq<Turn>)
    requires offsets != [] && offsets[0] in rows && |rest| < |offsets|
    requires forall i :: 0 <= i < |rest| ==> offsets[1..][i] in rows && rest[i] == rows[offsets[1..][i]]
    ensures forall i :: 0 <= i <= |rest| ==> offsets[i] in rows && ([rows[offsets[0]]] + rest)[i] == rows[offsets[i]]
  {
    forall i | 0 < i <= |rest| ensures offsets[i] in rows && ([rows[offsets[0]]] + rest)[i] == rows[offsets[i]] {
      assert offsets[i] == offsets[1..][i - 1];
    }
  }

  lemma {:induction false} NewestIsFirst(rows: map<nat, Turn>, before: Option<nat>, offsets: seq<nat>)
    requires NewestFirst(rows, before, offsets)
    ensures KeysBelow(rows, before) == {} <==> offsets == []
    ensures offsets != [] ==> offsets[0] in rows && MaxKey(KeysBelow(rows, before)) == offsets[0]
    ensures offsets != [] ==> NewestFirst(rows, Some(offsets[0]), offsets[1..])
  {
    NewestKey(rows, before);
    if offsets != [] { RestIsNewestFirst(rows, before, offsets); }
    if KeysBelow(rows, before) != {} { assert MaxKey(KeysBelow(rows, before)) in offsets; }
  }

  /** Walking the byte table back from the asked offset yields the descending read of the plain rows. */
  lemma {:induction false} ByteReadIsTurnsDesc(bytes: map<seq<byte>, seq<byte>>, rows: map<(FileId, nat), Turn>,
          read: seq<byte> -> Option<Turn>, file: FileId, before: Option<nat>, limit: nat, keys: seq<seq<byte>>)
    requires FileWalk(bytes, rows, read, file, before, keys)
    ensures var page := TurnsDesc(RowsOf(rows, file), before, limit);
            |page| == Min(limit, |keys|) && forall i :: 0 <= i < |page| ==> keys[i] in bytes && read(bytes[keys[i]]) == Some(page[i])
  {
    WalkIsNewestFirst(bytes, rows, read, file, before, keys);
    NewestFirstIsTurnsDesc(RowsOf(rows, file), before, limit, OffsetsOf(keys));
    var page := TurnsDesc(RowsOf(rows, file), before, limit);
    forall i | 0 <= i < |page| ensures keys[i] in bytes && read(bytes[keys[i]]) == Some(page[i]) {
      KeyOfWalk(bytes, rows, read, file, before, keys, i);
      var k := (file, OffsetOf(keys[i]));
      assert k in rows && rows[k] == page[i] && OffsetKey(k.0, k.1) == keys[i];
    }
  }

  function WithoutRange(bytes: map<seq<byte>, seq<byte>>, lo: seq<byte>, hi: seq<byte>): (left: map<seq<byte>, seq<byte>>) {
    map b | b in bytes && !InRange(b, lo, hi) :: bytes[b]
  }

  function WithoutRowsOf<V>(rows: map<(FileId, nat), V>, file: FileId): (left: map<(FileId, nat), V>) {
    map k | k in rows && k.0 != file :: rows[k]
  }

  /** Clearing a file's whole key range leaves exactly the other files' rows. */
  lemma {:induction false} ClearedRangeHoldsTheRest<V>(bytes: map<seq<byte>, seq<byte>>,
          rows: map<(FileId, nat), V>, read: seq<byte> -> Option<V>, file: FileId)
    requires Holds(bytes, rows, read) && |file| == HASH_BYTES
    ensures Holds(WithoutRange(bytes, OffsetKey(file, 0), OffsetKey(file, U64_MAX)), WithoutRowsOf(rows, file), read)
  {
    var left := WithoutRange(bytes, OffsetKey(file, 0), OffsetKey(file, U64_MAX));
    forall k | k in rows ensures k.0 != file <==> OffsetKey(k.0, k.1) in left {
      StaysExactlyElsewhere(bytes, file, k);
    }
    forall b | b in left ensures exists k :: k in WithoutRowsOf(rows, file) && OffsetKey(k.0, k.1) == b {
      var k :| k in rows && OffsetKey(k.0, k.1) == b;
      assert k in WithoutRowsOf(rows, file);
    }
  }

  lemma {:induction false} StaysExactlyElsewhere(bytes: map<seq<byte>, seq<byte>>, file: FileId, k: (FileId, nat))
    requires |file| == HASH_BYTES && KeyFits(k) && OffsetKey(k.0, k.1) in bytes
    ensures OffsetKey(k.0, k.1) in WithoutRange(bytes, OffsetKey(file, 0), OffsetKey(file, U64_MAX)) <==> k.0 != file
  {
    Limits();
    OffsetRange(file, 0, U64_MAX, k.0, k.1);
  }
}
