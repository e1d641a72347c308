/**
 The index tables of store.rs. A redb write transaction is a value built aside and installed by
 one assignment; `IndexStore` holds the committed value. `FileTables` is what the tables say
 about one file, and `Publish` is the effect of one committed batch on it.
 */
module Store {
  import opened Wrappers
  import opened Transcript

  type FileId = seq<byte>
  type Digest = seq<byte>

  datatype RecordRef = RecordRef(offset: nat, length: nat, tag: byte)

  /** The durable checkpoint of one file. */
  datatype FileState = FileState(
    device: nat,
    inode: nat,
    indexedFrom: nat,
    indexedBytes: nat,
    records: nat,
    tailHash: Digest,
    modifiedNanos: nat
  ) {
    predicate IsComplete() { indexedFrom == 0 }
  }

  datatype ContentEntry = ContentEntry(digest: Digest, file: FileId, offset: nat, locator: seq<byte>)

  /** The rows one transaction adds, and the tombstones it sets, while it moves a file's checkpoint. */
  datatype IndexBatch = IndexBatch(
    records: seq<RecordRef>,
    turns: seq<Turn>,
    summaries: seq<(nat, Summary)>,
    removedTurns: seq<nat>,
    content: seq<ContentEntry>
  )

  datatype FileTables = FileTables(
    state: Option<FileState>,
    records: map<nat, RecordRef>,
    turns: map<nat, Turn>,
    turnsById: map<string, nat>,
    removed: set<nat>,
    summaries: map<nat, Summary>
  )

  const NO_ROWS := FileTables(None, map[], map[], map[], {}, map[])

  // --- What one batch does to its file ---

  function InsertRecords(rows: map<nat, RecordRef>, batch: seq<RecordRef>): (r: map<nat, RecordRef>) {
    if batch == [] then rows
    else
      var last := batch[|batch| - 1];
      InsertRecords(rows, batch[..|batch| - 1])[last.offset := last]
  }

  function InsertTurns(rows: map<nat, Turn>, removed: set<nat>, batch: seq<Turn>): (r: map<nat, Turn>) {
    if batch == [] then rows
    else
      var last, before := batch[|batch| - 1], InsertTurns(rows, removed, batch[..|batch| - 1]);
      if last.start in removed then before else before[last.start := last]
  }

  function InsertIds(ids: map<string, nat>, removed: set<nat>, batch: seq<Turn>): (r: map<string, nat>) {
    if batch == [] then ids
    else
      var last, before := batch[|batch| - 1], InsertIds(ids, removed, batch[..|batch| - 1]);
      if last.start in removed then before else before[last.id := last.start]
  }

  function InsertSummaries(rows: map<nat, Summary>, removed: set<nat>, batch: seq<(nat, Summary)>): (r: map<nat, Summary>) {
    if batch == [] then rows
    else
      var last, before := batch[|batch| - 1], InsertSummaries(rows, removed, batch[..|batch| - 1]);
      if last.0 in removed then before else before[last.0 := last.1]
  }

  lemma {:induction false} InsertTurnsConcat(rows: map<nat, Turn>, removed: set<nat>, a: seq<Turn>, b: seq<Turn>)
    ensures InsertTurns(rows, removed, a + b) == InsertTurns(InsertTurns(rows, removed, a), removed, b)
  {
    if b == [] {
      assert a + b == a;
    } else {
      assert (a + b)[..|a + b| - 1] == a + b[..|b| - 1];
      InsertTurnsConcat(rows, removed, a, b[..|b| - 1]);
    }
  }

  lemma {:induction false} InsertSummariesConcat(rows: map<nat, Summary>, removed: set<nat>,
          a: seq<(nat, Summary)>, b: seq<(nat, Summary)>)
    ensures InsertSummaries(rows, removed, a + b) == InsertSummaries(InsertSummaries(rows, removed, a), removed, b)
  {
    if b == [] {
      assert a + b == a;
    } else {
      assert (a + b)[..|a + b| - 1] == a + b[..|b| - 1];
      InsertSummariesConcat(rows, removed, a, b[..|b| - 1]);
    }
  }

  function Offsets(xs: seq<nat>): (r: set<nat>) {
    set x | x in xs
  }

  function IdsAt(turns: map<nat, Turn>, xs: set<nat>): (r: set<string>) {
    set x | x in xs && x in turns :: turns[x].id
  }

  /** Tombstones first, then the turns and summaries they do not hide. */
  function Publish(ft: FileTables, batch: IndexBatch, state: FileState): (r: FileTables) {
    var gone := Offsets(batch.removedTurns);
    var removed := ft.removed + gone;
    FileTables(
      Some(state),
      InsertRecords(ft.records, batch.records),
      InsertTurns(ft.turns - gone, removed, batch.turns),
      InsertIds(ft.turnsById - IdsAt(ft.turns, gone), removed, batch.turns),
      removed,
      InsertSummaries(ft.summaries - gone, removed, batch.summaries))
  }

  // --- Invariants of the tables ---

  /** No turn or summary row is tombstoned. */
  ghost predicate NoGhosts(ft: FileTables) {
    ft.turns.Keys !! ft.removed && ft.summaries.Keys !! ft.removed
  }

  lemma {:induction false} InsertTurnsAvoids(rows: map<nat, Turn>, removed: set<nat>, batch: seq<Turn>)
    requires rows.Keys !! removed
    ensures InsertTurns(rows, removed, batch).Keys !! removed
  {
    if batch != [] { InsertTurnsAvoids(rows, removed, batch[..|batch| - 1]); }
  }

  lemma {:induction false} InsertSummariesAvoids(rows: map<nat, Summary>, removed: set<nat>, batch: seq<(nat, Summary)>)
    requires rows.Keys !! removed
    ensures InsertSummaries(rows, removed, batch).Keys !! removed
  {
    if batch != [] { InsertSummariesAvoids(rows, removed, batch[..|batch| - 1]); }
  }

  lemma {:induction false} PublishKeepsNoGhosts(ft: FileTables, batch: IndexBatch, state: FileState)
    requires NoGhosts(ft)
    ensures NoGhosts(Publish(ft, batch, state))
  {
    var gone := Offsets(batch.removedTurns);
    InsertTurnsAvoids(ft.turns - gone, ft.removed + gone, batch.turns);
    InsertSummariesAvoids(ft.summaries - gone, ft.removed + gone, batch.summaries);
  }

  /** `turns` keyed by start and `turnsById` keyed by id are inverse to each other. */
  ghost predicate Inverse(turns: map<nat, Turn>, ids: map<string, nat>) {
    && (forall x :: x in turns ==> turns[x].start == x && turns[x].id in ids && ids[turns[x].id] == x)
    && (forall id :: id in ids ==> ids[id] in turns && turns[ids[id]].id == id)
  }

  /** A turn under its file's one-to-one naming: `names` says where an id starts, `owner` whose start a byte is. */
  ghost predicate Fits(t: Turn, names: map<string, nat>, owner: nat -> string) {
    t.id in names && names[t.id] == t.start && owner(t.start) == t.id
  }

  ghost predicate AllFit(turns: map<nat, Turn>, names: map<string, nat>, owner: nat -> string) {
    forall x :: x in turns ==> Fits(turns[x], names, owner)
  }

  lemma {:induction false} InsertOneKeepsInverse(turns: map<nat, Turn>, ids: map<string, nat>, t: Turn,
          names: map<string, nat>, owner: nat -> string)
    requires Inverse(turns, ids) && AllFit(turns, names, owner) && Fits(t, names, owner)
    ensures Inverse(turns[t.start := t], ids[t.id := t.start]) && AllFit(turns[t.start := t], names, owner)
  {
    assert t.start in turns ==> Fits(turns[t.start], names, owner);
    assert t.id in ids ==> Fits(turns[ids[t.id]], names, owner);
  }

  lemma {:induction false} InsertKeepsInverse(turns: map<nat, Turn>, ids: map<string, nat>, removed: set<nat>,
          batch: seq<Turn>, names: map<string, nat>, owner: nat -> string)
    requires Inverse(turns, ids) && AllFit(turns, names, owner)
    requires forall i :: 0 <= i < |batch| ==> Fits(batch[i], names, owner)
    ensures Inverse(InsertTurns(turns, removed, batch), InsertIds(ids, removed, batch))
    ensures AllFit(InsertTurns(turns, removed, batch), names, owner)
  {
    if batch != [] {
      var init, last := batch[..|batch| - 1], batch[|batch| - 1];
      InsertKeepsInverse(turns, ids, removed, init, names, owner);
      if last.start !in removed {
        InsertOneKeepsInverse(InsertTurns(turns, removed, init), InsertIds(ids, removed, init), last, names, owner);
      }
    }
  }

  lemma {:induction false} RemovalKeepsInverse(turns: map<nat, Turn>, ids: map<string, nat>, gone: set<nat>)
    requires Inverse(turns, ids)
    ensures Inverse(turns - gone, ids - IdsAt(turns, gone))
  {
    var turns', ids' := turns - gone, ids - IdsAt(turns, gone);
    forall x | x in turns' ensures turns'[x].start == x && turns'[x].id in ids' && ids'[turns'[x].id] == x {
      assert x in turns && ids[turns[x].id] == x;
      assert forall y :: y in gone && y in turns ==> ids[turns[y].id] == y;
    }
    forall id | id in ids' ensures ids'[id] in turns' && turns'[ids'[id]].id == id {
      assert id !in IdsAt(turns, gone) && turns[ids[id]].id == id;
    }
  }

  lemma {:induction false} PublishKeepsInverse(ft: FileTables, batch: IndexBatch, state: FileState,
          names: map<string, nat>, owner: nat -> string)
    requires Inverse(ft.turns, ft.turnsById) && AllFit(ft.turns, names, owner)
    requires forall i :: 0 <= i < |batch.turns| ==> Fits(batch.turns[i], names, owner)
    ensures Inverse(Publish(ft, batch, state).turns, Publish(ft, batch, state).turnsById)
  {
    var gone := Offsets(batch.removedTurns);
    RemovalKeepsInverse(ft.turns, ft.turnsById, gone);
    InsertKeepsInverse(ft.turns - gone, ft.turnsById - IdsAt(ft.turns, gone), ft.removed + gone, batch.turns, names, owner);
  }

  // --- The flat tables of every file ---

  datatype Tables = Tables(
    files: map<FileId, FileState>,
    records: map<(FileId, nat), RecordRef>,
    turns: map<(FileId, nat), Turn>,
    turnsById: map<(FileId, string), nat>,
    removed: set<(FileId, nat)>,
    summaries: map<(FileId, nat), Summary>,
    content: map<(Digest, FileId, nat), seq<byte>>,
    contentByFile: set<(FileId, Digest, nat)>
  )

  function RowsOf<K(==), V>(rows: map<(FileId, K), V>, file: FileId): (r: map<K, V>) {
    map k | k in rows && k.0 == file :: k.1 := rows[k]
  }

  function KeysOf<K>(keys: set<(FileId, K)>, file: FileId): (r: set<K>) {
    set k | k in keys && k.0 == file :: k.1
  }

  function ViewOf(t: Tables, file: FileId): (ft: FileTables) {
    FileTables(
      if file in t.files then Some(t.files[file]) else None,
      RowsOf(t.records, file), RowsOf(t.turns, file), RowsOf(t.turnsById, file),
      KeysOf(t.removed, file), RowsOf(t.summaries, file))
  }

  /** `content` and `content_by_file` hold the same triples. */
  ghost predicate Mirrored(t: Tables) {
    && (forall k :: k in t.content ==> (k.1, k.0, k.2) in t.contentByFile)
    && (forall k :: k in t.contentByFile ==> (k.1, k.0, k.2) in t.content)
  }

  /** Writing or removing a row of one file changes that file's view and no other. */
  lemma {:induction false} PutRow<K, V>(rows: map<(FileId, K), V>, file: FileId, key: K, value: V, other: FileId)
    ensures RowsOf(rows[(file, key) := value], file) == RowsOf(rows, file)[key := value]
    ensures other != file ==> RowsOf(rows[(file, key) := value], other) == RowsOf(rows, other)
  {
  }

  lemma {:induction false} DropRow<K, V>(rows: map<(FileId, K), V>, file: FileId, key: K, other: FileId)
    ensures RowsOf(rows - {(file, key)}, file) == RowsOf(rows, file) - {key}
    ensures other != file ==> RowsOf(rows - {(file, key)}, other) == RowsOf(rows, other)
  {
  }

  lemma {:induction false} PutKey<K>(keys: set<(FileId, K)>, file: FileId, key: K, other: FileId)
    ensures KeysOf(keys + {(file, key)}, file) == KeysOf(keys, file) + {key}
    ensures other != file ==> KeysOf(keys + {(file, key)}, other) == KeysOf(keys, other)
  {
    var more := keys + {(file, key)};
    forall k ensures k in KeysOf(more, file) <==> k in KeysOf(keys, file) + {key} {
      assert (file, k) in more <==> (file, k) in keys || k == key;
    }
    forall k | other != file ensures k in KeysOf(more, other) <==> k in KeysOf(keys, other) {
      assert (other, k) in more <==> (other, k) in keys;
    }
  }

  // The four writes of a commit, row by row.

  function PutRecords(t: Tables, file: FileId, batch: seq<RecordRef>): (r: Tables) {
    if batch == [] then t
    else
      var last, before := batch[|batch| - 1], PutRecords(t, file, batch[..|batch| - 1]);
      before.(records := before.records[(file, last.offset) := last])
  }

  function Entomb(t: Tables, file: FileId, offset: nat): (r: Tables) {
    var key := (file, offset);
    t.(turnsById := if key in t.turns then t.turnsById - {(file, t.turns[key].id)} else t.turnsById,
       turns := t.turns - {key},
       summaries := t.summaries - {key},
       removed := t.removed + {key})
  }

  function EntombAll(t: Tables, file: FileId, batch: seq<nat>): (r: Tables) {
    if batch == [] then t else Entomb(EntombAll(t, file, batch[..|batch| - 1]), file, batch[|batch| - 1])
  }

  function PutTurn(t: Tables, file: FileId, turn: Turn): (r: Tables) {
    if (file, turn.start) in t.removed then t
    else t.(turns := t.turns[(file, turn.start) := turn], turnsById := t.turnsById[(file, turn.id) := turn.start])
  }

  function PutTurns(t: Tables, file: FileId, batch: seq<Turn>): (r: Tables) {
    if batch == [] then t else PutTurn(PutTurns(t, file, batch[..|batch| - 1]), file, batch[|batch| - 1])
  }

  function PutSummary(t: Tables, file: FileId, start: nat, summary: Summary): (r: Tables) {
    if (file, start) in t.removed then t else t.(summaries := t.summaries[(file, start) := summary])
  }

  function PutSummaries(t: Tables, file: FileId, batch: seq<(nat, Summary)>): (r: Tables) {
    if batch == [] then t
    else
      var last := batch[|batch| - 1];
      PutSummary(PutSummaries(t, file, batch[..|batch| - 1]), file, last.0, last.1)
  }

  function PutContent(t: Tables, batch: seq<ContentEntry>): (r: Tables) {
    if batch == [] then t
    else
      var e, before := batch[|batch| - 1], PutContent(t, batch[..|batch| - 1]);
      before.(content := before.content[(e.digest, e.file, e.offset) := e.locator],
              contentByFile := before.contentByFile + {(e.file, e.digest, e.offset)})
  }

  function Committed(t: Tables, file: FileId, batch: IndexBatch, state: FileState): (r: Tables) {
    var rows := PutSummaries(PutTurns(EntombAll(PutRecords(t, file, batch.records), file, batch.removedTurns), file, batch.turns), file, batch.summaries);
    var all := PutContent(rows, batch.content);
    all.(files := all.files[file := state])
  }

  // The loops of a write transaction, over the tables it has open.

  method WriteRecords(t: Tables, file: FileId, batch: seq<RecordRef>) returns (write: Tables)
    ensures write == PutRecords(t, file, batch)
  {
    write := t;
    var i := 0;
    while i < |batch|
      invariant 0 <= i <= |batch| && write == PutRecords(t, file, batch[..i])
    {
      assert batch[..i + 1][..i] == batch[..i];
      write := write.(records := write.records[(file, batch[i].offset) := batch[i]]);
      i := i + 1;
    }
    assert batch[..i] == batch;
  }

  method WriteTombstones(t: Tables, file: FileId, batch: seq<nat>) returns (write: Tables)
    ensures write == EntombAll(t, file, batch)
  {
    write := t;
    var i := 0;
    while i < |batch|
      invariant 0 <= i <= |batch| && write == EntombAll(t, file, batch[..i])
    {
      assert batch[..i + 1][..i] == batch[..i];
      write := Entomb(write, file, batch[i]);
      i := i + 1;
    }
    assert batch[..i] == batch;
  }

  method WriteTurns(t: Tables, file: FileId, batch: seq<Turn>) returns (write: Tables)
    ensures write == PutTurns(t, file, batch)
  {
    write := t;
    var i := 0;
    while i < |batch|
      invariant 0 <= i <= |batch| && write == PutTurns(t, file, batch[..i])
    {
      assert batch[..i + 1][..i] == batch[..i];
      write := PutTurn(write, file, batch[i]);
      i := i + 1;
    }
    assert batch[..i] == batch;
  }

  method WriteSummaries(t: Tables, file: FileId, batch: seq<(nat, Summary)>) returns (write: Tables)
    ensures write == PutSummaries(t, file, batch)
  {
    write := t;
    var i := 0;
    while i < |batch|
      invariant 0 <= i <= |batch| && write == PutSummaries(t, file, batch[..i])
    {
      assert batch[..i + 1][..i] == batch[..i];
      write := PutSummary(write, file, batch[i].0, batch[i].1);
      i := i + 1;
    }
    assert batch[..i] == batch;
  }

  method WriteContent(t: Tables, batch: seq<ContentEntry>) returns (write: Tables)
    ensures write == PutContent(t, batch)
  {
    write := t;
    var i := 0;
    while i < |batch|
      invariant 0 <= i <= |batch| && write == PutContent(t, batch[..i])
    {
      assert batch[..i + 1][..i] == batch[..i];
      var e := batch[i];
      write := write.(content := write.content[(e.digest, e.file, e.offset) := e.locator],
                      contentByFile := write.contentByFile + {(e.file, e.digest, e.offset)});
      i := i + 1;
    }
    assert batch[..i] == batch;
  }

  class IndexStore {
    var tables: Tables

    constructor ()
      ensures tables == Tables(map[], map[], map[], map[], {}, map[], map[], {})
    {
      tables := Tables(map[], map[], map[], map[], {}, map[], map[], {});
    }

    method CommitIndexBatch(file: FileId, batch: IndexBatch, state: FileState)
      modifies this
      ensures tables == Committed(old(tables), file, batch, state)
    {
      var write := WriteRecords(tables, file, batch.records);
      write := WriteTombstones(write, file, batch.removedTurns);
      write := WriteTurns(write, file, batch.turns);
      write := WriteSummaries(write, file, batch.summaries);
      write := WriteContent(write, batch.content);
      tables := write.(files := write.files[file := state]);
    }

    /** Forgets one replaced or truncated file. The reverse content rows name the content rows to delete. */
    method ResetFile(file: FileId)
      modifies this
      ensures tables == Cleared(old(tables), file)
    {
      var t := tables;
      var keys := ContentOf(t, file);
      var content, contentByFile := t.content, t.contentByFile;
      ghost var mine := keys;
      while keys != {}
        invariant keys <= mine && contentByFile == t.contentByFile - (mine - keys)
        invariant content == t.content - Flipped(mine - keys)
        decreases |keys|
      {
        var key :| key in keys;
        FlippedMore(t.content, mine - keys, key);
        assert mine - (keys - {key}) == (mine - keys) + {key};
        keys := keys - {key};
        content, contentByFile := content - {(key.1, key.0, key.2)}, contentByFile - {key};
      }
      assert mine - keys == mine;
      tables := Tables(
        t.files - {file},
        WithoutFile(t.records, file), WithoutFile(t.turns, file), WithoutFile(t.turnsById, file),
        KeysWithout(t.removed, file),
        WithoutFile(t.summaries, file), content, contentByFile);
    }

    /** Stores one projection without moving the checkpoint. */
    method PutTurnSummaryState(file: FileId, start: nat, state: Summary)
      modifies this
      ensures tables == old(tables).(summaries := old(tables).summaries[(file, start) := state])
    {
      tables := tables.(summaries := tables.summaries[(file, start) := state]);
    }
  }

  function WithoutFile<K(==), V>(rows: map<(FileId, K), V>, file: FileId): (r: map<(FileId, K), V>) {
    map k | k in rows && k.0 != file :: rows[k]
  }

  function KeysWithout<K(==)>(keys: set<(FileId, K)>, file: FileId): (r: set<(FileId, K)>) {
    set k | k in keys && k.0 != file
  }

  /** The reverse content rows of one file. */
  function ContentOf(t: Tables, file: FileId): (r: set<(FileId, Digest, nat)>) {
    set k | k in t.contentByFile && k.0 == file
  }

  /** The primary keys of reverse content rows. */
  function Flipped(keys: set<(FileId, Digest, nat)>): (r: set<(Digest, FileId, nat)>) {
    set k | k in keys :: (k.1, k.0, k.2)
  }

  lemma {:induction false} FlippedMore<V>(content: map<(Digest, FileId, nat), V>,
          keys: set<(FileId, Digest, nat)>, key: (FileId, Digest, nat))
    ensures content - Flipped(keys + {key}) == content - Flipped(keys) - {(key.1, key.0, key.2)}
  {
  }

  function Cleared(t: Tables, file: FileId): (r: Tables) {
    var mine := ContentOf(t, file);
    Tables(
      t.files - {file},
      WithoutFile(t.records, file), WithoutFile(t.turns, file), WithoutFile(t.turnsById, file),
      KeysWithout(t.removed, file),
      WithoutFile(t.summaries, file),
      t.content - Flipped(mine), t.contentByFile - mine)
  }

  // --- What a commit and a reset mean file by file ---

  lemma {:induction false} PutRecordsView(t: Tables, file: FileId, batch: seq<RecordRef>, other: FileId)
    ensures ViewOf(PutRecords(t, file, batch), file) == ViewOf(t, file).(records := InsertRecords(ViewOf(t, file).records, batch))
    ensures other != file ==> ViewOf(PutRecords(t, file, batch), other) == ViewOf(t, other)
  {
    if batch != [] {
      var before, last := PutRecords(t, file, batch[..|batch| - 1]), batch[|batch| - 1];
      PutRecordsView(t, file, batch[..|batch| - 1], other);
      PutRow(before.records, file, last.offset, last, other);
    }
  }

  lemma {:induction false} EntombView(t: Tables, file: FileId, offset: nat)
    ensures var v, v' := ViewOf(t, file), ViewOf(Entomb(t, file, offset), file);
            && v'.state == v.state && v'.records == v.records
            && v'.turns == v.turns - {offset} && v'.summaries == v.summaries - {offset} && v'.removed == v.removed + {offset}
            && v'.turnsById == v.turnsById - (if offset in v.turns then {v.turns[offset].id} else {})
  {
    var key := (file, offset);
    assert key in t.turns <==> offset in RowsOf(t.turns, file);
    DropRow(t.turns, file, offset, file);
    DropRow(t.summaries, file, offset, file);
    PutKey(t.removed, file, offset, file);
    EntombIds(t, file, offset);
  }

  lemma {:induction false} EntombIds(t: Tables, file: FileId, offset: nat)
    ensures var turns, ids := RowsOf(t.turns, file), RowsOf(t.turnsById, file);
            RowsOf(Entomb(t, file, offset).turnsById, file) == ids - (if offset in turns then {turns[offset].id} else {})
  {
    if (file, offset) in t.turns { DropRow(t.turnsById, file, t.turns[(file, offset)].id, file); }
    else { assert RowsOf(t.turnsById, file) - {} == RowsOf(t.turnsById, file); }
  }

  lemma {:induction false} EntombElsewhere(t: Tables, file: FileId, offset: nat, other: FileId)
    requires other != file
    ensures ViewOf(Entomb(t, file, offset), other) == ViewOf(t, other)
  {
    DropRow(t.turns, file, offset, other);
    DropRow(t.summaries, file, offset, other);
    PutKey(t.removed, file, offset, other);
    if (file, offset) in t.turns { DropRow(t.turnsById, file, t.turns[(file, offset)].id, other); }
  }

  lemma {:induction false} OffsetsSnoc(xs: seq<nat>)
    requires xs != []
    ensures Offsets(xs) == Offsets(xs[..|xs| - 1]) + {xs[|xs| - 1]}
  {
    assert xs == xs[..|xs| - 1] + [xs[|xs| - 1]];
  }

  lemma {:induction false} IdsAtSnoc(turns: map<nat, Turn>, gone: set<nat>, x: nat)
    ensures IdsAt(turns, gone + {x}) == IdsAt(turns, gone) + IdsAt(turns - gone, {x})
  {
  }

  lemma {:induction false} WithoutTwice<K, V>(m: map<K, V>, a: set<K>, b: set<K>)
    ensures (m - a) - b == m - (a + b)
  {
  }

  /** `v'` is `v` without the turns that start in `gone`, which are tombstoned. */
  ghost predicate Entombed(v: FileTables, v': FileTables, gone: set<nat>) {
    && v'.state == v.state && v'.records == v.records
    && v'.turns == v.turns - gone && v'.summaries == v.summaries - gone && v'.removed == v.removed + gone
    && v'.turnsById == v.turnsById - IdsAt(v.turns, gone)
  }

  lemma {:induction false} EntombedTwice(v: FileTables, v1: FileTables, v2: FileTables, gone: set<nat>, x: nat)
    requires Entombed(v, v1, gone) && Entombed(v1, v2, {x})
    ensures Entombed(v, v2, gone + {x})
  {
    IdsAtSnoc(v.turns, gone, x);
    WithoutTwice(v.turns, gone, {x});
    WithoutTwice(v.summaries, gone, {x});
    WithoutTwice(v.turnsById, IdsAt(v.turns, gone), IdsAt(v1.turns, {x}));
    assert v.removed + gone + {x} == v.removed + (gone + {x});
  }

  lemma {:induction false} EntombOne(t: Tables, file: FileId, offset: nat)
    ensures Entombed(ViewOf(t, file), ViewOf(Entomb(t, file, offset), file), {offset})
  {
    EntombView(t, file, offset);
    IdsAtOne(ViewOf(t, file).turns, offset);
  }

  lemma {:induction false} IdsAtOne(turns: map<nat, Turn>, x: nat)
    ensures IdsAt(turns, {x}) == if x in turns then {turns[x].id} else {}
  {
  }

  lemma {:induction false} EntombAllView(t: Tables, file: FileId, batch: seq<nat>)
    ensures Entombed(ViewOf(t, file), ViewOf(EntombAll(t, file, batch), file), Offsets(batch))
  {
    if batch == [] {
      EntombNone(ViewOf(t, file));
    } else {
      var init, last := batch[..|batch| - 1], batch[|batch| - 1];
      EntombAllView(t, file, init);
      EntombOne(EntombAll(t, file, init), file, last);
      EntombedTwice(ViewOf(t, file), ViewOf(EntombAll(t, file, init), file), ViewOf(EntombAll(t, file, batch), file), Offsets(init), last);
      OffsetsSnoc(batch);
    }
  }

  lemma {:induction false} EntombNone(v: FileTables)
    ensures Entombed(v, v, Offsets([]))
  {
    assert Offsets([]) == {} && IdsAt(v.turns, {}) == {};
  }

  lemma {:induction false} EntombAllElsewhere(t: Tables, file: FileId, batch: seq<nat>, other: FileId)
    requires other != file
    ensures ViewOf(EntombAll(t, file, batch), other) == ViewOf(t, other)
  {
    if batch != [] {
      EntombAllElsewhere(t, file, batch[..|batch| - 1], other);
      EntombElsewhere(EntombAll(t, file, batch[..|batch| - 1]), file, batch[|batch| - 1], other);
    }
  }

  lemma {:induction false} PutTurnsView(t: Tables, file: FileId, batch: seq<Turn>, other: FileId)
    ensures var v := ViewOf(t, file);
            ViewOf(PutTurns(t, file, batch), file)
            == v.(turns := InsertTurns(v.turns, v.removed, batch), turnsById := InsertIds(v.turnsById, v.removed, batch))
    ensures other != file ==> ViewOf(PutTurns(t, file, batch), other) == ViewOf(t, other)
  {
    if batch != [] {
      var before, last := PutTurns(t, file, batch[..|batch| - 1]), batch[|batch| - 1];
      PutTurnsView(t, file, batch[..|batch| - 1], other);
      assert (file, last.start) in before.removed <==> last.start in ViewOf(before, file).removed;
      PutRow(before.turns, file, last.start, last, other);
      PutRow(before.turnsById, file, last.id, last.start, other);
    }
  }

  lemma {:induction false} PutSummariesView(t: Tables, file: FileId, batch: seq<(nat, Summary)>, other: FileId)
    ensures var v := ViewOf(t, file);
            ViewOf(PutSummaries(t, file, batch), file) == v.(summaries := InsertSummaries(v.summaries, v.removed, batch))
    ensures other != file ==> ViewOf(PutSummaries(t, file, batch), other) == ViewOf(t, other)
  {
    if batch != [] {
      var before, last := PutSummaries(t, file, batch[..|batch| - 1]), batch[|batch| - 1];
      PutSummariesView(t, file, batch[..|batch| - 1], other);
      assert (file, last.0) in before.removed <==> last.0 in ViewOf(before, file).removed;
      PutRow(before.summaries, file, last.0, last.1, other);
    }
  }

  lemma {:induction false} PutContentKeeps(t: Tables, batch: seq<ContentEntry>)
    requires Mirrored(t)
    ensures Mirrored(PutContent(t, batch))
  {
    if batch != [] { PutContentKeeps(t, batch[..|batch| - 1]); }
  }

  lemma {:induction false} PutContentView(t: Tables, batch: seq<ContentEntry>, file: FileId)
    ensures ViewOf(PutContent(t, batch), file) == ViewOf(t, file)
  {
    if batch != [] { PutContentView(t, batch[..|batch| - 1], file); }
  }

  /** One committed batch publishes its rows for its own file, atomically. */
  lemma {:induction false} CommitView(t: Tables, file: FileId, batch: IndexBatch, state: FileState)
    ensures ViewOf(Committed(t, file, batch, state), file) == Publish(ViewOf(t, file), batch, state)
  {
    var a := PutRecords(t, file, batch.records);
    PutRecordsView(t, file, batch.records, file);
    var b := EntombAll(a, file, batch.removedTurns);
    EntombAllView(a, file, batch.removedTurns);
    var c := PutTurns(b, file, batch.turns);
    PutTurnsView(b, file, batch.turns, file);
    PutSummariesView(c, file, batch.summaries, file);
    PutContentView(PutSummaries(c, file, batch.summaries), batch.content, file);
  }

  /** A commit touches no other file. */
  lemma {:induction false} CommitElsewhere(t: Tables, file: FileId, batch: IndexBatch, state: FileState, other: FileId)
    requires other != file
    ensures ViewOf(Committed(t, file, batch, state), other) == ViewOf(t, other)
  {
    var a := PutRecords(t, file, batch.records);
    PutRecordsView(t, file, batch.records, other);
    var b := EntombAll(a, file, batch.removedTurns);
    EntombAllElsewhere(a, file, batch.removedTurns, other);
    var c := PutTurns(b, file, batch.turns);
    PutTurnsView(b, file, batch.turns, other);
    PutSummariesView(c, file, batch.summaries, other);
    PutContentView(PutSummaries(c, file, batch.summaries), batch.content, other);
  }

  /** Only the content write reaches the content tables. */
  ghost predicate SameContent(t: Tables, t': Tables) {
    t'.content == t.content && t'.contentByFile == t.contentByFile
  }

  lemma {:induction false} RecordsKeepContent(t: Tables, file: FileId, batch: seq<RecordRef>)
    ensures SameContent(t, PutRecords(t, file, batch))
  {
    if batch != [] { RecordsKeepContent(t, file, batch[..|batch| - 1]); }
  }

  lemma {:induction false} TombstonesKeepContent(t: Tables, file: FileId, batch: seq<nat>)
    ensures SameContent(t, EntombAll(t, file, batch))
  {
    if batch != [] { TombstonesKeepContent(t, file, batch[..|batch| - 1]); }
  }

  lemma {:induction false} TurnsKeepContent(t: Tables, file: FileId, batch: seq<Turn>)
    ensures SameContent(t, PutTurns(t, file, batch))
  {
    if batch != [] { TurnsKeepContent(t, file, batch[..|batch| - 1]); }
  }

  lemma {:induction false} SummariesKeepContent(t: Tables, file: FileId, batch: seq<(nat, Summary)>)
    ensures SameContent(t, PutSummaries(t, file, batch))
  {
    if batch != [] { SummariesKeepContent(t, file, batch[..|batch| - 1]); }
  }

  /** Entry `i` of a batch is the last one that names this content row. */
  predicate LastNaming(batch: seq<ContentEntry>, i: nat, digest: Digest, file: FileId, offset: nat) {
    && i < |batch| && NamesRow(batch[i], digest, file, offset)
    && forall j :: i < j < |batch| ==> !NamesRow(batch[j], digest, file, offset)
  }

  predicate NamesRow(e: ContentEntry, digest: Digest, file: FileId, offset: nat) {
    e.digest == digest && e.file == file && e.offset == offset
  }

  predicate NamesKey(batch: seq<ContentEntry>, digest: Digest, file: FileId, offset: nat) {
    exists i: nat :: i < |batch| && NamesRow(batch[i], digest, file, offset)
  }

  lemma {:induction false} NamesSnoc(batch: seq<ContentEntry>, digest: Digest, file: FileId, offset: nat)
    requires batch != []
    ensures var init, last := batch[..|batch| - 1], batch[|batch| - 1];
            NamesKey(batch, digest, file, offset) <==> NamesKey(init, digest, file, offset) || NamesRow(last, digest, file, offset)
  {
    var init := batch[..|batch| - 1];
    if i: nat :| i < |init| && NamesRow(init[i], digest, file, offset) {
      assert NamesRow(batch[i], digest, file, offset);
    }
    if i: nat :| i < |batch| && NamesRow(batch[i], digest, file, offset) {
      if i < |init| { assert NamesRow(init[i], digest, file, offset); }
    }
  }

  lemma {:induction false} LastNamingSnoc(batch: seq<ContentEntry>, i: nat, digest: Digest, file: FileId, offset: nat)
    requires LastNaming(batch, i, digest, file, offset)
    ensures i == |batch| - 1
            || (LastNaming(batch[..|batch| - 1], i, digest, file, offset) && !NamesRow(batch[|batch| - 1], digest, file, offset))
  {
  }

  lemma {:induction false} NamedHasLast(batch: seq<ContentEntry>, digest: Digest, file: FileId, offset: nat) returns (i: nat)
    requires NamesKey(batch, digest, file, offset)
    ensures LastNaming(batch, i, digest, file, offset)
  {
    var last := |batch| - 1;
    if NamesRow(batch[last], digest, file, offset) {
      i := last;
    } else {
      NamesSnoc(batch, digest, file, offset);
      i := NamedHasLast(batch[..last], digest, file, offset);
    }
  }

  /** Between `t` and `t'` exactly the named content rows were put, in both content tables. */
  ghost predicate Stores(t: Tables, t': Tables, batch: seq<ContentEntry>, digest: Digest, file: FileId, offset: nat) {
    && ((digest, file, offset) in t'.content <==> (digest, file, offset) in t.content || NamesKey(batch, digest, file, offset))
    && ((file, digest, offset) in t'.contentByFile <==> (file, digest, offset) in t.contentByFile || NamesKey(batch, digest, file, offset))
    && (!NamesKey(batch, digest, file, offset) && (digest, file, offset) in t.content ==>
          t'.content[(digest, file, offset)] == t.content[(digest, file, offset)])
    && (forall i: nat :: (digest, file, offset) in t'.content && LastNaming(batch, i, digest, file, offset) ==>
          t'.content[(digest, file, offset)] == batch[i].locator)
  }

  lemma {:induction false} StoresMore(t: Tables, t1: Tables, t2: Tables, batch: seq<ContentEntry>, digest: Digest,
          file: FileId, offset: nat)
    requires batch != [] && Stores(t, t1, batch[..|batch| - 1], digest, file, offset)
    requires var e := batch[|batch| - 1];
             && t2.content == t1.content[(e.digest, e.file, e.offset) := e.locator]
             && t2.contentByFile == t1.contentByFile + {(e.file, e.digest, e.offset)}
    ensures Stores(t, t2, batch, digest, file, offset)
  {
    NamesSnoc(batch, digest, file, offset);
    forall i: nat | LastNaming(batch, i, digest, file, offset)
      ensures (digest, file, offset) in t2.content ==> t2.content[(digest, file, offset)] == batch[i].locator
    {
      LastNamingSnoc(batch, i, digest, file, offset);
    }
  }

  lemma {:induction false} PutContentIs(t: Tables, batch: seq<ContentEntry>, digest: Digest, file: FileId, offset: nat)
    ensures Stores(t, PutContent(t, batch), batch, digest, file, offset)
  {
    if batch != [] {
      var init := batch[..|batch| - 1];
      PutContentIs(t, init, digest, file, offset);
      StoresMore(t, PutContent(t, init), PutContent(t, batch), batch, digest, file, offset);
    }
  }

  /**
   A commit stores its batch's content: a row is there exactly if it was before or the batch names it,
   in both content tables; its locator is that of the last entry naming it, otherwise the old one.
   */
  lemma {:induction false} CommitStoresContent(t: Tables, file: FileId, batch: IndexBatch, state: FileState,
          digest: Digest, owner: FileId, offset: nat)
    ensures Stores(t, Committed(t, file, batch, state), batch.content, digest, owner, offset)
  {
    var a := PutRecords(t, file, batch.records);
    RecordsKeepContent(t, file, batch.records);
    var b := EntombAll(a, file, batch.removedTurns);
    TombstonesKeepContent(a, file, batch.removedTurns);
    var c := PutTurns(b, file, batch.turns);
    TurnsKeepContent(b, file, batch.turns);
    SummariesKeepContent(c, file, batch.summaries);
    PutContentIs(PutSummaries(c, file, batch.summaries), batch.content, digest, owner, offset);
  }

  lemma {:induction false} CommitKeepsMirrored(t: Tables, file: FileId, batch: IndexBatch, state: FileState)
    requires Mirrored(t)
    ensures Mirrored(Committed(t, file, batch, state))
  {
    var a := PutRecords(t, file, batch.records);
    RecordsKeepContent(t, file, batch.records);
    var b := EntombAll(a, file, batch.removedTurns);
    TombstonesKeepContent(a, file, batch.removedTurns);
    var c := PutTurns(b, file, batch.turns);
    TurnsKeepContent(b, file, batch.turns);
    SummariesKeepContent(c, file, batch.summaries);
    PutContentKeeps(PutSummaries(c, file, batch.summaries), batch.content);
  }

  lemma {:induction false} RowsWithout<K, V>(rows: map<(FileId, K), V>, file: FileId, other: FileId)
    ensures RowsOf(WithoutFile(rows, file), file) == map[]
    ensures other != file ==> RowsOf(WithoutFile(rows, file), other) == RowsOf(rows, other)
  {
  }

  /** A reset leaves nothing of its file. */
  lemma {:induction false} ResetClears(t: Tables, file: FileId)
    ensures ViewOf(Cleared(t, file), file) == NO_ROWS
  {
    RowsWithout(t.records, file, file);
    RowsWithout(t.turns, file, file);
    RowsWithout(t.turnsById, file, file);
    RowsWithout(t.summaries, file, file);
    assert KeysOf(Cleared(t, file).removed, file) == {};
  }

  /** A reset leaves every other file as it was. */
  lemma {:induction false} ResetElsewhere(t: Tables, file: FileId, other: FileId)
    requires other != file
    ensures ViewOf(Cleared(t, file), other) == ViewOf(t, other)
  {
    RowsWithout(t.records, file, other);
    RowsWithout(t.turns, file, other);
    RowsWithout(t.turnsById, file, other);
    RowsWithout(t.summaries, file, other);
    var r := Cleared(t, file);
    forall x ensures x in KeysOf(r.removed, other) <==> x in KeysOf(t.removed, other) {
      assert (other, x) in r.removed <==> (other, x) in t.removed;
    }
  }

  /** A reset removes the file's content from both content tables, and no other content. */
  lemma {:induction false} ResetClearsContent(t: Tables, file: FileId)
    requires Mirrored(t)
    ensures Mirrored(Cleared(t, file))
    ensures forall k :: k in Cleared(t, file).content <==> k in t.content && k.1 != file
    ensures forall k :: k in Cleared(t, file).content ==> Cleared(t, file).content[k] == t.content[k]
  {
    var r := Cleared(t, file);
    forall k ensures k in r.content <==> k in t.content && k.1 != file {
      if k in t.content && k.1 == file { assert (k.1, k.0, k.2) in t.contentByFile; }
    }
  }

  // --- One file's lane ---

  /** The transactions an index operation runs on its file. */
  datatype Write =
    | CommitWrite(batch: IndexBatch, state: FileState)
    | ResetWrite
    | SummaryWrite(start: nat, summary: Summary)

  function StoreAfter(t: Tables, file: FileId, write: Write): (t': Tables) {
    match write
    case CommitWrite(batch, state) => Committed(t, file, batch, state)
    case ResetWrite => Cleared(t, file)
    case SummaryWrite(start, summary) => t.(summaries := t.summaries[(file, start) := summary])
  }

  function RowsAfter(ft: FileTables, write: Write): (ft': FileTables) {
    match write
    case CommitWrite(batch, state) => Publish(ft, batch, state)
    case ResetWrite => NO_ROWS
    case SummaryWrite(start, summary) => ft.(summaries := ft.summaries[start := summary])
  }

  function StoreReplay(t: Tables, file: FileId, writes: seq<Write>): (t': Tables) {
    if writes == [] then t else StoreAfter(StoreReplay(t, file, writes[..|writes| - 1]), file, writes[|writes| - 1])
  }

  function RowsReplay(ft: FileTables, writes: seq<Write>): (ft': FileTables) {
    if writes == [] then ft else RowsAfter(RowsReplay(ft, writes[..|writes| - 1]), writes[|writes| - 1])
  }

  lemma {:induction false} WriteView(t: Tables, file: FileId, write: Write, other: FileId)
    ensures ViewOf(StoreAfter(t, file, write), file) == RowsAfter(ViewOf(t, file), write)
    ensures other != file ==> ViewOf(StoreAfter(t, file, write), other) == ViewOf(t, other)
    ensures Mirrored(t) ==> Mirrored(StoreAfter(t, file, write))
  {
    match write
    case CommitWrite(batch, state) =>
      CommitView(t, file, batch, state);
      if other != file { CommitElsewhere(t, file, batch, state, other); }
      if Mirrored(t) { CommitKeepsMirrored(t, file, batch, state); }
    case ResetWrite =>
      ResetClears(t, file);
      if other != file { ResetElsewhere(t, file, other); }
      if Mirrored(t) { ResetClearsContent(t, file); }
    case SummaryWrite(start, summary) =>
      PutRow(t.summaries, file, start, summary, other);
  }

  /**
   Whatever transactions a lane runs, the store sees them on that file exactly as the lane does,
   and sees no change on any other file; the content tables stay mirrored.
   */
  lemma {:induction false} LaneRefinesStore(t: Tables, file: FileId, writes: seq<Write>, other: FileId)
    ensures ViewOf(StoreReplay(t, file, writes), file) == RowsReplay(ViewOf(t, file), writes)
    ensures other != file ==> ViewOf(StoreReplay(t, file, writes), other) == ViewOf(t, other)
    ensures Mirrored(t) ==> Mirrored(StoreReplay(t, file, writes))
  {
    if writes != [] {
      LaneRefinesStore(t, file, writes[..|writes| - 1], other);
      WriteView(StoreReplay(t, file, writes[..|writes| - 1]), file, writes[|writes| - 1], other);
    }
  }

  /** The content entries that these transactions committed since their last reset. */
  function Sent(writes: seq<Write>): (entries: set<ContentEntry>) {
    if writes == [] then {}
    else
      match writes[|writes| - 1]
      case CommitWrite(batch, _) => Sent(writes[..|writes| - 1]) + Entries(batch.content)
      case ResetWrite => {}
      case SummaryWrite(_, _) => Sent(writes[..|writes| - 1])
  }

  function Entries(content: seq<ContentEntry>): (entries: set<ContentEntry>) {
    set e | e in content
  }

  /** All of it stands in both content tables of the store, at a locator that was committed for the same row. */
  lemma {:induction false} SentIsStored(t: Tables, file: FileId, writes: seq<Write>, e: ContentEntry)
    returns (kept: ContentEntry)
    requires e in Sent(writes)
    ensures (e.file, e.digest, e.offset) in StoreReplay(t, file, writes).contentByFile
    ensures (e.digest, e.file, e.offset) in StoreReplay(t, file, writes).content
    ensures kept in Sent(writes) && NamesRow(kept, e.digest, e.file, e.offset)
    ensures StoreReplay(t, file, writes).content[(e.digest, e.file, e.offset)] == kept.locator
  {
    var init, last := writes[..|writes| - 1], writes[|writes| - 1];
    match last
    case CommitWrite(batch, state) =>
      CommitStoresContent(StoreReplay(t, file, init), file, batch, state, e.digest, e.file, e.offset);
      if e in batch.content {
        var i :| 0 <= i < |batch.content| && batch.content[i] == e;
        assert NamesRow(batch.content[i], e.digest, e.file, e.offset);
      }
      if NamesKey(batch.content, e.digest, e.file, e.offset) {
        var i := NamedHasLast(batch.content, e.digest, e.file, e.offset);
        kept := batch.content[i];
      } else {
        kept := SentIsStored(t, file, init, e);
      }
    case SummaryWrite(_, _) =>
      kept := SentIsStored(t, file, init, e);
    case ResetWrite =>
  }

  lemma {:induction false} SentMore(writes: seq<Write>, write: Write)
    ensures write.CommitWrite? ==> Sent(writes + [write]) == Sent(writes) + Entries(write.batch.content)
    ensures write.SummaryWrite? ==> Sent(writes + [write]) == Sent(writes)
  {
    assert (writes + [write])[..|writes|] == writes;
  }

  /**
   One file's tables while its index lane is held: `start` is what the store said when it was
   taken, `writes` the transactions run since. `LaneRefinesStore` carries `Valid` over to the store.
   */
  class Lane {
    var tables: FileTables
    ghost const start: FileTables
    ghost var writes: seq<Write>

    ghost predicate Valid() reads this {
      tables == RowsReplay(start, writes)
    }

    constructor (rows: FileTables)
      ensures Valid() && tables == start == rows && writes == []
    {
      tables, start, writes := rows, rows, [];
    }

    method CommitIndexBatch(batch: IndexBatch, state: FileState)
      requires Valid()
      modifies this
      ensures Valid() && tables == Publish(old(tables), batch, state) && writes == old(writes) + [CommitWrite(batch, state)]
    {
      tables := Publish(tables, batch, state);
      writes := writes + [CommitWrite(batch, state)];
      assert writes[..|writes| - 1] == old(writes);
    }

    method ResetFile()
      requires Valid()
      modifies this
      ensures Valid() && tables == NO_ROWS && writes == old(writes) + [ResetWrite]
    {
      tables, writes := NO_ROWS, writes + [ResetWrite];
    }

    method PutTurnSummaryState(start: nat, summary: Summary)
      requires Valid()
      modifies this
      ensures Valid() && tables == old(tables).(summaries := old(tables).summaries[start := summary])
      ensures writes == old(writes) + [SummaryWrite(start, summary)]
    {
      tables := tables.(summaries := tables.summaries[start := summary]);
      writes := writes + [SummaryWrite(start, summary)];
      assert writes[..|writes| - 1] == old(writes);
    }
  }
}
