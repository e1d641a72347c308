/**
 The forward scan of scan.rs: it resumes from a durable checkpoint, reads the new lines and commits
 them in batches. `commits` counts the transactions that still succeed before a crash; whatever it
 is, the tables are left covering what the last checkpoint says.
 */
module ForwardScan {
  import opened Wrappers
  import opened Transcript
  import opened ReverseScan
  import opened LogicalTurns
  import opened TurnVisitors
  import opened ColdScan
  import opened SurvivingTurns
  import opened Store
  import opened ScanInvariants
  import opened Coverage
  import opened LineScan

  const TAIL_BOOTSTRAP_FULL_SCAN_BYTES: nat := 8 * 1024 * 1024
  const TAIL_BOOTSTRAP_TURNS: nat := 1

  /** One observation of a transcript file: its identity, its durable lines and the digest before each offset. */
  datatype SourceFile = SourceFile(device: nat, inode: nat, modifiedNanos: nat, log: seq<Record>, tail: nat -> Digest)

  ghost predicate WellFormed(file: SourceFile) {
    Tiled(file.log) && DurableEnd(file.log) <= U64_MAX
  }

  /** `file_state_matches`: the checkpoint still describes the head of this file. */
  predicate Matches(state: FileState, file: SourceFile) {
    && state.device == file.device
    && state.inode == file.inode
    && state.indexedFrom <= state.indexedBytes <= DurableEnd(file.log)
    && (state.indexedBytes != DurableEnd(file.log) || state.modifiedNanos == file.modifiedNanos)
    && file.tail(state.indexedBytes) == state.tailHash
  }

  /** The checkpoint that a scan of this observation writes once it has read all of it. */
  ghost predicate Describes(state: FileState, seen: SourceFile) {
    && state.device == seen.device && state.inode == seen.inode && state.modifiedNanos == seen.modifiedNanos
    && state.indexedFrom <= state.indexedBytes == DurableEnd(seen.log)
    && state.tailHash == seen.tail(DurableEnd(seen.log))
  }

  /**
   It goes on matching while the file only grows, and stops when the file is another one, shorter, differs
   before the indexed end, or has the same length and another time.
   */
  lemma {:induction false} CheckpointHolds(state: FileState, seen: SourceFile, file: SourceFile)
    requires Describes(state, seen)
    ensures Matches(state, file) <==>
              && (file.device, file.inode) == (seen.device, seen.inode)
              && DurableEnd(file.log) >= DurableEnd(seen.log)
              && file.tail(DurableEnd(seen.log)) == seen.tail(DurableEnd(seen.log))
              && (DurableEnd(file.log) > DurableEnd(seen.log) || file.modifiedNanos == seen.modifiedNanos)
  {
  }

  // --- The tables at rest ---

  /** What a checkpoint stands for: the indexed lines, and the first one its coverage holds. */
  datatype Extent = Extent(indexed: seq<Record>, first: nat)

  const NOTHING := Extent([], 0)

  /** Every id of the log starts one turn: `names` says where. */
  ghost predicate Names(log: seq<Record>, names: map<string, nat>) {
    forall j :: 0 <= j < |log| ==> NamesRecord(log[j], names)
  }

  ghost predicate NamesRecord(r: Record, names: map<string, nat>) {
    && (r.mark.Started? ==> r.mark.id in names && names[r.mark.id] == r.start)
    && (r.standalone.Some? ==> r.standalone.value in names && names[r.standalone.value] == r.start)
  }

  ghost predicate UniqueIds(log: seq<Record>) {
    exists names :: Names(log, names)
  }

  ghost predicate Checkpoint(state: FileState, ext: Extent)
    requires ext.first <= |ext.indexed|
  {
    && state.indexedFrom == Offset(ext.indexed, ext.first)
    && state.indexedBytes == DurableEnd(ext.indexed)
    && state.records == |ext.indexed| - ext.first
  }

  /** What is true of a file's tables between any two transactions. */
  ghost predicate AtRest(ft: FileTables, ext: Extent) {
    && ext.first <= |ext.indexed|
    && (ft.state.None? ==> ft == NO_ROWS && ext == NOTHING)
    && (ft.state.Some? ==> Checkpoint(ft.state.value, ext))
    && Cover(ext.indexed, ext.first, ft)
    && (UniqueIds(ext.indexed) ==> Inverse(ft.turns, ft.turnsById))
  }

  /** Every standalone turn of the covered range has its row. */
  ghost predicate Whole(ft: FileTables, ext: Extent) {
    ext.first <= |ext.indexed| && SinglesIn(ext.indexed, ext.first, |ext.indexed|, ft)
  }

  /** Every covered line is one a scan accepts, and its content was committed and not reset since. */
  ghost predicate Kept(source: Source, writes: seq<Write>, ext: Extent) {
    forall n: nat :: Asked(Content, n) ==>
      forall k :: ext.first <= k < |ext.indexed| ==> Landed(source, ext.indexed[k], Sent(writes))
  }

  ghost predicate Landed(source: Source, r: Record, sent: set<ContentEntry>) {
    Accepted(r) && Entries(source.content(r)) <= sent
  }

  lemma {:induction false} NothingCovered()
    ensures AtRest(NO_ROWS, NOTHING) && Whole(NO_ROWS, NOTHING)
  {
  }

  /** The newest row is an open turn that a crashed backfill left below coverage. */
  ghost predicate Haunted(ft: FileTables) {
    ft.state.Some? && !Settled(Resumed(ft.turns), ft.state.value.indexedFrom)
  }

  // --- A batch that is being gathered ---

  /** A scan that began at record `first` and has read up to record `j`, with `batch` not yet committed on top of `base`. */
  ghost predicate Scanning(log: seq<Record>, first: nat, j: nat, base: FileTables, batch: IndexBatch,
          active: Option<Turn>, summary: Option<ActiveSummary>)
    requires first <= j <= |log|
  {
    && Tiled(log) && CleanFrom(log, first)
    && Reading(log[..j], first, j, Live(base, batch), active, summary)
    && BatchOrigin(log[..j], batch.turns)
  }

  lemma {:induction false} BatchOriginExtends(pre: seq<Record>, more: seq<Record>, batch: seq<Turn>)
    requires pre <= more && BatchOrigin(pre, batch)
    ensures BatchOrigin(more, batch)
  {
    forall k | 0 <= k < |batch| ensures RowOrigin(more, batch[k].start, batch[k]) {
      OriginExtends(pre, more, batch[k].start, batch[k]);
    }
  }

  lemma {:induction false} PushedOrigin(pre: seq<Record>, i: nat, j: nat, batch: IndexBatch,
          active: Option<Turn>, summary: Option<ActiveSummary>, content: seq<ContentEntry>)
    requires Tiled(pre) && i <= j < |pre| && CleanFrom(pre, i) && ActiveHolds(Stack(pre[..j]), active, Offset(pre, i))
    requires ActiveOrigin(pre, active) && BatchOrigin(pre, batch.turns)
    ensures BatchOrigin(pre, Pushed(batch, Stack(pre[..j]), pre[j], active, summary, content).turns)
  {
    SingleSeen(pre, i, j, active);
    TurnStepOrigin(pre, j, active);
    SingleStepOrigin(pre, j, TurnStep(active, pre[j]).0);
  }

  lemma {:induction false} PrefixOfPrefix(log: seq<Record>, j: nat)
    requires Tiled(log) && j < |log|
    ensures Tiled(log[..j + 1]) && log[..j] <= log[..j + 1] && log[..j + 1][..j] == log[..j] && log[..j + 1][j] == log[j]
  {
    TiledPrefix(log, j + 1);
  }

  lemma {:induction false} LiveLine(log: seq<Record>, j: nat, base: FileTables, batch: IndexBatch,
          active: Option<Turn>, summary: Option<ActiveSummary>, content: seq<ContentEntry>)
    requires Tiled(log) && j < |log|
    ensures Live(base, Pushed(batch, Stack(log[..j]), log[j], active, summary, content))
         == LineEffect(Live(base, batch), Stack(log[..j]), log[j], active, summary)
  {
    TiledPrefix(log, j);
    StackShape(log[..j]);
    assert Abuts(log, j);
    PushedIsLineEffect(base, batch, Stack(log[..j]), log[j], active, summary, content);
  }

  /** Reading one more line. */
  lemma {:induction false} ScanLine(log: seq<Record>, first: nat, j: nat, base: FileTables, batch: IndexBatch,
          active: Option<Turn>, summary: Option<ActiveSummary>, content: seq<ContentEntry>)
    requires first <= j < |log| && Scanning(log, first, j, base, batch, active, summary)
    ensures Scanning(log, first, j + 1, base, Pushed(batch, Stack(log[..j]), log[j], active, summary, content),
                     TurnStep(active, log[j]).0, SummaryStep(summary, log[j]).0)
  {
    var pre := log[..j + 1];
    PrefixOfPrefix(log, j);
    ReadingExtends(log[..j], pre, first, j, Live(base, batch), active, summary);
    BatchOriginExtends(log[..j], pre, batch.turns);
    CleanWithin(log, first, j + 1);
    LineStep(pre, first, j, Live(base, batch), active, summary);
    LiveLine(log, j, base, batch, active, summary, content);
    PushedOrigin(pre, first, j, batch, active, summary, content);
  }

  lemma {:induction false} WholeStep(pre: seq<Record>, i: nat, j: nat, ft: FileTables, active: Option<Turn>,
          summary: Option<ActiveSummary>)
    requires i <= j < |pre| && Progress(pre, i, j, ft, active, summary)
    requires Settled(active, Offset(pre, i)) && SinglesIn(pre, i, j, ft)
    ensures Settled(TurnStep(active, pre[j]).0, Offset(pre, i))
    ensures SinglesIn(pre, i, j + 1, LineEffect(ft, Stack(pre[..j]), pre[j], active, summary))
  {
    FromBefore(pre, i, j);
    SingleSeen(pre, i, j, active);
    SinglesStep(pre, i, j, j, ft, active, summary, Offset(pre, i));
  }

  lemma {:induction false} ScanLineWhole(log: seq<Record>, first: nat, j: nat, base: FileTables,
          batch: IndexBatch, active: Option<Turn>, summary: Option<ActiveSummary>, content: seq<ContentEntry>)
    requires first <= j < |log| && Scanning(log, first, j, base, batch, active, summary)
    requires Settled(active, Offset(log, first)) && SinglesIn(log[..j], first, j, Live(base, batch))
    ensures Settled(TurnStep(active, log[j]).0, Offset(log, first))
    ensures SinglesIn(log[..j + 1], first, j + 1, Live(base, Pushed(batch, Stack(log[..j]), log[j], active, summary, content)))
  {
    var pre := log[..j + 1];
    PrefixOfPrefix(log, j);
    ReadingExtends(log[..j], pre, first, j, Live(base, batch), active, summary);
    CleanWithin(log, first, j + 1);
    SinglesExtend(log[..j], pre, first, j, Live(base, batch));
    WholeStep(pre, first, j, Live(base, batch), active, summary);
    LiveLine(log, j, base, batch, active, summary, content);
  }

  /** Likewise in the middle of a scan of records `lo..j`, of which the last have `pending` content. */
  ghost predicate Carried(source: Source, log: seq<Record>, lo: nat, j: nat, writes: seq<Write>,
          pending: seq<ContentEntry>, ext: Extent)
    requires j <= |log|
  {
    forall n: nat :: Asked(ContentAt(j), n) ==>
      && Kept(source, writes, ext)
      && forall k :: lo <= k < j ==> Landed(source, log[k], Sent(writes) + Entries(pending))
  }

  lemma {:induction false} CarriedBegins(source: Source, log: seq<Record>, lo: nat, j: nat, writes: seq<Write>, ext: Extent)
    requires Kept(source, writes, ext) && j <= |log|
    requires j <= lo || (ext.first == lo && ext.indexed == log[..j])
    ensures Carried(source, log, lo, j, writes, [], ext)
  {
    assert Asked(Content, 0);
    forall k | lo <= k < j ensures Landed(source, log[k], Sent(writes) + Entries([])) {
      assert Landed(source, ext.indexed[k], Sent(writes));
    }
  }

  lemma {:induction false} CarriedLine(source: Source, log: seq<Record>, lo: nat, j: nat, next: nat, writes: seq<Write>,
          pending: seq<ContentEntry>, ext: Extent)
    requires j < |log| && next == j + 1 && Carried(source, log, lo, j, writes, pending, ext) && Accepted(log[j])
    ensures Carried(source, log, lo, next, writes, pending + source.content(log[j]), ext)
  {
    assert Asked(ContentAt(j), 0);
    forall k | lo <= k < next ensures Landed(source, log[k], Sent(writes) + Entries(pending + source.content(log[j]))) {
      assert k < j ==> Landed(source, log[k], Sent(writes) + Entries(pending));
    }
  }

  /** A commit of the pending content leaves all of it sent. */
  lemma {:induction false} CarriedCommit(source: Source, log: seq<Record>, lo: nat, j: nat, writes: seq<Write>,
          batch: IndexBatch, state: FileState, ext: Extent)
    requires j <= |log| && Carried(source, log, lo, j, writes, batch.content, ext)
    ensures Carried(source, log, lo, j, writes + [CommitWrite(batch, state)], [], ext)
    ensures Carried(source, log, lo, j, writes + [CommitWrite(batch, state)], [], Extent(log[..j], lo))
    ensures Kept(source, writes + [CommitWrite(batch, state)], Extent(log[..j], lo))
  {
    assert Asked(ContentAt(j), 0) && Asked(Content, 0);
    var writes' := writes + [CommitWrite(batch, state)];
    SentMore(writes, CommitWrite(batch, state));
    forall k | lo <= k < j ensures Landed(source, log[k], Sent(writes')) {
      assert Landed(source, log[k], Sent(writes) + Entries(batch.content));
    }
    forall k | ext.first <= k < |ext.indexed| ensures Landed(source, ext.indexed[k], Sent(writes')) {
      assert Landed(source, ext.indexed[k], Sent(writes));
    }
  }

  lemma {:induction false} CarriedIsKept(source: Source, log: seq<Record>, lo: nat, j: nat, writes: seq<Write>,
          pending: seq<ContentEntry>, ext: Extent)
    requires j <= |log| && Carried(source, log, lo, j, writes, pending, ext)
    ensures Kept(source, writes, ext)
    ensures pending == [] ==> Kept(source, writes, Extent(log[..j], lo))
  {
    assert Asked(ContentAt(j), 0);
    forall k | pending == [] && lo <= k < j ensures Landed(source, log[k], Sent(writes)) {
      assert Landed(source, log[k], Sent(writes) + Entries(pending));
    }
  }

  /** Content kept of records `lo..at` and of those from `at` on. */
  lemma {:induction false} KeptJoins(source: Source, log: seq<Record>, lo: nat, at: nat, writes: seq<Write>)
    requires at <= |log| && Kept(source, writes, Extent(log[..at], lo)) && Kept(source, writes, Extent(log, at))
    ensures Kept(source, writes, Extent(log, lo))
  {
    assert Asked(Content, 0);
    forall k | lo <= k < |log| ensures Landed(source, log[k], Sent(writes)) {
      assert k < at ==> log[..at][k] == log[k];
    }
  }

  // --- Commits ---

  function WithRemembered(batch: IndexBatch, summary: Option<ActiveSummary>): (batch': IndexBatch) {
    batch.(summaries := batch.summaries + Remember(summary))
  }

  lemma {:induction false} LiveRemembered(base: FileTables, batch: IndexBatch, summary: Option<ActiveSummary>)
    ensures Live(base, WithRemembered(batch, summary)) == Remembered(Live(base, batch), summary)
  {
    var gone := Offsets(batch.removedTurns);
    InsertSummariesConcat(base.summaries - gone, base.removed + gone, batch.summaries, Remember(summary));
  }

  lemma {:induction false} CommitKeepsRows(ft: FileTables, batch: IndexBatch, summary: Option<ActiveSummary>, state: FileState)
    ensures SameTurns(Publish(ft, WithRemembered(batch, summary), state), Live(ft, batch))
  {
  }

  /** Coverage and progress read the rows only: not the checkpoint, not the id index. */
  ghost predicate SameRows(ft: FileTables, ft': FileTables) {
    ft'.turns == ft.turns && ft'.removed == ft.removed && ft'.summaries == ft.summaries && ft'.records == ft.records
  }

  lemma {:induction false} SameRowsCover(pre: seq<Record>, i: nat, ft: FileTables, ft': FileTables)
    requires i <= |pre| && SameRows(ft, ft')
    ensures Cover(pre, i, ft) == Cover(pre, i, ft')
  {
  }

  lemma {:induction false} SameRowsReading(pre: seq<Record>, i: nat, j: nat, ft: FileTables, ft': FileTables,
          active: Option<Turn>, summary: Option<ActiveSummary>)
    requires i <= j <= |pre| && SameRows(ft, ft')
    ensures Reading(pre, i, j, ft, active, summary) == Reading(pre, i, j, ft', active, summary)
  {
  }

  lemma {:induction false} SameRowsSingles(pre: seq<Record>, i: nat, j: nat, ft: FileTables, ft': FileTables)
    requires i <= j <= |pre| && SameRows(ft, ft')
    ensures SinglesIn(pre, i, j, ft) == SinglesIn(pre, i, j, ft')
  {
    if SinglesIn(pre, i, j, ft) {
      forall k | i <= k < j ensures SingleHeld(pre, k, ft') { assert SingleHeld(pre, k, ft); }
    }
    if SinglesIn(pre, i, j, ft') {
      forall k | i <= k < j ensures SingleHeld(pre, k, ft) { assert SingleHeld(pre, k, ft'); }
    }
  }

  lemma {:induction false} NamedRow(pre: seq<Record>, t: Turn, names: map<string, nat>)
    requires Names(pre, names) && RowOrigin(pre, t.start, t)
    ensures t.id in names && names[t.id] == t.start
  {
    if StartedAs(pre, t.start, t.id) {
      var j :| 0 <= j < |pre| && StartsAt(pre[j], t.start, t.id);
      assert NamesRecord(pre[j], names);
    } else {
      var j :| 0 <= j < |pre| && IsThisSingle(pre, j, t.start, t);
      assert NamesRecord(pre[j], names);
    }
  }

  /** Two rows of one start carry the same id. */
  lemma {:induction false} OneIdPerStart(pre: seq<Record>, x: nat, a: Turn, b: Turn)
    requires Tiled(pre) && RowOrigin(pre, x, a) && RowOrigin(pre, x, b)
    ensures a.id == b.id
  {
    if StartedIn(pre, 0, |pre|, x) {
      StartIsTask(pre, x, a);
      StartIsTask(pre, x, b);
      var j :| 0 <= j < |pre| && StartsAt(pre[j], x, a.id);
      var k :| 0 <= k < |pre| && StartsAt(pre[k], x, b.id);
      SameRecord(pre, j, k);
    } else {
      if StartedAs(pre, x, a.id) { StartedAsIn(pre, x, a.id); }
      if StartedAs(pre, x, b.id) { StartedAsIn(pre, x, b.id); }
      var j :| 0 <= j < |pre| && IsThisSingle(pre, j, x, a);
      var k :| 0 <= k < |pre| && IsThisSingle(pre, k, x, b);
      SameRecord(pre, j, k);
    }
  }

  lemma {:induction false} StartIsTask(pre: seq<Record>, x: nat, t: Turn)
    requires Tiled(pre) && RowOrigin(pre, x, t) && StartedIn(pre, 0, |pre|, x)
    ensures StartedAs(pre, x, t.id)
  {
    if !StartedAs(pre, x, t.id) {
      var j :| 0 <= j < |pre| && IsThisSingle(pre, j, x, t);
      SingleApart(pre, j, x);
    }
  }

  /** Whose start a byte is. */
  ghost function OwnerOf(pre: seq<Record>, x: nat): (id: string) {
    if exists t :: RowOrigin(pre, x, t) then
      var t :| RowOrigin(pre, x, t);
      t.id
    else ""
  }

  lemma {:induction false} RowFits(pre: seq<Record>, t: Turn, names: map<string, nat>, owner: nat -> string)
    requires Tiled(pre) && Names(pre, names) && RowOrigin(pre, t.start, t) && owner(t.start) == OwnerOf(pre, t.start)
    ensures Fits(t, names, owner)
  {
    NamedRow(pre, t, names);
    var u :| RowOrigin(pre, t.start, u) && u.id == OwnerOf(pre, t.start);
    OneIdPerStart(pre, t.start, t, u);
  }

  /** With unique ids the id index stays the inverse of the turn rows. */
  lemma {:induction false} CommitKeepsInverse(pre: seq<Record>, base: FileTables, batch: IndexBatch, state: FileState)
    requires Tiled(pre) && UniqueIds(pre) && Inverse(base.turns, base.turnsById)
    requires Origin(pre, base.turns) && BatchOrigin(pre, batch.turns)
    ensures Inverse(Publish(base, batch, state).turns, Publish(base, batch, state).turnsById)
  {
    var names :| Names(pre, names);
    var owner := (x: nat) => OwnerOf(pre, x);
    forall x | x in base.turns ensures Fits(base.turns[x], names, owner) { RowFits(pre, base.turns[x], names, owner); }
    forall i | 0 <= i < |batch.turns| ensures Fits(batch.turns[i], names, owner) { RowFits(pre, batch.turns[i], names, owner); }
    PublishKeepsInverse(base, batch, state, names, owner);
  }

  lemma {:induction false} UniqueIdsPrefix(pre: seq<Record>, more: seq<Record>)
    requires pre <= more && UniqueIds(more)
    ensures UniqueIds(pre)
  {
    var names :| Names(more, names);
    forall j | 0 <= j < |pre| ensures NamesRecord(pre[j], names) { assert NamesRecord(more[j], names); }
    assert Names(pre, names);
  }

  lemma {:induction false} OriginsExtend(pre: seq<Record>, more: seq<Record>, turns: map<nat, Turn>)
    requires pre <= more && Origin(pre, turns)
    ensures Origin(more, turns)
  {
    forall x | x in turns ensures RowOrigin(more, x, turns[x]) { OriginExtends(pre, more, x, turns[x]); }
  }

  /** With unique ids, a commit on top of tables at rest keeps the id index inverse. */
  lemma {:induction false} RestKeepsInverse(pre: seq<Record>, base: FileTables, ext: Extent, batch: IndexBatch,
          state: FileState)
    requires Tiled(pre) && AtRest(base, ext) && ext.indexed <= pre && BatchOrigin(pre, batch.turns)
    ensures UniqueIds(pre) ==> Inverse(Publish(base, batch, state).turns, Publish(base, batch, state).turnsById)
  {
    if UniqueIds(pre) {
      UniqueIdsPrefix(ext.indexed, pre);
      OriginsExtend(ext.indexed, pre, base.turns);
      CommitKeepsInverse(pre, base, batch, state);
    }
  }

  /** What a forward commit publishes covers every line read so far. */
  lemma {:induction false} ForwardCommit(log: seq<Record>, first: nat, j: nat, base: FileTables, ext: Extent,
          batch: IndexBatch, active: Option<Turn>, summary: Option<ActiveSummary>, state: FileState)
    requires first <= j <= |log| && Scanning(log, first, j, base, batch, active, summary) && (first == j ==> j == |log|)
    requires AtRest(base, ext) && ext.indexed <= log[..j]
    requires Checkpoint(state, Extent(log[..j], first))
    ensures AtRest(Publish(base, WithRemembered(batch, summary), state), Extent(log[..j], first))
  {
    var pre, live := log[..j], Live(base, batch);
    CleanWithin(log, first, j);
    CommitCovers(pre, first, live, active, summary);
    LiveRemembered(base, batch, summary);
    PublishIsLive(base, WithRemembered(batch, summary), state);
    SameRowsCover(pre, first, Remembered(live, summary), Publish(base, WithRemembered(batch, summary), state));
    TiledPrefix(log, j);
    RestKeepsInverse(pre, base, ext, WithRemembered(batch, summary), state);
  }

  /** After it the scan goes on with an empty batch. */
  lemma {:induction false} ForwardGoesOn(log: seq<Record>, first: nat, j: nat, base: FileTables,
          batch: IndexBatch, active: Option<Turn>, summary: Option<ActiveSummary>, state: FileState)
    requires first < j <= |log| && Scanning(log, first, j, base, batch, active, summary)
    ensures Scanning(log, first, j, Publish(base, WithRemembered(batch, summary), state), EMPTY, active, summary)
  {
    var pre, live := log[..j], Live(base, batch);
    var next := Publish(base, WithRemembered(batch, summary), state);
    CleanWithin(log, first, j);
    RememberKeepsProgress(pre, first, j, live, active, summary);
    LiveRemembered(base, batch, summary);
    PublishIsLive(base, WithRemembered(batch, summary), state);
    NothingPending(next);
    SameRowsReading(pre, first, j, Remembered(live, summary), next, active, summary);
  }

  lemma {:induction false} ForwardWhole(log: seq<Record>, first: nat, j: nat, base: FileTables,
          batch: IndexBatch, active: Option<Turn>, summary: Option<ActiveSummary>, state: FileState)
    requires first <= j <= |log| && Scanning(log, first, j, base, batch, active, summary)
    requires SinglesIn(log[..j], first, j, Live(base, batch))
    ensures var next := Publish(base, WithRemembered(batch, summary), state);
            Whole(next, Extent(log[..j], first)) && SinglesIn(log[..j], first, j, Live(next, EMPTY))
  {
    var pre, live := log[..j], Live(base, batch);
    var next := Publish(base, WithRemembered(batch, summary), state);
    TiledPrefix(log, j);
    RememberKeepsSingles(pre, first, j, live, active, summary, Offset(pre, j), Offset(pre, first));
    LiveRemembered(base, batch, summary);
    PublishIsLive(base, WithRemembered(batch, summary), state);
    NothingPending(next);
    SameRowsSingles(pre, first, j, Remembered(live, summary), next);
  }

  // --- Resuming ---

  /** Tables at rest, resumed at their indexed end on a file that still begins with the indexed lines. */
  lemma {:induction false} ResumeScanning(log: seq<Record>, ft: FileTables, ext: Extent, summary: Option<ActiveSummary>)
    requires Tiled(log) && AtRest(ft, ext) && ext.indexed <= log
    requires Lockstep(ext.indexed, DurableEnd(ext.indexed), Resumed(ft.turns), summary, Offset(ext.indexed, ext.first))
    ensures Scanning(log, ext.first, |ext.indexed|, ft, EMPTY, Resumed(ft.turns), summary)
    ensures Whole(ft, ext) ==> SinglesIn(log[..|ext.indexed|], ext.first, |ext.indexed|, Live(ft, EMPTY))
  {
    ResumeProgress(ext.indexed, ext.first, ft, summary);
    NothingPending(ft);
    assert log[..|ext.indexed|] == ext.indexed;
    CleanExtends(ext.indexed, log, ext.first);
  }

  /** An empty index bootstrapped at record `first`. */
  lemma {:induction false} BootstrapScanning(log: seq<Record>, ft: FileTables, first: nat)
    requires Tiled(log) && AtRest(ft, NOTHING) && first <= |log| && CleanFrom(log, first)
    ensures Scanning(log, first, first, ft, EMPTY, None, None)
    ensures SinglesIn(log[..first], first, first, Live(ft, EMPTY))
    ensures Resumed(ft.turns) == None
  {
    var pre := log[..first];
    TiledPrefix(log, first);
    SaneExtends([], pre, ft);
    ReadingBegins(pre, first, ft);
    NothingPending(ft);
    assert ft.turns.Keys == {};
  }

  lemma {:induction false} SpanStops(log: seq<Record>, k: nat, from: nat, to: nat)
    requires Tiled(log) && k < |log| && log[k].end > to
    ensures Span(log, from, to) == Span(log[..k], from, to)
    decreases |log|
  {
    var n := |log| - 1;
    TiledPrefix(log, n);
    assert Abuts(log, n);
    if k < n {
      OffsetsIncrease(log, k + 1, n + 1);
      SpanStops(log[..n], k, from, to);
      assert log[..n][..k] == log[..k];
    } else {
      assert log[..n] == log[..k];
    }
  }

  /** Projects one turn's bytes into a fresh summary; `None` for an inverted span. */
  method SummaryFromFile(log: seq<Record>, turn: Turn) returns (r: Option<Summary>)
    requires Tiled(log)
    ensures r == if turn.end < turn.start then None else Some(Summary(turn.id, Span(log, turn.start, turn.end)))
  {
    if turn.end < turn.start { return None; }
    var summary, k := Summary(turn.id, []), 0;
    while k < |log| && log[k].start < turn.start
      invariant 0 <= k <= |log| && Span(log[..k], turn.start, turn.end) == []
    {
      assert log[..k + 1][..k] == log[..k];
      k := k + 1;
    }
    while k < |log| && log[k].end <= turn.end
      invariant 0 <= k <= |log| && (k < |log| ==> log[k].start >= turn.start)
      invariant summary == Summary(turn.id, Span(log[..k], turn.start, turn.end))
    {
      assert log[..k + 1][..k] == log[..k];
      assert Abuts(log, k) && (k + 1 < |log| ==> Abuts(log, k + 1));
      summary := Ingest(summary, log[k]);
      k := k + 1;
    }
    if k < |log| { SpanStops(log, k, turn.start, turn.end); } else { assert log[..k] == log; }
    return Some(summary);
  }

  // --- Where a cold index begins ---

  /** The logical visitor reports at least every turn the task visitor reports. */
  lemma {:induction false} LogicalListsTasks(log: seq<Record>, skipped: nat, next: nat, terminal: Option<Close>,
          pending: seq<Turn>)
    ensures |RevLogical(log, skipped, next, terminal, pending)| >= |RevTasks(log, skipped, next, terminal)|
  {
    if log != [] {
      var rest, r := log[..|log| - 1], log[|log| - 1];
      match r.mark
      case Rollback(n) => LogicalListsTasks(rest, skipped + n, next, terminal, pending);
      case Terminal(id, completed) => LogicalListsTasks(rest, skipped, next, Some(Close(id, r.end, completed)), []);
      case Started(id) => LogicalListsTasks(rest, if skipped > 0 then skipped - 1 else 0, r.start, None, []);
      case _ => LogicalListsTasks(rest, skipped, next, terminal, Hold(pending, r));
    }
  }

  /** The start of any listed turn is a clean place for coverage to begin. */
  lemma {:induction false} ListedStart(log: seq<Record>, frozen: bool, t: Turn) returns (first: nat)
    requires Tiled(log) && Apart(log) && t in ReverseTurns(log, frozen)
    ensures first < |log| && Offset(log, first) == t.start < DurableEnd(log) && CleanFrom(log, first)
  {
    assert log[..|log|] == log;
    ListedStartsClean(log, |log|, 0, NextStart(log, frozen), None, [], t);
    first :| 0 <= first < |log| && CleanStart(log, first, t.start);
    assert Abuts(log, first);
    OffsetsIncrease(log, first, |log|);
  }

  lemma {:induction false} EmptyPage(turns: seq<Turn>, before: nat)
    requires forall t :: t in turns ==> t.start < before
    ensures |Taken(turns, before, 1)| == Min(1, |turns|) && (turns != [] ==> Taken(turns, before, 1) == [turns[0]])
  {
    if turns != [] { assert turns[0] in turns && Taken(turns[1..], before, 0) == []; }
  }

  /** Where the index of a file begins that has none: byte 0, the start of the newest turn, or the end. */
  function BootstrapOffset(log: seq<Record>): (from: nat) {
    if DurableEnd(log) <= TAIL_BOOTSTRAP_FULL_SCAN_BYTES then 0
    else if ReverseTurns(log, false) == [] then DurableEnd(log)
    else ReverseTurns(log, false)[0].start
  }

  /** A small file is indexed from byte 0, a large one from its newest turn, or from its end when no turn survives. */
  method TailBootstrapStart(log: seq<Record>) returns (r: Visited<nat>, ghost first: nat)
    requires Tiled(log) && DurableEnd(log) <= U64_MAX && log != []
    requires DurableEnd(log) > TAIL_BOOTSTRAP_FULL_SCAN_BYTES ==> Apart(log)
    ensures r.Finished? ==> first <= |log| && Offset(log, first) == r.state == BootstrapOffset(log) && CleanFrom(log, first)
    ensures r.Unreadable? ==> !Readable(log)
  {
    if DurableEnd(log) <= TAIL_BOOTSTRAP_FULL_SCAN_BYTES { return Finished(0), 0; }
    RecordsFitTheFile(log);
    var scan := ScanTailTurns(log, false, None, TAIL_BOOTSTRAP_TURNS);
    if scan.Unreadable? { return Unreadable(scan.offset), 0; }
    ghost var all := ReverseTurns(log, false);
    forall t | t in all ensures t.start < DurableEnd(log) { var at := ListedStart(log, false, t); }
    EmptyPage(all, DurableEnd(log));
    var turns := scan.state;
    if turns == [] {
      LogicalListsTasks(log, 0, 0, None, []);
      ReverseScanStarts(log, 0);
      assert log[..|log|] == log;
      return Finished(DurableEnd(log)), |log|;
    }
    first := ListedStart(log, false, turns[0]);
    return Finished(turns[|turns| - 1].start), first;
  }

  // --- Resuming a scan ---

  /** `commits - left` transactions were run, each recorded in the lane's history; a crash comes only once none is left. */
  predicate Paid(before: nat, after: nat, commits: nat, left: nat, outcome: Outcome) {
    left <= commits && after + left == before + commits && (outcome.Crashed? ==> left == 0)
  }

  /** Enough transactions for one operation on a file of these lines: its full batches, the last commit and one more. */
  function Bound(log: seq<Record>): (commits: nat) {
    Batches(|log|) + 2
  }

  /** The full batches in `lines` lines. */
  function Batches(lines: nat): (n: nat) {
    lines / WRITE_BATCH_RECORDS
  }

  /** After reading `n` lines: `used` full batches are committed and `pending` lines are not. */
  predicate Batched(n: int, used: int, pending: nat) {
    pending < WRITE_BATCH_RECORDS && n == used * WRITE_BATCH_RECORDS + pending
  }

  lemma {:induction false} BatchedNext(n: int, used: int, pending: nat)
    requires Batched(n, used, pending)
    ensures if pending + 1 == WRITE_BATCH_RECORDS then Batched(n + 1, used + 1, 0) else Batched(n + 1, used, pending + 1)
  {
  }

  lemma {:induction false} BatchesIn(n: nat, used: int, pending: nat, lines: nat)
    requires Batched(n, used, pending) && n <= lines
    ensures used == Batches(n) <= Batches(lines)
  {
  }

  /** The provider still reads the projection that is stored of this turn. */
  ghost predicate IsCurrent(source: Source, ft: FileTables, start: nat) {
    start in ft.summaries && source.isCurrent(ft.summaries[start])
  }

  /** The stored projection of this turn goes on, under the turn's id. */
  ghost predicate TakenOver(ft: FileTables, turn: Turn, summary: Option<ActiveSummary>) {
    turn.start in ft.summaries && summary == Some(ActiveSummary(turn.start, ft.summaries[turn.start].(id := turn.id)))
  }

  /** The lines of this turn up to byte `end` were folded and stored. */
  ghost predicate FoldedAgain(ft: FileTables, log: seq<Record>, turn: Turn, end: nat, summary: Option<ActiveSummary>) {
    && summary == Some(ActiveSummary(turn.start, Summary(turn.id, Span(log, turn.start, end))))
    && turn.start in ft.summaries && ft.summaries[turn.start] == summary.value.summary
  }

  /**
   The turn still open at the indexed end and its projection: the stored one while it is current,
   otherwise one folded again from the file and stored.
   */
  method ActiveProjection(lane: Lane, source: Source, log: seq<Record>, indexedBytes: nat, commits: nat, ghost ext: Extent)
    returns (turn: Option<Turn>, summary: Option<ActiveSummary>, outcome: Outcome, left: nat)
    requires Tiled(log) && lane.Valid() && AtRest(lane.tables, ext) && ext.indexed <= log
    requires lane.tables.turns != map[] ==> indexedBytes == DurableEnd(ext.indexed)
    modifies lane
    ensures lane.Valid() && AtRest(lane.tables, ext) && lane.tables.state == old(lane.tables).state
    ensures turn == Resumed(lane.tables.turns) && lane.tables.turns == old(lane.tables).turns && lane.tables.removed == old(lane.tables).removed
    ensures Whole(old(lane.tables), ext) ==> Whole(lane.tables, ext)
    ensures Sent(lane.writes) == Sent(old(lane.writes))
    ensures outcome.Indexed? ==> Lockstep(ext.indexed, DurableEnd(ext.indexed), turn, summary, Offset(ext.indexed, ext.first))
    ensures turn.None? ==> summary.None?
    ensures turn.Some? && IsCurrent(source, old(lane.tables), turn.value.start) ==>
              lane.tables == old(lane.tables) && TakenOver(lane.tables, turn.value, summary)
    ensures turn.Some? && !IsCurrent(source, old(lane.tables), turn.value.start) && outcome.Indexed? ==>
              commits - left == 1 && FoldedAgain(lane.tables, ext.indexed, turn.value, indexedBytes, summary)
    ensures outcome.Indexed? || (outcome.Crashed? && commits == 0)
    ensures Paid(|old(lane.writes)|, |lane.writes|, commits, left, outcome) && commits - left <= 1
  {
    ghost var ft := lane.tables;
    summary, outcome, left := None, Indexed, commits;
    turn := Resumed(lane.tables.turns);
    if turn.None? { return; }
    ResumeHolds(ext.indexed, ext.first, ft);
    var start := turn.value.start;
    if start in lane.tables.summaries && source.isCurrent(lane.tables.summaries[start]) {
      summary := Some(ActiveSummary(start, lane.tables.summaries[start].(id := turn.value.id)));
      if start >= Offset(ext.indexed, ext.first) { StoredSummaryResumes(ext.indexed, ext.first, ft); }
      return;
    }
    var state := SummaryFromFile(log, turn.value.(end := indexedBytes));
    assert log[..|ext.indexed|] == ext.indexed;
    SpanPrefix(log, |ext.indexed|, start, indexedBytes);
    if commits == 0 { outcome := Crashed; return; }
    EnrichKeepsCover(ext.indexed, ext.first, ft);
    SentMore(lane.writes, SummaryWrite(start, state.value));
    lane.PutTurnSummaryState(start, state.value);
    summary, left := Some(ActiveSummary(start, state.value)), commits - 1;
  }

  // --- The forward scan ---

  function EmptyState(device: nat, inode: nat): (state: FileState) {
    FileState(device, inode, 0, 0, 0, [], 0)
  }

  function TailState(device: nat, inode: nat, indexedFrom: nat): (state: FileState) {
    FileState(device, inode, indexedFrom, indexedFrom, 0, [], 0)
  }

  /** The checkpoint names this observation of the file. */
  ghost predicate Observes(state: FileState, file: SourceFile) {
    state.device == file.device && state.inode == file.inode && state.modifiedNanos == file.modifiedNanos
  }

  /** Finds the record that starts at `offset`; `at` says which one it is. */
  method Seek(log: seq<Record>, offset: nat, ghost at: nat) returns (j: nat)
    requires Tiled(log) && at <= |log| && Offset(log, at) == offset
    ensures j == at
  {
    j := 0;
    while j < |log| && log[j].start < offset
      invariant j <= at
    {
      assert Abuts(log, j);
      if j >= at { OffsetInjective(log, j, at); }
      j := j + 1;
    }
    if j < at { assert Abuts(log, j); OffsetsIncrease(log, j, at); }
  }

  /** The tables are at rest, and complete as to standalone turns if `whole`. */
  ghost predicate Resting(ft: FileTables, ext: Extent, whole: bool) {
    forall n: nat :: Asked(Rest, n) ==> AtRest(ft, ext) && (whole ==> Whole(ft, ext))
  }

  /** What a scan that has read up to record `j` may rely on; `whole` if it misses no standalone turn. */
  ghost predicate Underway(log: seq<Record>, first: nat, j: nat, ft: FileTables, ext: Extent, batch: IndexBatch,
          active: Option<Turn>, summary: Option<ActiveSummary>, whole: bool)
    requires first <= j <= |log|
  {
    forall n: nat :: Asked(ScanAt(j, |batch.records|), n) ==>
      && AtRest(ft, ext) && ext.indexed <= log[..j]
      && Scanning(log, first, j, ft, batch, active, summary)
      && (whole ==> Whole(ft, ext) && Settled(active, Offset(log, first)) && SinglesIn(log[..j], first, j, Live(ft, batch)))
  }

  /** A scan that stops anywhere leaves the tables as the last commit did. */
  lemma {:induction false} UnderwayRests(log: seq<Record>, first: nat, j: nat, ft: FileTables, ext: Extent,
          batch: IndexBatch, active: Option<Turn>, summary: Option<ActiveSummary>, whole: bool)
    requires first <= j <= |log| && Underway(log, first, j, ft, ext, batch, active, summary, whole)
    ensures Resting(ft, ext, whole)
  {
    assert Asked(ScanAt(j, |batch.records|), 0);
  }

  lemma {:induction false} UnderwayLine(log: seq<Record>, first: nat, j: nat, next: nat, ft: FileTables,
          ext: Extent, batch: IndexBatch, active: Option<Turn>, summary: Option<ActiveSummary>,
          content: seq<ContentEntry>, whole: bool)
    requires first <= j < |log| && next == j + 1 && Underway(log, first, j, ft, ext, batch, active, summary, whole)
    ensures Underway(log, first, next, ft, ext, Pushed(batch, Stack(log[..j]), log[j], active, summary, content),
                     TurnStep(active, log[j]).0, SummaryStep(summary, log[j]).0, whole)
  {
    assert Asked(ScanAt(j, |batch.records|), 0);
    PrefixOfPrefix(log, j);
    ScanLine(log, first, j, ft, batch, active, summary, content);
    if whole { ScanLineWhole(log, first, j, ft, batch, active, summary, content); }
  }

  /** What holds of the checkpoint in memory while record `j` is the next to read. */
  ghost predicate Tracks(state: FileState, file: SourceFile, first: nat, j: nat, committed: bool, ft: FileTables, ext: Extent)
    requires first <= j <= |file.log|
  {
    && Observes(state, file) && state.indexedFrom == Offset(file.log, first)
    && (committed ==>
          && ext == Extent(file.log[..j], first) && ft.state == Some(state)
          && state.indexedBytes == Offset(file.log, j) && state.tailHash == file.tail(state.indexedBytes))
  }

  /** Commits what is pending, the active projection with it, and begins an empty batch. */
  method CommitPending(lane: Lane, scan: Scan, state: FileState, ghost log: seq<Record>, ghost j: nat, ghost lo: nat,
          ghost ext: Extent, ghost source: Source)
    requires lane.Valid() && j <= |log|
    modifies lane, scan
    ensures lane.Valid() && scan.Batch() == EMPTY && scan.activeTurn == old(scan.activeTurn) && scan.activeSummary == old(scan.activeSummary)
    ensures |lane.writes| == |old(lane.writes)| + 1
    ensures lane.tables == Publish(old(lane.tables), WithRemembered(old(scan.Batch()), old(scan.activeSummary)), state)
    ensures Carried(source, log, lo, j, old(lane.writes), old(scan.content), ext) ==>
              && Carried(source, log, lo, j, lane.writes, [], ext)
              && Carried(source, log, lo, j, lane.writes, [], Extent(log[..j], lo))
  {
    if Carried(source, log, lo, j, lane.writes, scan.content, ext) {
      CarriedCommit(source, log, lo, j, lane.writes, WithRemembered(scan.Batch(), scan.activeSummary), state, ext);
    }
    scan.RememberActiveSummary();
    lane.CommitIndexBatch(scan.Batch(), state);
    scan.Clear();
  }

  /** Moves the checkpoint behind record `j` and commits the batch with it. */
  method CommitForward(lane: Lane, scan: Scan, file: SourceFile, state0: FileState, j: nat, records: nat,
          ghost first: nat, ghost ext: Extent, ghost whole: bool, ghost source: Source)
    returns (state: FileState)
    requires WellFormed(file) && first <= j <= |file.log| && (first == j ==> j == |file.log|) && lane.Valid()
    requires Underway(file.log, first, j, lane.tables, ext, scan.Batch(), scan.activeTurn, scan.activeSummary, whole)
    requires Observes(state0, file) && state0.indexedFrom == Offset(file.log, first) && records == j - first
    modifies lane, scan
    ensures lane.Valid() && scan.Batch() == EMPTY && scan.activeTurn == old(scan.activeTurn) && scan.activeSummary == old(scan.activeSummary)
    ensures |lane.writes| == |old(lane.writes)| + 1
    ensures Carried(source, file.log, first, j, old(lane.writes), old(scan.content), ext) ==>
              Carried(source, file.log, first, j, lane.writes, [], Extent(file.log[..j], first))
    ensures SameTurns(lane.tables, Live(old(lane.tables), old(scan.Batch())))
    ensures Tracks(state, file, first, j, true, lane.tables, Extent(file.log[..j], first))
    ensures Resting(lane.tables, Extent(file.log[..j], first), whole)
    ensures first < j ==> Underway(file.log, first, j, lane.tables, Extent(file.log[..j], first), EMPTY, scan.activeTurn, scan.activeSummary, whole)
  {
    var log, offset := file.log, Offset(file.log, j);
    state := state0.(indexedBytes := offset, records := records, tailHash := file.tail(offset));
    ghost var ft, batch, active, summary := lane.tables, scan.Batch(), scan.activeTurn, scan.activeSummary;
    assert Asked(ScanAt(j, |batch.records|), 0);
    TiledPrefix(log, j);
    ForwardCommit(log, first, j, ft, ext, batch, active, summary, state);
    if first < j { ForwardGoesOn(log, first, j, ft, batch, active, summary, state); }
    if whole { ForwardWhole(log, first, j, ft, batch, active, summary, state); }
    CommitKeepsRows(ft, batch, summary, state);
    CommitPending(lane, scan, state, log, j, first, ext, source);
  }

  /** Records a scan can read: no boundary is unreadable, none is too long, and one that is a turn by itself folds. */
  ghost predicate Fine(log: seq<Record>) {
    Readable(log) && forall j :: 0 <= j < |log| ==> log[j].end - log[j].start <= MAX_RECORD_BYTES && (log[j].standalone.Some? ==> log[j].foldable)
  }

  /** Reads record `j` into the batch. */
  method ReadNext(source: Source, scan: Scan, log: seq<Record>, j: nat, ghost first: nat, ghost ft: FileTables,
          ghost ext: Extent, ghost whole: bool, ghost j0: nat, ghost begin: ScanState, ghost writes: seq<Write>)
    returns (failed: Option<IndexError>, next: nat)
    requires first <= j < |log| <= U64_MAX && Tiled(log)
    requires Underway(log, first, j, ft, ext, scan.Batch(), scan.activeTurn, scan.activeSummary, whole)
    requires j0 <= j && Keeping(log, j0, j, begin, ft, scan.Batch(), scan.activeTurn)
    modifies scan
    ensures next == j + 1
    ensures failed.None? ==> Keeping(log, j0, next, begin, ft, scan.Batch(), scan.activeTurn)
    ensures failed.None? ==> |scan.records| == |old(scan.records)| + 1
    ensures failed.None? && Carried(source, log, first, j, writes, old(scan.content), ext) ==>
              Carried(source, log, first, next, writes, scan.content, ext)
    ensures failed.None? ==> Underway(log, first, next, ft, ext, scan.Batch(), scan.activeTurn, scan.activeSummary, whole)
    ensures Readable(log) && log[j].end - log[j].start <= MAX_RECORD_BYTES && (log[j].standalone.Some? ==> log[j].foldable) ==>
              failed.None?
  {
    next := j + 1;
    UnderwayLine(log, first, j, next, ft, ext, scan.Batch(), scan.activeTurn, scan.activeSummary, source.content(log[j]), whole);
    KeepingLine(log, j0, j, next, begin, ft, scan.Batch(), scan.activeTurn, scan.activeSummary, source.content(log[j]));
    ghost var content := scan.content;
    failed := scan.ReadLine(source, log, j);
    if failed.None? && Carried(source, log, first, j, writes, content, ext) {
      CarriedLine(source, log, first, j, next, writes, content, ext);
    }
  }

  /** The extent a scan from `first` may have committed since `ext`. */
  ghost predicate Reached(log: seq<Record>, first: nat, ext: Extent, ext': Extent) {
    ext' == ext || (ext'.indexed <= log && ext'.first == first)
  }

  /** Whose checkpoint the tables carry: the one from before, or one of this observation. */
  ghost predicate Stamped(before: FileTables, ext: Extent, after: FileTables, ext': Extent, file: SourceFile) {
    || after.state.None?
    || (after.state == before.state && ext' == ext)
    || (after.state.value.device == file.device && after.state.value.inode == file.inode && ext'.indexed <= file.log)
  }

  /** Reads record `j`, and commits when the batch is full. */
  method ReadStep(lane: Lane, source: Source, file: SourceFile, scan: Scan, state: FileState, j: nat,
          sequence: nat, left: nat, ghost first: nat, ghost ext0: Extent, ghost ext: Extent, ghost whole: bool,
          ghost j0: nat, ghost begin: ScanState)
    returns (stopped: Option<Outcome>, state': FileState, next: nat, left': nat, ghost ext': Extent)
    requires WellFormed(file) && first <= j < |file.log| <= U64_MAX && sequence == j - first && lane.Valid()
    requires Underway(file.log, first, j, lane.tables, ext, scan.Batch(), scan.activeTurn, scan.activeSummary, whole)
    requires Tracks(state, file, first, j, false, lane.tables, ext) && Reached(file.log, first, ext0, ext)
    requires j0 <= j && Keeping(file.log, j0, j, begin, lane.tables, scan.Batch(), scan.activeTurn)
    modifies lane, scan
    ensures lane.Valid() && next == j + 1 && Reached(file.log, first, ext0, ext')
    ensures Resting(lane.tables, ext', whole)
    ensures Stamped(old(lane.tables), ext, lane.tables, ext', file)
    ensures stopped.None? ==>
              && Underway(file.log, first, next, lane.tables, ext', scan.Batch(), scan.activeTurn, scan.activeSummary, whole)
              && Tracks(state', file, first, next, scan.records == [], lane.tables, ext')
              && Keeping(file.log, j0, next, begin, lane.tables, scan.Batch(), scan.activeTurn)
    ensures Carried(source, file.log, first, j, old(lane.writes), old(scan.content), ext) ==>
              if stopped.None? then Carried(source, file.log, first, next, lane.writes, scan.content, ext')
              else lane.writes == old(lane.writes) && ext' == ext
    ensures stopped.Some? ==> !stopped.value.Indexed? && (stopped.value.Crashed? ==> left' == 0)
    ensures stopped.Some? && stopped.value.Failed? ==> !Fine(file.log)
    ensures left' <= left && |lane.writes| + left' == |old(lane.writes)| + left
    ensures stopped.Some? ==> left' == left && (stopped.value.Crashed? ==> |old(scan.records)| + 1 == WRITE_BATCH_RECORDS)
    ensures stopped.None? ==>
              if |old(scan.records)| + 1 == WRITE_BATCH_RECORDS then left' == left - 1 && scan.records == []
              else left' == left && |scan.records| == |old(scan.records)| + 1
  {
    ghost var ft := lane.tables;
    var failed;
    state', left', ext' := state, left, ext;
    UnderwayRests(file.log, first, j, ft, ext, scan.Batch(), scan.activeTurn, scan.activeSummary, whole);
    failed, next := ReadNext(source, scan, file.log, j, first, ft, ext, whole, j0, begin, lane.writes);
    assert lane.tables == ft;
    if failed.Some? { return Some(Failed(failed.value)), state', next, left', ext'; }
    if scan.Full() {
      if left == 0 { return Some(Crashed), state', next, 0, ext'; }
      ghost var batch := scan.Batch();
      state' := CommitForward(lane, scan, file, state, next, sequence + 1, first, ext, whole, source);
      KeepingCommit(file.log, j0, next, begin, ft, batch, scan.activeTurn, lane.tables);
      left', ext' := left - 1, Extent(file.log[..next], first);
    }
    stopped := None;
  }

  /** The lines after the checkpoint, read to the durable end and committed in batches. */
  method ReadForward(lane: Lane, source: Source, file: SourceFile, scan: Scan, state0: FileState, dirty: bool,
          commits: nat, ghost first: nat, ghost j0: nat, ghost ext: Extent, ghost whole: bool, ghost begin: ScanState)
    returns (outcome: Outcome, left: nat, ghost ext': Extent)
    requires WellFormed(file) && first <= j0 <= |file.log| && (dirty || j0 < |file.log|) && lane.Valid()
    requires Underway(file.log, first, j0, lane.tables, ext, EMPTY, scan.activeTurn, scan.activeSummary, whole)
    requires scan.Batch() == EMPTY && Observes(state0, file)
    requires state0.indexedFrom == Offset(file.log, first) && state0.indexedBytes == Offset(file.log, j0) && state0.records == j0 - first
    requires Keeping(file.log, j0, j0, begin, lane.tables, EMPTY, scan.activeTurn)
    modifies lane, scan
    ensures lane.Valid() && Resting(lane.tables, ext', whole)
    ensures Reached(file.log, first, ext, ext') && Stamped(old(lane.tables), ext, lane.tables, ext', file)
    ensures Carried(source, file.log, first, j0, old(lane.writes), [], ext) ==> Kept(source, lane.writes, ext')
    ensures outcome.Indexed? ==> ext' == Extent(file.log, first) && lane.tables.state.Some? && Matches(lane.tables.state.value, file)
    ensures outcome.Indexed? ==> Follows(file.log, j0, |file.log|, begin, lane.tables, scan.activeTurn)
    ensures outcome.Failed? ==> !Fine(file.log)
    ensures Paid(|old(lane.writes)|, |lane.writes|, commits, left, outcome)
    ensures outcome.Crashed? ==> commits <= Batches(|file.log|)
    ensures outcome.Indexed? ==> commits - left <= Batches(|file.log|) + 1
  {
    var log, state := file.log, state0;
    var j := Seek(log, state.indexedBytes, j0);
    var sequence := state.records;
    left, ext' := commits, ext;
    ghost var carried := Carried(source, log, first, j0, lane.writes, [], ext);
    RecordsFitTheFile(log);
    while j < |log|
      invariant j0 <= j <= |log| && sequence == j - first && lane.Valid()
      invariant Underway(log, first, j, lane.tables, ext', scan.Batch(), scan.activeTurn, scan.activeSummary, whole)
      invariant Reached(log, first, ext, ext') && Stamped(old(lane.tables), ext, lane.tables, ext', file)
      invariant Tracks(state, file, first, j, scan.records == [] && j > j0, lane.tables, ext')
      invariant Keeping(log, j0, j, begin, lane.tables, scan.Batch(), scan.activeTurn)
      invariant carried ==> Carried(source, log, first, j, lane.writes, scan.content, ext')
      invariant left <= commits && |lane.writes| + left == |old(lane.writes)| + commits
      invariant Batched(j - j0, commits - left, |scan.records|)
    {
      BatchedNext(j - j0, commits - left, |scan.records|);
      BatchesIn(j - j0, commits - left, |scan.records|, |log|);
      if carried { CarriedIsKept(source, log, first, j, lane.writes, scan.content, ext'); }
      var stopped, next;
      stopped, state, next, left, ext' := ReadStep(lane, source, file, scan, state, j, sequence, left, first, ext, ext', whole, j0, begin);
      if stopped.Some? { return stopped.value, left, ext'; }
      j, sequence := next, sequence + 1;
    }
    assert log[..j] == log;
    if carried { CarriedIsKept(source, log, first, j, lane.writes, scan.content, ext'); }
    BatchesIn(j - j0, commits - left, |scan.records|, |log|);
    UnderwayRests(log, first, j, lane.tables, ext', scan.Batch(), scan.activeTurn, scan.activeSummary, whole);
    if first < |log| { OffsetsIncrease(log, first, |log|); }
    if scan.records != [] || dirty {
      if left == 0 { return Crashed, 0, ext'; }
      ghost var ft, batch := lane.tables, scan.Batch();
      state := CommitForward(lane, scan, file, state, j, sequence, first, ext', whole, source);
      if carried { CarriedIsKept(source, log, first, j, lane.writes, [], Extent(log[..j], first)); }
      KeepingCommit(log, j0, |log|, begin, ft, batch, scan.activeTurn, lane.tables);
      left, ext' := left - 1, Extent(log, first);
    } else {
      KeepingEnds(log, j0, |log|, begin, lane.tables, scan.Batch(), scan.activeTurn);
    }
    return Indexed, left, ext';
  }

  /** A checkpoint at byte 0 covers nothing. */
  lemma {:induction false} NothingIndexed(ft: FileTables, ext: Extent)
    requires AtRest(ft, ext) && DurableEnd(ext.indexed) == 0
    ensures ext == NOTHING
  {
    if |ext.indexed| > 0 { OffsetsIncrease(ext.indexed, 0, |ext.indexed|); }
  }

  lemma {:induction false} ResumeUnderway(log: seq<Record>, ft: FileTables, ext: Extent,
          summary: Option<ActiveSummary>, whole: bool)
    requires Tiled(log) && AtRest(ft, ext) && ext.indexed <= log
    requires Lockstep(ext.indexed, DurableEnd(ext.indexed), Resumed(ft.turns), summary, Offset(ext.indexed, ext.first))
    requires whole ==> Whole(ft, ext) && Settled(Resumed(ft.turns), Offset(ext.indexed, ext.first))
    ensures Underway(log, ext.first, |ext.indexed|, ft, ext, EMPTY, Resumed(ft.turns), summary, whole)
  {
    ResumeScanning(log, ft, ext, summary);
    assert log[..|ext.indexed|] == ext.indexed;
  }

  lemma {:induction false} BootstrapUnderway(log: seq<Record>, ft: FileTables, first: nat)
    requires Tiled(log) && AtRest(ft, NOTHING) && first <= |log| && CleanFrom(log, first)
    ensures Underway(log, first, first, ft, NOTHING, EMPTY, None, None, true) && Resumed(ft.turns) == None
  {
    BootstrapScanning(log, ft, first);
  }

  /** The rows and tombstones are those that reading the new lines, resumed turn in hand, makes of the old ones. */
  ghost predicate GoesOnFrom(was: FileTables, ext: Extent, log: seq<Record>, now: FileTables)
    requires |ext.indexed| <= |log|
  {
    SameTurns(now, After(log, |ext.indexed|, |log|, ScanState(was, Resumed(was.turns), None)).tables)
  }

  /** The rows and tombstones are those that reading the lines from record `first` on makes of none. */
  ghost predicate BuiltFrom(log: seq<Record>, first: nat, now: FileTables) {
    first <= |log| && SameTurns(now, After(log, first, |log|, ScanState(NO_ROWS, None, None)).tables)
  }

  lemma {:induction false} NothingHeld(ft: FileTables)
    requires AtRest(ft, NOTHING)
    ensures SameTurns(ft, NO_ROWS)
  {
    assert ft.turns.Keys == {} && ft.removed == {};
  }

  /** A file nothing is indexed of yet: a small one from byte 0, a large one from its newest turn. */
  method Bootstrap(lane: Lane, source: Source, file: SourceFile, commits: nat)
    returns (outcome: Outcome, left: nat, ghost ext': Extent)
    requires WellFormed(file) && lane.Valid() && AtRest(lane.tables, NOTHING) && file.log != []
    requires DurableEnd(file.log) > TAIL_BOOTSTRAP_FULL_SCAN_BYTES ==> Apart(file.log)
    modifies lane
    ensures lane.Valid() && AtRest(lane.tables, ext') && ext'.indexed <= file.log && Whole(lane.tables, ext')
    ensures Stamped(old(lane.tables), NOTHING, lane.tables, ext', file) && Kept(source, lane.writes, ext')
    ensures outcome.Indexed? ==> Offset(file.log, ext'.first) == BootstrapOffset(file.log) && BuiltFrom(file.log, ext'.first, lane.tables)
    ensures outcome.Indexed? ==> ext'.indexed == file.log && lane.tables.state.Some? && Matches(lane.tables.state.value, file)
    ensures outcome.Failed? ==> !Fine(file.log)
    ensures Paid(|old(lane.writes)|, |lane.writes|, commits, left, outcome)
    ensures outcome.Crashed? ==> commits < Bound(file.log) - 1
    ensures outcome.Indexed? ==> commits - left <= Bound(file.log) - 1
  {
    var start, first := TailBootstrapStart(file.log);
    if start.Unreadable? { return Failed(InvalidBoundary(start.offset)), commits, NOTHING; }
    var state := TailState(file.device, file.inode, start.state).(modifiedNanos := file.modifiedNanos);
    BootstrapUnderway(file.log, lane.tables, first);
    var scan := new Scan(Resumed(lane.tables.turns), None);
    NothingHeld(lane.tables);
    CarriedBegins(source, file.log, first, first, lane.writes, NOTHING);
    KeepingBegins(file.log, first, lane.tables, None, ScanState(NO_ROWS, None, None));
    outcome, left, ext' := ReadForward(lane, source, file, scan, state, true, commits, first, first, NOTHING, true,
                                       ScanState(NO_ROWS, None, None));
    assert Asked(Rest, 0);
  }

  /** Goes on from a checkpoint the file has outgrown. */
  method Resume(lane: Lane, source: Source, file: SourceFile, state0: FileState, commits: nat, ghost ext: Extent)
    returns (outcome: Outcome, left: nat, ghost ext': Extent)
    requires WellFormed(file) && lane.Valid() && AtRest(lane.tables, ext) && ext.indexed <= file.log && ext.indexed != file.log
    requires state0.device == file.device && state0.inode == file.inode && Checkpoint(state0, ext)
    modifies lane
    ensures lane.Valid() && AtRest(lane.tables, ext') && ext'.indexed <= file.log && ext'.first == ext.first
    ensures Stamped(old(lane.tables), ext, lane.tables, ext', file)
    ensures outcome.Indexed? ==> ext'.indexed == file.log && lane.tables.state.Some? && Matches(lane.tables.state.value, file)
    ensures outcome.Indexed? ==> GoesOnFrom(old(lane.tables), ext, file.log, lane.tables)
    ensures Kept(source, old(lane.writes), ext) ==> Kept(source, lane.writes, ext')
    ensures Whole(old(lane.tables), ext) && Settled(Resumed(old(lane.tables).turns), state0.indexedFrom) ==> Whole(lane.tables, ext')
    ensures outcome.Failed? ==> !Fine(file.log)
    ensures Paid(|old(lane.writes)|, |lane.writes|, commits, left, outcome)
    ensures outcome.Crashed? ==> commits < Bound(file.log)
    ensures outcome.Indexed? ==> commits - left <= Bound(file.log)
  {
    ghost var was, whole := lane.tables, Whole(lane.tables, ext) && Settled(Resumed(lane.tables.turns), state0.indexedFrom);
    var state := state0.(modifiedNanos := file.modifiedNanos);
    var turn, summary, resumed, rest := ActiveProjection(lane, source, file.log, state.indexedBytes, commits, ext);
    if resumed.Crashed? { return Crashed, 0, ext; }
    outcome, left, ext' := ReadOn(lane, source, file, state, turn, summary, rest, ext, whole, ScanState(was, Resumed(was.turns), None));
    assert Asked(Rest, 0);
  }

  /** Reads what was added, with the turn and the projection resumed from the checkpoint in hand. */
  method ReadOn(lane: Lane, source: Source, file: SourceFile, state: FileState, turn: Option<Turn>,
          summary: Option<ActiveSummary>,
          commits: nat, ghost ext: Extent, ghost whole: bool, ghost begin: ScanState)
    returns (outcome: Outcome, left: nat, ghost ext': Extent)
    requires WellFormed(file) && lane.Valid() && AtRest(lane.tables, ext) && ext.indexed <= file.log && ext.indexed != file.log
    requires Observes(state, file) && Checkpoint(state, ext)
    requires turn == Resumed(lane.tables.turns) && SameTurns(lane.tables, begin.tables) && begin.active == turn
    requires Lockstep(ext.indexed, DurableEnd(ext.indexed), turn, summary, Offset(ext.indexed, ext.first))
    requires whole ==> Whole(lane.tables, ext) && Settled(turn, Offset(ext.indexed, ext.first))
    modifies lane
    ensures lane.Valid() && Resting(lane.tables, ext', whole) && ext'.indexed <= file.log && ext'.first == ext.first
    ensures Stamped(old(lane.tables), ext, lane.tables, ext', file)
    ensures outcome.Indexed? ==> ext'.indexed == file.log && lane.tables.state.Some? && Matches(lane.tables.state.value, file)
    ensures outcome.Indexed? ==> SameTurns(lane.tables, After(file.log, |ext.indexed|, |file.log|, begin).tables)
    ensures Kept(source, old(lane.writes), ext) ==> Kept(source, lane.writes, ext')
    ensures outcome.Failed? ==> !Fine(file.log)
    ensures Paid(|old(lane.writes)|, |lane.writes|, commits, left, outcome)
    ensures outcome.Crashed? ==> commits <= Batches(|file.log|)
    ensures outcome.Indexed? ==> commits - left <= Batches(|file.log|) + 1
  {
    ResumeUnderway(file.log, lane.tables, ext, summary, whole);
    assert file.log[..|ext.indexed|] == ext.indexed;
    var scan := new Scan(turn, summary);
    KeepingBegins(file.log, |ext.indexed|, lane.tables, turn, begin);
    if Kept(source, lane.writes, ext) { CarriedBegins(source, file.log, ext.first, |ext.indexed|, lane.writes, ext); }
    outcome, left, ext' := ReadForward(lane, source, file, scan, state, false, commits, ext.first, |ext.indexed|, ext, whole, begin);
  }

  /** An empty batch that only writes the checkpoint of an empty or emptied index. */
  lemma {:induction false} EmptyCommit(ft: FileTables, state: FileState)
    requires AtRest(ft, NOTHING) && state.indexedFrom == 0 && state.indexedBytes == 0 && state.records == 0
    ensures AtRest(Publish(ft, EMPTY, state), NOTHING) && Whole(Publish(ft, EMPTY, state), NOTHING)
  {
    NothingPending(ft);
    PublishIsLive(ft, EMPTY, state);
    SameRowsCover([], 0, ft, Publish(ft, EMPTY, state));
    RestKeepsInverse([], ft, NOTHING, EMPTY, state);
  }

  lemma {:induction false} NothingWhole(ft: FileTables)
    requires AtRest(ft, NOTHING)
    ensures Whole(ft, NOTHING)
  {
  }

  /** The checkpoint describes this observation to its end. */
  ghost predicate Current(ft: FileTables, ext: Extent, file: SourceFile) {
    ft.state.Some? && Matches(ft.state.value, file) && ext.indexed == file.log
  }

  /** The checkpoint describes the head of this observation, and lines were added behind it. */
  ghost predicate Grown(ft: FileTables, ext: Extent, file: SourceFile) {
    ft.state.Some? && Matches(ft.state.value, file) && [] < ext.indexed < file.log
  }

  /** A file without a checkpoint: an empty one gets its row, any other is bootstrapped. */
  method IndexAnew(lane: Lane, source: Source, file: SourceFile, commits: nat)
    returns (outcome: Outcome, left: nat, ghost ext': Extent)
    requires WellFormed(file) && lane.Valid() && AtRest(lane.tables, NOTHING)
    requires DurableEnd(file.log) > TAIL_BOOTSTRAP_FULL_SCAN_BYTES ==> Apart(file.log)
    modifies lane
    ensures lane.Valid() && AtRest(lane.tables, ext') && ext'.indexed <= file.log && Whole(lane.tables, ext')
    ensures Stamped(old(lane.tables), NOTHING, lane.tables, ext', file) && Kept(source, lane.writes, ext')
    ensures outcome.Indexed? ==> ext'.indexed == file.log && lane.tables.state.Some? && Matches(lane.tables.state.value, file)
    ensures outcome.Indexed? ==> Offset(file.log, ext'.first) == BootstrapOffset(file.log) && BuiltFrom(file.log, ext'.first, lane.tables)
    ensures outcome.Failed? ==> !Fine(file.log)
    ensures Paid(|old(lane.writes)|, |lane.writes|, commits, left, outcome)
    ensures outcome.Crashed? ==> commits < Bound(file.log) - 1
    ensures outcome.Indexed? ==> commits - left <= Bound(file.log) - 1
  {
    if DurableEnd(file.log) == 0 {
      if commits == 0 { NothingWhole(lane.tables); return Crashed, 0, NOTHING; }
      var state := EmptyState(file.device, file.inode).(modifiedNanos := file.modifiedNanos, tailHash := file.tail(0));
      EmptyCommit(lane.tables, state);
      NothingHeld(lane.tables);
      NothingPending(lane.tables);
      lane.CommitIndexBatch(EMPTY, state);
      if file.log != [] { OffsetsIncrease(file.log, 0, |file.log|); }
      return Indexed, commits - 1, NOTHING;
    }
    outcome, left, ext' := Bootstrap(lane, source, file, commits);
  }

  /** A file whose checkpoint is one of it: nothing to do, an index of nothing to bootstrap, or new lines to read. */
  method IndexKnown(lane: Lane, source: Source, file: SourceFile, commits: nat, ghost ext: Extent)
    returns (outcome: Outcome, left: nat, ghost ext': Extent)
    requires WellFormed(file) && lane.Valid() && AtRest(lane.tables, ext) && ext.indexed <= file.log
    requires lane.tables.state.Some? && Matches(lane.tables.state.value, file)
    requires DurableEnd(file.log) > TAIL_BOOTSTRAP_FULL_SCAN_BYTES ==> Apart(file.log)
    modifies lane
    ensures lane.Valid() && AtRest(lane.tables, ext') && ext'.indexed <= file.log
    ensures Stamped(old(lane.tables), ext, lane.tables, ext', file)
    ensures outcome.Indexed? ==> ext'.indexed == file.log && lane.tables.state.Some? && Matches(lane.tables.state.value, file)
    ensures ext.indexed != [] ==> ext'.first == ext.first
    ensures Kept(source, old(lane.writes), ext) ==> Kept(source, lane.writes, ext')
    ensures Whole(old(lane.tables), ext) && !Haunted(old(lane.tables)) ==> Whole(lane.tables, ext')
    ensures outcome.Failed? ==> !Fine(file.log)
    ensures Paid(|old(lane.writes)|, |lane.writes|, commits, left, outcome)
    ensures outcome.Crashed? ==> commits < Bound(file.log)
    ensures outcome.Indexed? ==> commits - left <= Bound(file.log)
    ensures outcome.Indexed? && [] < ext.indexed < file.log ==> GoesOnFrom(old(lane.tables), ext, file.log, lane.tables)
    ensures outcome.Indexed? && [] == ext.indexed != file.log ==>
              Offset(file.log, ext'.first) == BootstrapOffset(file.log) && BuiltFrom(file.log, ext'.first, lane.tables)
    ensures ext.indexed == file.log ==> outcome.Indexed? && left == commits && lane.tables == old(lane.tables) && ext' == ext
  {
    var state := lane.tables.state.value;
    if state.indexedBytes == DurableEnd(file.log) {
      OffsetInjective(file.log, |ext.indexed|, |file.log|);
      return Indexed, commits, ext;
    }
    if state.indexedBytes == 0 && state.records == 0 {
      NothingIndexed(lane.tables, ext);
      outcome, left, ext' := Bootstrap(lane, source, file, commits);
    } else {
      outcome, left, ext' := Resume(lane, source, file, state, commits, ext);
    }
  }

  /**
   `index_file`, with its lane held: with `Bound(file.log)` transactions a readable file is indexed
   to its end, and a file that is already so costs none.
   */
  method IndexFile(lane: Lane, source: Source, file: SourceFile, commits: nat, ghost ext: Extent)
    returns (outcome: Outcome, left: nat, ghost ext': Extent)
    requires WellFormed(file) && lane.Valid() && AtRest(lane.tables, ext)
    requires lane.tables.state.Some? && Matches(lane.tables.state.value, file) ==> ext.indexed <= file.log
    requires DurableEnd(file.log) > TAIL_BOOTSTRAP_FULL_SCAN_BYTES ==> Apart(file.log)
    modifies lane
    ensures lane.Valid() && AtRest(lane.tables, ext') && (ext' == ext || ext'.indexed <= file.log)
    ensures Stamped(old(lane.tables), ext, lane.tables, ext', file)
    ensures outcome.Indexed? ==> ext'.indexed == file.log && lane.tables.state.Some? && Matches(lane.tables.state.value, file)
    ensures old(lane.tables).state.Some? && Matches(old(lane.tables).state.value, file) && ext.indexed != [] ==> ext'.first == ext.first
    ensures Kept(source, old(lane.writes), ext) ==> Kept(source, lane.writes, ext')
    ensures Whole(old(lane.tables), ext) && !Haunted(old(lane.tables)) ==> Whole(lane.tables, ext')
    ensures outcome.Failed? ==> !Fine(file.log)
    ensures Paid(|old(lane.writes)|, |lane.writes|, commits, left, outcome)
    ensures outcome.Crashed? ==> commits < Bound(file.log)
    ensures outcome.Indexed? ==> commits - left <= Bound(file.log)
    ensures Fine(file.log) && commits >= Bound(file.log) ==> outcome.Indexed?
    ensures outcome.Indexed? && Grown(old(lane.tables), ext, file) ==> GoesOnFrom(old(lane.tables), ext, file.log, lane.tables)
    ensures outcome.Indexed? && !Current(old(lane.tables), ext, file) && !Grown(old(lane.tables), ext, file) ==>
              Offset(file.log, ext'.first) == BootstrapOffset(file.log) && BuiltFrom(file.log, ext'.first, lane.tables)
    ensures Current(old(lane.tables), ext, file) ==> outcome.Indexed? && left == commits && lane.tables == old(lane.tables) && ext' == ext
  {
    var persisted := lane.tables.state;
    left, ext' := commits, ext;
    if persisted.Some? && Matches(persisted.value, file) {
      outcome, left, ext' := IndexKnown(lane, source, file, left, ext);
      return;
    }
    if persisted.Some? {
      if left == 0 { return Crashed, 0, ext'; }
      lane.ResetFile();
      left, ext' := left - 1, NOTHING;
    }
    outcome, left, ext' := IndexAnew(lane, source, file, left);
  }
}
