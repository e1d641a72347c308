/**
 Whole runs of the index on one file: any sequence of forward scans, prefix backfills and anchor
 recoveries, over a file that is appended to or replaced in between, with a crash after any
 transaction. What the tables at rest then say is spelled out in terms of the reference fold.
 */
module Runs {
  import opened Wrappers
  import opened Transcript
  import opened LogicalTurns
  import opened SurvivingTurns
  import opened Store
  import opened ScanInvariants
  import opened Coverage
  import opened LineScan
  import opened ForwardScan
  import opened TableReads
  import opened IndexReads
  import opened Backfill
  import opened Anchors
  import Codec

  /** One operation, the file as it finds it, and how many of its transactions happen before a crash. */
  datatype Step =
    | Advance(file: SourceFile, commits: nat)
    | Extend(file: SourceFile, commits: nat)
    | Recover(file: SourceFile, commits: nat, anchor: string, older: nat)

  /** Only a bootstrap from the tail and an anchor recovery look for the start of a turn to begin at. */
  ghost predicate Startable(step: Step) {
    step.Recover? || DurableEnd(step.file.log) > TAIL_BOOTSTRAP_FULL_SCAN_BYTES ==> Apart(step.file.log)
  }

  /** Files are appended to, or replaced under a new identity. */
  ghost predicate History(steps: seq<Step>) {
    && (forall n :: 0 <= n < |steps| ==> WellFormed(steps[n].file) && Startable(steps[n]))
    && (forall m, n :: 0 <= m < n < |steps| && SameIdentity(steps[m].file, steps[n].file) ==> steps[m].file.log <= steps[n].file.log)
  }

  predicate SameIdentity(a: SourceFile, b: SourceFile) {
    a.device == b.device && a.inode == b.inode
  }

  /** The checkpoint was taken from an observation made before step `n`. */
  ghost predicate Seen(steps: seq<Step>, n: nat, ft: FileTables, ext: Extent)
    requires n <= |steps|
  {
    ft.state.Some? ==> exists m :: 0 <= m < n && TakenAt(steps[m].file, ft.state.value, ext)
  }

  ghost predicate TakenAt(file: SourceFile, state: FileState, ext: Extent) {
    state.device == file.device && state.inode == file.inode && ext.indexed <= file.log
  }

  lemma {:induction false} SeenIsHonest(steps: seq<Step>, n: nat, ft: FileTables, ext: Extent)
    requires History(steps) && n < |steps| && Seen(steps, n, ft, ext)
    ensures ft.state.Some? && Matches(ft.state.value, steps[n].file) ==> ext.indexed <= steps[n].file.log
  {
    if ft.state.Some? && Matches(ft.state.value, steps[n].file) {
      var m :| 0 <= m < n && TakenAt(steps[m].file, ft.state.value, ext);
      assert SameIdentity(steps[m].file, steps[n].file);
    }
  }

  lemma {:induction false} StampedIsSeen(steps: seq<Step>, n: nat, before: FileTables, ext: Extent,
          after: FileTables, ext': Extent)
    requires n < |steps| && Seen(steps, n, before, ext) && Stamped(before, ext, after, ext', steps[n].file)
    ensures Seen(steps, n + 1, after, ext')
  {
    if after.state.Some? {
      if after.state == before.state && ext' == ext {
        var m :| 0 <= m < n && TakenAt(steps[m].file, before.state.value, ext);
        assert TakenAt(steps[m].file, after.state.value, ext');
      } else {
        assert TakenAt(steps[n].file, after.state.value, ext');
      }
    }
  }

  /** The tables between two operations, what their checkpoint stands for, and the transactions run so far. */
  datatype Moment = Moment(tables: FileTables, ext: Extent, writes: nat)

  const BLANK := Moment(NO_ROWS, NOTHING, 0)

  /** What an operation on a readable file comes to when no crash stops it. */
  ghost predicate Succeeds(step: Step, before: Moment, after: Moment)
    requires WellFormed(step.file) && AtRest(before.tables, before.ext) && AtRest(after.tables, after.ext)
  {
    && Current(after.tables, after.ext, step.file)
    && (Current(before.tables, before.ext, step.file) ==>
          match step
          case Advance(_, _) => after == before
          case Extend(_, _) => Lowered(before.ext, after.ext)
          case Recover(file, _, anchor, older) =>
            && after.ext.first <= before.ext.first
            && (Known(file.log, before.tables, before.ext) ==> Recovered(file.log, after.ext.first, anchor, older)))
  }

  /**
   One operation took the tables from `before` to `after`. It falls short only on a log it cannot
   read, on a missing checkpoint, or when its transactions are used up; `Bound` are always enough.
   */
  ghost predicate Lands(step: Step, before: Moment, after: Moment)
    requires WellFormed(step.file) && AtRest(before.tables, before.ext)
  {
    && AtRest(after.tables, after.ext)
    && Stamped(before.tables, before.ext, after.tables, after.ext, step.file)
    && (Whole(before.tables, before.ext) && !Haunted(before.tables) ==> Whole(after.tables, after.ext))
    && before.writes <= after.writes <= before.writes + step.commits
    && (Fine(step.file.log) && (step.Extend? ==> before.tables.state.Some?) ==>
          || Succeeds(step, before, after)
          || (after.writes == before.writes + step.commits && step.commits < Bound(step.file.log)))
  }

  /** The moments of a run: each operation found the tables as the one before it left them. */
  ghost predicate Traces(steps: seq<Step>, trace: seq<Moment>) {
    && History(steps) && |trace| == |steps| + 1 && trace[0] == BLANK
    && (forall n :: 0 <= n <= |steps| ==> AtRest(trace[n].tables, trace[n].ext))
    && (forall n :: 0 <= n < |steps| ==> Lands(steps[n], trace[n], trace[n + 1]))
  }

  ghost predicate HauntedBefore(trace: seq<Moment>, n: nat)
    requires n <= |trace|
  {
    exists m :: 0 <= m < n && Haunted(trace[m].tables)
  }

  /** A run has done its first `n` operations. */
  ghost predicate SoFar(steps: seq<Step>, n: nat, trace: seq<Moment>, now: Moment, haunted: bool)
    requires n <= |steps|
  {
    && Traces(steps[..n], trace) && trace[n] == now
    && haunted == HauntedBefore(trace, n)
    && (!haunted ==> Whole(now.tables, now.ext))
    && Seen(steps, n, now.tables, now.ext)
  }

  /**
   Every run, from an empty index: wherever it stops, the tables are at rest. `haunted` tells
   whether some scan found a turn that a crashed backfill had left open below coverage; without
   that, no standalone turn of the covered range is missing.
   */
  method Run(source: Source, steps: seq<Step>) returns (lane: Lane, haunted: bool, ghost ext: Extent, ghost trace: seq<Moment>)
    requires History(steps)
    ensures lane.Valid() && lane.start == NO_ROWS && AtRest(lane.tables, ext)
    ensures Traces(steps, trace) && trace[|steps|] == Moment(lane.tables, ext, |lane.writes|)
    ensures haunted == HauntedBefore(trace, |steps|)
    ensures !haunted ==> Whole(lane.tables, ext)
    ensures Seen(steps, |steps|, lane.tables, ext) && Kept(source, lane.writes, ext)
  {
    lane := new Lane(NO_ROWS);
    haunted, ext, trace := false, NOTHING, [BLANK];
    NothingCovered();
    var n := 0;
    while n < |steps|
      invariant 0 <= n <= |steps| && lane.Valid() && lane.start == NO_ROWS
      invariant SoFar(steps, n, trace, Moment(lane.tables, ext, |lane.writes|), haunted) && Kept(source, lane.writes, ext)
    {
      haunted, n, ext, trace := RunStep(lane, source, steps, n, haunted, ext, trace);
    }
    assert steps[..n] == steps;
  }

  method RunStep(lane: Lane, source: Source, steps: seq<Step>, n: nat, haunted: bool, ghost ext: Extent,
          ghost trace: seq<Moment>)
    returns (haunted': bool, next: nat, ghost ext': Extent, ghost trace': seq<Moment>)
    requires History(steps) && n < |steps| && lane.Valid() && SoFar(steps, n, trace, Moment(lane.tables, ext, |lane.writes|), haunted)
    modifies lane
    ensures lane.Valid() && next == n + 1 && SoFar(steps, next, trace', Moment(lane.tables, ext', |lane.writes|), haunted')
    ensures Kept(source, old(lane.writes), ext) ==> Kept(source, lane.writes, ext')
  {
    ghost var before := Moment(lane.tables, ext, |lane.writes|);
    next := n + 1;
    assert AtRest(lane.tables, ext) && Seen(steps, n, lane.tables, ext);
    SeenIsHonest(steps, n, lane.tables, ext);
    haunted' := haunted || (lane.tables.state.Some? && !Settled(Resumed(lane.tables.turns), lane.tables.state.value.indexedFrom));
    ext' := Perform(lane, source, steps[n], ext);
    trace' := trace + [Moment(lane.tables, ext', |lane.writes|)];
    GoesOn(steps, n, trace, before, haunted, Moment(lane.tables, ext', |lane.writes|), haunted');
  }

  lemma {:induction false} GoesOn(steps: seq<Step>, n: nat, trace: seq<Moment>, before: Moment, haunted: bool,
          after: Moment, haunted': bool)
    requires History(steps) && n < |steps| && SoFar(steps, n, trace, before, haunted)
    requires Lands(steps[n], before, after) && haunted' == (haunted || Haunted(before.tables))
    ensures SoFar(steps, n + 1, trace + [after], after, haunted')
  {
    TraceGrows(steps, n, trace, after);
    StampedIsSeen(steps, n, before.tables, before.ext, after.tables, after.ext);
    HauntedNext(trace, n, after);
  }

  lemma {:induction false} HauntedNext(trace: seq<Moment>, n: nat, after: Moment)
    requires |trace| == n + 1
    ensures HauntedBefore(trace + [after], n + 1) == (HauntedBefore(trace, n) || Haunted(trace[n].tables))
  {
    var more := trace + [after];
    forall m | 0 <= m <= n ensures more[m] == trace[m] { }
    if HauntedBefore(trace, n) {
      var m :| 0 <= m < n && Haunted(trace[m].tables);
      assert Haunted(more[m].tables);
    }
    assert more[n] == trace[n];
  }

  lemma {:induction false} TraceGrows(steps: seq<Step>, n: nat, trace: seq<Moment>, after: Moment)
    requires History(steps) && n < |steps| && Traces(steps[..n], trace) && Lands(steps[n], trace[n], after)
    ensures Traces(steps[..n + 1], trace + [after])
  {
    var longer, more := steps[..n + 1], trace + [after];
    forall m | 0 <= m < |longer| ensures Lands(longer[m], more[m], more[m + 1]) {
      if m < n { assert longer[m] == steps[..n][m]; }
    }
  }

  method Perform(lane: Lane, source: Source, step: Step, ghost ext: Extent) returns (ghost ext': Extent)
    requires WellFormed(step.file) && Startable(step) && lane.Valid() && AtRest(lane.tables, ext)
    requires lane.tables.state.Some? && Matches(lane.tables.state.value, step.file) ==> ext.indexed <= step.file.log
    modifies lane
    ensures lane.Valid() && Lands(step, old(Moment(lane.tables, ext, |lane.writes|)), Moment(lane.tables, ext', |lane.writes|))
    ensures Kept(source, old(lane.writes), ext) ==> Kept(source, lane.writes, ext')
  {
    var outcome, left;
    match step
    case Advance(file, commits) =>
      outcome, left, ext' := IndexFile(lane, source, file, commits, ext);
    case Extend(file, commits) =>
      outcome, left, ext' := BackfillStep(lane, source, file, commits, ext);
    case Recover(file, commits, anchor, older) =>
      outcome, left, ext' := AnchorStep(lane, source, file, anchor, older, commits, ext);
  }

  // --- What follows for whole runs ---

  /** The operation is one more backfill of this file, with transactions to spare. */
  ghost predicate Backfills(step: Step, file: SourceFile) {
    step.Extend? && step.file == file && step.commits >= Bound(file.log)
  }

  /**
   Backfills of one readable file that the index is current on: each takes coverage at least one
   record further down, so as many as lie below it complete the index, and it stays complete.
   */
  lemma {:induction false} BackfillsComplete(steps: seq<Step>, trace: seq<Moment>, m: nat, n: nat, file: SourceFile)
    requires Traces(steps, trace) && m <= n <= |steps| && Fine(file.log)
    requires Current(trace[m].tables, trace[m].ext, file)
    requires forall k :: m <= k < n ==> Backfills(steps[k], file)
    ensures Current(trace[n].tables, trace[n].ext, file)
    ensures trace[n].ext.first + (n - m) <= trace[m].ext.first || trace[n].ext.first == 0
    decreases n
  {
    if m < n {
      BackfillsComplete(steps, trace, m, n - 1, file);
      var k := n - 1;
      assert Backfills(steps[k], file) && Lands(steps[k], trace[k], trace[k + 1]);
    }
  }

  // --- What rest means ---

  /** The task turns: rows from `indexedFrom` on and surviving turns are the same, with the same range and completion. */
  lemma {:induction false} RestShowsSurvivors(ft: FileTables, ext: Extent, t: Turn)
    requires AtRest(ft, ext) && ft.state.Some? && t.start >= ft.state.value.indexedFrom
    ensures t in Stack(ext.indexed) <==> t.start in ft.turns && ft.turns[t.start] == t && StartedIn(ext.indexed, 0, |ext.indexed|, t.start)
  {
    TaskRowsExact(ext.indexed, ext.first, ft, t);
  }

  /** Their projections fold exactly the whole records of their range; that of the running turn reaches the indexed end. */
  lemma {:induction false} RestShowsSummaries(ft: FileTables, ext: Extent, t: Turn)
    requires AtRest(ft, ext) && ft.state.Some? && t.start >= ft.state.value.indexedFrom && t in Stack(ext.indexed)
    ensures t.start in ft.summaries
    ensures ft.summaries[t.start] == Summary(t.id, Span(ext.indexed, t.start, if t.end != 0 then t.end else ft.state.value.indexedBytes))
  {
    var s := Stack(ext.indexed);
    var p :| 0 <= p < |s| && s[p] == t;
    assert ext.indexed[..|ext.indexed|] == ext.indexed;
    TaskRowsExact(ext.indexed, ext.first, ft, t);
    StackShape(ext.indexed);
    if t.end != 0 { assert SumHeld(ext.indexed, s[p], s[p].end, ft.summaries); }
  }

  /** A surviving turn starts and ends where lines do, and its stored projection folds exactly the lines between, in order. */
  lemma {:induction false} RestShowsLines(ft: FileTables, ext: Extent, t: Turn) returns (i: nat, j: nat)
    requires AtRest(ft, ext) && ft.state.Some? && t.start >= ft.state.value.indexedFrom && t in Stack(ext.indexed)
    ensures i < j <= |ext.indexed| && ext.indexed[i].start == t.start && ext.indexed[i].mark == Started(t.id)
    ensures ext.indexed[j - 1].end == if t.end != 0 then t.end else ft.state.value.indexedBytes
    ensures t.start in ft.summaries && ft.summaries[t.start] == Summary(t.id, ext.indexed[i..j])
  {
    RestShowsSummaries(ft, ext, t);
    i, j := TurnLines(ext.indexed, t);
    SpanIsSlice(ext.indexed, i, j);
  }

  /** A turn started inside coverage is tombstoned exactly when it does not survive. */
  lemma {:induction false} RestShowsTombstones(ft: FileTables, ext: Extent, x: nat)
    requires AtRest(ft, ext) && ft.state.Some? && StartedIn(ext.indexed, ext.first, |ext.indexed|, x)
    ensures x in ft.removed <==> x !in Starts(Stack(ext.indexed))
    ensures x in ft.removed ==> x !in ft.turns && x !in ft.summaries
  {
    assert ext.indexed[..|ext.indexed|] == ext.indexed;
    if x in ft.removed { assert Dead(ext.indexed, x); }
    if x !in Starts(Stack(ext.indexed)) { assert Candidate(ext.indexed, ext.first, |ext.indexed|, x); }
  }

  /**
   A covered record that is a turn by itself has its row, completed, over its own bytes, and its own
   projection, unless a scan resumed over a leftover. Rows stand under their own start, so nothing
   else starts there.
   */
  lemma {:induction false} RestShowsStandalone(ft: FileTables, ext: Extent, j: nat)
    requires AtRest(ft, ext) && ft.state.Some? && Whole(ft, ext) && ext.first <= j < |ext.indexed|
    requires ext.indexed[j].standalone.Some? && !TopOpen(Stack(ext.indexed[..j + 1]))
    ensures var r := ext.indexed[j];
            && r.start in ft.turns && ft.turns[r.start] == Turn(r.standalone.value, r.start, r.end, true)
            && r.start in ft.summaries && ft.summaries[r.start] == Summary(r.standalone.value, [r])
    ensures forall x :: x in ft.turns ==> ft.turns[x].start == x
  {
    assert SingleHeld(ext.indexed, j, ft);
    forall x | x in ft.turns ensures ft.turns[x].start == x { assert RowOrigin(ext.indexed, x, ft.turns[x]); }
  }

  /** The record rows from `indexedFrom` on are the lines up to `indexedBytes`, which they tile, and the checkpoint counts them. */
  lemma {:induction false} RestShowsRecords(ft: FileTables, ext: Extent, x: nat)
    requires AtRest(ft, ext) && ft.state.Some? && x >= ft.state.value.indexedFrom
    ensures x in ft.records <==> exists k :: ext.first <= k < |ext.indexed| && ext.indexed[k].start == x
    ensures x in ft.records ==> exists k :: ext.first <= k < |ext.indexed| && LineAt(ext.indexed[k], x, ft.records[x])
    ensures ft.state.value.records == |ext.indexed| - ext.first
    ensures x in ft.records && x + ft.records[x].length < ft.state.value.indexedBytes ==> x + ft.records[x].length in ft.records
  {
    var log, i := ext.indexed, ext.first;
    if x in ft.records {
      var k :| 0 <= k < |log| && LineAt(log[k], x, ft.records[x]);
      assert Abuts(log, k);
      if k < i { OffsetsIncrease(log, k, i); }
      assert log[k].start == x;
      if k + 1 < |log| {
        assert Abuts(log, k + 1) && RecordHeld(log, k + 1, ft.records);
      }
    }
    if k :| i <= k < |log| && log[k].start == x {
      assert RecordHeld(log, k, ft.records);
    }
  }

  /** The row of a covered line holds its whole length: read back from its stored form it is the same row. */
  lemma {:induction false} RestRecordsAreStored(source: Source, writes: seq<Write>, file: SourceFile, ext: Extent, k: nat)
    requires WellFormed(file) && ext.indexed <= file.log && Kept(source, writes, ext) && ext.first <= k < |ext.indexed|
    ensures var r := ext.indexed[k];
            && r.start <= r.end
            && Codec.DecodeRecord(Codec.EncodeRecord(RefOf(r))) == Some(RecordRef(r.start, r.end - r.start, r.tag))
  {
    assert Asked(Content, 0) && Landed(source, ext.indexed[k], Sent(writes));
    assert Abuts(file.log, k);
    if k + 1 < |file.log| { OffsetsIncrease(file.log, k + 1, |file.log|); }
    OnlyStorableLinesPass(ext.indexed[k]);
  }

  /** The content of a covered line is in both content tables, however the store stood when its lane was taken. */
  lemma {:induction false} RestShowsContent(source: Source, t: Tables, owner: FileId, writes: seq<Write>,
          ext: Extent, k: nat, e: ContentEntry)
    requires Kept(source, writes, ext) && ext.first <= k < |ext.indexed| && e in source.content(ext.indexed[k])
    ensures (e.digest, e.file, e.offset) in StoreReplay(t, owner, writes).content
    ensures (e.file, e.digest, e.offset) in StoreReplay(t, owner, writes).contentByFile
  {
    assert Asked(Content, 0) && Landed(source, ext.indexed[k], Sent(writes));
    var kept := SentIsStored(t, owner, writes, e);
  }

  /** A tombstone lies in a covered range exactly if some turn started there does not survive. */
  lemma {:induction false} RestKnowsRemovals(ft: FileTables, ext: Extent, from: nat, before: nat)
    requires AtRest(ft, ext) && ft.state.Some? && from >= ft.state.value.indexedFrom
    ensures HasRemovedTurns(ft.removed, from, before) <==>
              exists x :: from <= x < before && StartedIn(ext.indexed, ext.first, |ext.indexed|, x) && x !in Starts(Stack(ext.indexed))
  {
    var log := ext.indexed;
    if HasRemovedTurns(ft.removed, from, before) {
      var x :| x in ft.removed && from <= x < before;
      assert Dead(log, x);
      StartedAbove(log, ext.first, x);
    }
    if x :| from <= x < before && StartedIn(log, ext.first, |log|, x) && x !in Starts(Stack(log)) {
      RestShowsTombstones(ft, ext, x);
    }
  }

  lemma {:induction false} StartedAbove(log: seq<Record>, i: nat, x: nat)
    requires Tiled(log) && i <= |log| && StartedIn(log, 0, |log|, x) && Offset(log, i) <= x
    ensures StartedIn(log, i, |log|, x)
  {
    var j :| 0 <= j < |log| && BeginsAt(log[j], x);
    assert Abuts(log, j);
    if j < i { OffsetsIncrease(log, j, i); }
  }

  /** Id lookups are exact inside coverage, when ids are unique: a surviving task turn is found, under its own start. */
  lemma {:induction false} RestFindsIds(ft: FileTables, ext: Extent, t: Turn)
    requires AtRest(ft, ext) && ft.state.Some? && UniqueIds(ext.indexed)
    requires t.start >= ft.state.value.indexedFrom && t in Stack(ext.indexed)
    ensures t.id in ft.turnsById && ft.turnsById[t.id] == t.start && TurnById(ft, t.id) == Some(t)
  {
    TaskRowsExact(ext.indexed, ext.first, ft, t);
  }
}
