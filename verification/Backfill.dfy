/**
 Growing coverage towards byte 0: one bounded range at a time, committed so that a crash leaves the
 old coverage, and joined to it by the last commit.
 */
module Backfill {
  import opened Wrappers
  import opened Transcript
  import opened ReverseScan
  import opened LogicalTurns
  import opened TurnVisitors
  import opened ColdScan
  import opened SurvivingTurns
  import opened Store
  import opened ScanInvariants
  import opened Coverage
  import opened LineScan
  import opened ForwardScan

  /** A backfill of records `i..i0` below the covered suffix `log[i0..]` that has read up to record `j`. */
  ghost predicate Filling(log: seq<Record>, i: nat, i0: nat, j: nat, ft: FileTables, batch: IndexBatch,
          active: Option<Turn>, summary: Option<ActiveSummary>, whole: bool)
    requires i <= j <= i0 <= |log|
  {
    forall n: nat :: Asked(ScanAt(j, |batch.records|), n) ==>
      && AtRest(ft, Extent(log, i0))
      && Progress(log, i, j, Live(ft, batch), active, summary)
      && Cover(log, i0, Live(ft, batch))
      && BatchOrigin(log, batch.turns)
      && Settled(active, Offset(log, i)) && SinglesIn(log, i, j, Live(ft, batch))
      && (whole ==> Whole(ft, Extent(log, i0)) && SinglesIn(log, i0, |log|, Live(ft, batch)))
  }

  lemma {:induction false} FillBegins(log: seq<Record>, i: nat, i0: nat, ft: FileTables, whole: bool)
    requires i <= i0 <= |log| && AtRest(ft, Extent(log, i0)) && CleanFrom(log, i) && (whole ==> Whole(ft, Extent(log, i0)))
    ensures Filling(log, i, i0, i, ft, EMPTY, None, None, whole)
  {
    NothingPending(ft);
    ReadingBegins(log, i, ft);
  }

  lemma {:induction false} FillLineRows(log: seq<Record>, i: nat, i0: nat, j: nat, ft: FileTables,
          active: Option<Turn>, summary: Option<ActiveSummary>, ft': FileTables)
    requires i <= j < i0 <= |log| && Progress(log, i, j, ft, active, summary) && Cover(log, i0, ft)
    requires Settled(active, Offset(log, i)) && SinglesIn(log, i, j, ft)
    requires ft' == LineEffect(ft, Stack(log[..j]), log[j], active, summary)
    ensures Progress(log, i, j + 1, ft', TurnStep(active, log[j]).0, SummaryStep(summary, log[j]).0)
    ensures Cover(log, i0, ft') && (SinglesIn(log, i0, |log|, ft) ==> SinglesIn(log, i0, |log|, ft'))
    ensures Settled(TurnStep(active, log[j]).0, Offset(log, i)) && SinglesIn(log, i, j + 1, ft')
  {
    LineStep(log, i, j, ft, active, summary);
    LineKeepsCover(log, i0, i, j, ft, active, summary, ft');
    WholeStep(log, i, j, ft, active, summary);
  }

  lemma {:induction false} FillLine(log: seq<Record>, i: nat, i0: nat, j: nat, next: nat, ft: FileTables,
          batch: IndexBatch, active: Option<Turn>, summary: Option<ActiveSummary>, content: seq<ContentEntry>,
          whole: bool)
    requires i <= j < i0 <= |log| && next == j + 1 && Filling(log, i, i0, j, ft, batch, active, summary, whole)
    ensures Filling(log, i, i0, next, ft, Pushed(batch, Stack(log[..j]), log[j], active, summary, content),
                    TurnStep(active, log[j]).0, SummaryStep(summary, log[j]).0, whole)
  {
    assert Asked(ScanAt(j, |batch.records|), 0);
    var batch' := Pushed(batch, Stack(log[..j]), log[j], active, summary, content);
    LiveLine(log, j, ft, batch, active, summary, content);
    FillLineRows(log, i, i0, j, Live(ft, batch), active, summary, Live(ft, batch'));
    PushedOrigin(log, i, j, batch, active, summary, content);
  }

  /** A commit on the way keeps the old checkpoint: what it adds stays below coverage. */
  lemma {:induction false} FillCommit(log: seq<Record>, i: nat, i0: nat, j: nat, ft: FileTables,
          batch: IndexBatch, active: Option<Turn>, summary: Option<ActiveSummary>, whole: bool)
    requires i <= j <= i0 <= |log| && Filling(log, i, i0, j, ft, batch, active, summary, whole) && ft.state.Some?
    ensures Filling(log, i, i0, j, Publish(ft, WithRemembered(batch, summary), ft.state.value), EMPTY, active, summary, whole)
  {
    assert Asked(ScanAt(j, |batch.records|), 0);
    if j < i0 { OffsetsIncrease(log, j, i0); }
    var live, batch' := Live(ft, batch), WithRemembered(batch, summary);
    var next := Publish(ft, batch', ft.state.value);
    LiveRemembered(ft, batch, summary);
    PublishIsLive(ft, batch', ft.state.value);
    NothingPending(next);
    FillCommitRows(log, i, i0, j, live, active, summary, next);
    RestKeepsInverse(log, ft, Extent(log, i0), batch', ft.state.value);
    RestGoesOn(log, i0, ft, next);
  }

  lemma {:induction false} RestGoesOn(log: seq<Record>, i0: nat, ft: FileTables, next: FileTables)
    requires i0 <= |log| && AtRest(ft, Extent(log, i0)) && next.state == ft.state && ft.state.Some? && Cover(log, i0, next)
    requires UniqueIds(log) ==> Inverse(next.turns, next.turnsById)
    ensures AtRest(next, Extent(log, i0))
    ensures SinglesIn(log, i0, |log|, next) ==> Whole(next, Extent(log, i0))
  {
  }

  lemma {:induction false} FillCommitRows(log: seq<Record>, i: nat, i0: nat, j: nat, ft: FileTables,
          active: Option<Turn>, summary: Option<ActiveSummary>, next: FileTables)
    requires i <= j <= i0 <= |log| && Progress(log, i, j, ft, active, summary) && Cover(log, i0, ft)
    requires (active.Some? ==> active.value.start < Offset(log, i0)) && SameRows(Remembered(ft, summary), next)
    ensures Progress(log, i, j, next, active, summary) && Cover(log, i0, next)
    ensures SinglesIn(log, i, j, ft) ==> SinglesIn(log, i, j, next)
    ensures SinglesIn(log, i0, |log|, ft) ==> SinglesIn(log, i0, |log|, next)
  {
    RememberKeepsProgress(log, i, j, ft, active, summary);
    RememberKeepsCover(log, i0, ft, summary);
    if SinglesIn(log, i, j, ft) { RememberKeepsSingles(log, i, j, ft, active, summary, Offset(log, j), Offset(log, i)); }
    SameRowsCover(log, i0, Remembered(ft, summary), next);
    SameRowsReading(log, i, j, Remembered(ft, summary), next, active, summary);
    SameRowsSingles(log, i, j, Remembered(ft, summary), next);
    SameRowsSingles(log, i0, |log|, Remembered(ft, summary), next);
  }

  function WithInterrupted(batch: IndexBatch, active: Option<Turn>, at: nat): (batch': IndexBatch) {
    batch.(turns := batch.turns + Interrupted(active, at))
  }

  lemma {:induction false} LiveJoined(base: FileTables, batch: IndexBatch, active: Option<Turn>,
          summary: Option<ActiveSummary>, at: nat)
    ensures Live(base, WithRemembered(WithInterrupted(batch, active, at), summary)) == Joined(Live(base, batch), active, summary, at)
  {
    var gone := Offsets(batch.removedTurns);
    LiveRemembered(base, WithInterrupted(batch, active, at), summary);
    InsertTurnsConcat(base.turns - gone, base.removed + gone, batch.turns, Interrupted(active, at));
  }

  /** The last commit of a backfill moves coverage down to its first record. */
  lemma {:induction false} FillFinish(log: seq<Record>, i: nat, i0: nat, ft: FileTables, batch: IndexBatch,
          active: Option<Turn>, summary: Option<ActiveSummary>, state: FileState, whole: bool)
    requires i <= i0 <= |log| && Filling(log, i, i0, i0, ft, batch, active, summary, whole)
    requires Checkpoint(state, Extent(log, i))
    ensures var next := Publish(ft, WithRemembered(WithInterrupted(batch, active, Offset(log, i0)), summary), state);
            AtRest(next, Extent(log, i)) && (whole ==> Whole(next, Extent(log, i)))
  {
    assert Asked(ScanAt(i0, |batch.records|), 0);
    var live, at := Live(ft, batch), Offset(log, i0);
    var batch' := WithRemembered(WithInterrupted(batch, active, at), summary);
    var next := Publish(ft, batch', state);
    LiveJoined(ft, batch, active, summary, at);
    PublishIsLive(ft, batch', state);
    JoinCovers(log, i, i0, live, active, summary);
    if whole { JoinSingles(log, i, i0, live, active, summary); }
    SameRowsCover(log, i, Joined(live, active, summary, at), next);
    SameRowsSingles(log, i, |log|, Joined(live, active, summary, at), next);
    InterruptedOrigin(log, batch.turns, active, at);
    RestKeepsInverse(log, ft, Extent(log, i0), batch', state);
  }

  lemma {:induction false} InterruptedOrigin(log: seq<Record>, batch: seq<Turn>, active: Option<Turn>, at: nat)
    requires BatchOrigin(log, batch) && ActiveOrigin(log, active)
    ensures BatchOrigin(log, batch + Interrupted(active, at))
  {
  }

  lemma {:induction false} FillingRests(log: seq<Record>, i: nat, i0: nat, j: nat, ft: FileTables,
          batch: IndexBatch, active: Option<Turn>, summary: Option<ActiveSummary>, whole: bool)
    requires i <= j <= i0 <= |log| && Filling(log, i, i0, j, ft, batch, active, summary, whole)
    ensures Tiled(log) && Resting(ft, Extent(log, i0), whole)
  {
    assert Asked(ScanAt(j, |batch.records|), 0);
  }

  /**
   What a backfill that began at record `i` on the tables `was` has committed once its batches reach
   record `at`: the rows and tombstones that the lines read so far make of them, under the old checkpoint.
   */
  ghost predicate Stranded(was: FileTables, log: seq<Record>, i: nat, at: nat, now: FileTables) {
    i <= at <= |log| && now.state == was.state && forall n: nat :: Asked(RangeAt(at), n) ==>
      SameTurns(now, After(log, i, at, ScanState(was, None, None)).tables)
  }

  /** The record behind the last line that `commits` full batches from record `i` take in. */
  function Reach(i: nat, commits: nat): (at: nat) {
    i + commits * WRITE_BATCH_RECORDS
  }

  /** Reads record `j` of the range into the batch. */
  method FillNext(source: Source, scan: Scan, log: seq<Record>, j: nat, ghost i: nat, ghost i0: nat, ghost ft: FileTables,
          ghost whole: bool, ghost was: FileTables, ghost writes: seq<Write>)
    returns (failed: Option<IndexError>, next: nat)
    requires i <= j < i0 <= |log| <= U64_MAX
    requires Filling(log, i, i0, j, ft, scan.Batch(), scan.activeTurn, scan.activeSummary, whole)
    requires Keeping(log, i, j, ScanState(was, None, None), ft, scan.Batch(), scan.activeTurn)
    modifies scan
    ensures next == j + 1
    ensures failed.None? ==>
              && |scan.records| == |old(scan.records)| + 1
              && Filling(log, i, i0, next, ft, scan.Batch(), scan.activeTurn, scan.activeSummary, whole)
              && Keeping(log, i, next, ScanState(was, None, None), ft, scan.Batch(), scan.activeTurn)
    ensures failed.None? && Carried(source, log, i, j, writes, old(scan.content), Extent(log, i0)) ==>
              Carried(source, log, i, next, writes, scan.content, Extent(log, i0))
    ensures Fine(log) ==> failed.None?
  {
    next := j + 1;
    FillingRests(log, i, i0, j, ft, scan.Batch(), scan.activeTurn, scan.activeSummary, whole);
    FillLine(log, i, i0, j, next, ft, scan.Batch(), scan.activeTurn, scan.activeSummary, source.content(log[j]), whole);
    KeepingLine(log, i, j, next, ScanState(was, None, None), ft, scan.Batch(), scan.activeTurn, scan.activeSummary, source.content(log[j]));
    ghost var content := scan.content;
    failed := scan.ReadLine(source, log, j);
    if failed.None? && Carried(source, log, i, j, writes, content, Extent(log, i0)) {
      CarriedLine(source, log, i, j, next, writes, content, Extent(log, i0));
    }
  }

  /** Commits a full batch under the old checkpoint. */
  method CommitFill(lane: Lane, scan: Scan, log: seq<Record>, ghost j: nat, ghost i: nat, ghost i0: nat, ghost whole: bool,
          ghost was: FileTables, ghost source: Source)
    requires i <= j <= i0 <= |log| && lane.Valid() && lane.tables.state == was.state && was.state.Some?
    requires Filling(log, i, i0, j, lane.tables, scan.Batch(), scan.activeTurn, scan.activeSummary, whole)
    requires Keeping(log, i, j, ScanState(was, None, None), lane.tables, scan.Batch(), scan.activeTurn)
    modifies lane, scan
    ensures lane.Valid() && lane.tables.state == was.state && |lane.writes| == |old(lane.writes)| + 1
    ensures scan.Batch() == EMPTY && scan.activeTurn == old(scan.activeTurn) && scan.activeSummary == old(scan.activeSummary)
    ensures Filling(log, i, i0, j, lane.tables, EMPTY, scan.activeTurn, scan.activeSummary, whole)
    ensures Keeping(log, i, j, ScanState(was, None, None), lane.tables, EMPTY, scan.activeTurn)
    ensures Stranded(was, log, i, j, lane.tables)
    ensures Carried(source, log, i, j, old(lane.writes), old(scan.content), Extent(log, i0)) ==>
              Carried(source, log, i, j, lane.writes, [], Extent(log, i0))
  {
    ghost var ft, batch, active, summary := lane.tables, scan.Batch(), scan.activeTurn, scan.activeSummary;
    FillCommit(log, i, i0, j, ft, batch, active, summary, whole);
    CommitKeepsRows(ft, batch, summary, ft.state.value);
    CommitPending(lane, scan, lane.tables.state.value, log, j, i, Extent(log, i0), source);
    KeepingCommit(log, i, j, ScanState(was, None, None), ft, batch, active, lane.tables);
  }

  /** Reads record `j` of the range, and commits under the old checkpoint when the batch is full; `at` records are committed. */
  method FillStep(lane: Lane, source: Source, scan: Scan, log: seq<Record>, j: nat, left: nat, ghost i: nat,
          ghost i0: nat, ghost whole: bool, ghost was: FileTables, ghost at: nat)
    returns (stopped: Option<Outcome>, next: nat, left': nat, ghost at': nat)
    requires i <= j < i0 <= |log| <= U64_MAX && lane.Valid() && lane.tables.state == was.state && was.state.Some?
    requires Filling(log, i, i0, j, lane.tables, scan.Batch(), scan.activeTurn, scan.activeSummary, whole)
    requires Keeping(log, i, j, ScanState(was, None, None), lane.tables, scan.Batch(), scan.activeTurn)
    requires Stranded(was, log, i, at, lane.tables) && at + |scan.records| == j
    modifies lane, scan
    ensures lane.Valid() && next == j + 1 && lane.tables.state == was.state
    ensures Resting(lane.tables, Extent(log, i0), whole)
    ensures stopped.None? ==> Filling(log, i, i0, next, lane.tables, scan.Batch(), scan.activeTurn, scan.activeSummary, whole)
    ensures stopped.None? ==> Keeping(log, i, next, ScanState(was, None, None), lane.tables, scan.Batch(), scan.activeTurn)
    ensures Stranded(was, log, i, at', lane.tables)
    ensures if stopped.Some? then at' == at && lane.tables == old(lane.tables) else at' + |scan.records| == next
    ensures Carried(source, log, i, j, old(lane.writes), old(scan.content), Extent(log, i0)) ==>
              if stopped.Some? then lane.writes == old(lane.writes) else Carried(source, log, i, next, lane.writes, scan.content, Extent(log, i0))
    ensures stopped.Some? ==> !stopped.value.Indexed? && (stopped.value.Crashed? ==> left' == 0)
    ensures stopped.Some? && stopped.value.Failed? ==> !Fine(log)
    ensures left' <= left && |lane.writes| + left' == |old(lane.writes)| + left
    ensures stopped.Some? ==> left' == left && (stopped.value.Crashed? ==> |old(scan.records)| + 1 == WRITE_BATCH_RECORDS)
    ensures stopped.None? ==>
              if |old(scan.records)| + 1 == WRITE_BATCH_RECORDS then left' == left - 1 && scan.records == []
              else left' == left && |scan.records| == |old(scan.records)| + 1
  {
    ghost var ft := lane.tables;
    var failed;
    left', at' := left, at;
    FillingRests(log, i, i0, j, ft, scan.Batch(), scan.activeTurn, scan.activeSummary, whole);
    failed, next := FillNext(source, scan, log, j, i, i0, ft, whole, was, lane.writes);
    assert lane.tables == ft;
    if failed.Some? { return Some(Failed(failed.value)), next, left', at'; }
    if scan.Full() {
      if left == 0 { return Some(Crashed), next, 0, at'; }
      CommitFill(lane, scan, log, next, i, i0, whole, was, source);
      left', at' := left - 1, next;
      FillingRests(log, i, i0, next, lane.tables, EMPTY, scan.activeTurn, scan.activeSummary, whole);
    }
    stopped := None;
  }

  lemma {:induction false} RangeIsKept(source: Source, log: seq<Record>, i: nat, i0: nat, writes: seq<Write>,
          batch: IndexBatch, state: FileState)
    requires i <= i0 <= |log| && Carried(source, log, i, i0, writes, batch.content, Extent(log, i0))
    ensures Kept(source, writes + [CommitWrite(batch, state)], Extent(log, i))
  {
    CarriedCommit(source, log, i, i0, writes, batch, state, Extent(log, i0));
    CarriedIsKept(source, log, i, i0, writes + [CommitWrite(batch, state)], [], Extent(log, i0));
    KeptJoins(source, log, i, i0, writes + [CommitWrite(batch, state)]);
  }

  /** The last commit: the turn that runs into the covered suffix ends there, and the checkpoint moves. */
  method FinishRange(lane: Lane, scan: Scan, log: seq<Record>, state: FileState, previousFrom: nat,
          ghost i: nat, ghost i0: nat, ghost whole: bool, ghost source: Source)
    requires i <= i0 <= |log| && lane.Valid() && previousFrom == Offset(log, i0) && Checkpoint(state, Extent(log, i))
    requires Filling(log, i, i0, i0, lane.tables, scan.Batch(), scan.activeTurn, scan.activeSummary, whole)
    modifies lane, scan
    ensures lane.Valid() && lane.tables.state == Some(state) && |lane.writes| == |old(lane.writes)| + 1
    ensures Resting(lane.tables, Extent(log, i), whole)
    ensures Carried(source, log, i, i0, old(lane.writes), old(scan.content), Extent(log, i0)) ==> Kept(source, lane.writes, Extent(log, i))
  {
    ghost var batch, active, summary := scan.Batch(), scan.activeTurn, scan.activeSummary;
    FillFinish(log, i, i0, lane.tables, batch, active, summary, state, whole);
    if scan.activeTurn.Some? {
      scan.turns := scan.turns + [scan.activeTurn.value.(end := previousFrom)];
    }
    scan.RememberActiveSummary();
    assert scan.Batch() == WithRemembered(WithInterrupted(batch, active, previousFrom), summary);
    if Carried(source, log, i, i0, lane.writes, scan.content, Extent(log, i0)) { RangeIsKept(source, log, i, i0, lane.writes, scan.Batch(), state); }
    lane.CommitIndexBatch(scan.Batch(), state);
  }

  /** `index_prefix_range`: the records of `indexedFrom..previousFrom`, which end where coverage starts. */
  method IndexPrefixRange(lane: Lane, source: Source, file: SourceFile, indexedFrom: nat, commits: nat,
          ghost i: nat, ghost i0: nat)
    returns (outcome: Outcome, left: nat)
    requires WellFormed(file) && i < i0 <= |file.log| && lane.Valid() && AtRest(lane.tables, Extent(file.log, i0))
    requires lane.tables.state.Some? && Matches(lane.tables.state.value, file)
    requires indexedFrom == Offset(file.log, i) && CleanFrom(file.log, i)
    modifies lane
    ensures lane.Valid() && lane.tables.state.Some? && Matches(lane.tables.state.value, file)
    ensures AtRest(lane.tables, Extent(file.log, if outcome.Indexed? then i else i0))
    ensures Whole(old(lane.tables), Extent(file.log, i0)) ==> Whole(lane.tables, Extent(file.log, if outcome.Indexed? then i else i0))
    ensures Kept(source, old(lane.writes), Extent(file.log, i0)) ==>
              Kept(source, lane.writes, Extent(file.log, if outcome.Indexed? then i else i0))
    ensures outcome.Failed? ==> !Fine(file.log)
    ensures Paid(|old(lane.writes)|, |lane.writes|, commits, left, outcome)
    ensures outcome.Crashed? ==> commits <= Batches(i0 - i) && Stranded(old(lane.tables), file.log, i, Reach(i, commits), lane.tables)
    ensures outcome.Indexed? ==> commits - left == Batches(i0 - i) + 1
  {
    var state := lane.tables.state.value;
    ghost var whole := Whole(lane.tables, Extent(file.log, i0));
    var scan := new Scan(None, None);
    var stopped, indexed;
    ghost var at;
    RangeBegins(file.log, i, i0, lane.tables, whole);
    if Kept(source, lane.writes, Extent(file.log, i0)) { CarriedBegins(source, file.log, i, i, lane.writes, Extent(file.log, i0)); }
    stopped, indexed, left, at := FillRange(lane, source, file, scan, indexedFrom, state.indexedFrom, commits, i, i0, whole);
    if stopped.Some? { assert Asked(Rest, 0); return stopped.value, left; }
    if left == 0 { assert Asked(Rest, 0); return Crashed, 0; }
    var previousFrom := state.indexedFrom;
    state := state.(indexedFrom := indexedFrom, records := SaturatingAdd(state.records, indexed));
    OffsetsIncrease(file.log, i, i0);
    RecordsFitTheFile(file.log);
    FinishRange(lane, scan, file.log, state, previousFrom, i, i0, whole, source);
    assert Asked(Rest, 0);
    return Indexed, left - 1;
  }

  /** The lines of the range, committed in full batches; `stopped` tells why it did not get to its end. */
  method FillRange(lane: Lane, source: Source, file: SourceFile, scan: Scan, indexedFrom: nat, previousFrom: nat, commits: nat,
          ghost i: nat, ghost i0: nat, ghost whole: bool)
    returns (stopped: Option<Outcome>, indexed: nat, left: nat, ghost at: nat)
    requires WellFormed(file) && i < i0 <= |file.log| && lane.Valid() && lane.tables.state.Some?
    requires indexedFrom == Offset(file.log, i) && previousFrom == Offset(file.log, i0)
    requires scan.Batch() == EMPTY && scan.activeTurn.None? && scan.activeSummary.None?
    requires Begun(file.log, i, i0, lane.tables, whole)
    modifies lane, scan
    ensures lane.Valid() && lane.tables.state == old(lane.tables).state && Resting(lane.tables, Extent(file.log, i0), whole)
    ensures stopped.None? ==> indexed == i0 - i && Filling(file.log, i, i0, i0, lane.tables, scan.Batch(), scan.activeTurn, scan.activeSummary, whole)
    ensures stopped.Some? ==> !stopped.value.Indexed? && (stopped.value.Crashed? ==> left == 0) && (stopped.value.Failed? ==> !Fine(file.log))
    ensures left <= commits && |lane.writes| + left == |old(lane.writes)| + commits
    ensures stopped.None? ==> commits - left == Batches(i0 - i)
    ensures Stranded(old(lane.tables), file.log, i, at, lane.tables)
    ensures Carried(source, file.log, i, i, old(lane.writes), [], Extent(file.log, i0)) ==>
              && Kept(source, lane.writes, Extent(file.log, i0))
              && (stopped.None? ==> Carried(source, file.log, i, i0, lane.writes, scan.content, Extent(file.log, i0)))
    ensures left == 0 && (stopped.Some? ==> stopped.value.Crashed?) ==> commits <= Batches(i0 - i) && at == Reach(i, commits)
  {
    var log := file.log;
    var j := Seek(log, indexedFrom, i);
    ghost var was, carried := lane.tables, Carried(source, log, i, i, lane.writes, [], Extent(log, i0));
    RecordsFitTheFile(log);
    stopped, indexed, left, at := None, 0, commits, i;
    while j < |log| && log[j].start < previousFrom
      invariant stopped.None? && i <= j <= i0 && indexed == j - i && lane.Valid() && lane.tables.state == was.state
      invariant Filling(log, i, i0, j, lane.tables, scan.Batch(), scan.activeTurn, scan.activeSummary, whole)
      invariant Keeping(log, i, j, ScanState(was, None, None), lane.tables, scan.Batch(), scan.activeTurn)
      invariant Stranded(was, log, i, at, lane.tables) && at + |scan.records| == j
      invariant carried ==> Carried(source, log, i, j, lane.writes, scan.content, Extent(log, i0))
      invariant left <= commits && |lane.writes| + left == |old(lane.writes)| + commits
      invariant Batched(j - i, commits - left, |scan.records|)
    {
      RangeGoesOn(log, j, i0);
      BatchedNext(j - i, commits - left, |scan.records|);
      BatchesIn(j - i, commits - left, |scan.records|, i0 - i);
      ReachIs(i, j, at, commits - left, |scan.records|);
      if carried { CarriedIsKept(source, log, i, j, lane.writes, scan.content, Extent(log, i0)); }
      var next;
      stopped, next, left, at := FillStep(lane, source, scan, log, j, left, i, i0, whole, was, at);
      if stopped.Some? { return; }
      j, indexed := next, indexed + 1;
    }
    RangeEnds(log, j, i0);
    if carried { CarriedIsKept(source, log, i, j, lane.writes, scan.content, Extent(log, i0)); }
    FillingRests(log, i, i0, j, lane.tables, scan.Batch(), scan.activeTurn, scan.activeSummary, whole);
    BatchesIn(j - i, commits - left, |scan.records|, i0 - i);
    ReachIs(i, j, at, commits - left, |scan.records|);
  }

  lemma {:induction false} ReachIs(i: nat, j: nat, at: nat, used: nat, pending: nat)
    requires i <= j && Batched(j - i, used, pending) && at + pending == j
    ensures at == Reach(i, used)
  {
  }

  /** A backfill that has not read a line yet. */
  ghost predicate Begun(log: seq<Record>, i: nat, i0: nat, ft: FileTables, whole: bool)
    requires i <= i0 <= |log|
  {
    && Filling(log, i, i0, i, ft, EMPTY, None, None, whole)
    && Keeping(log, i, i, ScanState(ft, None, None), ft, EMPTY, None)
    && Stranded(ft, log, i, i, ft)
  }

  lemma {:induction false} RangeBegins(log: seq<Record>, i: nat, i0: nat, ft: FileTables, whole: bool)
    requires Tiled(log) && i <= i0 <= |log| && CleanFrom(log, i) && Resting(ft, Extent(log, i0), whole)
    ensures Begun(log, i, i0, ft, whole)
  {
    assert Asked(Rest, 0);
    FillBegins(log, i, i0, ft, whole);
    KeepingBegins(log, i, ft, None, ScanState(ft, None, None));
  }

  lemma {:induction false} RangeGoesOn(log: seq<Record>, j: nat, i0: nat)
    requires Tiled(log) && j <= i0 <= |log| && j < |log| && log[j].start < Offset(log, i0)
    ensures j < i0
  {
    assert Abuts(log, j);
  }

  lemma {:induction false} RangeEnds(log: seq<Record>, j: nat, i0: nat)
    requires Tiled(log) && j <= i0 <= |log| && (j < |log| ==> log[j].start >= Offset(log, i0))
    ensures j == i0
  {
    if j < i0 {
      assert Abuts(log, j);
      OffsetsIncrease(log, j, i0);
    }
  }

  // --- One bounded step, and all of them ---

  /** The nearest start on the way back. */
  function NearestStart(found: Option<nat>, r: Record): (next: (Option<nat>, bool)) {
    if r.mark.Started? then (Some(r.start), false) else (found, true)
  }

  ghost predicate NoStartIn(log: seq<Record>, lo: nat, hi: nat)
    requires hi <= |log|
  {
    forall k :: lo <= k < hi ==> !log[k].mark.Started?
  }

  /** The last record before `hi` that starts a turn, or record 0. */
  function Nearest(log: seq<Record>, hi: nat): (k: nat)
    requires hi <= |log|
    ensures k < hi || k == hi == 0
    ensures hi > 0 && !log[k].mark.Started? ==> k == 0 && NoStartIn(log, 0, hi)
    ensures hi > 0 ==> NoStartIn(log, k + 1, hi)
  {
    if hi == 0 then 0 else if log[hi - 1].mark.Started? then hi - 1 else Nearest(log, hi - 1)
  }

  /** The reverse visit of a backfill finds it; without a start below `hi` it finds nothing. */
  lemma {:induction false} NearestStartIs(log: seq<Record>, hi: nat)
    requires hi <= |log|
    ensures var found := ConsumeRecords(Boundaries(log, 0, hi), None, NearestStart).0;
            if NoStartIn(log, 0, hi) then found.None? && Nearest(log, hi) == 0
            else hi > 0 && log[Nearest(log, hi)].mark.Started? && found == Some(log[Nearest(log, hi)].start)
  {
    if hi > 0 {
      var r, rest := log[hi - 1], Boundaries(log, 0, hi - 1);
      NearestStartIs(log, hi - 1);
      if IsBoundary(r) { ConsumeRecord(r, rest, None, NearestStart); } else { assert [] + rest == rest; }
      if !r.mark.Started? { assert NoStartIn(log, 0, hi) <==> NoStartIn(log, 0, hi - 1); }
    }
  }

  /** One observation follows another: while identity, length and digest agree, the lines do. */
  ghost predicate Honest(earlier: SourceFile, later: SourceFile) {
    && earlier.device == later.device && earlier.inode == later.inode
    && DurableEnd(earlier.log) <= DurableEnd(later.log)
    && (DurableEnd(earlier.log) == DurableEnd(later.log) ==> earlier.modifiedNanos == later.modifiedNanos)
    && earlier.tail(DurableEnd(earlier.log)) == later.tail(DurableEnd(earlier.log))
    ==> earlier.log <= later.log
  }

  /** Coverage starts at an older record, unless it was complete. */
  ghost predicate Lowered(ext: Extent, ext': Extent) {
    if ext.first == 0 then ext' == ext else ext'.first < ext.first
  }

  /**
   The second half of `backfill_prefix`, under the lane: if the file is still as indexed, coverage
   moves down to the nearest start below it, or to byte 0; otherwise the forward scan catches up.
   */
  method BackfillStep(lane: Lane, source: Source, file: SourceFile, commits: nat, ghost ext: Extent)
    returns (outcome: Outcome, left: nat, ghost ext': Extent)
    requires WellFormed(file) && lane.Valid() && AtRest(lane.tables, ext)
    requires lane.tables.state.Some? && Matches(lane.tables.state.value, file) ==> ext.indexed <= file.log
    requires DurableEnd(file.log) > TAIL_BOOTSTRAP_FULL_SCAN_BYTES ==> Apart(file.log)
    modifies lane
    ensures lane.Valid() && AtRest(lane.tables, ext') && (ext' == ext || ext'.indexed <= file.log)
    ensures Stamped(old(lane.tables), ext, lane.tables, ext', file)
    ensures outcome.Indexed? ==> ext'.indexed == file.log && lane.tables.state.Some? && Matches(lane.tables.state.value, file)
    ensures outcome.Indexed? && Current(old(lane.tables), ext, file) ==> Lowered(ext, ext')
    ensures Kept(source, old(lane.writes), ext) ==> Kept(source, lane.writes, ext')
    ensures Whole(old(lane.tables), ext) && (Current(old(lane.tables), ext, file) || !Haunted(old(lane.tables))) ==> Whole(lane.tables, ext')
    ensures outcome.Failed? ==> old(lane.tables).state.None? || !Fine(file.log)
    ensures Paid(|old(lane.writes)|, |lane.writes|, commits, left, outcome)
    ensures outcome.Crashed? ==> commits < Bound(file.log)
    ensures outcome.Indexed? ==> commits - left <= Bound(file.log)
    ensures old(lane.tables).state.Some? && Fine(file.log) && commits >= Bound(file.log) ==> outcome.Indexed?
    ensures Current(old(lane.tables), ext, file) ==> ext'.indexed == file.log && lane.tables.state.Some? && Matches(lane.tables.state.value, file)
    ensures Current(old(lane.tables), ext, file) && outcome.Indexed? && ext.first > 0 ==>
              ext'.first == Nearest(file.log, ext.first) && commits - left == Batches(ext.first - ext'.first) + 1
    ensures Current(old(lane.tables), ext, file) && outcome.Indexed? ==> commits - left <= ext.first - ext'.first
    ensures Current(old(lane.tables), ext, file) && outcome.Crashed? ==> ext' == ext && commits < ext.first
    ensures Current(old(lane.tables), ext, file) && outcome.Crashed? ==>
              Stranded(old(lane.tables), file.log, Nearest(file.log, ext.first), Reach(Nearest(file.log, ext.first), commits), lane.tables)
  {
    left, ext' := commits, ext;
    if lane.tables.state.None? { return Failed(CorruptedIndex), left, ext'; }
    var state := lane.tables.state.value;
    if !Matches(state, file) || state.indexedBytes != DurableEnd(file.log) {
      outcome, left, ext' := IndexFile(lane, source, file, left, ext);
      return;
    }
    OffsetInjective(file.log, |ext.indexed|, |file.log|);
    assert ext.indexed == file.log;
    if state.IsComplete() {
      OffsetInjective(file.log, 0, ext.first);
      return Indexed, left, ext';
    }
    outcome, left, ext' := BackfillRange(lane, source, file, left, ext.first);
  }

  method BackfillRange(lane: Lane, source: Source, file: SourceFile, commits: nat, ghost i0: nat)
    returns (outcome: Outcome, left: nat, ghost ext': Extent)
    requires WellFormed(file) && 0 < i0 <= |file.log| && lane.Valid() && AtRest(lane.tables, Extent(file.log, i0))
    requires lane.tables.state.Some? && Matches(lane.tables.state.value, file)
    modifies lane
    ensures lane.Valid() && AtRest(lane.tables, ext') && ext'.indexed == file.log
    ensures lane.tables.state.Some? && Matches(lane.tables.state.value, file)
    ensures outcome.Indexed? ==> ext'.first == Nearest(file.log, i0) < i0 && commits - left == Batches(i0 - ext'.first) + 1
    ensures outcome.Crashed? ==> Stranded(old(lane.tables), file.log, Nearest(file.log, i0), Reach(Nearest(file.log, i0), commits), lane.tables)
    ensures !outcome.Indexed? ==> ext'.first == i0
    ensures Whole(old(lane.tables), Extent(file.log, i0)) ==> Whole(lane.tables, ext')
    ensures Kept(source, old(lane.writes), Extent(file.log, i0)) ==> Kept(source, lane.writes, ext')
    ensures outcome.Failed? ==> !Fine(file.log)
    ensures Paid(|old(lane.writes)|, |lane.writes|, commits, left, outcome)
    ensures outcome.Crashed? ==> commits < i0 && commits < Bound(file.log)
    ensures outcome.Indexed? ==> commits - left <= i0 - ext'.first && commits - left <= Bound(file.log)
  {
    var log, previousFrom := file.log, lane.tables.state.value.indexedFrom;
    ext' := Extent(log, i0);
    var end := Seek(log, previousFrom, i0);
    var found := VisitBoundariesReverse(log, 0, end, None, NearestStart);
    if found.Unreadable? { return Failed(InvalidBoundary(found.offset)), commits, ext'; }
    NearestStartIs(log, i0);
    ghost var i := Nearest(log, i0);
    var indexedFrom := if found.state.Some? then found.state.value else 0;
    assert Abuts(log, i);
    outcome, left := IndexPrefixRange(lane, source, file, indexedFrom, commits, i, i0);
    if outcome.Indexed? { ext' := Extent(log, i); }
  }

  /** A checkpoint taken of the earlier observation that matches the later one stands for its lines. */
  lemma {:induction false} StillBegins(ft: FileTables, ext: Extent, hot: SourceFile, file: SourceFile)
    requires Honest(hot, file) && AtRest(ft, ext) && Current(ft, ext, hot)
    ensures Matches(ft.state.value, file) ==> ext.indexed <= file.log
  {
  }

  /** Coverage moved down, at the cost of at most a transaction for each record it gained. */
  ghost predicate Descends(ext: Extent, ext': Extent, commits: nat, left: nat, outcome: Outcome) {
    && (outcome.Indexed? ==> Lowered(ext, ext') && commits - left <= ext.first - ext'.first)
    && (outcome.Crashed? ==> commits < ext.first)
  }

  /** An index that misses no standalone turn goes on missing none, unless it has to resume over leftover rows. */
  ghost predicate StaysWhole(was: FileTables, ext: Extent, now: FileTables, ext': Extent, file: SourceFile) {
    Whole(was, ext) && (Current(was, ext, file) || !Haunted(was)) ==> Whole(now, ext')
  }

  /** `backfill_prefix`: the file as the forward scan saw it, then as it is once the lane is taken again. */
  method BackfillPrefix(lane: Lane, source: Source, hot: SourceFile, file: SourceFile, commits: nat, ghost ext: Extent)
    returns (outcome: Outcome, left: nat, ghost ext': Extent)
    requires WellFormed(hot) && WellFormed(file) && Honest(hot, file) && lane.Valid() && AtRest(lane.tables, ext)
    requires lane.tables.state.Some? && Matches(lane.tables.state.value, hot) ==> ext.indexed <= hot.log
    requires DurableEnd(hot.log) > TAIL_BOOTSTRAP_FULL_SCAN_BYTES ==> Apart(hot.log)
    requires DurableEnd(file.log) > TAIL_BOOTSTRAP_FULL_SCAN_BYTES ==> Apart(file.log)
    modifies lane
    ensures lane.Valid() && AtRest(lane.tables, ext') && (ext' == ext || ext'.indexed <= hot.log || ext'.indexed <= file.log)
    ensures outcome.Indexed? && hot == file ==> Current(lane.tables, ext', file)
    ensures outcome.Failed? ==> !Fine(hot.log) || !Fine(file.log)
    ensures Paid(|old(lane.writes)|, |lane.writes|, commits, left, outcome)
    ensures outcome.Crashed? ==> commits < Bound(hot.log) + Bound(file.log)
    ensures outcome.Indexed? ==> commits - left <= Bound(hot.log) + Bound(file.log)
    ensures Fine(hot.log) && Fine(file.log) && commits >= Bound(hot.log) + Bound(file.log) ==> outcome.Indexed?
    ensures hot == file && Current(old(lane.tables), ext, file) ==> Descends(ext, ext', commits, left, outcome)
    ensures hot == file ==> StaysWhole(old(lane.tables), ext, lane.tables, ext', file)
    ensures Kept(source, old(lane.writes), ext) ==> Kept(source, lane.writes, ext')
  {
    outcome, left, ext' := IndexFile(lane, source, hot, commits, ext);
    if !outcome.Indexed? { return; }
    outcome, left, ext' := BackfillOnce(lane, source, hot, file, left, ext');
  }

  /** One step down on what the forward scan left, unless that is complete. */
  method BackfillOnce(lane: Lane, source: Source, hot: SourceFile, file: SourceFile, commits: nat, ghost ext: Extent)
    returns (outcome: Outcome, left: nat, ghost ext': Extent)
    requires WellFormed(hot) && WellFormed(file) && Honest(hot, file) && lane.Valid() && AtRest(lane.tables, ext)
    requires Current(lane.tables, ext, hot)
    requires DurableEnd(file.log) > TAIL_BOOTSTRAP_FULL_SCAN_BYTES ==> Apart(file.log)
    modifies lane
    ensures lane.Valid() && AtRest(lane.tables, ext') && (ext' == ext || ext'.indexed <= file.log)
    ensures outcome.Indexed? && hot == file ==> Current(lane.tables, ext', file)
    ensures outcome.Failed? ==> !Fine(file.log)
    ensures Paid(|old(lane.writes)|, |lane.writes|, commits, left, outcome)
    ensures outcome.Crashed? ==> commits < Bound(file.log)
    ensures outcome.Indexed? ==> commits - left <= Bound(file.log)
    ensures hot == file ==> Descends(ext, ext', commits, left, outcome) && StaysWhole(old(lane.tables), ext, lane.tables, ext', file)
    ensures Kept(source, old(lane.writes), ext) ==> Kept(source, lane.writes, ext')
  {
    if lane.tables.state.value.IsComplete() {
      OffsetInjective(hot.log, 0, ext.first);
      return Indexed, commits, ext;
    }
    StillBegins(lane.tables, ext, hot, file);
    outcome, left, ext' := BackfillStep(lane, source, file, commits, ext);
  }

  function FullBound(log: seq<Record>): (commits: nat) {
    Bound(log) + |log|
  }

  /**
   `index_fully`: on a readable file that does not change, `FullBound(file.log)` transactions take
   coverage to byte 0, wherever the index stood before.
   */
  method IndexFully(lane: Lane, source: Source, file: SourceFile, commits: nat, ghost ext: Extent)
    returns (outcome: Outcome, left: nat, ghost ext': Extent)
    requires WellFormed(file) && lane.Valid() && AtRest(lane.tables, ext)
    requires lane.tables.state.Some? && Matches(lane.tables.state.value, file) ==> ext.indexed <= file.log
    requires DurableEnd(file.log) > TAIL_BOOTSTRAP_FULL_SCAN_BYTES ==> Apart(file.log)
    modifies lane
    ensures lane.Valid() && AtRest(lane.tables, ext') && (ext' == ext || ext'.indexed <= file.log)
    ensures outcome.Indexed? ==> ext' == Extent(file.log, 0) && lane.tables.state.Some? && lane.tables.state.value.IsComplete()
    ensures Whole(old(lane.tables), ext) && !Haunted(old(lane.tables)) ==> Whole(lane.tables, ext')
    ensures Kept(source, old(lane.writes), ext) ==> Kept(source, lane.writes, ext')
    ensures outcome.Failed? ==> !Fine(file.log)
    ensures Paid(|old(lane.writes)|, |lane.writes|, commits, left, outcome)
    ensures outcome.Crashed? ==> commits < FullBound(file.log)
    ensures outcome.Indexed? ==> commits - left <= FullBound(file.log)
    ensures Fine(file.log) && commits >= FullBound(file.log) ==> outcome.Indexed?
  {
    outcome, left, ext' := IndexFile(lane, source, file, commits, ext);
    if !outcome.Indexed? { return; }
    outcome, left, ext' := BackfillAll(lane, source, file, left, ext');
  }

  /** The loop of `index_fully`, from where the forward scan left the file. */
  method BackfillAll(lane: Lane, source: Source, file: SourceFile, commits: nat, ghost ext: Extent)
    returns (outcome: Outcome, left: nat, ghost ext': Extent)
    requires WellFormed(file) && lane.Valid() && AtRest(lane.tables, ext) && Current(lane.tables, ext, file)
    requires DurableEnd(file.log) > TAIL_BOOTSTRAP_FULL_SCAN_BYTES ==> Apart(file.log)
    modifies lane
    ensures lane.Valid() && AtRest(lane.tables, ext') && (ext' == ext || ext'.indexed <= file.log)
    ensures outcome.Indexed? ==> ext' == Extent(file.log, 0) && lane.tables.state.Some? && lane.tables.state.value.IsComplete()
    ensures Whole(old(lane.tables), ext) ==> Whole(lane.tables, ext')
    ensures Kept(source, old(lane.writes), ext) ==> Kept(source, lane.writes, ext')
    ensures outcome.Failed? ==> !Fine(file.log)
    ensures Paid(|old(lane.writes)|, |lane.writes|, commits, left, outcome)
    ensures outcome.Crashed? ==> commits < ext.first
    ensures outcome.Indexed? ==> commits - left <= ext.first
  {
    ghost var whole, kept := Whole(lane.tables, ext), Kept(source, lane.writes, ext);
    outcome, left, ext' := Indexed, commits, ext;
    while !lane.tables.state.value.IsComplete()
      invariant lane.Valid() && AtRest(lane.tables, ext') && Current(lane.tables, ext', file) && outcome.Indexed?
      invariant (whole ==> Whole(lane.tables, ext')) && (kept ==> Kept(source, lane.writes, ext'))
      invariant Paid(|old(lane.writes)|, |lane.writes|, commits, left, outcome)
      invariant commits - left <= ext.first - ext'.first
      decreases ext'.first
    {
      outcome, left, ext' := BackfillPrefix(lane, source, file, file, left, ext');
      if !outcome.Indexed? { return; }
    }
    OffsetInjective(file.log, 0, ext'.first);
  }
}
