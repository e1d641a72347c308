/**
 The rows a scan gathers between two commits, and what one line adds to them. `Scan` holds the
 `Pending` vectors of scan.rs together with the active turn and the active projection; `Live` is
 what the tables would say if the batch were committed now.
 */
module LineScan {
  import opened Wrappers
  import opened Transcript
  import opened ReverseScan
  import opened TurnVisitors
  import opened Store
  import opened ScanInvariants
  import Codec

  datatype IndexError = RecordTooLarge(offset: nat) | InvalidBoundary(offset: nat) | SummaryFailed(offset: nat) | CorruptedIndex

  /** How far an index operation got; a crash keeps what was committed before it. */
  datatype Outcome = Indexed | Failed(error: IndexError) | Crashed

  /** The provider: content proven to lie in a record, and whether a stored projection is current. */
  datatype Source = Source(content: Record -> seq<ContentEntry>, isCurrent: Summary -> bool)

  /**
   What a proof can ask a large invariant for. `forall n: nat :: Asked(what, n) ==> P` says exactly
   `P`, because `Asked` always holds; written like this, the verifier looks into `P` only where
   `Asked(what, 0)` is asserted, and otherwise carries the invariant around as a name.
   */
  datatype Question = ScanAt(j: nat, pending: nat) | Rest | FoldAt(j: nat) | RangeAt(at: nat) | ResumeAt(k: nat) | ContentAt(j: nat) | Content

  predicate Asked(what: Question, n: nat) { true }

  const EMPTY := IndexBatch([], [], [], [], [])
  const WRITE_BATCH_RECORDS: nat := 4096
  const MAX_RECORD_BYTES: nat := 0xFFFF_FFFF

  // --- The live tables ---

  function Live(base: FileTables, batch: IndexBatch): (ft: FileTables) {
    var gone := Offsets(batch.removedTurns);
    base.(records := InsertRecords(base.records, batch.records),
          turns := InsertTurns(base.turns - gone, base.removed + gone, batch.turns),
          removed := base.removed + gone,
          summaries := InsertSummaries(base.summaries - gone, base.removed + gone, batch.summaries))
  }

  /** A commit publishes the live tables, with the checkpoint. */
  lemma {:induction false} PublishIsLive(base: FileTables, batch: IndexBatch, state: FileState)
    ensures Publish(base, batch, state)
         == Live(base, batch).(state := Some(state), turnsById := Publish(base, batch, state).turnsById)
  {
  }

  lemma {:induction false} NothingPending(base: FileTables)
    ensures Live(base, EMPTY) == base
  {
    assert base.turns - {} == base.turns && base.summaries - {} == base.summaries && base.removed + {} == base.removed;
    assert Offsets([]) == {};
  }

  lemma {:induction false} TurnsRemovedLater(rows: map<nat, Turn>, removed: set<nat>, gone: set<nat>, batch: seq<Turn>)
    ensures InsertTurns(rows - gone, removed + gone, batch) == InsertTurns(rows, removed, batch) - gone
  {
    if batch != [] { TurnsRemovedLater(rows, removed, gone, batch[..|batch| - 1]); }
  }

  lemma {:induction false} SummariesRemovedLater(rows: map<nat, Summary>, removed: set<nat>, gone: set<nat>,
          batch: seq<(nat, Summary)>)
    ensures InsertSummaries(rows - gone, removed + gone, batch) == InsertSummaries(rows, removed, batch) - gone
  {
    if batch != [] { SummariesRemovedLater(rows, removed, gone, batch[..|batch| - 1]); }
  }

  /** The starts of the turns a rollback removes, newest first. */
  function Popped(s: seq<Turn>, r: Record): (starts: seq<nat>) {
    if r.mark.Rollback? then seq(Min(r.mark.count, |s|), k requires 0 <= k < Min(r.mark.count, |s|) => s[|s| - 1 - k].start) else []
  }

  lemma {:induction false} KeptByPop(s: seq<Turn>, n: nat, bound: nat, p: nat)
    requires Shape(s, bound) && p < |s|
    ensures s[p].start in Starts(Pop(s, n)) <==> p < |Pop(s, n)|
  {
    var s' := Pop(s, n);
    if p < |s'| { assert s'[p] == s[p]; }
    if s[p].start in Starts(s') {
      var q := StartsOf(s', s[p].start);
      assert s'[q] == s[q];
    }
  }

  lemma {:induction false} PoppedAreGone(s: seq<Turn>, r: Record)
    requires Shape(s, r.start)
    ensures Offsets(Popped(s, r)) == Gone(s, r)
  {
    if !r.mark.Rollback? { NothingGone(s, r); return; }
    forall x | x in Offsets(Popped(s, r)) ensures x in Gone(s, r) { PoppedIsGone(s, r, x); }
    forall x | x in Gone(s, r) ensures x in Offsets(Popped(s, r)) { GoneIsPopped(s, r, x); }
  }

  lemma {:induction false} PoppedIsGone(s: seq<Turn>, r: Record, x: nat)
    requires Shape(s, r.start) && r.mark.Rollback? && x in Popped(s, r)
    ensures x in Gone(s, r)
  {
    var k :| 0 <= k < |Popped(s, r)| && Popped(s, r)[k] == x;
    var p := |s| - 1 - k;
    assert x == s[p].start && StepStack(s, r) == Pop(s, r.mark.count);
    KeptByPop(s, r.mark.count, r.start, p);
  }

  lemma {:induction false} GoneIsPopped(s: seq<Turn>, r: Record, x: nat)
    requires Shape(s, r.start) && r.mark.Rollback? && x in Gone(s, r)
    ensures x in Popped(s, r)
  {
    var p := StartsOf(s, x);
    KeptByPop(s, r.mark.count, r.start, p);
    assert Popped(s, r)[|s| - 1 - p] == x;
  }

  /** What line `r` adds to the batch. */
  function Pushed(batch: IndexBatch, s: seq<Turn>, r: Record, active: Option<Turn>,
          summary: Option<ActiveSummary>, content: seq<ContentEntry>): (batch': IndexBatch) {
    var singles := SingleStep(TurnStep(active, r).0, r);
    IndexBatch(
      batch.records + [RefOf(r)],
      batch.turns + TurnStep(active, r).1 + singles.0,
      batch.summaries + SummaryStep(summary, r).1 + singles.1,
      batch.removedTurns + Popped(s, r),
      batch.content + content)
  }

  lemma {:induction false} LiveTurns(base: FileTables, batch: IndexBatch, removedTurns: seq<nat>,
          rows: seq<Turn>, singles: seq<Turn>)
    ensures var live, gone := Live(base, batch), Offsets(removedTurns);
            Live(base, batch.(turns := batch.turns + rows + singles, removedTurns := batch.removedTurns + removedTurns)).turns
            == InsertTurns(InsertTurns(live.turns - gone, live.removed + gone, rows), live.removed + gone, singles)
  {
    var was, gone := Offsets(batch.removedTurns), Offsets(removedTurns);
    assert Offsets(batch.removedTurns + removedTurns) == was + gone;
    var removed := base.removed + was + gone;
    assert base.removed + (was + gone) == removed && base.turns - (was + gone) == base.turns - was - gone;
    InsertTurnsConcat(base.turns - was - gone, removed, batch.turns + rows, singles);
    InsertTurnsConcat(base.turns - was - gone, removed, batch.turns, rows);
    TurnsRemovedLater(base.turns - was, base.removed + was, gone, batch.turns);
  }

  lemma {:induction false} LiveSummaries(base: FileTables, batch: IndexBatch, removedTurns: seq<nat>,
          rows: seq<(nat, Summary)>, singles: seq<(nat, Summary)>)
    ensures var live, gone := Live(base, batch), Offsets(removedTurns);
            Live(base, batch.(summaries := batch.summaries + rows + singles, removedTurns := batch.removedTurns + removedTurns)).summaries
            == InsertSummaries(InsertSummaries(live.summaries - gone, live.removed + gone, rows), live.removed + gone, singles)
  {
    var was, gone := Offsets(batch.removedTurns), Offsets(removedTurns);
    assert Offsets(batch.removedTurns + removedTurns) == was + gone;
    var removed := base.removed + was + gone;
    assert base.removed + (was + gone) == removed && base.summaries - (was + gone) == base.summaries - was - gone;
    InsertSummariesConcat(base.summaries - was - gone, removed, batch.summaries + rows, singles);
    InsertSummariesConcat(base.summaries - was - gone, removed, batch.summaries, rows);
    SummariesRemovedLater(base.summaries - was, base.removed + was, gone, batch.summaries);
  }

  /** Adding a line to the batch has on the live tables the effect the invariants speak of. */
  lemma {:induction false} PushedIsLineEffect(base: FileTables, batch: IndexBatch, s: seq<Turn>, r: Record,
          active: Option<Turn>, summary: Option<ActiveSummary>, content: seq<ContentEntry>)
    requires Shape(s, r.start)
    ensures Live(base, Pushed(batch, s, r, active, summary, content)) == LineEffect(Live(base, batch), s, r, active, summary)
  {
    var singles, gone := SingleStep(TurnStep(active, r).0, r), Popped(s, r);
    LiveTurns(base, batch, gone, TurnStep(active, r).1, singles.0);
    LiveSummaries(base, batch, gone, SummaryStep(summary, r).1, singles.1);
    PoppedAreGone(s, r);
    assert Offsets(batch.removedTurns + gone) == Offsets(batch.removedTurns) + Offsets(gone);
    assert base.removed + (Offsets(batch.removedTurns) + Offsets(gone)) == base.removed + Offsets(batch.removedTurns) + Offsets(gone);
    assert (batch.records + [RefOf(r)])[..|batch.records|] == batch.records;
  }

  // --- Many lines ---

  /** What a scan holds between two lines: the live tables, the active turn and its projection. */
  datatype ScanState = ScanState(tables: FileTables, active: Option<Turn>, summary: Option<ActiveSummary>)

  function ReadLine(state: ScanState, s: seq<Turn>, r: Record): (state': ScanState) {
    ScanState(LineEffect(state.tables, s, r, state.active, state.summary), TurnStep(state.active, r).0, SummaryStep(state.summary, r).0)
  }

  /** The state once records `k..j` have been read. */
  function After(log: seq<Record>, k: nat, j: nat, state: ScanState): (state': ScanState)
    requires k <= j <= |log|
    decreases j
  {
    if j == k then state else ReadLine(After(log, k, j - 1, state), Stack(log[..j - 1]), log[j - 1])
  }

  /** The turn rows and tombstones of two tables are the same. */
  ghost predicate SameTurns(a: FileTables, b: FileTables) {
    a.turns == b.turns && a.removed == b.removed
  }

  /** The rows, tombstones and running turn of a scan are those of the fold; projections are kept on the side. */
  ghost predicate Follows(log: seq<Record>, k: nat, j: nat, begin: ScanState, rows: FileTables, active: Option<Turn>)
    requires k <= j <= |log|
  {
    var state := After(log, k, j, begin);
    SameTurns(rows, state.tables) && active == state.active
  }

  /** Likewise while some lines are pending; without a pending line nothing else is. */
  ghost predicate Keeping(log: seq<Record>, k: nat, j: nat, begin: ScanState, base: FileTables,
          batch: IndexBatch, active: Option<Turn>)
    requires k <= j <= |log|
  {
    forall n: nat :: Asked(FoldAt(j), n) ==>
      Follows(log, k, j, begin, Live(base, batch), active) && (batch.records == [] ==> batch == EMPTY)
  }

  lemma {:induction false} KeepingBegins(log: seq<Record>, k: nat, base: FileTables, active: Option<Turn>, begin: ScanState)
    requires k <= |log| && SameTurns(base, begin.tables) && begin.active == active
    ensures Keeping(log, k, k, begin, base, EMPTY, active)
  {
    NothingPending(base);
  }

  lemma {:induction false} KeepingLine(log: seq<Record>, k: nat, j: nat, next: nat, begin: ScanState, base: FileTables,
          batch: IndexBatch, active: Option<Turn>, summary: Option<ActiveSummary>, content: seq<ContentEntry>)
    requires Tiled(log) && k <= j < |log| && next == j + 1 && Keeping(log, k, j, begin, base, batch, active)
    ensures Keeping(log, k, next, begin, base, Pushed(batch, Stack(log[..j]), log[j], active, summary, content), TurnStep(active, log[j]).0)
  {
    assert Asked(FoldAt(j), 0);
    TiledPrefix(log, j);
    StackShape(log[..j]);
    assert Abuts(log, j);
    PushedIsLineEffect(base, batch, Stack(log[..j]), log[j], active, summary, content);
  }

  /** A commit changes neither the rows a scan has gathered nor what it goes on with. */
  lemma {:induction false} KeepingCommit(log: seq<Record>, k: nat, j: nat, begin: ScanState, base: FileTables,
          batch: IndexBatch, active: Option<Turn>, base': FileTables)
    requires k <= j <= |log| && Keeping(log, k, j, begin, base, batch, active)
    requires SameTurns(base', Live(base, batch))
    ensures Follows(log, k, j, begin, base', active) && Keeping(log, k, j, begin, base', EMPTY, active)
  {
    assert Asked(FoldAt(j), 0);
    NothingPending(base');
  }

  lemma {:induction false} KeepingEnds(log: seq<Record>, k: nat, j: nat, begin: ScanState, base: FileTables,
          batch: IndexBatch, active: Option<Turn>)
    requires k <= j <= |log| && Keeping(log, k, j, begin, base, batch, active) && batch.records == []
    ensures Follows(log, k, j, begin, base, active)
  {
    assert Asked(FoldAt(j), 0);
    NothingPending(base);
  }

  /** The projections a scan begins with do not change its rows. */
  lemma {:induction false} RowsIgnoreSummaries(log: seq<Record>, k: nat, j: nat, a: ScanState, b: ScanState)
    requires k <= j <= |log| && a.active == b.active && SameTurns(a.tables, b.tables)
    ensures After(log, k, j, a).active == After(log, k, j, b).active && SameTurns(After(log, k, j, a).tables, After(log, k, j, b).tables)
    decreases j
  {
    if k < j { RowsIgnoreSummaries(log, k, j - 1, a, b); }
  }

  // --- The lines ---

  /** The callback of `collect_rollback_removals`: note the start, stop after the counted turns. */
  function CountDown(state: (seq<nat>, nat), turn: Turn): (next: ((seq<nat>, nat), bool)) {
    var left := if state.1 > 0 then state.1 - 1 else 0;
    ((state.0 + [turn.start], left), left > 0)
  }

  function StartsOfTurns(turns: seq<Turn>): (starts: seq<nat>) {
    seq(|turns|, k requires 0 <= k < |turns| => turns[k].start)
  }

  lemma {:induction false} CountDownTakes(turns: seq<Turn>, seen: seq<nat>, n: nat)
    requires n > 0
    ensures Consume(turns, (seen, n), CountDown).0.0 == seen + StartsOfTurns(turns[..Min(n, |turns|)])
  {
    if turns != [] {
      var k := Min(n, |turns|);
      assert turns[..k][0] == turns[0];
      if n > 1 {
        CountDownTakes(turns[1..], seen + [turns[0].start], n - 1);
        assert turns[1..][..Min(n - 1, |turns| - 1)] == turns[1..k];
        assert StartsOfTurns(turns[..k]) == [turns[0].start] + StartsOfTurns(turns[1..k]);
      } else {
        assert StartsOfTurns(turns[..k]) == [turns[0].start];
      }
    }
  }

  /** A line whose row can hold its length and whose boundary, if it is one, can be read. */
  ghost predicate Accepted(r: Record) {
    r.end - r.start <= MAX_RECORD_BYTES && !r.mark.Broken?
  }

  /** A line is turned away for its length exactly if its record row would not read back from its stored form. */
  lemma {:induction false} OnlyStorableLinesPass(r: Record)
    requires r.start <= r.end <= U64_MAX
    ensures r.end - r.start <= MAX_RECORD_BYTES
        <==> Codec.DecodeRecord(Codec.EncodeRecord(RefOf(r))) == Some(RecordRef(r.start, r.end - r.start, r.tag))
  {
    Codec.DecodeOfEncodeRecord(RefOf(r));
  }

  class Scan {
    var activeTurn: Option<Turn>
    var activeSummary: Option<ActiveSummary>
    var records: seq<RecordRef>
    var turns: seq<Turn>
    var summaries: seq<(nat, Summary)>
    var removedTurns: seq<nat>
    var content: seq<ContentEntry>

    constructor (turn: Option<Turn>, summary: Option<ActiveSummary>)
      ensures activeTurn == turn && activeSummary == summary && Batch() == EMPTY
    {
      activeTurn, activeSummary := turn, summary;
      records, turns, summaries, removedTurns, content := [], [], [], [], [];
    }

    function Batch(): (batch: IndexBatch) reads this {
      IndexBatch(records, turns, summaries, removedTurns, content)
    }

    predicate Full() reads this { |records| == WRITE_BATCH_RECORDS }

    method Clear()
      modifies this
      ensures Batch() == EMPTY && activeTurn == old(activeTurn) && activeSummary == old(activeSummary)
    {
      records, turns, summaries, removedTurns, content := [], [], [], [], [];
    }

    method UpdateTurnIndex(r: Record)
      modifies this`activeTurn, this`turns
      ensures activeTurn == TurnStep(old(activeTurn), r).0 && turns == old(turns) + TurnStep(old(activeTurn), r).1
    {
      match r.mark
      case Started(id) =>
        if activeTurn.Some? {
          turns := turns + [activeTurn.value.(end := r.start)];
        }
        var turn := Turn(id, r.start, 0, false);
        turns := turns + [turn];
        activeTurn := Some(turn);
      case Terminal(id, completed) =>
        if activeTurn.Some? {
          var terminal := activeTurn.value;
          activeTurn := None;
          if terminal.id == id {
            turns := turns + [terminal.(end := r.end, completed := completed)];
          } else {
            activeTurn := Some(terminal);
          }
        }
      case Rollback(count) =>
        if count > 0 { activeTurn := None; }
      case _ =>
    }

    method RememberActiveSummary()
      modifies this`summaries
      ensures summaries == old(summaries) + Remember(activeSummary)
    {
      if activeSummary.Some? {
        summaries := summaries + [(activeSummary.value.start, activeSummary.value.summary)];
      }
    }

    method UpdateSummaryIndex(r: Record)
      modifies this`activeSummary, this`summaries
      ensures activeSummary == SummaryStep(old(activeSummary), r).0
      ensures summaries == old(summaries) + SummaryStep(old(activeSummary), r).1
    {
      if r.mark.Rollback? && r.mark.count > 0 {
        activeSummary := None;
        return;
      }
      if r.mark.Started? {
        RememberActiveSummary();
        activeSummary := Some(ActiveSummary(r.start, Summary(r.mark.id, [])));
      }
      if activeSummary.Some? {
        activeSummary := Some(activeSummary.value.(summary := Ingest(activeSummary.value.summary, r)));
      }
      if r.mark.Terminal? && activeSummary.Some? && activeSummary.value.summary.id == r.mark.id {
        RememberActiveSummary();
        activeSummary := None;
      }
    }

    method IndexStandaloneTurn(r: Record) returns (failed: bool)
      modifies this`turns, this`summaries
      ensures failed <==> activeTurn.None? && r.standalone.Some? && !r.foldable
      ensures !failed ==> turns == old(turns) + SingleStep(activeTurn, r).0 && summaries == old(summaries) + SingleStep(activeTurn, r).1
    {
      if activeTurn.Some? || r.standalone.None? { return false; }
      if !r.foldable { return true; }
      assert [] + [r] == [r];
      summaries := summaries + [(r.start, Ingest(Summary(r.standalone.value, []), r))];
      turns := turns + [SingleTurn(r)];
      return false;
    }

    /** Tombstones the turns a rollback at record `j` removes, wherever they started. */
    method CollectRollbackRemovals(log: seq<Record>, j: nat) returns (failed: Option<nat>)
      requires Tiled(log) && j < |log| <= U64_MAX
      modifies this`removedTurns
      ensures failed.None? ==> removedTurns == old(removedTurns) + Popped(Stack(log[..j]), log[j])
      ensures Readable(log) ==> failed.None?
    {
      if !log[j].mark.Rollback? || log[j].mark.count == 0 {
        assert Popped(Stack(log[..j]), log[j]) == [];
        return None;
      }
      var n := log[j].mark.count;
      var visited := VisitTaskTurnsReverse(log[..j], ([], n), CountDown);
      match visited
      case Unreadable(offset) =>
        return Some(offset);
      case Finished(state) =>
        ghost var found, s := RevTasks(log[..j], 0, 0, None), Stack(log[..j]);
        TiledPrefix(log, j);
        ReverseScanStarts(log[..j], 0);
        CountDownTakes(found, [], n);
        assert StartsOfTurns(found[..Min(n, |found|)]) == Popped(s, log[j]);
        removedTurns := removedTurns + state.0;
        return None;
    }

    /** Reads record `j`: everything one line contributes, or the error that stops the scan. */
    method ReadLine(source: Source, log: seq<Record>, j: nat) returns (failed: Option<IndexError>)
      requires Tiled(log) && j < |log| <= U64_MAX
      modifies this
      ensures failed.None? ==>
                && activeTurn == TurnStep(old(activeTurn), log[j]).0
                && activeSummary == SummaryStep(old(activeSummary), log[j]).0
                && Batch() == Pushed(old(Batch()), Stack(log[..j]), log[j], old(activeTurn), old(activeSummary), source.content(log[j]))
      ensures failed.None? ==> Accepted(log[j]) && (TurnStep(old(activeTurn), log[j]).0.None? && log[j].standalone.Some? ==> log[j].foldable)
      ensures failed == Some(RecordTooLarge(log[j].start)) <==> log[j].end - log[j].start > MAX_RECORD_BYTES
      ensures log[j].end - log[j].start <= MAX_RECORD_BYTES && log[j].mark.Broken? ==> failed == Some(InvalidBoundary(log[j].start))
      ensures Readable(log) && log[j].end - log[j].start <= MAX_RECORD_BYTES && (log[j].standalone.Some? ==> log[j].foldable) ==>
                failed.None?
    {
      var r := log[j];
      assert Abuts(log, j);
      if r.end - r.start > MAX_RECORD_BYTES { return Some(RecordTooLarge(r.start)); }
      records := records + [RecordRef(r.start, r.end - r.start, r.tag)];
      content := content + source.content(r);
      if r.mark.Broken? { return Some(InvalidBoundary(r.start)); }
      var unreadable := CollectRollbackRemovals(log, j);
      if unreadable.Some? { return Some(InvalidBoundary(unreadable.value)); }
      UpdateSummaryIndex(r);
      UpdateTurnIndex(r);
      var unfolded := IndexStandaloneTurn(r);
      if unfolded { return Some(SummaryFailed(r.start)); }
      return None;
    }
  }
}
