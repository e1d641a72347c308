/**
 What one scanned line does, as values: the pushes of `update_turn_index`,
 `update_summary_index`, `index_standalone_turn` and `collect_rollback_removals`, and what they
 keep true of the tables. `pre` is the indexed part of the file; record `i` is where coverage
 starts.
 */
module ScanInvariants {
  import opened Wrappers
  import opened Transcript
  import opened Store

  datatype ActiveSummary = ActiveSummary(start: nat, summary: Summary)

  // --- What one line pushes ---

  function TurnStep(active: Option<Turn>, r: Record): (next: (Option<Turn>, seq<Turn>)) {
    match r.mark
    case Started(id) =>
      var turn := Turn(id, r.start, 0, false);
      (Some(turn), if active.Some? then [active.value.(end := r.start), turn] else [turn])
    case Terminal(id, completed) =>
      if active.Some? && active.value.id == id
      then (None, [active.value.(end := r.end, completed := completed)])
      else (active, [])
    case Rollback(count) => (if count > 0 then None else active, [])
    case _ => (active, [])
  }

  function Remember(active: Option<ActiveSummary>): (rows: seq<(nat, Summary)>) {
    if active.Some? then [(active.value.start, active.value.summary)] else []
  }

  function SummaryStep(active: Option<ActiveSummary>, r: Record): (next: (Option<ActiveSummary>, seq<(nat, Summary)>)) {
    if r.mark.Rollback? && r.mark.count > 0 then (None, [])
    else
      var begun := if r.mark.Started? then Some(ActiveSummary(r.start, Summary(r.mark.id, []))) else active;
      var fed := if begun.Some? then Some(begun.value.(summary := Ingest(begun.value.summary, r))) else None;
      var rows := if r.mark.Started? then Remember(active) else [];
      if r.mark.Terminal? && fed.Some? && fed.value.summary.id == r.mark.id then (None, Remember(fed)) else (fed, rows)
  }

  /** The rows of a standalone record, when no turn is open after its boundary was applied. */
  function SingleStep(active: Option<Turn>, r: Record): (rows: (seq<Turn>, seq<(nat, Summary)>)) {
    if active.None? && r.standalone.Some?
    then ([SingleTurn(r)], [(r.start, Summary(r.standalone.value, [r]))])
    else ([], [])
  }

  // --- Turn rows ---

  /** The surviving turns from byte `from` on have their rows, unless a later rollback hid them already. */
  ghost predicate RowsHold(s: seq<Turn>, turns: map<nat, Turn>, removed: set<nat>, from: nat) {
    forall p :: 0 <= p < |s| && s[p].start >= from && s[p].start !in removed ==> s[p].start in turns && turns[s[p].start] == s[p]
  }

  /**
   The open turn of the scan. Inside coverage it is the open turn on top of the stack; a turn
   from below coverage can only be a leftover that the scan will never make visible.
   */
  ghost predicate ActiveHolds(s: seq<Turn>, active: Option<Turn>, from: nat) {
    && (TopOpen(s) && s[|s| - 1].start >= from ==> active == Some(s[|s| - 1]))
    && (active.Some? && active.value.start >= from ==> TopOpen(s) && active.value == s[|s| - 1])
  }

  /** A turn still open from below coverage is closed by the very next record. */
  ghost predicate StartsClean(s: seq<Turn>, r: Record, from: nat) {
    TopOpen(s) && s[|s| - 1].start < from ==> r.mark.Started?
  }

  function Gone(s: seq<Turn>, r: Record): (gone: set<nat>) {
    Starts(s) - Starts(StepStack(s, r))
  }

  /** Only a rollback removes turns. */
  lemma {:induction false} NothingGone(s: seq<Turn>, r: Record)
    requires !r.mark.Rollback?
    ensures Gone(s, r) == {}
  {
    var s' := StepStack(s, r);
    forall p | 0 <= p < |s| ensures s[p].start in Starts(s') {
      assert s'[p].start == s[p].start;
    }
  }

  /** A removal hides rows and nothing else. */
  lemma {:induction false} RowsAfterPop(s: seq<Turn>, n: nat, from: nat, turns: map<nat, Turn>, removed: set<nat>,
          gone: set<nat>)
    requires RowsHold(s, turns, removed, from) && gone !! Starts(Pop(s, n))
    ensures RowsHold(Pop(s, n), turns - gone, removed + gone, from)
  {
    var s' := Pop(s, n);
    forall p | 0 <= p < |s'| && s'[p].start >= from && s'[p].start !in removed + gone
      ensures s'[p].start in turns - gone && (turns - gone)[s'[p].start] == s'[p]
    {
      assert s'[p] == s[p] && s'[p].start in Starts(s');
    }
  }

  lemma {:induction false} RowsAfterInterrupt(s: seq<Turn>, at: nat, from: nat, turns: map<nat, Turn>,
          removed: set<nat>, active: Option<Turn>)
    requires Shape(s, at) && RowsHold(s, turns, removed, from) && ActiveHolds(s, active, from)
    ensures RowsHold(Interrupt(s, at), InsertTurns(turns, removed, if active.Some? then [active.value.(end := at)] else []), removed, from)
  {
    if active.Some? {
      assert [active.value.(end := at)][..0] == [];
    }
  }

  lemma {:induction false} RowsAfterStart(s: seq<Turn>, r: Record, from: nat, turns: map<nat, Turn>,
          removed: set<nat>, active: Option<Turn>)
    requires Shape(s, r.start) && r.mark.Started? && from <= r.start
    requires RowsHold(s, turns, removed, from) && ActiveHolds(s, active, from)
    ensures RowsHold(StepStack(s, r), InsertTurns(turns, removed, TurnStep(active, r).1), removed, from)
  {
    var begun := Turn(r.mark.id, r.start, 0, false);
    var closed := if active.Some? then [active.value.(end := r.start)] else [];
    assert TurnStep(active, r).1 == closed + [begun];
    InsertTurnsConcat(turns, removed, closed, [begun]);
    RowsAfterInterrupt(s, r.start, from, turns, removed, active);
    assert StepStack(s, r) == Interrupt(s, r.start) + [begun];
  }

  lemma {:induction false} RowsAfterTerminal(s: seq<Turn>, r: Record, from: nat, turns: map<nat, Turn>,
          removed: set<nat>, active: Option<Turn>)
    requires Shape(s, r.start) && r.mark.Terminal?
    requires RowsHold(s, turns, removed, from) && ActiveHolds(s, active, from) && StartsClean(s, r, from)
    ensures RowsHold(StepStack(s, r), InsertTurns(turns, removed, TurnStep(active, r).1), removed, from)
  {
  }

  lemma {:induction false} TurnRowsStep(s: seq<Turn>, r: Record, from: nat, turns: map<nat, Turn>,
          removed: set<nat>, active: Option<Turn>)
    requires Shape(s, r.start) && r.start < r.end && from <= r.start
    requires RowsHold(s, turns, removed, from) && ActiveHolds(s, active, from) && StartsClean(s, r, from)
    ensures var s', gone := StepStack(s, r), Gone(s, r);
            RowsHold(s', InsertTurns(turns - gone, removed + gone, TurnStep(active, r).1), removed + gone, from)
  {
    if r.mark.Rollback? {
      RowsAfterPop(s, r.mark.count, from, turns, removed, Gone(s, r));
    } else {
      NothingGone(s, r);
      assert turns - {} == turns && removed + {} == removed;
      if r.mark.Started? { RowsAfterStart(s, r, from, turns, removed, active); }
      if r.mark.Terminal? { RowsAfterTerminal(s, r, from, turns, removed, active); }
    }
  }

  lemma {:induction false} ActiveStep(s: seq<Turn>, r: Record, from: nat, active: Option<Turn>)
    requires Shape(s, r.start) && r.start < r.end && from <= r.start
    requires ActiveHolds(s, active, from) && StartsClean(s, r, from)
    ensures ActiveHolds(StepStack(s, r), TurnStep(active, r).0, from)
    ensures TopOpen(StepStack(s, r)) ==> StepStack(s, r)[|StepStack(s, r)| - 1].start >= from
  {
    match r.mark
    case Started(id) =>
    case Terminal(id, completed) =>
    case Rollback(n) =>
    case _ =>
  }

  // --- The live tables: what a commit now would publish ---

  function RefOf(r: Record): (row: RecordRef) {
    RecordRef(r.start, if r.start <= r.end then r.end - r.start else 0, r.tag)
  }

  /** What line `r` does to the live tables; `s` is the reference stack before it. */
  function LineEffect(ft: FileTables, s: seq<Turn>, r: Record, active: Option<Turn>,
          summary: Option<ActiveSummary>): (ft': FileTables) {
    var gone := Gone(s, r);
    var removed := ft.removed + gone;
    var singles := SingleStep(TurnStep(active, r).0, r);
    ft.(records := ft.records[r.start := RefOf(r)],
        turns := InsertTurns(InsertTurns(ft.turns - gone, removed, TurnStep(active, r).1), removed, singles.0),
        summaries := InsertSummaries(InsertSummaries(ft.summaries - gone, removed, SummaryStep(summary, r).1), removed, singles.1),
        removed := removed)
  }

  // --- Rows that a batch does not name ---

  lemma {:induction false} TurnUntouched(rows: map<nat, Turn>, removed: set<nat>, batch: seq<Turn>, x: nat)
    requires forall k :: 0 <= k < |batch| ==> batch[k].start != x
    ensures x in InsertTurns(rows, removed, batch) <==> x in rows
    ensures x in rows ==> InsertTurns(rows, removed, batch)[x] == rows[x]
  {
    if batch != [] { TurnUntouched(rows, removed, batch[..|batch| - 1], x); }
  }

  lemma {:induction false} SummaryUntouched(rows: map<nat, Summary>, removed: set<nat>, batch: seq<(nat, Summary)>, x: nat)
    requires forall k :: 0 <= k < |batch| ==> batch[k].0 != x
    ensures x in InsertSummaries(rows, removed, batch) <==> x in rows
    ensures x in rows ==> InsertSummaries(rows, removed, batch)[x] == rows[x]
  {
    if batch != [] { SummaryUntouched(rows, removed, batch[..|batch| - 1], x); }
  }

  // --- Where rows come from ---

  /** Every row belongs to a start record of `pre`, or to a record that is a turn by itself. */
  ghost predicate RowOrigin(pre: seq<Record>, x: nat, t: Turn) {
    t.start == x && (StartedAs(pre, x, t.id) || SingleAt(pre, x, t))
  }

  ghost predicate SingleAt(pre: seq<Record>, x: nat, t: Turn) {
    exists j :: 0 <= j < |pre| && IsThisSingle(pre, j, x, t)
  }

  ghost predicate IsThisSingle(pre: seq<Record>, j: nat, x: nat, t: Turn)
    requires j < |pre|
  {
    pre[j].start == x && IsSingle(pre, j) && t == SingleTurn(pre[j])
  }

  ghost predicate Origin(pre: seq<Record>, turns: map<nat, Turn>) {
    forall x :: x in turns ==> RowOrigin(pre, x, turns[x])
  }

  ghost predicate BatchOrigin(pre: seq<Record>, batch: seq<Turn>) {
    forall k :: 0 <= k < |batch| ==> RowOrigin(pre, batch[k].start, batch[k])
  }

  ghost predicate ActiveOrigin(pre: seq<Record>, active: Option<Turn>) {
    active.Some? ==> StartedAs(pre, active.value.start, active.value.id)
  }

  lemma {:induction false} InsertKeepsOrigin(pre: seq<Record>, turns: map<nat, Turn>, removed: set<nat>, batch: seq<Turn>)
    requires Origin(pre, turns) && BatchOrigin(pre, batch)
    ensures Origin(pre, InsertTurns(turns, removed, batch))
  {
    if batch != [] {
      InsertKeepsOrigin(pre, turns, removed, batch[..|batch| - 1]);
      assert RowOrigin(pre, batch[|batch| - 1].start, batch[|batch| - 1]);
    }
  }

  lemma {:induction false} TurnStepOrigin(pre: seq<Record>, j: nat, active: Option<Turn>)
    requires j < |pre| && ActiveOrigin(pre, active)
    ensures BatchOrigin(pre, TurnStep(active, pre[j]).1)
    ensures ActiveOrigin(pre, TurnStep(active, pre[j]).0)
  {
    var r := pre[j];
    if r.mark.Started? { assert StartsAt(pre[j], r.start, r.mark.id); }
  }

  lemma {:induction false} SingleStepOrigin(pre: seq<Record>, j: nat, active: Option<Turn>)
    requires j < |pre| && (active.None? && pre[j].standalone.Some? ==> IsSingle(pre, j))
    ensures BatchOrigin(pre, SingleStep(active, pre[j]).0)
  {
    if active.None? && pre[j].standalone.Some? {
      assert IsThisSingle(pre, j, pre[j].start, SingleTurn(pre[j]));
    }
  }

  lemma {:induction false} OriginStep(pre: seq<Record>, j: nat, ft: FileTables, active: Option<Turn>,
          summary: Option<ActiveSummary>)
    requires j < |pre|
    requires Origin(pre, ft.turns) && ActiveOrigin(pre, active)
    requires TurnStep(active, pre[j]).0.None? && pre[j].standalone.Some? ==> IsSingle(pre, j)
    ensures Origin(pre, LineEffect(ft, Stack(pre[..j]), pre[j], active, summary).turns)
  {
    var r := pre[j];
    var gone := Gone(Stack(pre[..j]), r);
    var removed, rows := ft.removed + gone, TurnStep(active, r).1;
    TurnStepOrigin(pre, j, active);
    SingleStepOrigin(pre, j, TurnStep(active, r).0);
    InsertKeepsOrigin(pre, ft.turns - gone, removed, rows);
    InsertKeepsOrigin(pre, InsertTurns(ft.turns - gone, removed, rows), removed, SingleStep(TurnStep(active, r).0, r).0);
  }

  // --- Tombstones ---

  /** What is tombstoned was started in `pre` and does not survive it. */
  ghost predicate TombsSound(pre: seq<Record>, removed: set<nat>) {
    forall x :: x in removed ==> Dead(pre, x)
  }

  ghost predicate Dead(pre: seq<Record>, x: nat) {
    StartedIn(pre, 0, |pre|, x) && x !in Starts(Stack(pre))
  }

  /** Every turn that was alive at record `i` or started since and does not survive record `j` is tombstoned. */
  ghost predicate TombsComplete(pre: seq<Record>, i: nat, j: nat, removed: set<nat>)
    requires i <= j <= |pre|
  {
    forall x :: Candidate(pre, i, j, x) && x !in Starts(Stack(pre[..j])) ==> x in removed
  }

  ghost predicate Candidate(pre: seq<Record>, i: nat, j: nat, x: nat)
    requires i <= j <= |pre|
  {
    x in Starts(Stack(pre[..i])) || StartedIn(pre, i, j, x)
  }

  lemma {:induction false} StartsOf(s: seq<Turn>, x: nat) returns (p: nat)
    requires x in Starts(s)
    ensures p < |s| && s[p].start == x
  {
    p :| 0 <= p < |s| && s[p].start == x;
  }

  /** Once popped, a turn never comes back. */
  lemma {:induction false} GoneForGood(pre: seq<Record>, j: nat, k: nat, x: nat)
    requires Tiled(pre) && j <= k <= |pre| && x < Offset(pre, j)
    requires x in Starts(Stack(pre[..k]))
    ensures x in Starts(Stack(pre[..j]))
  {
    StackRemains(pre, j, k);
    var p := StartsOf(Stack(pre[..k]), x);
    assert Stack(pre[..j])[p].start == x;
  }

  /** A turn of the stack starts before the record that follows it. */
  lemma {:induction false} StartBelow(pre: seq<Record>, j: nat, x: nat)
    requires Tiled(pre) && j <= |pre| && x in Starts(Stack(pre[..j]))
    ensures x < Offset(pre, j) && StartedIn(pre, 0, j, x)
  {
    TiledPrefix(pre, j);
    StackShape(pre[..j]);
    var p := StartsOf(Stack(pre[..j]), x);
    StackBorn(pre, 0, j, p);
  }

  lemma {:induction false} DiesHere(pre: seq<Record>, j: nat, x: nat)
    requires Tiled(pre) && j < |pre| && x in Gone(Stack(pre[..j]), pre[j])
    ensures Dead(pre, x) && x < pre[j].start
  {
    StackSnoc(pre, j);
    StartBelow(pre, j, x);
    assert Abuts(pre, j);
    var b :| 0 <= b < j && BeginsAt(pre[b], x);
    assert BeginsAt(pre[b], x);
    if x in Starts(Stack(pre)) {
      assert pre[..|pre|] == pre;
      GoneForGood(pre, j + 1, |pre|, x);
    }
  }

  lemma {:induction false} TombsSoundStep(pre: seq<Record>, j: nat, removed: set<nat>)
    requires Tiled(pre) && j < |pre| && TombsSound(pre, removed)
    ensures TombsSound(pre, removed + Gone(Stack(pre[..j]), pre[j]))
  {
    forall x | x in Gone(Stack(pre[..j]), pre[j]) ensures Dead(pre, x) {
      DiesHere(pre, j, x);
    }
  }

  lemma {:induction false} TombsCompleteStep(pre: seq<Record>, i: nat, j: nat, removed: set<nat>)
    requires i <= j < |pre| && TombsComplete(pre, i, j, removed)
    ensures TombsComplete(pre, i, j + 1, removed + Gone(Stack(pre[..j]), pre[j]))
  {
    var s, s' := Stack(pre[..j]), Stack(pre[..j + 1]);
    StackSnoc(pre, j);
    forall x | Candidate(pre, i, j + 1, x) && x !in Starts(s')
      ensures x in removed + Gone(s, pre[j])
    {
      if x !in Starts(s) {
        CandidateBefore(pre, i, j, x);
      }
    }
  }

  lemma {:induction false} CandidateBefore(pre: seq<Record>, i: nat, j: nat, x: nat)
    requires i <= j < |pre| && Candidate(pre, i, j + 1, x) && x !in Starts(StepStack(Stack(pre[..j]), pre[j]))
    ensures Candidate(pre, i, j, x)
  {
    if pre[j].mark.Started? { StartedOnTop(Stack(pre[..j]), pre[j]); }
    if x !in Starts(Stack(pre[..i])) {
      var b :| i <= b < j + 1 && BeginsAt(pre[b], x);
      assert b < j;
    }
  }

  lemma {:induction false} StartedOnTop(s: seq<Turn>, r: Record)
    requires r.mark.Started?
    ensures r.start in Starts(StepStack(s, r))
  {
    var s' := StepStack(s, r);
    assert s'[|s'| - 1].start == r.start;
  }

  // --- Record rows ---

  ghost predicate RecordHeld(pre: seq<Record>, k: nat, records: map<nat, RecordRef>)
    requires k < |pre|
  {
    pre[k].start in records && records[pre[k].start] == RefOf(pre[k])
  }

  /** Records `i..j` have their rows. */
  ghost predicate RecordsIn(pre: seq<Record>, i: nat, j: nat, records: map<nat, RecordRef>)
    requires i <= j <= |pre|
  {
    forall k :: i <= k < j ==> RecordHeld(pre, k, records)
  }

  /** Every row is a whole line of the indexed prefix. */
  ghost predicate RecordsOnly(pre: seq<Record>, records: map<nat, RecordRef>) {
    forall x :: x in records ==> IsLine(pre, x, records[x])
  }

  ghost predicate IsLine(pre: seq<Record>, x: nat, row: RecordRef) {
    exists k :: 0 <= k < |pre| && LineAt(pre[k], x, row)
  }

  ghost predicate LineAt(r: Record, x: nat, row: RecordRef) {
    r.start == x && row == RefOf(r)
  }

  lemma {:induction false} RecordStep(pre: seq<Record>, j: nat, k: nat, records: map<nat, RecordRef>)
    requires Tiled(pre) && j < |pre| && k < |pre| && RecordHeld(pre, k, records)
    ensures RecordHeld(pre, k, records[pre[j].start := RefOf(pre[j])])
  {
    if pre[k].start == pre[j].start { SameRecord(pre, j, k); }
  }

  lemma {:induction false} RecordsStep(pre: seq<Record>, i: nat, k: nat, j: nat, records: map<nat, RecordRef>)
    requires Tiled(pre) && i <= k <= |pre| && j < |pre| && RecordsIn(pre, i, k, records)
    ensures RecordsIn(pre, i, k, records[pre[j].start := RefOf(pre[j])])
    ensures k == j ==> RecordsIn(pre, i, j + 1, records[pre[j].start := RefOf(pre[j])])
    ensures RecordsOnly(pre, records) ==> RecordsOnly(pre, records[pre[j].start := RefOf(pre[j])])
  {
    var more := records[pre[j].start := RefOf(pre[j])];
    forall m | i <= m < k ensures RecordHeld(pre, m, more) {
      assert RecordHeld(pre, m, records);
      RecordStep(pre, j, m, records);
    }
    assert LineAt(pre[j], pre[j].start, RefOf(pre[j]));
  }

  // --- Summaries ---

  /** The stored projection of `t` folds the whole records from its start to `end`. */
  ghost predicate SumHeld(pre: seq<Record>, t: Turn, end: nat, summaries: map<nat, Summary>) {
    t.start in summaries && summaries[t.start] == Summary(t.id, Span(pre, t.start, end))
  }

  ghost predicate ClosedSums(pre: seq<Record>, s: seq<Turn>, summaries: map<nat, Summary>, removed: set<nat>, from: nat) {
    forall p :: 0 <= p < |s| && s[p].start >= from && s[p].start !in removed && s[p].end != 0 ==> SumHeld(pre, s[p], s[p].end, summaries)
  }

  /** The active turn and the active projection move in lockstep; inside coverage the projection is up to date. */
  ghost predicate Lockstep(pre: seq<Record>, at: nat, active: Option<Turn>, summary: Option<ActiveSummary>, from: nat) {
    && active.Some? == summary.Some?
    && (active.Some? ==>
          && summary.value.start == active.value.start
          && summary.value.summary.id == active.value.id
          && (active.value.start >= from ==> summary.value.summary.ingested == Span(pre, active.value.start, at)))
  }

  lemma {:induction false} LockstepStep(pre: seq<Record>, j: nat, active: Option<Turn>,
          summary: Option<ActiveSummary>, from: nat)
    requires Tiled(pre) && j < |pre| && from <= pre[j].start
    requires Lockstep(pre, pre[j].start, active, summary, from)
    requires active.Some? ==> active.value.start <= pre[j].start
    ensures Lockstep(pre, pre[j].end, TurnStep(active, pre[j]).0, SummaryStep(summary, pre[j]).0, from)
  {
    SpanFirst(pre, j);
    if active.Some? { SpanSnoc(pre, j, active.value.start); }
  }

  /** A projection pushed for a turn that is not in the way leaves the closed turns' rows alone. */
  lemma {:induction false} SumsBeside(pre: seq<Record>, s: seq<Turn>, summaries: map<nat, Summary>,
          removed: set<nat>, from: nat, batch: seq<(nat, Summary)>)
    requires ClosedSums(pre, s, summaries, removed, from)
    requires forall k, p :: 0 <= k < |batch| && 0 <= p < |s| && s[p].start >= from && s[p].end != 0 ==> batch[k].0 != s[p].start
    ensures ClosedSums(pre, s, InsertSummaries(summaries, removed, batch), removed, from)
  {
    forall p | 0 <= p < |s| && s[p].start >= from && s[p].start !in removed && s[p].end != 0
      ensures SumHeld(pre, s[p], s[p].end, InsertSummaries(summaries, removed, batch))
    {
      SummaryUntouched(summaries, removed, batch, s[p].start);
    }
  }

  lemma {:induction false} SumsAfterPop(pre: seq<Record>, s: seq<Turn>, n: nat, summaries: map<nat, Summary>,
          removed: set<nat>, gone: set<nat>, from: nat)
    requires ClosedSums(pre, s, summaries, removed, from)
    ensures ClosedSums(pre, Pop(s, n), summaries - gone, removed + gone, from)
  {
    var s' := Pop(s, n);
    forall p | 0 <= p < |s'| && s'[p].start >= from && s'[p].start !in removed + gone && s'[p].end != 0
      ensures SumHeld(pre, s'[p], s'[p].end, summaries - gone)
    {
      assert SumHeld(pre, s[p], s[p].end, summaries);
    }
  }

  /** Closing the top turn, with its projection stored at the same time. */
  lemma {:induction false} SumsAfterClose(pre: seq<Record>, s: seq<Turn>, end: nat, completed: bool,
          summaries: map<nat, Summary>, removed: set<nat>, from: nat, row: (nat, Summary))
    requires Shape(s, end) && TopOpen(s) && end > 0
    requires ClosedSums(pre, s, summaries, removed, from)
    requires s[|s| - 1].start >= from ==> row == (s[|s| - 1].start, Summary(s[|s| - 1].id, Span(pre, s[|s| - 1].start, end)))
    requires s[|s| - 1].start < from ==> row.0 < from
    ensures ClosedSums(pre, CloseTop(s, end, completed), InsertSummaries(summaries, removed, [row]), removed, from)
  {
    var s', rows := CloseTop(s, end, completed), InsertSummaries(summaries, removed, [row]);
    forall p | 0 <= p < |s'| && s'[p].start >= from && s'[p].start !in removed && s'[p].end != 0
      ensures SumHeld(pre, s'[p], s'[p].end, rows)
    {
      if p < |s| - 1 {
        assert s'[p] == s[p] && SumHeld(pre, s[p], s[p].end, summaries);
        SummaryUntouched(summaries, removed, [row], s[p].start);
      }
    }
  }

  lemma {:induction false} SumsAfterPush(pre: seq<Record>, s: seq<Turn>, id: string, at: nat,
          summaries: map<nat, Summary>, removed: set<nat>, from: nat)
    requires ClosedSums(pre, s, summaries, removed, from)
    ensures ClosedSums(pre, s + [Turn(id, at, 0, false)], summaries, removed, from)
  {
    var s' := s + [Turn(id, at, 0, false)];
    forall p | 0 <= p < |s'| && s'[p].start >= from && s'[p].start !in removed && s'[p].end != 0
      ensures SumHeld(pre, s'[p], s'[p].end, summaries)
    {
      assert s'[p] == s[p];
    }
  }

  /** Where the active turn can be: it is the open top, or it started below coverage. */
  lemma {:induction false} ActiveBeside(s: seq<Turn>, active: Option<Turn>, from: nat, bound: nat, p: nat)
    requires Shape(s, bound) && ActiveHolds(s, active, from) && active.Some?
    requires p < |s| && s[p].start >= from && s[p].end != 0
    ensures active.value.start != s[p].start
  {
  }

  lemma {:induction false} SumsStarted(pre: seq<Record>, j: nat, s: seq<Turn>, active: Option<Turn>,
          summary: Option<ActiveSummary>, summaries: map<nat, Summary>, removed: set<nat>, from: nat)
    requires j < |pre| && pre[j].mark.Started? && Shape(s, pre[j].start) && from <= pre[j].start
    requires ClosedSums(pre, s, summaries, removed, from)
    requires ActiveHolds(s, active, from) && Lockstep(pre, pre[j].start, active, summary, from)
    ensures ClosedSums(pre, StepStack(s, pre[j]), InsertSummaries(summaries, removed, SummaryStep(summary, pre[j]).1), removed, from)
  {
    var r := pre[j];
    var rows := InsertSummaries(summaries, removed, Remember(summary));
    var below := Interrupt(s, r.start);
    if TopOpen(s) && summary.Some? {
      SumsAfterClose(pre, s, r.start, false, summaries, removed, from, Remember(summary)[0]);
    } else if TopOpen(s) {
      assert s[|s| - 1].start < from;
    } else if summary.Some? {
      SumsBeside(pre, s, summaries, removed, from, Remember(summary));
    }
    assert ClosedSums(pre, below, rows, removed, from);
    SumsAfterPush(pre, below, r.mark.id, r.start, rows, removed, from);
  }

  /** A terminal closes the open turn exactly if it closes the active projection of a turn inside coverage. */
  lemma {:induction false} TerminalMatch(pre: seq<Record>, j: nat, s: seq<Turn>, active: Option<Turn>,
          summary: Option<ActiveSummary>, from: nat)
    requires Tiled(pre) && j < |pre| && pre[j].mark.Terminal? && Shape(s, pre[j].start) && from <= pre[j].start
    requires ActiveHolds(s, active, from) && Lockstep(pre, pre[j].start, active, summary, from) && StartsClean(s, pre[j], from)
    ensures TopOpen(s) ==>
              s[|s| - 1].start >= from && active == Some(s[|s| - 1]) && summary.Some? && summary.value.start == s[|s| - 1].start
              && summary.value.summary == Summary(s[|s| - 1].id, Span(pre, s[|s| - 1].start, pre[j].start))
    ensures !TopOpen(s) && summary.Some? ==> summary.value.start < from
  {
  }

  /** The terminal of the active turn. */
  lemma {:induction false} SumsClosed(pre: seq<Record>, j: nat, s: seq<Turn>, active: Option<Turn>,
          summary: Option<ActiveSummary>, summaries: map<nat, Summary>, removed: set<nat>, from: nat)
    requires Tiled(pre) && j < |pre| && pre[j].mark.Terminal? && Shape(s, pre[j].start) && from <= pre[j].start
    requires ClosedSums(pre, s, summaries, removed, from)
    requires ActiveHolds(s, active, from) && Lockstep(pre, pre[j].start, active, summary, from) && StartsClean(s, pre[j], from)
    requires TopOpen(s) && s[|s| - 1].id == pre[j].mark.id
    ensures ClosedSums(pre, StepStack(s, pre[j]), InsertSummaries(summaries, removed, SummaryStep(summary, pre[j]).1), removed, from)
  {
    var r, top := pre[j], s[|s| - 1];
    TerminalMatch(pre, j, s, active, summary, from);
    assert Abuts(pre, j);
    SpanSnoc(pre, j, top.start);
    var row := (top.start, Summary(top.id, Span(pre, top.start, r.end)));
    assert Ingest(summary.value.summary, r) == row.1;
    assert SummaryStep(summary, r).1 == [row];
    assert StepStack(s, r) == CloseTop(s, r.end, r.mark.completed);
    SumsAfterClose(pre, s, r.end, r.mark.completed, summaries, removed, from, row);
  }

  /** A terminal of any other turn. */
  lemma {:induction false} SumsUnclosed(pre: seq<Record>, j: nat, s: seq<Turn>, active: Option<Turn>,
          summary: Option<ActiveSummary>, summaries: map<nat, Summary>, removed: set<nat>, from: nat)
    requires Tiled(pre) && j < |pre| && pre[j].mark.Terminal? && Shape(s, pre[j].start) && from <= pre[j].start
    requires ClosedSums(pre, s, summaries, removed, from)
    requires ActiveHolds(s, active, from) && Lockstep(pre, pre[j].start, active, summary, from) && StartsClean(s, pre[j], from)
    requires !(TopOpen(s) && s[|s| - 1].id == pre[j].mark.id)
    ensures ClosedSums(pre, StepStack(s, pre[j]), InsertSummaries(summaries, removed, SummaryStep(summary, pre[j]).1), removed, from)
  {
    TerminalMatch(pre, j, s, active, summary, from);
    assert StepStack(s, pre[j]) == s;
    SumsBeside(pre, s, summaries, removed, from, SummaryStep(summary, pre[j]).1);
  }

  lemma {:induction false} SumsTerminal(pre: seq<Record>, j: nat, s: seq<Turn>, active: Option<Turn>,
          summary: Option<ActiveSummary>, summaries: map<nat, Summary>, removed: set<nat>, from: nat)
    requires Tiled(pre) && j < |pre| && pre[j].mark.Terminal? && Shape(s, pre[j].start) && from <= pre[j].start
    requires ClosedSums(pre, s, summaries, removed, from)
    requires ActiveHolds(s, active, from) && Lockstep(pre, pre[j].start, active, summary, from) && StartsClean(s, pre[j], from)
    ensures ClosedSums(pre, StepStack(s, pre[j]), InsertSummaries(summaries, removed, SummaryStep(summary, pre[j]).1), removed, from)
  {
    if TopOpen(s) && s[|s| - 1].id == pre[j].mark.id {
      SumsClosed(pre, j, s, active, summary, summaries, removed, from);
    } else {
      SumsUnclosed(pre, j, s, active, summary, summaries, removed, from);
    }
  }

  lemma {:induction false} SumsStep(pre: seq<Record>, j: nat, active: Option<Turn>,
          summary: Option<ActiveSummary>, summaries: map<nat, Summary>, removed: set<nat>, from: nat)
    requires Tiled(pre) && j < |pre| && from <= pre[j].start
    requires ClosedSums(pre, Stack(pre[..j]), summaries, removed, from) && StartsClean(Stack(pre[..j]), pre[j], from)
    requires ActiveHolds(Stack(pre[..j]), active, from) && Lockstep(pre, pre[j].start, active, summary, from)
    ensures var gone := Gone(Stack(pre[..j]), pre[j]);
            ClosedSums(pre, Stack(pre[..j + 1]), InsertSummaries(summaries - gone, removed + gone, SummaryStep(summary, pre[j]).1), removed + gone, from)
  {
    var s, r := Stack(pre[..j]), pre[j];
    StackSnoc(pre, j);
    TiledPrefix(pre, j);
    StackShape(pre[..j]);
    assert Abuts(pre, j);
    if r.mark.Rollback? {
      SumsAfterPop(pre, s, r.mark.count, summaries, removed, Gone(s, r), from);
      return;
    }
    NothingGone(s, r);
    assert summaries - {} == summaries && removed + {} == removed;
    if r.mark.Started? {
      SumsStarted(pre, j, s, active, summary, summaries, removed, from);
    } else if r.mark.Terminal? {
      SumsTerminal(pre, j, s, active, summary, summaries, removed, from);
    }
  }

  // --- Standalone turns ---

  /** If record `k` is a turn by itself, its row and its projection are stored. */
  ghost predicate SingleHeld(pre: seq<Record>, k: nat, ft: FileTables)
    requires k < |pre|
  {
    IsSingle(pre, k) ==>
      && pre[k].start in ft.turns && ft.turns[pre[k].start] == SingleTurn(pre[k])
      && pre[k].start in ft.summaries && ft.summaries[pre[k].start] == Summary(pre[k].standalone.value, [pre[k]])
  }

  ghost predicate SinglesIn(pre: seq<Record>, i: nat, j: nat, ft: FileTables)
    requires i <= j <= |pre|
  {
    forall k :: i <= k < j ==> SingleHeld(pre, k, ft)
  }

  /** The turn the scan holds open is one inside coverage. */
  predicate Settled(active: Option<Turn>, from: nat) {
    active.Some? ==> active.value.start >= from
  }

  /** A turn by itself does not start where a task turn starts. */
  lemma {:induction false} SingleApart(pre: seq<Record>, k: nat, x: nat)
    requires Tiled(pre) && k < |pre| && IsSingle(pre, k) && StartedIn(pre, 0, |pre|, x)
    ensures x != pre[k].start
  {
    var b :| 0 <= b < |pre| && BeginsAt(pre[b], x);
    if x == pre[k].start { SameRecord(pre, b, k); }
    StackSnoc(pre, k);
  }

  lemma {:induction false} StartedAsIn(pre: seq<Record>, x: nat, id: string)
    requires StartedAs(pre, x, id)
    ensures StartedIn(pre, 0, |pre|, x)
  {
    var b :| 0 <= b < |pre| && StartsAt(pre[b], x, id);
    assert BeginsAt(pre[b], x);
  }

  /** What line `j` pushes for task turns and projections lands on start records only. */
  lemma {:induction false} PushesAreStarts(pre: seq<Record>, j: nat, active: Option<Turn>,
          summary: Option<ActiveSummary>, from: nat)
    requires j < |pre| && ActiveOrigin(pre, active) && Lockstep(pre, pre[j].start, active, summary, from)
    ensures var rows := TurnStep(active, pre[j]).1;
            forall k :: 0 <= k < |rows| ==> StartedIn(pre, 0, |pre|, rows[k].start)
    ensures var sums := SummaryStep(summary, pre[j]).1;
            forall k :: 0 <= k < |sums| ==> StartedIn(pre, 0, |pre|, sums[k].0)
  {
    if active.Some? { StartedAsIn(pre, active.value.start, active.value.id); }
    if pre[j].mark.Started? { assert BeginsAt(pre[j], pre[j].start); }
  }

  /** Line `j` leaves a stored standalone turn alone. */
  lemma {:induction false} SingleStays(pre: seq<Record>, k: nat, j: nat, ft: FileTables, active: Option<Turn>,
          summary: Option<ActiveSummary>, from: nat)
    requires Tiled(pre) && k < |pre| && j < |pre| && k != j && SingleHeld(pre, k, ft)
    requires ActiveOrigin(pre, active) && Lockstep(pre, pre[j].start, active, summary, from)
    ensures SingleHeld(pre, k, LineEffect(ft, Stack(pre[..j]), pre[j], active, summary))
  {
    if IsSingle(pre, k) {
      var x, r, gone := pre[k].start, pre[j], Gone(Stack(pre[..j]), pre[j]);
      var removed := ft.removed + gone;
      if r.start == x { SameRecord(pre, j, k); }
      if x in gone { DiesHere(pre, j, x); SingleApart(pre, k, x); }
      PushesAreStarts(pre, j, active, summary, from);
      var rows, sums, singles := TurnStep(active, r).1, SummaryStep(summary, r).1, SingleStep(TurnStep(active, r).0, r);
      forall m | 0 <= m < |rows| ensures rows[m].start != x { SingleApart(pre, k, rows[m].start); }
      forall m | 0 <= m < |sums| ensures sums[m].0 != x { SingleApart(pre, k, sums[m].0); }
      TurnUntouched(ft.turns - gone, removed, rows, x);
      TurnUntouched(InsertTurns(ft.turns - gone, removed, rows), removed, singles.0, x);
      SummaryUntouched(ft.summaries - gone, removed, sums, x);
      SummaryUntouched(InsertSummaries(ft.summaries - gone, removed, sums), removed, singles.1, x);
    }
  }

  /** A standalone record met while no turn is open becomes a row. */
  lemma {:induction false} SingleStored(pre: seq<Record>, j: nat, ft: FileTables, active: Option<Turn>,
          summary: Option<ActiveSummary>)
    requires Tiled(pre) && j < |pre| && TombsSound(pre, ft.removed)
    requires IsSingle(pre, j) ==> TurnStep(active, pre[j]).0.None?
    ensures SingleHeld(pre, j, LineEffect(ft, Stack(pre[..j]), pre[j], active, summary))
  {
    if IsSingle(pre, j) {
      var removed := ft.removed + Gone(Stack(pre[..j]), pre[j]);
      TombsSoundStep(pre, j, ft.removed);
      if pre[j].start in removed { assert Dead(pre, pre[j].start); SingleApart(pre, j, pre[j].start); }
    }
  }

  lemma {:induction false} SinglesStep(pre: seq<Record>, i: nat, k: nat, j: nat, ft: FileTables,
          active: Option<Turn>, summary: Option<ActiveSummary>, from: nat)
    requires Tiled(pre) && i <= k <= |pre| && j < |pre| && SinglesIn(pre, i, k, ft) && TombsSound(pre, ft.removed)
    requires ActiveOrigin(pre, active) && Lockstep(pre, pre[j].start, active, summary, from)
    requires IsSingle(pre, j) ==> TurnStep(active, pre[j]).0.None?
    ensures SinglesIn(pre, i, k, LineEffect(ft, Stack(pre[..j]), pre[j], active, summary))
    ensures k == j ==> SinglesIn(pre, i, j + 1, LineEffect(ft, Stack(pre[..j]), pre[j], active, summary))
  {
    var ft' := LineEffect(ft, Stack(pre[..j]), pre[j], active, summary);
    SingleStored(pre, j, ft, active, summary);
    forall m | i <= m < k ensures SingleHeld(pre, m, ft') {
      assert SingleHeld(pre, m, ft);
      if m != j { SingleStays(pre, m, j, ft, active, summary, from); }
    }
  }

  // --- The invariant of a scan ---

  /** If a turn is open where coverage starts, the first covered record closes it. */
  ghost predicate CleanFrom(pre: seq<Record>, i: nat)
    requires i <= |pre|
  {
    TopOpen(Stack(pre[..i])) ==> i < |pre| && pre[i].mark.Started?
  }

  /** What is true of the tables whatever range has been scanned. */
  ghost predicate Sane(pre: seq<Record>, ft: FileTables) {
    && Origin(pre, ft.turns)
    && RecordsOnly(pre, ft.records)
    && TombsSound(pre, ft.removed)
    && NoGhosts(ft)
  }

  /** What is true of the tables once records `i..j` have been scanned. */
  ghost predicate Held(pre: seq<Record>, i: nat, j: nat, ft: FileTables)
    requires i <= j <= |pre|
  {
    && RowsHold(Stack(pre[..j]), ft.turns, ft.removed, Offset(pre, i))
    && ClosedSums(pre, Stack(pre[..j]), ft.summaries, ft.removed, Offset(pre, i))
    && TombsComplete(pre, i, j, ft.removed)
    && RecordsIn(pre, i, j, ft.records)
  }

  /** A scan that has read records `i..j` of `pre` and keeps `active` and `summary` in memory. */
  ghost predicate Progress(pre: seq<Record>, i: nat, j: nat, ft: FileTables, active: Option<Turn>,
          summary: Option<ActiveSummary>)
    requires i <= j <= |pre|
  {
    CleanFrom(pre, i) && Reading(pre, i, j, ft, active, summary)
  }

  /** As `Progress`, when the record coverage starts with may not be part of `pre` yet. */
  ghost predicate Reading(pre: seq<Record>, i: nat, j: nat, ft: FileTables, active: Option<Turn>,
          summary: Option<ActiveSummary>)
    requires i <= j <= |pre|
  {
    && Tiled(pre) && Sane(pre, ft) && Held(pre, i, j, ft)
    && ActiveHolds(Stack(pre[..j]), active, Offset(pre, i))
    && ActiveOrigin(pre, active)
    && (active.Some? ==> active.value.start < Offset(pre, j))
    && Lockstep(pre, Offset(pre, j), active, summary, Offset(pre, i))
  }

  lemma {:induction false} ClosedBelow(s: seq<Turn>, r: Record, p: nat)
    requires Shape(s, r.start) && r.start < r.end && (TopOpen(s) ==> r.mark.Started?)
    requires p < |StepStack(s, r)| && StepStack(s, r)[p].start < r.start
    ensures StepStack(s, r)[p].end != 0
  {
    match r.mark
    case Started(id) =>
    case Terminal(id, completed) =>
    case Rollback(n) =>
    case _ =>
  }

  /** Past the first covered record, an open turn started inside coverage. */
  lemma {:induction false} OpenInside(pre: seq<Record>, i: nat, j: nat)
    requires Tiled(pre) && i < j <= |pre| && CleanFrom(pre, i)
    ensures TopOpen(Stack(pre[..j])) ==> Stack(pre[..j])[|Stack(pre[..j])| - 1].start >= Offset(pre, i)
  {
    var s, s' := Stack(pre[..j]), Stack(pre[..i + 1]);
    var p := |s| - 1;
    if TopOpen(s) && s[p].start < Offset(pre, i) {
      StackRemains(pre, i + 1, j);
      OffsetsIncrease(pre, i, i + 1);
      assert p < |s'| && s'[p].start == s[p].start && s'[p].end == 0;
      TiledPrefix(pre, i);
      StackShape(pre[..i]);
      StackSnoc(pre, i);
      assert Abuts(pre, i);
      ClosedBelow(Stack(pre[..i]), pre[i], p);
    }
  }

  lemma {:induction false} StartsCleanAt(pre: seq<Record>, i: nat, j: nat)
    requires Tiled(pre) && i <= j < |pre| && CleanFrom(pre, i)
    ensures StartsClean(Stack(pre[..j]), pre[j], Offset(pre, i))
  {
    if i < j { OpenInside(pre, i, j); }
  }

  lemma {:induction false} FromBefore(pre: seq<Record>, i: nat, j: nat)
    requires Tiled(pre) && i <= j < |pre|
    ensures Offset(pre, i) <= Offset(pre, j) == pre[j].start < pre[j].end == Offset(pre, j + 1)
  {
    assert Abuts(pre, j);
    if i < j { OffsetsIncrease(pre, i, j); }
  }

  // --- One line keeps it ---

  /** The scan takes a standalone record for a turn exactly when the reference does, if its open turn is in coverage. */
  lemma {:induction false} SingleSeen(pre: seq<Record>, i: nat, j: nat, active: Option<Turn>)
    requires Tiled(pre) && i <= j < |pre| && CleanFrom(pre, i) && ActiveHolds(Stack(pre[..j]), active, Offset(pre, i))
    ensures TurnStep(active, pre[j]).0.None? && pre[j].standalone.Some? ==> IsSingle(pre, j)
    ensures Settled(active, Offset(pre, i)) && IsSingle(pre, j) ==> TurnStep(active, pre[j]).0.None?
    ensures Settled(active, Offset(pre, i)) ==> Settled(TurnStep(active, pre[j]).0, Offset(pre, i))
    ensures ActiveHolds(Stack(pre[..j + 1]), TurnStep(active, pre[j]).0, Offset(pre, i))
  {
    FromBefore(pre, i, j);
    TiledPrefix(pre, j);
    StackShape(pre[..j]);
    StackSnoc(pre, j);
    StartsCleanAt(pre, i, j);
    ActiveStep(Stack(pre[..j]), pre[j], Offset(pre, i), active);
  }

  lemma {:induction false} SaneStep(pre: seq<Record>, j: nat, ft: FileTables, active: Option<Turn>,
          summary: Option<ActiveSummary>)
    requires Tiled(pre) && j < |pre| && Sane(pre, ft) && ActiveOrigin(pre, active)
    requires TurnStep(active, pre[j]).0.None? && pre[j].standalone.Some? ==> IsSingle(pre, j)
    ensures Sane(pre, LineEffect(ft, Stack(pre[..j]), pre[j], active, summary))
  {
    var r, gone := pre[j], Gone(Stack(pre[..j]), pre[j]);
    var removed, singles := ft.removed + gone, SingleStep(TurnStep(active, r).0, r);
    OriginStep(pre, j, ft, active, summary);
    RecordsStep(pre, 0, 0, j, ft.records);
    TombsSoundStep(pre, j, ft.removed);
    InsertTurnsAvoids(ft.turns - gone, removed, TurnStep(active, r).1);
    InsertTurnsAvoids(InsertTurns(ft.turns - gone, removed, TurnStep(active, r).1), removed, singles.0);
    InsertSummariesAvoids(ft.summaries - gone, removed, SummaryStep(summary, r).1);
    InsertSummariesAvoids(InsertSummaries(ft.summaries - gone, removed, SummaryStep(summary, r).1), removed, singles.1);
  }

  lemma {:induction false} RowsBeside(s: seq<Turn>, turns: map<nat, Turn>, removed: set<nat>, from: nat, batch: seq<Turn>)
    requires RowsHold(s, turns, removed, from)
    requires forall k, p :: 0 <= k < |batch| && 0 <= p < |s| ==> batch[k].start != s[p].start
    ensures RowsHold(s, InsertTurns(turns, removed, batch), removed, from)
  {
    forall p | 0 <= p < |s| && s[p].start >= from && s[p].start !in removed
      ensures s[p].start in InsertTurns(turns, removed, batch) && InsertTurns(turns, removed, batch)[s[p].start] == s[p]
    {
      TurnUntouched(turns, removed, batch, s[p].start);
    }
  }

  /** No surviving turn starts at a standalone record that is a turn by itself. */
  lemma {:induction false} SingleBeside(pre: seq<Record>, j: nat, active: Option<Turn>, p: nat)
    requires Tiled(pre) && j < |pre| && p < |Stack(pre[..j + 1])|
    requires active.None? && pre[j].standalone.Some? ==> IsSingle(pre, j)
    ensures var singles := SingleStep(active, pre[j]);
            && (forall k :: 0 <= k < |singles.0| ==> singles.0[k].start != Stack(pre[..j + 1])[p].start)
            && (forall k :: 0 <= k < |singles.1| ==> singles.1[k].0 != Stack(pre[..j + 1])[p].start)
  {
    if active.None? && pre[j].standalone.Some? {
      var x := Stack(pre[..j + 1])[p].start;
      StartBelow(pre, j + 1, x);
      var b :| 0 <= b < j + 1 && BeginsAt(pre[b], x);
      assert StartedIn(pre, 0, |pre|, x);
      SingleApart(pre, j, x);
    }
  }

  lemma {:induction false} HeldStep(pre: seq<Record>, i: nat, j: nat, ft: FileTables, active: Option<Turn>,
          summary: Option<ActiveSummary>)
    requires i <= j < |pre| && Progress(pre, i, j, ft, active, summary)
    ensures Held(pre, i, j + 1, LineEffect(ft, Stack(pre[..j]), pre[j], active, summary))
  {
    var s, s', r, from := Stack(pre[..j]), Stack(pre[..j + 1]), pre[j], Offset(pre, i);
    var gone := Gone(s, r);
    var removed, singles := ft.removed + gone, SingleStep(TurnStep(active, r).0, r);
    FromBefore(pre, i, j);
    StartsCleanAt(pre, i, j);
    SingleSeen(pre, i, j, active);
    RecordsStep(pre, i, j, j, ft.records);
    TombsCompleteStep(pre, i, j, ft.removed);
    SumsStep(pre, j, active, summary, ft.summaries, ft.removed, from);
    forall p | 0 <= p < |s'|
      ensures forall k :: 0 <= k < |singles.0| ==> singles.0[k].start != s'[p].start
      ensures forall k :: 0 <= k < |singles.1| ==> singles.1[k].0 != s'[p].start
    {
      SingleBeside(pre, j, TurnStep(active, r).0, p);
    }
    SumsBeside(pre, s', InsertSummaries(ft.summaries - gone, removed, SummaryStep(summary, r).1), removed, from, singles.1);
    StackSnoc(pre, j);
    TiledPrefix(pre, j);
    StackShape(pre[..j]);
    TurnRowsStep(s, r, from, ft.turns, ft.removed, active);
    RowsBeside(s', InsertTurns(ft.turns - gone, removed, TurnStep(active, r).1), removed, from, singles.0);
  }

  lemma {:induction false} LineStep(pre: seq<Record>, i: nat, j: nat, ft: FileTables, active: Option<Turn>,
          summary: Option<ActiveSummary>)
    requires i <= j < |pre| && Progress(pre, i, j, ft, active, summary)
    ensures Progress(pre, i, j + 1, LineEffect(ft, Stack(pre[..j]), pre[j], active, summary),
                     TurnStep(active, pre[j]).0, SummaryStep(summary, pre[j]).0)
  {
    FromBefore(pre, i, j);
    SingleSeen(pre, i, j, active);
    SaneStep(pre, j, ft, active, summary);
    HeldStep(pre, i, j, ft, active, summary);
    TurnStepOrigin(pre, j, active);
    LockstepStep(pre, j, active, summary, Offset(pre, i));
  }

  // --- More of the file becomes durable ---

  /** `pre` is an initial part of `more`: what the index proved of it stays true. */
  lemma {:induction false} OriginExtends(pre: seq<Record>, more: seq<Record>, x: nat, t: Turn)
    requires pre <= more && RowOrigin(pre, x, t)
    ensures RowOrigin(more, x, t)
  {
    if StartedAs(pre, x, t.id) {
      var j :| 0 <= j < |pre| && StartsAt(pre[j], x, t.id);
      assert StartsAt(more[j], x, t.id);
    } else {
      var j :| 0 <= j < |pre| && IsThisSingle(pre, j, x, t);
      assert more[..j + 1] == pre[..j + 1];
      assert IsThisSingle(more, j, x, t);
    }
  }

  lemma {:induction false} StartedInExtends(pre: seq<Record>, more: seq<Record>, i: nat, j: nat, x: nat)
    requires pre <= more && i <= j <= |pre|
    ensures StartedIn(pre, i, j, x) <==> StartedIn(more, i, j, x)
  {
    if StartedIn(pre, i, j, x) {
      var b :| i <= b < j && BeginsAt(pre[b], x);
      assert BeginsAt(more[b], x);
    }
    if StartedIn(more, i, j, x) {
      var b :| i <= b < j && BeginsAt(more[b], x);
      assert BeginsAt(pre[b], x);
    }
  }

  lemma {:induction false} DeadExtends(pre: seq<Record>, more: seq<Record>, x: nat)
    requires Tiled(more) && pre <= more && Dead(pre, x)
    ensures Dead(more, x)
  {
    var k := |pre|;
    var b :| 0 <= b < k && BeginsAt(pre[b], x);
    assert BeginsAt(more[b], x);
    assert pre == more[..k] && more == more[..|more|];
    assert Abuts(more, b);
    if b + 1 < k { OffsetsIncrease(more, b + 1, k); }
    if x in Starts(Stack(more)) { GoneForGood(more, k, |more|, x); }
  }

  lemma {:induction false} SaneExtends(pre: seq<Record>, more: seq<Record>, ft: FileTables)
    requires Tiled(more) && pre <= more && Sane(pre, ft)
    ensures Sane(more, ft)
  {
    forall x | x in ft.turns ensures RowOrigin(more, x, ft.turns[x]) { OriginExtends(pre, more, x, ft.turns[x]); }
    forall x | x in ft.removed ensures Dead(more, x) { DeadExtends(pre, more, x); }
    forall x | x in ft.records ensures IsLine(more, x, ft.records[x]) {
      var k :| 0 <= k < |pre| && LineAt(pre[k], x, ft.records[x]);
      assert LineAt(more[k], x, ft.records[x]);
    }
  }

  lemma {:induction false} SumExtends(pre: seq<Record>, more: seq<Record>, t: Turn, end: nat, summaries: map<nat, Summary>)
    requires Tiled(more) && pre <= more && end <= DurableEnd(pre) && SumHeld(pre, t, end, summaries)
    ensures SumHeld(more, t, end, summaries)
  {
    assert more[..|pre|] == pre;
    SpanPrefix(more, |pre|, t.start, end);
  }

  lemma {:induction false} HeldExtends(pre: seq<Record>, more: seq<Record>, i: nat, j: nat, ft: FileTables)
    requires Tiled(more) && pre <= more && i <= j <= |pre| && Held(pre, i, j, ft)
    ensures Held(more, i, j, ft)
  {
    assert more[..j] == pre[..j] && more[..i] == pre[..i] && more[..|pre|] == pre;
    var s := Stack(pre[..j]);
    TiledPrefix(more, j);
    StackShape(pre[..j]);
    if j < |pre| { OffsetsIncrease(more, j, |pre|); }
    forall p | 0 <= p < |s| && s[p].start >= Offset(pre, i) && s[p].start !in ft.removed && s[p].end != 0
      ensures SumHeld(more, s[p], s[p].end, ft.summaries)
    {
      SumExtends(pre, more, s[p], s[p].end, ft.summaries);
    }
    forall x | Candidate(more, i, j, x) && x !in Starts(Stack(more[..j])) ensures x in ft.removed {
      StartedInExtends(pre, more, i, j, x);
      assert Candidate(pre, i, j, x);
    }
    forall k | i <= k < j ensures RecordHeld(more, k, ft.records) { assert RecordHeld(pre, k, ft.records); }
  }

  lemma {:induction false} SinglesExtend(pre: seq<Record>, more: seq<Record>, i: nat, j: nat, ft: FileTables)
    requires pre <= more && i <= j <= |pre| && SinglesIn(pre, i, j, ft)
    ensures SinglesIn(more, i, j, ft)
  {
    forall k | i <= k < j ensures SingleHeld(more, k, ft) {
      assert more[..k + 1] == pre[..k + 1];
      assert SingleHeld(pre, k, ft);
    }
  }

  lemma {:induction false} CleanExtends(pre: seq<Record>, more: seq<Record>, i: nat)
    requires pre <= more && i <= |pre| && CleanFrom(pre, i)
    ensures CleanFrom(more, i)
  {
    assert more[..i] == pre[..i];
  }

  lemma {:induction false} ReadingExtends(pre: seq<Record>, more: seq<Record>, i: nat, j: nat, ft: FileTables,
          active: Option<Turn>, summary: Option<ActiveSummary>)
    requires Tiled(more) && pre <= more && i <= j <= |pre| && Reading(pre, i, j, ft, active, summary)
    ensures Reading(more, i, j, ft, active, summary)
  {
    SaneExtends(pre, more, ft);
    HeldExtends(pre, more, i, j, ft);
    assert more[..j] == pre[..j] && more[..|pre|] == pre;
    if active.Some? {
      var b :| 0 <= b < |pre| && StartsAt(pre[b], active.value.start, active.value.id);
      assert StartsAt(more[b], active.value.start, active.value.id);
      if j < |pre| { OffsetsIncrease(more, j, |pre|); }
      SpanPrefix(more, |pre|, active.value.start, Offset(pre, j));
    }
  }

  /** Before its first line a scan knows nothing but that the tables are sane. */
  lemma {:induction false} ReadingBegins(pre: seq<Record>, i: nat, ft: FileTables)
    requires Tiled(pre) && i <= |pre| && Sane(pre, ft)
    ensures Reading(pre, i, i, ft, None, None)
  {
    TiledPrefix(pre, i);
    StackShape(pre[..i]);
    forall x | Candidate(pre, i, i, x) ensures x in Starts(Stack(pre[..i])) { }
  }

  /** A coverage start is clean for every initial part that reaches past it. */
  lemma {:induction false} CleanWithin(log: seq<Record>, i: nat, j: nat)
    requires i <= j <= |log| && CleanFrom(log, i) && (i == j ==> j == |log|)
    ensures CleanFrom(log[..j], i)
  {
    assert log[..j][..i] == log[..i];
  }
}
