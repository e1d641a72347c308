/**
 The one way a standalone turn can be missing from the covered rows. A backfill that crashes between
 its commits can leave the open row of an older turn below coverage. While that row is the newest of
 the file, the next forward scan resumes it as its active turn, and every standalone record it reads
 before that turn goes away is taken for a part of it.
 */
module Leftovers {
  import opened Wrappers
  import opened Transcript
  import opened ReverseScan
  import opened LogicalTurns
  import opened ColdScan
  import opened SurvivingTurns
  import opened Store
  import opened ScanInvariants
  import opened Coverage
  import opened LineScan
  import opened ForwardScan
  import opened Backfill

  /** No record of `k..j` makes the scan let go of the turn `id`. */
  ghost predicate KeepsHolding(log: seq<Record>, k: nat, j: nat, id: string)
    requires k <= j <= |log|
  {
    forall m :: k <= m < j ==> !LetsGo(log[m], id)
  }

  ghost predicate LetsGo(r: Record, id: string) {
    || r.mark.Started?
    || (r.mark.Rollback? && r.mark.count > 0)
    || (r.mark.Terminal? && r.mark.id == id)
  }

  /** The active turn alone. */
  function ActiveAfter(log: seq<Record>, k: nat, j: nat, active: Option<Turn>): (active': Option<Turn>)
    requires k <= j <= |log|
    decreases j
  {
    if j == k then active else TurnStep(ActiveAfter(log, k, j - 1, active), log[j - 1]).0
  }

  lemma {:induction false} ActiveOfAfter(log: seq<Record>, k: nat, j: nat, state: ScanState)
    requires k <= j <= |log|
    ensures After(log, k, j, state).active == ActiveAfter(log, k, j, state.active)
    decreases j
  {
    if k < j { ActiveOfAfter(log, k, j - 1, state); }
  }

  /** A leftover stays the active turn exactly as long as no record makes the scan let go of it. */
  lemma {:induction false} LeftoverLasts(log: seq<Record>, k: nat, j: nat, active: Option<Turn>, from: nat)
    requires Tiled(log) && k <= j <= |log| && from <= Offset(log, k)
    ensures !Settled(ActiveAfter(log, k, j, active), from) <==>
              active.Some? && active.value.start < from && KeepsHolding(log, k, j, active.value.id)
    ensures !Settled(ActiveAfter(log, k, j, active), from) ==> ActiveAfter(log, k, j, active) == active
    decreases j
  {
    if k < j {
      LeftoverLasts(log, k, j - 1, active, from);
      assert Abuts(log, j - 1);
      if k < j - 1 { OffsetsIncrease(log, k, j - 1); }
    }
  }

  /** A scan that is about to read record `k`. */
  ghost predicate Resuming(log: seq<Record>, first: nat, k: nat, state: ScanState)
    requires first <= k <= |log|
  {
    forall n: nat :: Asked(ResumeAt(k), n) ==>
      Tiled(log) && CleanFrom(log, first) && Reading(log[..k], first, k, state.tables, state.active, state.summary)
  }

  lemma {:induction false} ReadingLine(log: seq<Record>, first: nat, i: nat, j: nat, state: ScanState)
    requires first <= i < |log| && j == i + 1 && Resuming(log, first, i, state)
    ensures Resuming(log, first, j, ReadLine(state, Stack(log[..i]), log[i]))
  {
    assert Asked(ResumeAt(i), 0);
    PrefixOfPrefix(log, i);
    ReadingExtends(log[..i], log[..j], first, i, state.tables, state.active, state.summary);
    CleanWithin(log, first, j);
    LineStep(log[..j], first, i, state.tables, state.active, state.summary);
  }

  /** Reading on keeps the scan's invariant. */
  lemma {:induction false} ReadsOn(log: seq<Record>, first: nat, k: nat, j: nat, state: ScanState)
    requires first <= k <= j <= |log| && Resuming(log, first, k, state)
    ensures Resuming(log, first, j, After(log, k, j, state))
    decreases j
  {
    if k < j {
      var i := j - 1;
      ReadsOn(log, first, k, i, state);
      ReadingLine(log, first, i, j, After(log, k, i, state));
    }
  }

  /** What the scan knows when it meets record `i`. */
  lemma {:induction false} Meets(log: seq<Record>, first: nat, i: nat, pre: seq<Record>, state: ScanState, m: nat)
    requires first <= i < |log| && m <= i && pre == log[..i + 1] && Resuming(log, first, i, state)
    ensures Tiled(pre) && ActiveOrigin(pre, state.active) && Lockstep(pre, pre[i].start, state.active, state.summary, Offset(log, first))
    ensures TombsSound(pre, state.tables.removed) && pre[i].start !in state.tables.turns
    ensures IsSingle(pre, i) && Settled(state.active, Offset(log, first)) ==> TurnStep(state.active, pre[i]).0.None?
    ensures pre[..i] == log[..i] && pre[i] == log[i] && pre[..m + 1] == log[..m + 1]
  {
    assert Asked(ResumeAt(i), 0);
    PrefixOfPrefix(log, i);
    ReadingExtends(log[..i], pre, first, i, state.tables, state.active, state.summary);
    CleanWithin(log, first, i + 1);
    SingleSeen(pre, first, i, state.active);
    assert Abuts(log, i);
    if pre[i].start in state.tables.turns { RowBelowEnd(log[..i], state.tables, pre[i].start); }
  }

  /** One line does not create or remove the row of another record that is a turn by itself. */
  lemma {:induction false} OtherSingleRow(pre: seq<Record>, m: nat, j: nat, ft: FileTables,
          active: Option<Turn>, summary: Option<ActiveSummary>, from: nat)
    requires Tiled(pre) && m < |pre| && j < |pre| && m != j && IsSingle(pre, m)
    requires ActiveOrigin(pre, active) && Lockstep(pre, pre[j].start, active, summary, from)
    ensures pre[m].start in LineEffect(ft, Stack(pre[..j]), pre[j], active, summary).turns <==> pre[m].start in ft.turns
  {
    var x, r, gone := pre[m].start, pre[j], Gone(Stack(pre[..j]), pre[j]);
    var removed, rows, singles := ft.removed + gone, TurnStep(active, r).1, SingleStep(TurnStep(active, r).0, r);
    if r.start == x { SameRecord(pre, j, m); }
    if x in gone { DiesHere(pre, j, x); SingleApart(pre, m, x); }
    PushesAreStarts(pre, j, active, summary, from);
    forall n | 0 <= n < |rows| ensures rows[n].start != x { SingleApart(pre, m, rows[n].start); }
    TurnUntouched(ft.turns - gone, removed, rows, x);
    TurnUntouched(InsertTurns(ft.turns - gone, removed, rows), removed, singles.0, x);
  }

  /** Record `j` that is a turn by itself gets its row exactly when the scan holds no turn after its boundary. */
  lemma {:induction false} OwnSingleRow(pre: seq<Record>, j: nat, ft: FileTables, active: Option<Turn>,
          summary: Option<ActiveSummary>, from: nat)
    requires Tiled(pre) && j < |pre| && IsSingle(pre, j) && TombsSound(pre, ft.removed) && pre[j].start !in ft.turns
    requires ActiveOrigin(pre, active) && Lockstep(pre, pre[j].start, active, summary, from)
    ensures pre[j].start in LineEffect(ft, Stack(pre[..j]), pre[j], active, summary).turns <==> TurnStep(active, pre[j]).0.None?
  {
    var x, r, gone := pre[j].start, pre[j], Gone(Stack(pre[..j]), pre[j]);
    var removed, rows := ft.removed + gone, TurnStep(active, r).1;
    PushesAreStarts(pre, j, active, summary, from);
    forall n | 0 <= n < |rows| ensures rows[n].start != x { SingleApart(pre, j, rows[n].start); }
    TurnUntouched(ft.turns - gone, removed, rows, x);
    if TurnStep(active, r).0.None? { SingleStored(pre, j, ft, active, summary); }
  }

  /** The scan holds, while it reads record `m`, a turn it resumed from below coverage. */
  ghost predicate Shadowed(log: seq<Record>, first: nat, k: nat, m: nat, active: Option<Turn>)
    requires first <= k <= m < |log|
  {
    active.Some? && active.value.start < Offset(log, first) && KeepsHolding(log, k, m + 1, active.value.id)
  }

  lemma {:induction false} StoredHere(log: seq<Record>, first: nat, m: nat, state: ScanState)
    requires first <= m < |log| && Resuming(log, first, m, state) && IsSingle(log, m)
    ensures log[m].start in ReadLine(state, Stack(log[..m]), log[m]).tables.turns <==> TurnStep(state.active, log[m]).0.None?
    ensures Settled(state.active, Offset(log, first)) ==> TurnStep(state.active, log[m]).0.None?
  {
    var pre := log[..m + 1];
    Meets(log, first, m, pre, state, m);
    OwnSingleRow(pre, m, state.tables, state.active, state.summary, Offset(log, first));
  }

  lemma {:induction false} HeldAt(log: seq<Record>, first: nat, k: nat, m: nat, active: Option<Turn>)
    requires first <= k <= m < |log| && Tiled(log) && IsSingle(log, m)
    requires Settled(ActiveAfter(log, k, m, active), Offset(log, first)) ==> TurnStep(ActiveAfter(log, k, m, active), log[m]).0.None?
    ensures TurnStep(ActiveAfter(log, k, m, active), log[m]).0.None? <==> !Shadowed(log, first, k, m, active)
  {
    if first < k { OffsetsIncrease(log, first, k); }
    LeftoverLasts(log, k, m, active, Offset(log, first));
    LeftoverLasts(log, k, m + 1, active, Offset(log, first));
    StackSnoc(log, m);
  }

  lemma {:induction false} MissedHere(log: seq<Record>, first: nat, k: nat, m: nat, state: ScanState)
    requires first <= k <= m < |log| && Resuming(log, first, k, state) && IsSingle(log, m)
    ensures log[m].start in After(log, k, m + 1, state).tables.turns <==> !Shadowed(log, first, k, m, state.active)
  {
    ReadsOn(log, first, k, m, state);
    StoredHere(log, first, m, After(log, k, m, state));
    assert Tiled(log) by { assert Asked(ResumeAt(k), 0); }
    ActiveOfAfter(log, k, m, state);
    HeldAt(log, first, k, m, state.active);
  }

  lemma {:induction false} MissedLater(log: seq<Record>, first: nat, i: nat, state: ScanState, m: nat)
    requires first <= i < |log| && m < i && Resuming(log, first, i, state) && IsSingle(log, m)
    ensures log[m].start in ReadLine(state, Stack(log[..i]), log[i]).tables.turns <==> log[m].start in state.tables.turns
  {
    var pre := log[..i + 1];
    Meets(log, first, i, pre, state, m);
    OtherSingleRow(pre, m, i, state.tables, state.active, state.summary, Offset(log, first));
  }

  lemma {:induction false} MissedNext(log: seq<Record>, first: nat, k: nat, i: nat, j: nat, state: ScanState, m: nat)
    requires first <= k <= m < i < |log| && j == i + 1 && Resuming(log, first, k, state) && IsSingle(log, m)
    ensures log[m].start in After(log, k, j, state).tables.turns <==> log[m].start in After(log, k, i, state).tables.turns
  {
    ReadsOn(log, first, k, i, state);
    AfterNext(log, k, i, j, state);
    MissedLater(log, first, i, After(log, k, i, state), m);
  }

  /**
   Exactly which standalone turns a forward scan misses: record `m` that is a turn by itself is left
   without a row if and only if the scan resumed a turn from below coverage and nothing up to `m`
   made it let go.
   */
  lemma {:induction false} MissedExactly(log: seq<Record>, first: nat, k: nat, j: nat, state: ScanState, m: nat)
    requires first <= k <= m < j <= |log| && Resuming(log, first, k, state) && IsSingle(log, m)
    ensures log[m].start in After(log, k, j, state).tables.turns <==> !Shadowed(log, first, k, m, state.active)
    decreases j
  {
    if m == j - 1 {
      MissedHere(log, first, k, m, state);
    } else {
      var i := j - 1;
      MissedExactly(log, first, k, i, state, m);
      MissedNext(log, first, k, i, j, state, m);
    }
  }

  /** A scan that resumes from tables at rest. */
  lemma {:induction false} RestResumes(log: seq<Record>, ft: FileTables, ext: Extent, summary: Option<ActiveSummary>)
    requires Tiled(log) && AtRest(ft, ext) && ext.indexed <= log
    requires Lockstep(ext.indexed, DurableEnd(ext.indexed), Resumed(ft.turns), summary, Offset(ext.indexed, ext.first))
    ensures Resuming(log, ext.first, |ext.indexed|, ScanState(ft, Resumed(ft.turns), summary))
  {
    assert log[..|ext.indexed|] == ext.indexed;
    ResumeProgress(ext.indexed, ext.first, ft, summary);
    CleanExtends(ext.indexed, log, ext.first);
  }

  /** In particular none is missed unless the newest row of the tables is such a leftover. */
  lemma {:induction false} UnhauntedMissesNothing(log: seq<Record>, ft: FileTables, ext: Extent,
          summary: Option<ActiveSummary>, j: nat, m: nat)
    requires Tiled(log) && AtRest(ft, ext) && ext.indexed <= log && |ext.indexed| <= m < j <= |log| && IsSingle(log, m) && !Haunted(ft)
    requires Lockstep(ext.indexed, DurableEnd(ext.indexed), Resumed(ft.turns), summary, Offset(ext.indexed, ext.first)) && ft.state.Some?
    ensures log[m].start in After(log, |ext.indexed|, j, ScanState(ft, Resumed(ft.turns), summary)).tables.turns
  {
    RestResumes(log, ft, ext, summary);
    MissedExactly(log, ext.first, |ext.indexed|, j, ScanState(ft, Resumed(ft.turns), summary), m);
  }

  // --- When a crashed backfill leaves one ---

  /** The turn that record `i` starts is still held once records `i..j` have been read. */
  ghost predicate Running(log: seq<Record>, i: nat, j: nat) {
    i < j <= |log| && log[i].mark.Started? && KeepsHolding(log, i + 1, j, log[i].mark.id)
  }

  function TurnFrom(r: Record): (t: Turn)
    requires r.mark.Started?
  {
    Turn(r.mark.id, r.start, 0, false)
  }

  lemma {:induction false} NothingHere(ft: FileTables, s: seq<Turn>, r: Record)
    requires !(r.mark.Rollback? && r.mark.count > 0)
    ensures Gone(s, r) == {} && ft.turns - Gone(s, r) == ft.turns && ft.removed + Gone(s, r) == ft.removed
  {
    if r.mark.Rollback? { assert Pop(s, 0) == s; } else { NothingGone(s, r); }
    assert ft.turns - {} == ft.turns;
  }

  lemma {:induction false} InsertOne(rows: map<nat, Turn>, removed: set<nat>, t: Turn)
    ensures InsertTurns(rows, removed, [t]) == if t.start in removed then rows else rows[t.start := t]
  {
    assert [t][..0] == [] && InsertTurns(rows, removed, []) == rows;
  }

  lemma {:induction false} StartLine(ft: FileTables, s: seq<Turn>, r: Record, summary: Option<ActiveSummary>)
    requires r.mark.Started?
    ensures TurnStep(None, r).0 == Some(TurnFrom(r))
    ensures LineEffect(ft, s, r, None, summary).turns == InsertTurns(ft.turns, ft.removed, [TurnFrom(r)])
    ensures LineEffect(ft, s, r, None, summary).removed == ft.removed
  {
    NothingHere(ft, s, r);
    assert TurnStep(None, r).1 == [TurnFrom(r)];
  }

  /** The turn that runs is on top of the stack. */
  lemma {:induction false} RunningOnTop(log: seq<Record>, i: nat, j: nat)
    requires Running(log, i, j)
    ensures Stack(log[..j]) != [] && Stack(log[..j])[|Stack(log[..j])| - 1] == TurnFrom(log[i])
    decreases j
  {
    StackSnoc(log, j - 1);
    if j > i + 1 {
      RunningOnTop(log, i, j - 1);
      assert !LetsGo(log[j - 1], log[i].mark.id);
    }
  }

  lemma {:induction false} ShapeAt(log: seq<Record>, k: nat)
    requires Tiled(log) && k < |log|
    ensures Shape(Stack(log[..k]), log[k].start) && log[k].end > 0
  {
    assert Abuts(log, k);
    TiledPrefix(log, k);
    StackShape(log[..k]);
  }

  lemma {:induction false} AfterNext(log: seq<Record>, i: nat, k: nat, j: nat, begin: ScanState)
    requires i <= k && j == k + 1 <= |log|
    ensures After(log, i, j, begin) == ReadLine(After(log, i, k, begin), Stack(log[..k]), log[k])
  {
  }

  lemma {:induction false} InsertKeepsRows(rows: map<nat, Turn>, removed: set<nat>, batch: seq<Turn>, x: nat)
    requires x in rows
    ensures x in InsertTurns(rows, removed, batch)
  {
    if batch != [] { InsertKeepsRows(rows, removed, batch[..|batch| - 1], x); }
  }

  /** The turns that rollbacks among records `i..j` remove, wherever they started. */
  function Undone(log: seq<Record>, i: nat, j: nat): (gone: set<nat>)
    requires i <= j <= |log|
    decreases j
  {
    if j == i then {} else Undone(log, i, j - 1) + Gone(Stack(log[..j - 1]), log[j - 1])
  }

  lemma {:induction false} UndoneStarted(log: seq<Record>, i: nat, j: nat, x: nat)
    requires Tiled(log) && i <= j <= |log| && x in Undone(log, i, j)
    ensures StartedIn(log, 0, |log|, x) && x < Offset(log, j)
    decreases j
  {
    var k := j - 1;
    assert Abuts(log, k);
    if x in Gone(Stack(log[..k]), log[k]) { DiesHere(log, k, x); } else { UndoneStarted(log, i, k, x); }
  }

  /** While the first turn of the range runs nothing is removed. */
  lemma {:induction false} RunningUndoes(log: seq<Record>, i: nat, j: nat)
    requires Running(log, i, j)
    ensures Undone(log, i, j) == {}
    decreases j
  {
    var k := j - 1;
    if k > i {
      RunningUndoes(log, i, k);
      assert !LetsGo(log[k], log[i].mark.id);
    }
    NothingHere(NO_ROWS, Stack(log[..k]), log[k]);
  }

  /** The tombstones of a backfill: those from before, and one for each turn that its lines remove. */
  lemma {:induction false} FoldRemoves(was: FileTables, log: seq<Record>, i: nat, j: nat)
    requires i <= j <= |log|
    ensures After(log, i, j, ScanState(was, None, None)).tables.removed == was.removed + Undone(log, i, j)
    decreases j
  {
    if i < j {
      var k, begin := j - 1, ScanState(was, None, None);
      FoldRemoves(was, log, i, k);
      AfterNext(log, i, k, j, begin);
      assert After(log, i, j, begin).tables.removed == After(log, i, k, begin).tables.removed + Gone(Stack(log[..k]), log[k]);
    }
  }

  /** Its active turn: the first one, while it runs. */
  lemma {:induction false} FoldHolds(was: FileTables, log: seq<Record>, i: nat, j: nat)
    requires i <= j <= |log| && NoStartIn(log, i + 1, j)
    ensures After(log, i, j, ScanState(was, None, None)).active == if Running(log, i, j) then Some(TurnFrom(log[i])) else None
    decreases j
  {
    if i < j {
      var k, begin := j - 1, ScanState(was, None, None);
      FoldHolds(was, log, i, k);
      AfterNext(log, i, k, j, begin);
      assert After(log, i, j, begin).active == TurnStep(After(log, i, k, begin).active, log[k]).0;
      if k > i { assert Running(log, i, j) <==> Running(log, i, k) && !LetsGo(log[k], log[i].mark.id); }
    }
  }

  /** A row from before stays unless its turn is removed. */
  lemma {:induction false} FoldKeepsRow(was: FileTables, log: seq<Record>, i: nat, k: nat, j: nat, x: nat)
    requires i <= k <= j <= |log| && x in After(log, i, k, ScanState(was, None, None)).tables.turns
    requires x !in Undone(log, i, j)
    ensures x in After(log, i, j, ScanState(was, None, None)).tables.turns
    decreases j
  {
    if k < j {
      var m := j - 1;
      var state := After(log, i, m, ScanState(was, None, None));
      FoldKeepsRow(was, log, i, k, m, x);
      AfterNext(log, i, m, j, ScanState(was, None, None));
      LineKeepsRow(state.tables, Stack(log[..m]), log[m], state.active, state.summary, x);
    }
  }

  lemma {:induction false} LineKeepsRow(ft: FileTables, s: seq<Turn>, r: Record, active: Option<Turn>,
          summary: Option<ActiveSummary>, x: nat)
    requires x in ft.turns && x !in Gone(s, r)
    ensures x in LineEffect(ft, s, r, active, summary).turns
  {
    var gone := Gone(s, r);
    InsertKeepsRows(ft.turns - gone, ft.removed + gone, TurnStep(active, r).1, x);
    InsertKeepsRows(InsertTurns(ft.turns - gone, ft.removed + gone, TurnStep(active, r).1), ft.removed + gone,
                    SingleStep(TurnStep(active, r).0, r).0, x);
  }

  // Standalone records.

  /** The backfill from record `i` stores record `k` as a turn by itself: it holds no turn there. */
  ghost predicate StoredAlone(log: seq<Record>, i: nat, k: nat, next: nat)
    requires k < |log|
  {
    next == k + 1 && log[k].standalone.Some? && !Running(log, i, next)
  }

  ghost predicate StoresAlone(log: seq<Record>, i: nat, j: nat)
    requires j <= |log|
  {
    exists k, next :: i <= k < j && StoredAlone(log, i, k, next)
  }

  lemma {:induction false} AloneHasRow(was: FileTables, log: seq<Record>, i: nat, k: nat, j: nat)
    requires i <= k < j <= |log| && NoStartIn(log, i + 1, j) && StoredAlone(log, i, k, k + 1)
    requires log[k].start !in was.removed + Undone(log, i, j)
    ensures log[k].start in After(log, i, j, ScanState(was, None, None)).tables.turns
  {
    var next := k + 1;
    var state := After(log, i, k, ScanState(was, None, None));
    FoldHolds(was, log, i, next);
    FoldRemoves(was, log, i, k);
    AfterNext(log, i, k, next, ScanState(was, None, None));
    UndoneGrows(log, i, next, j);
    InsertOne(InsertTurns(state.tables.turns - Gone(Stack(log[..k]), log[k]), state.tables.removed + Gone(Stack(log[..k]), log[k]),
                          TurnStep(state.active, log[k]).1),
              state.tables.removed + Gone(Stack(log[..k]), log[k]), SingleTurn(log[k]));
    FoldKeepsRow(was, log, i, next, j, log[k].start);
  }

  lemma {:induction false} UndoneGrows(log: seq<Record>, i: nat, k: nat, j: nat)
    requires i <= k <= j <= |log|
    ensures Undone(log, i, k) <= Undone(log, i, j)
    decreases j
  {
    if k < j { UndoneGrows(log, i, k, j - 1); }
  }

  // The rows, while no standalone record is stored.

  /** The first turn of the range has a row. */
  ghost predicate HasFirstRow(was: FileTables, log: seq<Record>, i: nat, j: nat)
    requires i <= j <= |log|
  {
    i < j && log[i].mark.Started? && log[i].start !in was.removed + Undone(log, i, j)
  }

  /** `rows` are the older rows that are left, and a row at `from` if `begun`, open if `running`. */
  ghost predicate RowsAre(rows: map<nat, Turn>, left: map<nat, Turn>, from: nat, begun: bool, running: bool) {
    if begun then from in rows && rows[from].start == from && (rows[from].end == 0 <==> running) && rows - {from} == left - {from}
    else rows == left
  }

  lemma {:induction false} FirstLine(was: FileTables, s: seq<Turn>, r: Record)
    requires r.standalone.None? || r.mark.Started?
    ensures var ft := LineEffect(was, s, r, None, None);
            RowsAre(ft.turns, was.turns - Gone(s, r), r.start, r.mark.Started? && r.start !in was.removed, r.mark.Started?)
  {
    if r.mark.Started? {
      StartLine(was, s, r, None);
      NothingHere(was, s, r);
      InsertOne(was.turns, was.removed, TurnFrom(r));
    }
  }

  /** A line that changes neither the held turn nor the rows, but for what it rolls back. */
  lemma {:induction false} QuietLine(ft: FileTables, s: seq<Turn>, r: Record, active: Option<Turn>,
          summary: Option<ActiveSummary>)
    requires TurnStep(active, r).1 == [] && (TurnStep(active, r).0.Some? || r.standalone.None?)
    ensures LineEffect(ft, s, r, active, summary).turns == ft.turns - Gone(s, r)
  {
  }

  lemma {:induction false} TakenAway(rows: map<nat, Turn>, left: map<nat, Turn>, from: nat, begun: bool,
          running: bool, gone: set<nat>)
    requires RowsAre(rows, left, from, begun, running) && (begun && running ==> from in gone || gone == {})
    ensures RowsAre(rows - gone, left - gone, from, begun && from !in gone, running && gone == {})
  {
    if begun {
      assert rows - gone - {from} == (rows - {from}) - gone;
      assert left - gone - {from} == (left - {from}) - gone;
      if from in gone {
        assert rows - gone == (rows - {from}) - gone && left - gone == (left - {from}) - gone;
      }
    }
  }

  lemma {:induction false} EndedHere(ft: FileTables, s: seq<Turn>, r: Record, turn: Turn, summary: Option<ActiveSummary>,
          left: map<nat, Turn>, begun: bool)
    requires r.mark.Terminal? && r.mark.id == turn.id && r.standalone.None? && r.end > 0
    requires RowsAre(ft.turns, left, turn.start, begun, true) && begun == (turn.start !in ft.removed)
    ensures RowsAre(LineEffect(ft, s, r, Some(turn), summary).turns, left, turn.start, begun, false)
  {
    NothingHere(ft, s, r);
    var closed := turn.(end := r.end, completed := r.mark.completed);
    assert TurnStep(Some(turn), r).1 == [closed];
    InsertOne(ft.turns, ft.removed, closed);
    if begun { assert ft.turns[turn.start := closed] - {turn.start} == ft.turns - {turn.start}; }
  }

  /** The next line of the range, seen from its turn's row. */
  lemma {:induction false} RowsNext(ft: FileTables, s: seq<Turn>, r: Record, turn: Turn, held: bool,
          summary: Option<ActiveSummary>,
          left: map<nat, Turn>)
    requires !r.mark.Started? && r.end > 0 && Shape(s, r.start) && (held ==> s != [] && s[|s| - 1] == turn)
    requires RowsAre(ft.turns, left, turn.start, turn.start !in ft.removed, held)
    requires (held && !LetsGo(r, turn.id)) || r.standalone.None?
    ensures var active := if held then Some(turn) else None;
            RowsAre(LineEffect(ft, s, r, active, summary).turns, left - Gone(s, r), turn.start,
                    turn.start !in ft.removed + Gone(s, r), held && !LetsGo(r, turn.id))
  {
    var gone := Gone(s, r);
    if held && r.mark.Terminal? && r.mark.id == turn.id {
      NothingHere(ft, s, r);
      EndedHere(ft, s, r, turn, summary, left, turn.start !in ft.removed);
      assert left - {} == left;
    } else {
      if r.mark.Rollback? && r.mark.count > 0 {
        if held { UndoesTop(s, r); }
      } else {
        NothingHere(ft, s, r);
      }
      QuietLine(ft, s, r, if held then Some(turn) else None, summary);
      TakenAway(ft.turns, left, turn.start, turn.start !in ft.removed, held, gone);
    }
  }

  lemma {:induction false} UndoesTop(s: seq<Turn>, r: Record)
    requires s != [] && Shape(s, r.start) && r.mark.Rollback? && r.mark.count > 0
    ensures s[|s| - 1].start in Gone(s, r)
  {
    KeptByPop(s, r.mark.count, r.start, |s| - 1);
    assert s[|s| - 1].start in Starts(s);
  }

  /** The rows that a backfill has, while it stores no standalone record. */
  lemma {:induction false} FoldRows(was: FileTables, log: seq<Record>, i: nat, j: nat)
    requires Tiled(log) && i < j <= |log| && NoStartIn(log, i + 1, j) && !StoresAlone(log, i, j)
    ensures RowsAre(After(log, i, j, ScanState(was, None, None)).tables.turns, was.turns - Undone(log, i, j),
                    log[i].start, HasFirstRow(was, log, i, j), Running(log, i, j))
    decreases j
  {
    var k, begin := j - 1, ScanState(was, None, None);
    AfterNext(log, i, k, j, begin);
    NotAlone(log, i, k, j);
    UndoneNext(was.turns, log, i, k, j);
    if k == i {
      FoldFirst(was, log, i, j);
    } else {
      FoldRows(was, log, i, k);
      FoldHolds(was, log, i, k);
      FoldRemoves(was, log, i, k);
      FoldNext(was, log, i, k, j, After(log, i, k, begin));
    }
  }

  lemma {:induction false} FoldFirst(was: FileTables, log: seq<Record>, i: nat, j: nat)
    requires j == i + 1 <= |log| && (log[i].standalone.Some? ==> Running(log, i, j))
    ensures RowsAre(ReadLine(ScanState(was, None, None), Stack(log[..i]), log[i]).tables.turns, was.turns - Undone(log, i, j),
                    log[i].start, HasFirstRow(was, log, i, j), Running(log, i, j))
  {
    var s := Stack(log[..i]);
    FirstLine(was, s, log[i]);
    if log[i].mark.Started? { NothingHere(was, s, log[i]); }
    assert Undone(log, i, j) == Undone(log, i, i) + Gone(s, log[i]) == Gone(s, log[i]);
  }

  lemma {:induction false} UndoneNext(rows: map<nat, Turn>, log: seq<Record>, i: nat, k: nat, j: nat)
    requires i <= k && j == k + 1 <= |log|
    ensures rows - Undone(log, i, j) == rows - Undone(log, i, k) - Gone(Stack(log[..k]), log[k])
  {
    LeftLater(rows, Undone(log, i, k), Gone(Stack(log[..k]), log[k]));
  }

  lemma {:induction false} NotAlone(log: seq<Record>, i: nat, k: nat, j: nat)
    requires i <= k && j == k + 1 <= |log| && !StoresAlone(log, i, j)
    ensures (log[k].standalone.Some? ==> Running(log, i, j)) && !StoresAlone(log, i, k)
  {
    assert StoredAlone(log, i, k, j) <==> log[k].standalone.Some? && !Running(log, i, j);
  }

  lemma {:induction false} LeftLater(rows: map<nat, Turn>, a: set<nat>, b: set<nat>)
    ensures (rows - a) - b == rows - (a + b)
  {
  }

  lemma {:induction false} FoldNext(was: FileTables, log: seq<Record>, i: nat, k: nat, j: nat, state: ScanState)
    requires Tiled(log) && i < k && j == k + 1 <= |log| && !log[k].mark.Started?
    requires log[k].standalone.Some? ==> Running(log, i, j)
    requires state.active == (if Running(log, i, k) then Some(TurnFrom(log[i])) else None)
    requires state.tables.removed == was.removed + Undone(log, i, k)
    requires RowsAre(state.tables.turns, was.turns - Undone(log, i, k), log[i].start, HasFirstRow(was, log, i, k), Running(log, i, k))
    ensures RowsAre(ReadLine(state, Stack(log[..k]), log[k]).tables.turns, was.turns - Undone(log, i, k) - Gone(Stack(log[..k]), log[k]),
                    log[i].start, HasFirstRow(was, log, i, j), Running(log, i, j))
  {
    var s, r, left := Stack(log[..k]), log[k], was.turns - Undone(log, i, k);
    ShapeAt(log, k);
    if log[i].mark.Started? {
      var held := Running(log, i, k);
      assert Running(log, i, j) <==> held && !LetsGo(r, log[i].mark.id);
      if held { RunningOnTop(log, i, k); }
      RowsNext(state.tables, s, r, TurnFrom(log[i]), held, state.summary, left);
    } else {
      NeverRuns(log, i, j);
      NeverRuns(log, i, k);
      QuietLine(state.tables, s, r, None, state.summary);
    }
  }

  lemma {:induction false} NeverRuns(log: seq<Record>, i: nat, j: nat)
    requires i < j <= |log| && !log[i].mark.Started?
    ensures !Running(log, i, j)
  {
  }

  // What is then the newest row.

  /** A row behind the start of the range, or at the start of a range that no turn opens, is of a closed or a covered turn. */
  lemma {:induction false} QuietAbove(log: seq<Record>, i: nat, i0: nat, now: FileTables, x: nat)
    requires i < i0 <= |log| && AtRest(now, Extent(log, i0)) && now.state.Some? && NoStartIn(log, i + 1, i0)
    requires x in now.turns && (x > log[i].start || (x == log[i].start && !log[i].mark.Started?))
    ensures !Haunted(now)
  {
    var newest := MaxKey(now.turns.Keys);
    RestRows(now, Extent(log, i0));
    assert Abuts(log, i);
    if newest < Offset(log, i0) { ClosedBetween(log, i, i0, now.turns, newest); }
  }

  lemma {:induction false} ClosedBetween(log: seq<Record>, i: nat, i0: nat, turns: map<nat, Turn>, x: nat)
    requires Tiled(log) && i < i0 <= |log| && Origin(log, turns) && NoStartIn(log, i + 1, i0)
    requires x in turns && x < Offset(log, i0) && (x > log[i].start || (x == log[i].start && !log[i].mark.Started?))
    ensures turns[x].end != 0
  {
    assert RowOrigin(log, x, turns[x]);
    if StartedAs(log, x, turns[x].id) {
      var b :| 0 <= b < |log| && StartsAt(log[b], x, turns[x].id);
      NotInRange(log, i, i0, b);
    } else {
      var j :| 0 <= j < |log| && IsThisSingle(log, j, x, turns[x]);
      assert Abuts(log, j);
    }
  }

  /** A record that starts a turn does not start strictly inside the range. */
  lemma {:induction false} NotInRange(log: seq<Record>, i: nat, i0: nat, b: nat)
    requires Tiled(log) && i < i0 <= |log| && b < |log| && log[b].mark.Started? && NoStartIn(log, i + 1, i0)
    ensures log[b].start < log[i].start || (b == i && log[i].mark.Started?) || log[b].start >= Offset(log, i0)
  {
    assert Abuts(log, b) && Abuts(log, i);
    if b < i { OffsetsIncrease(log, b, i); }
    if i0 < b { OffsetsIncrease(log, i0, b); }
  }

  /** A row from before that starts behind the range's first record stays. */
  lemma {:induction false} NewerStays(was: FileTables, log: seq<Record>, i: nat, i0: nat, at: nat, x: nat)
    requires Tiled(log) && i <= at <= i0 <= |log| && i < i0 && NoStartIn(log, i + 1, i0) && x in was.turns && x > log[i].start
    ensures x in After(log, i, at, ScanState(was, None, None)).tables.turns
  {
    if x in Undone(log, i, at) { NotUndone(log, i, i0, at, x); }
    assert After(log, i, i, ScanState(was, None, None)).tables == was;
    FoldKeepsRow(was, log, i, i, at, x);
  }

  lemma {:induction false} NotUndone(log: seq<Record>, i: nat, i0: nat, at: nat, x: nat)
    requires Tiled(log) && i <= at <= i0 <= |log| && i < i0 && NoStartIn(log, i + 1, i0)
    requires x > log[i].start || (x == log[i].start && !log[i].mark.Started?)
    ensures x !in Undone(log, i, at)
  {
    if x in Undone(log, i, at) {
      UndoneStarted(log, i, at, x);
      var b :| 0 <= b < |log| && BeginsAt(log[b], x);
      NotInRange(log, i, i0, b);
      if at < i0 { OffsetsIncrease(log, at, i0); }
    }
  }

  /** The row of a stored standalone record. */
  lemma {:induction false} AloneStays(was: FileTables, log: seq<Record>, i: nat, i0: nat, at: nat) returns (x: nat)
    requires i <= at <= i0 <= |log| && i < i0 && NoStartIn(log, i + 1, i0) && AtRest(was, Extent(log, i0)) && StoresAlone(log, i, at)
    ensures x in After(log, i, at, ScanState(was, None, None)).tables.turns
    ensures x > log[i].start || (x == log[i].start && !log[i].mark.Started?)
  {
    var k, next :| i <= k < at && StoredAlone(log, i, k, next);
    x := log[k].start;
    RestRows(was, Extent(log, i0));
    assert Abuts(log, i) && Abuts(log, k);
    if i < k { OffsetsIncrease(log, i, k); }
    if i == k && log[i].mark.Started? { assert Running(log, i, next); }
    NotUndone(log, i, i0, at, x);
    if x in was.removed {
      assert Dead(log, x);
      var b :| 0 <= b < |log| && BeginsAt(log[b], x);
      SameRecord(log, b, k);
    }
    AloneHasRow(was, log, i, k, at);
  }

  /**
   What a crash of the backfill from record `i`, whose batches have reached record `at`, leaves as the
   newest row: no row was newer than the range's first record, and no standalone record has been stored;
   then it is the row of the turn that starts the range, if that has one and still runs, or else the
   newest older row that no rollback has taken away, if that is open.
   */
  ghost predicate LeavesOpen(was: FileTables, log: seq<Record>, i: nat, at: nat)
    requires i <= at <= |log| && i < |log|
  {
    && (forall x :: x in was.turns ==> x <= log[i].start)
    && !StoresAlone(log, i, at)
    && (if HasFirstRow(was, log, i, at) then Running(log, i, at) else Resumed(was.turns - Undone(log, i, at)).Some?)
  }

  lemma {:induction false} LeftRows(was: FileTables, log: seq<Record>, i: nat, i0: nat, at: nat, now: FileTables)
    requires Tiled(log) && i <= at <= i0 <= |log| && i < i0 && NoStartIn(log, i + 1, i0) && !StoresAlone(log, i, at)
    requires SameTurns(now, After(log, i, at, ScanState(was, None, None)).tables) && now.state.Some?
    requires now.state.value.indexedFrom == Offset(log, i0) && (forall x :: x in now.turns ==> now.turns[x].start == x)
    requires forall x :: x in was.turns ==> x <= log[i].start
    ensures Haunted(now) <==> if HasFirstRow(was, log, i, at) then Running(log, i, at) else Resumed(was.turns - Undone(log, i, at)).Some?
  {
    var from, left := log[i].start, was.turns - Undone(log, i, at);
    assert Abuts(log, i);
    OffsetsIncrease(log, i, i0);
    if i < at { FoldRows(was, log, i, at); } else { assert was.turns - {} == was.turns; }
    if HasFirstRow(was, log, i, at) {
      NewestIs(now.turns, left, from);
    } else {
      assert now.turns == left;
    }
  }

  lemma {:induction false} NewestIs(rows: map<nat, Turn>, left: map<nat, Turn>, from: nat)
    requires from in rows && rows - {from} == left - {from} && forall x :: x in left ==> x <= from
    ensures MaxKey(rows.Keys) == from
  {
    assert forall x :: x in rows ==> x == from || x in rows - {from};
  }

  /**
   Exactly when a backfill that crashes after its batches have reached record `at` leaves an open row
   below coverage as the newest of the file, whatever rows earlier crashes had left there.
   */
  lemma {:induction false} StrandedHaunts(was: FileTables, log: seq<Record>, i: nat, i0: nat, at: nat, now: FileTables)
    requires i <= at <= i0 <= |log| && i < i0 && NoStartIn(log, i + 1, i0)
    requires AtRest(was, Extent(log, i0)) && was.state.Some? && AtRest(now, Extent(log, i0)) && Stranded(was, log, i, at, now)
    ensures Haunted(now) <==> LeavesOpen(was, log, i, at)
  {
    StrandedTurns(was, log, i, at, now);
    RestRows(now, Extent(log, i0));
    if x :| x in was.turns && x > log[i].start {
      NewerStays(was, log, i, i0, at, x);
      QuietAbove(log, i, i0, now, x);
    } else if StoresAlone(log, i, at) {
      var y := AloneStays(was, log, i, i0, at);
      QuietAbove(log, i, i0, now, y);
    } else {
      LeftRows(was, log, i, i0, at, now);
    }
  }

  lemma {:induction false} StrandedTurns(was: FileTables, log: seq<Record>, i: nat, at: nat, now: FileTables)
    requires Stranded(was, log, i, at, now)
    ensures SameTurns(now, After(log, i, at, ScanState(was, None, None)).tables) && now.state == was.state
  {
    assert Asked(RangeAt(at), 0);
  }

  lemma {:induction false} RestRows(ft: FileTables, ext: Extent)
    requires AtRest(ft, ext)
    ensures Tiled(ext.indexed) && forall x :: x in ft.turns ==> ft.turns[x].start == x
    ensures ft.state.Some? ==> ft.state.value.indexedFrom == Offset(ext.indexed, ext.first)
  {
    forall x | x in ft.turns ensures ft.turns[x].start == x { assert RowOrigin(ext.indexed, x, ft.turns[x]); }
  }

  // --- What the next forward scan then misses ---

  /** The rows of a resumed scan miss exactly the standalone records that the resumed turn hides. */
  lemma {:induction false} GoesOnMisses(log: seq<Record>, ext: Extent, was: FileTables, now: FileTables, m: nat)
    requires Tiled(log) && AtRest(was, ext) && ext.indexed <= log && GoesOnFrom(was, ext, log, now)
    requires |ext.indexed| <= m < |log| && IsSingle(log, m)
    ensures log[m].start in now.turns <==> !Shadowed(log, ext.first, |ext.indexed|, m, Resumed(was.turns))
  {
    var active := Resumed(was.turns);
    var summary := if active.None? then None
                   else
                     var open := active.value;
                     Some(ActiveSummary(open.start, Summary(open.id, Span(ext.indexed, open.start, DurableEnd(ext.indexed)))));
    RestResumes(log, was, ext, summary);
    MissedExactly(log, ext.first, |ext.indexed|, |log|, ScanState(was, active, summary), m);
    RowsIgnoreSummaries(log, |ext.indexed|, |log|, ScanState(was, active, None), ScanState(was, active, summary));
  }

  /** `index_file` on a file that has grown: which standalone turns of the new lines are missing afterwards. */
  method IndexGrown(lane: Lane, source: Source, file: SourceFile, commits: nat, ghost ext: Extent)
    returns (outcome: Outcome, left: nat, ghost ext': Extent)
    requires WellFormed(file) && lane.Valid() && AtRest(lane.tables, ext) && Grown(lane.tables, ext, file)
    requires DurableEnd(file.log) > TAIL_BOOTSTRAP_FULL_SCAN_BYTES ==> Apart(file.log)
    modifies lane
    ensures lane.Valid() && AtRest(lane.tables, ext')
    ensures outcome.Indexed? ==> ext' == Extent(file.log, ext.first)
    ensures outcome.Indexed? ==> forall m :: |ext.indexed| <= m < |file.log| && IsSingle(file.log, m) ==>
              (file.log[m].start in lane.tables.turns <==>
               !Shadowed(file.log, ext.first, |ext.indexed|, m, Resumed(old(lane.tables).turns)))
    ensures Fine(file.log) && commits >= Bound(file.log) ==> outcome.Indexed?
  {
    ghost var was := lane.tables;
    outcome, left, ext' := IndexFile(lane, source, file, commits, ext);
    if outcome.Indexed? {
      forall m | |ext.indexed| <= m < |file.log| && IsSingle(file.log, m)
        ensures file.log[m].start in lane.tables.turns <==> !Shadowed(file.log, ext.first, |ext.indexed|, m, Resumed(was.turns))
      {
        GoesOnMisses(file.log, ext, was, lane.tables, m);
      }
    }
  }

  // --- It happens ---

  /** A long turn, and one started behind it: only the second is within reach of a first index. */
  ghost predicate Lingers(log: seq<Record>) {
    && |log| >= WRITE_BATCH_RECORDS + 2 && DurableEnd(log) > TAIL_BOOTSTRAP_FULL_SCAN_BYTES
    && log[0].mark.Started? && log[|log| - 1].mark.Started?
    && (forall k :: 0 < k < |log| - 1 ==> log[k].mark.Plain?)
    && NoStandalone(log)
  }

  /** The same file with one more line. */
  ghost predicate OneMore(earlier: SourceFile, later: SourceFile) {
    && later.device == earlier.device && later.inode == earlier.inode && later.tail == earlier.tail
    && |later.log| == |earlier.log| + 1 && later.log[..|earlier.log|] == earlier.log
  }

  lemma {:induction false} FirstIndexBegins(log: seq<Record>)
    requires Lingers(log)
    ensures BootstrapOffset(log) == log[|log| - 1].start
  {
    var t := ReverseTurns(log, false);
    assert t[0] == ClosedBy(log[|log| - 1], 0, None);
  }

  lemma {:induction false} OneLine(log: seq<Record>, k: nat, begin: ScanState)
    requires |log| == k + 1
    ensures After(log, k, |log|, begin) == ReadLine(begin, Stack(log[..k]), log[k])
    ensures Stack(log) == StepStack(Stack(log[..k]), log[k])
  {
    assert After(log, k, k, begin) == begin && log[..|log|] == log;
    StackSnoc(log, k);
  }

  lemma {:induction false} FirstIndexRows(log: seq<Record>, first: nat, now: FileTables)
    requires Lingers(log) && first == |log| - 1 && BuiltFrom(log, first, now)
    ensures now.turns == map[log[first].start := TurnFrom(log[first])] && now.removed == {}
  {
    OneLine(log, first, ScanState(NO_ROWS, None, None));
    StartLine(NO_ROWS, Stack(log[..first]), log[first], None);
    InsertOne(map[], {}, TurnFrom(log[first]));
  }

  lemma {:induction false} OnlyRowResumes(t: Turn)
    requires t.end == 0
    ensures Resumed(map[t.start := t]) == Some(t)
  {
    assert map[t.start := t].Keys == {t.start};
  }

  /** A rollback of the newest turn tombstones its start alone. */
  lemma {:induction false} UndoGone(s: seq<Turn>, t: Turn, r: Record)
    requires r.mark == Rollback(1) && Shape(s + [t], r.start)
    ensures StepStack(s + [t], r) == s && Gone(s + [t], r) == {t.start}
  {
    var all := s + [t];
    assert all[..|all| - 1] == s && all[|s|] == t;
    forall x ensures x in Gone(all, r) <==> x == t.start {
      if x in Starts(all) {
        var p := StartsOf(all, x);
        KeptByPop(all, 1, r.start, p);
      }
      assert t.start in Starts(all);
    }
  }

  lemma {:induction false} LingeringStack(log: seq<Record>) returns (below: seq<Turn>)
    requires Tiled(log) && Lingers(log)
    ensures Stack(log) == below + [TurnFrom(log[|log| - 1])]
    ensures below != [] && below[|below| - 1].start == log[0].start && !TopOpen(below)
  {
    var k := |log| - 1;
    assert log[..|log|] == log;
    StackSnoc(log, k);
    RunningOnTop(log, 0, k);
    below := Interrupt(Stack(log[..k]), log[k].start);
    FirstIsOther(log);
    assert Abuts(log, 0);
  }

  lemma {:induction false} UndoLine(was: FileTables, below: seq<Turn>, t: Turn, r: Record)
    requires r.mark == Rollback(1) && r.standalone.None? && Shape(below + [t], r.start)
    requires was.turns == map[t.start := t] && was.removed == {}
    ensures TurnStep(Some(t), r).0.None?
    ensures LineEffect(was, below + [t], r, Some(t), None).turns == map[]
    ensures LineEffect(was, below + [t], r, Some(t), None).removed == {t.start}
  {
    UndoGone(below, t, r);
    assert was.turns - {t.start} == map[] && was.removed + {t.start} == {t.start};
  }

  lemma {:induction false} FirstIsOther(log: seq<Record>)
    requires Tiled(log) && |log| > 1
    ensures log[0].start != log[|log| - 1].start
  {
    assert Abuts(log, 0) && Abuts(log, |log| - 1);
    OffsetsIncrease(log, 0, |log| - 1);
  }

  /** The rolled back turn loses its row; the turn before it keeps no tombstone. */
  lemma {:induction false} UndoneRows(earlier: seq<Record>, log: seq<Record>, first: nat, was: FileTables, now: FileTables)
    requires Tiled(earlier) && Tiled(log) && Lingers(earlier) && |log| == |earlier| + 1 && log[..|earlier|] == earlier
    requires log[|earlier|].mark == Rollback(1) && log[|earlier|].standalone.None?
    requires was.turns == map[earlier[|earlier| - 1].start := TurnFrom(earlier[|earlier| - 1])] && was.removed == {}
    requires GoesOnFrom(was, Extent(earlier, first), log, now)
    ensures now.turns == map[] && log[0].start !in now.removed && !TopOpen(Stack(log))
  {
    var k, turn := |earlier|, TurnFrom(earlier[|earlier| - 1]);
    StackShape(earlier);
    assert Abuts(log, k) && log[0] == earlier[0] && Offset(log, k) == DurableEnd(earlier);
    var below := LingeringStack(earlier);
    UndoLine(was, below, turn, log[k]);
    UndoGone(below, turn, log[k]);
    OnlyRowResumes(turn);
    FirstIsOther(earlier);
    OneLine(log, k, ScanState(was, Some(turn), None));
  }

  lemma {:induction false} LingersOn(earlier: seq<Record>, log: seq<Record>)
    requires Lingers(earlier) && earlier <= log
    ensures Nearest(log, |earlier| - 1) == 0 && NoStartIn(log, 1, |earlier| - 1)
    ensures Running(log, 0, WRITE_BATCH_RECORDS)
  {
    assert forall m :: 0 <= m < |earlier| ==> log[m] == earlier[m];
  }

  lemma {:induction false} LingersOpen(was: FileTables, log: seq<Record>)
    requires NoStandalone(log) && Running(log, 0, WRITE_BATCH_RECORDS) && was.turns == map[] && log[0].start !in was.removed
    ensures LeavesOpen(was, log, 0, WRITE_BATCH_RECORDS)
  {
    RunningUndoes(log, 0, WRITE_BATCH_RECORDS);
  }

  /** The checkpoint of one observation matches the next. */
  lemma {:induction false} MatchesNext(state: FileState, earlier: SourceFile, later: SourceFile)
    requires Tiled(later.log) && OneMore(earlier, later) && Matches(state, earlier) && state.indexedBytes == DurableEnd(earlier.log)
    ensures Matches(state, later) && state.indexedBytes != DurableEnd(later.log) && earlier.log < later.log
  {
    var k := |earlier.log|;
    assert Abuts(later.log, k);
    assert Offset(later.log, k) == Offset(earlier.log, k);
  }

  lemma {:induction false} NoneApart(log: seq<Record>)
    requires NoStandalone(log)
    ensures Apart(log)
  {
  }

  lemma {:induction false} FinePrefix(earlier: seq<Record>, log: seq<Record>)
    requires |earlier| <= |log| && log[..|earlier|] == earlier && Fine(log)
    ensures Fine(earlier)
  {
    forall j | 0 <= j < |earlier| ensures earlier[j] == log[j] { assert log[..|earlier|][j] == log[j]; }
  }

  /** The first index of a readable file, with transactions to spare. */
  method FirstIndex(lane: Lane, source: Source, file: SourceFile) returns (ghost ext: Extent)
    requires WellFormed(file) && Fine(file.log) && Apart(file.log)
    requires lane.Valid() && AtRest(lane.tables, NOTHING) && Whole(lane.tables, NOTHING) && lane.tables.state.None?
    modifies lane
    ensures lane.Valid() && AtRest(lane.tables, ext) && Whole(lane.tables, ext) && Current(lane.tables, ext, file)
    ensures ext.first <= |file.log| && Offset(file.log, ext.first) == BootstrapOffset(file.log) && BuiltFrom(file.log, ext.first, lane.tables)
  {
    var outcome, left;
    outcome, left, ext := IndexFile(lane, source, file, Bound(file.log), NOTHING);
  }

  /** The first index of such a file: it covers the newer turn alone. */
  method IndexLingering(lane: Lane, source: Source, hot: SourceFile) returns (ghost ext: Extent)
    requires WellFormed(hot) && Lingers(hot.log) && Fine(hot.log) && lane.Valid() && lane.tables == NO_ROWS
    modifies lane
    ensures lane.Valid() && AtRest(lane.tables, ext) && Whole(lane.tables, ext) && !Haunted(lane.tables)
    ensures ext == Extent(hot.log, |hot.log| - 1) && Current(lane.tables, ext, hot)
    ensures lane.tables.turns == map[hot.log[|hot.log| - 1].start := TurnFrom(hot.log[|hot.log| - 1])] && lane.tables.removed == {}
  {
    NothingCovered();
    NoneApart(hot.log);
    ext := FirstIndex(lane, source, hot);
    FirstIndexCovers(hot.log, ext.first);
    FirstIndexRows(hot.log, ext.first, lane.tables);
    FirstIndexSettles(hot.log, ext, lane.tables);
  }

  lemma {:induction false} FirstIndexSettles(log: seq<Record>, ext: Extent, ft: FileTables)
    requires Lingers(log) && ft.state.Some? && AtRest(ft, ext)
    requires ext.indexed == log && ext.first == |log| - 1 && Offset(log, ext.first) == log[|log| - 1].start
    requires ft.turns == map[log[|log| - 1].start := TurnFrom(log[|log| - 1])]
    ensures !Haunted(ft)
  {
    RestRows(ft, ext);
    OnlyRowResumes(TurnFrom(log[|log| - 1]));
  }

  lemma {:induction false} FirstIndexCovers(log: seq<Record>, first: nat)
    requires Tiled(log) && Lingers(log) && first <= |log| && Offset(log, first) == BootstrapOffset(log)
    ensures first == |log| - 1 && Offset(log, first) == log[|log| - 1].start
  {
    FirstIndexBegins(log);
    assert Abuts(log, |log| - 1);
    OffsetInjective(log, first, |log| - 1);
  }

  /** Index such a file, and again once the newer turn is rolled back: nothing has a row. */
  method IndexUndone(lane: Lane, source: Source, hot: SourceFile, undone: SourceFile) returns (ghost ext: Extent)
    requires WellFormed(hot) && WellFormed(undone) && OneMore(hot, undone) && Lingers(hot.log) && Fine(undone.log)
    requires undone.log[|hot.log|].mark == Rollback(1) && undone.log[|hot.log|].standalone.None?
    requires lane.Valid() && lane.tables == NO_ROWS
    modifies lane
    ensures lane.Valid() && AtRest(lane.tables, ext) && Whole(lane.tables, ext)
    ensures ext == Extent(undone.log, |hot.log| - 1) && Current(lane.tables, ext, undone)
    ensures lane.tables.turns == map[] && undone.log[0].start !in lane.tables.removed && !TopOpen(Stack(undone.log))
  {
    FinePrefix(hot.log, undone.log);
    ghost var base := IndexLingering(lane, source, hot);
    ghost var was := lane.tables;
    MatchesNext(was.state.value, hot, undone);
    ext := IndexRollback(lane, source, hot, undone, base);
    UndoneRows(hot.log, undone.log, base.first, was, lane.tables);
  }

  method IndexRollback(lane: Lane, source: Source, hot: SourceFile, undone: SourceFile, ghost base: Extent)
    returns (ghost ext: Extent)
    requires WellFormed(undone) && Fine(undone.log) && NoStandalone(undone.log) && OneMore(hot, undone)
    requires lane.Valid() && AtRest(lane.tables, base) && Whole(lane.tables, base) && !Haunted(lane.tables)
    requires base.indexed == hot.log != [] && lane.tables.state.Some? && Matches(lane.tables.state.value, undone)
    modifies lane
    ensures lane.Valid() && AtRest(lane.tables, ext) && Whole(lane.tables, ext)
    ensures ext == Extent(undone.log, base.first) && Current(lane.tables, ext, undone)
    ensures GoesOnFrom(old(lane.tables), base, undone.log, lane.tables)
  {
    var outcome, left;
    NoneApart(undone.log);
    outcome, left, ext := IndexFile(lane, source, undone, Bound(undone.log), base);
  }

  /**
   The tables really come to that: index such a file, let the newer turn be rolled back and index
   again, then crash the first backfill after its first transaction.
   */
  method LeaveLeftover(source: Source, hot: SourceFile, undone: SourceFile) returns (lane: Lane, ghost ext: Extent)
    requires WellFormed(hot) && WellFormed(undone) && OneMore(hot, undone) && Lingers(hot.log) && Fine(undone.log)
    requires undone.log[|hot.log|].mark == Rollback(1) && undone.log[|hot.log|].standalone.None?
    ensures fresh(lane) && lane.Valid() && lane.start == NO_ROWS && AtRest(lane.tables, ext) && Whole(lane.tables, ext)
    ensures ext == Extent(undone.log, |hot.log| - 1) && Current(lane.tables, ext, undone)
    ensures Haunted(lane.tables) && !TopOpen(Stack(undone.log))
  {
    lane := new Lane(NO_ROWS);
    ext := IndexUndone(lane, source, hot, undone);
    LingersOn(hot.log, undone.log);
    CrashLingering(lane, source, undone, |hot.log| - 1);
  }

  /** The crash leaves the rows of the first batch, of which the oldest turn's is open. */
  method CrashLingering(lane: Lane, source: Source, file: SourceFile, ghost i0: nat)
    requires WellFormed(file) && Fine(file.log) && NoStandalone(file.log) && WRITE_BATCH_RECORDS <= i0 <= |file.log|
    requires lane.Valid() && AtRest(lane.tables, Extent(file.log, i0)) && Whole(lane.tables, Extent(file.log, i0))
    requires Current(lane.tables, Extent(file.log, i0), file) && Nearest(file.log, i0) == 0 && NoStartIn(file.log, 1, i0)
    requires Running(file.log, 0, WRITE_BATCH_RECORDS) && lane.tables.turns == map[] && file.log[0].start !in lane.tables.removed
    modifies lane
    ensures lane.Valid() && AtRest(lane.tables, Extent(file.log, i0)) && Whole(lane.tables, Extent(file.log, i0))
    ensures Current(lane.tables, Extent(file.log, i0), file) && Haunted(lane.tables)
  {
    ghost var was := lane.tables;
    CrashBackfill(lane, source, file, i0);
    LingersOpen(was, file.log);
    StrandedHaunts(was, file.log, 0, i0, WRITE_BATCH_RECORDS, lane.tables);
  }

  /** One transaction is too few for a range of a full batch and more: the backfill crashes behind its first commit. */
  method CrashBackfill(lane: Lane, source: Source, file: SourceFile, ghost i0: nat)
    requires WellFormed(file) && Fine(file.log) && NoStandalone(file.log) && WRITE_BATCH_RECORDS <= i0 <= |file.log|
    requires lane.Valid() && AtRest(lane.tables, Extent(file.log, i0)) && Whole(lane.tables, Extent(file.log, i0))
    requires Current(lane.tables, Extent(file.log, i0), file) && Nearest(file.log, i0) == 0
    modifies lane
    ensures lane.Valid() && AtRest(lane.tables, Extent(file.log, i0)) && Whole(lane.tables, Extent(file.log, i0))
    ensures Current(lane.tables, Extent(file.log, i0), file)
    ensures Stranded(old(lane.tables), file.log, 0, WRITE_BATCH_RECORDS, lane.tables)
  {
    ghost var ext;
    var outcome, left;
    NoneApart(file.log);
    outcome, left, ext := BackfillStep(lane, source, file, 1, Extent(file.log, i0));
  }

  /**
   And it matters: the standalone turn appended next is lost to the index, though no turn is open
   there and the next forward scan succeeds.
   */
  method LoseStandalone(source: Source, hot: SourceFile, undone: SourceFile, alone: SourceFile)
    returns (lane: Lane, ghost ext: Extent)
    requires WellFormed(hot) && WellFormed(undone) && OneMore(hot, undone) && Lingers(hot.log)
    requires undone.log[|hot.log|].mark == Rollback(1) && undone.log[|hot.log|].standalone.None?
    requires WellFormed(alone) && OneMore(undone, alone) && Fine(alone.log)
    requires alone.log[|undone.log|].mark.Plain? && alone.log[|undone.log|].standalone.Some?
    ensures lane.Valid() && AtRest(lane.tables, ext) && ext == Extent(alone.log, |hot.log| - 1)
    ensures IsSingle(alone.log, |undone.log|) && alone.log[|undone.log|].start !in lane.tables.turns
  {
    ghost var base;
    FinePrefix(undone.log, alone.log);
    lane, base := LeaveLeftover(source, hot, undone);
    StaysApart(hot, undone, alone);
    ext := IndexAlone(lane, source, undone, alone, base);
  }

  /** A leftover is the newest row, and a plain line that is a turn by itself has been appended. */
  method IndexAlone(lane: Lane, source: Source, undone: SourceFile, alone: SourceFile, ghost base: Extent)
    returns (ghost ext: Extent)
    requires WellFormed(alone) && OneMore(undone, alone) && Fine(alone.log) && Apart(alone.log)
    requires alone.log[|undone.log|].mark.Plain? && alone.log[|undone.log|].standalone.Some?
    requires lane.Valid() && AtRest(lane.tables, base) && Current(lane.tables, base, undone) && undone.log != []
    requires Haunted(lane.tables) && !TopOpen(Stack(undone.log))
    modifies lane
    ensures lane.Valid() && AtRest(lane.tables, ext) && ext == Extent(alone.log, base.first)
    ensures IsSingle(alone.log, |undone.log|) && alone.log[|undone.log|].start !in lane.tables.turns
  {
    ghost var was := lane.tables;
    MatchesNext(was.state.value, undone, alone);
    HiddenNext(undone.log, alone.log, base.first, was);
    var outcome, left;
    outcome, left, ext := IndexGrown(lane, source, alone, Bound(alone.log), base);
  }

  /** A plain line that is a turn by itself, read while a leftover is held. */
  lemma {:induction false} HiddenNext(earlier: seq<Record>, log: seq<Record>, first: nat, was: FileTables)
    requires Tiled(log) && |log| == |earlier| + 1 && log[..|earlier|] == earlier && first <= |earlier|
    requires log[|earlier|].mark.Plain? && log[|earlier|].standalone.Some? && !TopOpen(Stack(earlier))
    requires Haunted(was) && was.state.value.indexedFrom == Offset(earlier, first)
    ensures IsSingle(log, |earlier|) && Shadowed(log, first, |earlier|, |earlier|, Resumed(was.turns))
  {
    var k := |earlier|;
    StackSnoc(log, k);
    assert Offset(log, first) == Offset(earlier, first);
  }

  lemma {:induction false} StaysApart(hot: SourceFile, undone: SourceFile, alone: SourceFile)
    requires Lingers(hot.log) && OneMore(hot, undone) && OneMore(undone, alone)
    requires undone.log[|hot.log|].mark == Rollback(1) && undone.log[|hot.log|].standalone.None? && alone.log[|undone.log|].mark.Plain?
    ensures Apart(alone.log) && undone.log != []
  {
    forall j | 0 <= j < |hot.log| ensures undone.log[j] == hot.log[j] { assert undone.log[..|hot.log|][j] == undone.log[j]; }
    OneStandalone(undone.log, alone.log);
  }

  lemma {:induction false} OneStandalone(earlier: seq<Record>, log: seq<Record>)
    requires |log| == |earlier| + 1 && log[..|earlier|] == earlier && log[|earlier|].mark.Plain?
    requires NoStandalone(earlier) && forall j :: 0 <= j < |earlier| ==> !earlier[j].mark.Terminal?
    ensures Apart(log)
  {
    forall j | 0 <= j < |earlier| ensures log[j] == earlier[j] { assert log[..|earlier|][j] == log[j]; }
  }

  /** Line `k` of such a file, in lines of 4096 bytes: two starts, a rollback, and a line that is a turn by itself. */
  function SampleLine(k: nat): (r: Record) {
    var mark := if k == 0 then Started("older")
                else if k == 4097 then Started("newer")
                else if k == 4098 then Rollback(1)
                else Plain;
    Record(4096 * k, 4096 * k + 4096, mark, if k == 4099 then Some("alone") else None, true, 1, [])
  }

  function SampleLog(lines: nat): (log: seq<Record>) {
    seq(lines, k requires k >= 0 => SampleLine(k))
  }

  function SampleFile(lines: nat): (file: SourceFile) {
    SourceFile(1, 1, lines, SampleLog(lines), (offset: nat) => [])
  }

  lemma {:induction false} SampleTiles(lines: nat)
    requires 0 < lines <= 4100
    ensures WellFormed(SampleFile(lines)) && Fine(SampleLog(lines)) && DurableEnd(SampleLog(lines)) == 4096 * lines
  {
    var log := SampleLog(lines);
    forall k | 0 <= k < lines ensures Abuts(log, k) { }
  }

  /** There are such files: `LoseStandalone` can be called on these three observations of one. */
  lemma {:induction false} SampleLingers()
    ensures var hot, undone, alone := SampleFile(4098), SampleFile(4099), SampleFile(4100);
            && WellFormed(hot) && WellFormed(undone) && WellFormed(alone) && Lingers(hot.log)
            && OneMore(hot, undone) && undone.log[4098].mark == Rollback(1) && undone.log[4098].standalone.None?
            && OneMore(undone, alone) && Fine(alone.log) && alone.log[4099].mark.Plain? && alone.log[4099].standalone.Some?
  {
    SampleTiles(4098);
    SampleTiles(4099);
    SampleTiles(4100);
    assert SampleLog(4099)[..4098] == SampleLog(4098) && SampleLog(4100)[..4099] == SampleLog(4099);
  }
}
