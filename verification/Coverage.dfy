/**
 What a committed checkpoint promises about the rows from `indexedFrom` on (`Cover`), how a commit
 turns the progress of a scan into coverage, and how a backfill joins an older range to it.
 */
module Coverage {
  import opened Wrappers
  import opened Transcript
  import opened Store
  import opened ScanInvariants

  /** The projection of the turn that is still running reaches the indexed end. */
  ghost predicate OpenSum(pre: seq<Record>, i: nat, summaries: map<nat, Summary>)
    requires i <= |pre|
  {
    var s := Stack(pre);
    TopOpen(s) && s[|s| - 1].start >= Offset(pre, i) ==> SumHeld(pre, s[|s| - 1], DurableEnd(pre), summaries)
  }

  /** The tables describe records `i..` of the indexed prefix `pre`. */
  ghost predicate Cover(pre: seq<Record>, i: nat, ft: FileTables)
    requires i <= |pre|
  {
    && Tiled(pre) && CleanFrom(pre, i) && Sane(pre, ft) && Held(pre, i, |pre|, ft)
    && OpenSum(pre, i, ft.summaries)
  }

  // --- The reference turns and the rows are the same ---

  /** A row of a task turn inside coverage is a surviving turn, with its range. */
  lemma {:induction false} RowSurvives(pre: seq<Record>, i: nat, ft: FileTables, x: nat, id: string) returns (p: nat)
    requires i <= |pre| && Cover(pre, i, ft)
    requires x in ft.turns && Offset(pre, i) <= x && StartedAs(pre, x, id)
    ensures p < |Stack(pre)| && Stack(pre)[p] == ft.turns[x]
  {
    assert pre[..|pre|] == pre;
    var b :| 0 <= b < |pre| && StartsAt(pre[b], x, id);
    assert BeginsAt(pre[b], x) && Abuts(pre, b);
    if b < i { OffsetsIncrease(pre, b, i); }
    assert Candidate(pre, i, |pre|, x);
    p := StartsOf(Stack(pre), x);
  }

  /**
   Inside coverage the task-turn rows are exactly the turns the reference fold leaves, each with its
   id, range and completion; and none of them is tombstoned.
   */
  lemma {:induction false} TaskRowsExact(pre: seq<Record>, i: nat, ft: FileTables, t: Turn)
    requires i <= |pre| && Cover(pre, i, ft) && t.start >= Offset(pre, i)
    ensures t in Stack(pre) <==> t.start in ft.turns && ft.turns[t.start] == t && StartedIn(pre, 0, |pre|, t.start)
    ensures t in Stack(pre) ==> t.start !in ft.removed
  {
    assert pre[..|pre|] == pre;
    if t in Stack(pre) {
      var p :| 0 <= p < |Stack(pre)| && Stack(pre)[p] == t;
      StackBorn(pre, 0, |pre|, p);
      assert t.start in Starts(Stack(pre));
    }
    if t.start in ft.turns && ft.turns[t.start] == t && StartedIn(pre, 0, |pre|, t.start) {
      var b :| 0 <= b < |pre| && BeginsAt(pre[b], t.start);
      assert StartsAt(pre[b], t.start, pre[b].mark.id);
      var p := RowSurvives(pre, i, ft, t.start, pre[b].mark.id);
    }
  }

  /** The other rows are standalone turns, each with its own record as its range. */
  lemma {:induction false} OtherRowsAreSingles(pre: seq<Record>, i: nat, ft: FileTables, x: nat) returns (j: nat)
    requires i <= |pre| && Cover(pre, i, ft) && x in ft.turns && !StartedIn(pre, 0, |pre|, x)
    ensures j < |pre| && pre[j].start == x && IsSingle(pre, j) && ft.turns[x] == SingleTurn(pre[j])
  {
    assert RowOrigin(pre, x, ft.turns[x]);
    if StartedAs(pre, x, ft.turns[x].id) { StartedAsIn(pre, x, ft.turns[x].id); }
    j :| 0 <= j < |pre| && IsThisSingle(pre, j, x, ft.turns[x]);
  }

  // --- Reopening: the newest row tells the scan what is still running ---

  function MaxKey(keys: set<nat>): (m: nat)
    requires keys != {}
    ensures m in keys && forall k :: k in keys ==> k <= m
  {
    MaxExists(keys);
    var m :| m in keys && forall k :: k in keys ==> k <= m;
    m
  }

  lemma {:induction false} MaxExists(keys: set<nat>)
    requires keys != {}
    ensures exists m :: m in keys && forall k :: k in keys ==> k <= m
  {
    var x :| x in keys;
    var rest := keys - {x};
    if rest == {} {
      assert keys == {x};
    } else {
      MaxExists(rest);
      var m :| m in rest && forall k :: k in rest ==> k <= m;
      var top := if x > m then x else m;
      forall k | k in keys ensures k <= top {
        if k != x { assert k in rest; }
      }
      assert top in keys;
    }
  }

  /** The turn `active_projection` resumes: the newest row, while it is open. */
  function Resumed(turns: map<nat, Turn>): (active: Option<Turn>) {
    if turns == map[] then None
    else
      var newest := turns[MaxKey(turns.Keys)];
      if newest.end == 0 then Some(newest) else None
  }

  /** The turn running at the end has been running since it started. */
  lemma {:induction false} RunningSince(pre: seq<Record>, k: nat)
    requires Tiled(pre) && k <= |pre| && TopOpen(Stack(pre)) && Stack(pre)[|Stack(pre)| - 1].start < Offset(pre, k)
    ensures TopOpen(Stack(pre[..k]))
  {
    var p, e := |Stack(pre)| - 1, Stack(pre[..k]);
    assert pre[..|pre|] == pre;
    StackRemains(pre, k, |pre|);
    assert p < |e| && e[p].end == 0;
    TiledPrefix(pre, k);
    StackShape(pre[..k]);
  }

  lemma {:induction false} SingleNotAfterRunning(pre: seq<Record>, j: nat)
    requires Tiled(pre) && j < |pre| && IsSingle(pre, j) && TopOpen(Stack(pre))
    ensures pre[j].start < Stack(pre)[|Stack(pre)| - 1].start
  {
    assert Abuts(pre, j);
    if Stack(pre)[|Stack(pre)| - 1].start < Offset(pre, j + 1) { RunningSince(pre, j + 1); }
  }

  /** No row is newer than the turn that is still running. */
  lemma {:induction false} RunningIsNewest(pre: seq<Record>, i: nat, ft: FileTables, x: nat)
    requires i <= |pre| && Cover(pre, i, ft) && x in ft.turns && TopOpen(Stack(pre))
    requires Stack(pre)[|Stack(pre)| - 1].start >= Offset(pre, i)
    ensures x <= Stack(pre)[|Stack(pre)| - 1].start
  {
    if !StartedIn(pre, 0, |pre|, x) {
      var j := OtherRowsAreSingles(pre, i, ft, x);
      SingleNotAfterRunning(pre, j);
    } else if x >= Offset(pre, i) {
      var b :| 0 <= b < |pre| && BeginsAt(pre[b], x);
      assert StartsAt(pre[b], x, pre[b].mark.id);
      var p := RowSurvives(pre, i, ft, x, pre[b].mark.id);
      assert RowOrigin(pre, x, ft.turns[x]);
      StackShape(pre);
    }
  }

  lemma {:induction false} RowBelowEnd(pre: seq<Record>, ft: FileTables, x: nat)
    requires Tiled(pre) && Sane(pre, ft) && x in ft.turns
    ensures x < DurableEnd(pre)
  {
    assert RowOrigin(pre, x, ft.turns[x]);
    if StartedAs(pre, x, ft.turns[x].id) {
      var b :| 0 <= b < |pre| && StartsAt(pre[b], x, ft.turns[x].id);
      FromBefore(pre, 0, b);
      if b + 1 < |pre| { OffsetsIncrease(pre, b + 1, |pre|); }
    } else {
      var b :| 0 <= b < |pre| && IsThisSingle(pre, b, x, ft.turns[x]);
      FromBefore(pre, 0, b);
      if b + 1 < |pre| { OffsetsIncrease(pre, b + 1, |pre|); }
    }
  }

  lemma {:induction false} SinglesAreClosed(pre: seq<Record>, x: nat, t: Turn)
    requires Tiled(pre)
    ensures SingleAt(pre, x, t) ==> t.end != 0
  {
    if SingleAt(pre, x, t) {
      var j :| 0 <= j < |pre| && IsThisSingle(pre, j, x, t);
      assert Abuts(pre, j);
    }
  }

  /** A task row that is open inside coverage is the running turn. */
  lemma {:induction false} OpenRowRuns(pre: seq<Record>, i: nat, ft: FileTables, x: nat)
    requires i <= |pre| && Cover(pre, i, ft) && x in ft.turns && ft.turns[x].end == 0
    ensures StartedAs(pre, x, ft.turns[x].id)
    ensures x >= Offset(pre, i) ==> TopOpen(Stack(pre)) && ft.turns[x] == Stack(pre)[|Stack(pre)| - 1]
  {
    assert RowOrigin(pre, x, ft.turns[x]);
    SinglesAreClosed(pre, x, ft.turns[x]);
    if x >= Offset(pre, i) {
      var p := RowSurvives(pre, i, ft, x, ft.turns[x].id);
      StackShape(pre);
    }
  }

  /** What a scan resumes from the tables is what it would hold had it never stopped. */
  lemma {:induction false} ResumeHolds(pre: seq<Record>, i: nat, ft: FileTables)
    requires i <= |pre| && Cover(pre, i, ft)
    ensures var active := Resumed(ft.turns);
            && ActiveHolds(Stack(pre), active, Offset(pre, i)) && ActiveOrigin(pre, active)
            && (active.Some? ==> active.value.start in ft.turns && active.value.start < DurableEnd(pre) && active.value.end == 0)
  {
    var s, active := Stack(pre), Resumed(ft.turns);
    if active.Some? {
      var x := MaxKey(ft.turns.Keys);
      OpenRowRuns(pre, i, ft, x);
      RowBelowEnd(pre, ft, x);
      assert RowOrigin(pre, x, ft.turns[x]);
    }
    if TopOpen(s) && s[|s| - 1].start >= Offset(pre, i) {
      var top := s[|s| - 1];
      assert top in s;
      TaskRowsExact(pre, i, ft, top);
      RunningIsNewest(pre, i, ft, MaxKey(ft.turns.Keys));
    }
  }

  /** Resuming at the end of coverage is progress: the scan can go on from there. */
  lemma {:induction false} ResumeProgress(pre: seq<Record>, i: nat, ft: FileTables, summary: Option<ActiveSummary>)
    requires i <= |pre| && Cover(pre, i, ft)
    requires Lockstep(pre, DurableEnd(pre), Resumed(ft.turns), summary, Offset(pre, i))
    ensures Progress(pre, i, |pre|, ft, Resumed(ft.turns), summary)
  {
    ResumeHolds(pre, i, ft);
    assert pre[..|pre|] == pre;
  }

  /** The stored projection of the turn that is resumed is the one the scan needs. */
  lemma {:induction false} StoredSummaryResumes(pre: seq<Record>, i: nat, ft: FileTables)
    requires i <= |pre| && Cover(pre, i, ft) && Resumed(ft.turns).Some?
    requires Resumed(ft.turns).value.start >= Offset(pre, i)
    ensures SumHeld(pre, Resumed(ft.turns).value, DurableEnd(pre), ft.summaries)
  {
    ResumeHolds(pre, i, ft);
  }

  /** Storing the recomputed projection of the resumed turn keeps coverage. */
  lemma {:induction false} EnrichKeepsCover(pre: seq<Record>, i: nat, ft: FileTables)
    requires i <= |pre| && Cover(pre, i, ft) && Resumed(ft.turns).Some?
    ensures var t := Resumed(ft.turns).value;
            var ft' := ft.(summaries := ft.summaries[t.start := Summary(t.id, Span(pre, t.start, DurableEnd(pre)))]);
            && Cover(pre, i, ft')
            && (SinglesIn(pre, i, |pre|, ft) ==> SinglesIn(pre, i, |pre|, ft'))
  {
    var s, t, from := Stack(pre), Resumed(ft.turns).value, Offset(pre, i);
    var rows := ft.summaries[t.start := Summary(t.id, Span(pre, t.start, DurableEnd(pre)))];
    var ft' := ft.(summaries := rows);
    ResumeHolds(pre, i, ft);
    StackShape(pre);
    assert pre[..|pre|] == pre;
    forall p | 0 <= p < |s| && s[p].start >= from && s[p].start !in ft.removed && s[p].end != 0
      ensures SumHeld(pre, s[p], s[p].end, rows)
    {
      ActiveBeside(s, Some(t), from, DurableEnd(pre), p);
      assert SumHeld(pre, s[p], s[p].end, ft.summaries);
    }
    StartedAsIn(pre, t.start, t.id);
    forall k | i <= k < |pre| && SingleHeld(pre, k, ft) ensures SingleHeld(pre, k, ft') {
      if IsSingle(pre, k) { SingleApart(pre, k, t.start); }
    }
    if SinglesIn(pre, i, |pre|, ft) {
      forall k | i <= k < |pre| ensures SingleHeld(pre, k, ft') { assert SingleHeld(pre, k, ft); }
    }
  }

  // --- A commit at the end of the scanned part ---

  /** The tables once the projection of the turn still open is stored with the batch. */
  function Remembered(ft: FileTables, summary: Option<ActiveSummary>): (ft': FileTables) {
    ft.(summaries := InsertSummaries(ft.summaries, ft.removed, Remember(summary)))
  }

  lemma {:induction false} RememberKeepsProgress(pre: seq<Record>, i: nat, j: nat, ft: FileTables,
          active: Option<Turn>, summary: Option<ActiveSummary>)
    requires i <= j <= |pre| && Progress(pre, i, j, ft, active, summary)
    ensures Progress(pre, i, j, Remembered(ft, summary), active, summary)
  {
    var s := Stack(pre[..j]);
    TiledPrefix(pre, j);
    StackShape(pre[..j]);
    if active.Some? {
      forall p | 0 <= p < |s| && s[p].start >= Offset(pre, i) && s[p].end != 0 ensures active.value.start != s[p].start {
        ActiveBeside(s, active, Offset(pre, i), Offset(pre, j), p);
      }
    }
    SumsBeside(pre, s, ft.summaries, ft.removed, Offset(pre, i), Remember(summary));
    InsertSummariesAvoids(ft.summaries, ft.removed, Remember(summary));
  }

  lemma {:induction false} RememberKeepsSingles(pre: seq<Record>, i: nat, k: nat, ft: FileTables,
          active: Option<Turn>, summary: Option<ActiveSummary>, at: nat, from: nat)
    requires Tiled(pre) && i <= k <= |pre| && SinglesIn(pre, i, k, ft)
    requires ActiveOrigin(pre, active) && Lockstep(pre, at, active, summary, from)
    ensures SinglesIn(pre, i, k, Remembered(ft, summary))
  {
    if active.Some? { StartedAsIn(pre, active.value.start, active.value.id); }
    forall m | i <= m < k ensures SingleHeld(pre, m, Remembered(ft, summary)) {
      assert SingleHeld(pre, m, ft);
      if IsSingle(pre, m) && active.Some? {
        SingleApart(pre, m, active.value.start);
        SummaryUntouched(ft.summaries, ft.removed, Remember(summary), pre[m].start);
      }
    }
  }

  /** A forward commit covers everything it has read. */
  lemma {:induction false} CommitCovers(pre: seq<Record>, i: nat, ft: FileTables, active: Option<Turn>,
          summary: Option<ActiveSummary>)
    requires i <= |pre| && Progress(pre, i, |pre|, ft, active, summary)
    ensures Cover(pre, i, Remembered(ft, summary))
  {
    RememberKeepsProgress(pre, i, |pre|, ft, active, summary);
    assert pre[..|pre|] == pre;
    var s := Stack(pre);
    if TopOpen(s) && s[|s| - 1].start >= Offset(pre, i) {
      var top := s[|s| - 1];
      assert top.start in Starts(s);
      assert Remember(summary) == [(top.start, Summary(top.id, Span(pre, top.start, DurableEnd(pre))))];
    }
  }

  // --- A backfill below what is covered ---

  /** The rows from byte `from` on are the same. */
  ghost predicate SameFrom(ft: FileTables, ft': FileTables, from: nat) {
    && (forall x :: x >= from ==> (x in ft.turns <==> x in ft'.turns) && (x in ft.turns ==> ft.turns[x] == ft'.turns[x]))
    && (forall x :: x >= from ==> (x in ft.summaries <==> x in ft'.summaries) && (x in ft.summaries ==> ft.summaries[x] == ft'.summaries[x]))
    && (forall x :: x in ft.removed ==> x in ft'.removed)
  }

  lemma {:induction false} LineIsLocal(pre: seq<Record>, j: nat, ft: FileTables, active: Option<Turn>,
          summary: Option<ActiveSummary>, from: nat)
    requires Tiled(pre) && j < |pre| && Lockstep(pre, pre[j].start, active, summary, from)
    requires active.Some? ==> active.value.start < pre[j].start
    ensures SameFrom(ft, LineEffect(ft, Stack(pre[..j]), pre[j], active, summary), pre[j].end)
  {
    var r, gone := pre[j], Gone(Stack(pre[..j]), pre[j]);
    var removed, ft' := ft.removed + gone, LineEffect(ft, Stack(pre[..j]), r, active, summary);
    var rows, sums, singles := TurnStep(active, r).1, SummaryStep(summary, r).1, SingleStep(TurnStep(active, r).0, r);
    assert Abuts(pre, j);
    forall x | x >= r.end
      ensures (x in ft.turns <==> x in ft'.turns) && (x in ft.turns ==> ft.turns[x] == ft'.turns[x])
      ensures (x in ft.summaries <==> x in ft'.summaries) && (x in ft.summaries ==> ft.summaries[x] == ft'.summaries[x])
    {
      if x in gone { DiesHere(pre, j, x); }
      TurnTwiceUntouched(ft.turns - gone, removed, rows, singles.0, x);
      SummaryTwiceUntouched(ft.summaries - gone, removed, sums, singles.1, x);
    }
  }

  lemma {:induction false} TurnTwiceUntouched(rows: map<nat, Turn>, removed: set<nat>, a: seq<Turn>, b: seq<Turn>, x: nat)
    requires (forall k :: 0 <= k < |a| ==> a[k].start != x) && (forall k :: 0 <= k < |b| ==> b[k].start != x)
    ensures var rows' := InsertTurns(InsertTurns(rows, removed, a), removed, b);
            (x in rows' <==> x in rows) && (x in rows ==> rows'[x] == rows[x])
  {
    TurnUntouched(rows, removed, a, x);
    TurnUntouched(InsertTurns(rows, removed, a), removed, b, x);
  }

  lemma {:induction false} SummaryTwiceUntouched(rows: map<nat, Summary>, removed: set<nat>,
          a: seq<(nat, Summary)>, b: seq<(nat, Summary)>, x: nat)
    requires (forall k :: 0 <= k < |a| ==> a[k].0 != x) && (forall k :: 0 <= k < |b| ==> b[k].0 != x)
    ensures var rows' := InsertSummaries(InsertSummaries(rows, removed, a), removed, b);
            (x in rows' <==> x in rows) && (x in rows ==> rows'[x] == rows[x])
  {
    SummaryUntouched(rows, removed, a, x);
    SummaryUntouched(InsertSummaries(rows, removed, a), removed, b, x);
  }

  /** Coverage depends on the rows from its own start on. */
  lemma {:induction false} FarRowsCover(pre: seq<Record>, i: nat, ft: FileTables, ft': FileTables)
    requires i <= |pre| && Cover(pre, i, ft)
    requires SameFrom(ft, ft', Offset(pre, i)) && Sane(pre, ft') && RecordsIn(pre, i, |pre|, ft'.records)
    ensures Cover(pre, i, ft')
    ensures SinglesIn(pre, i, |pre|, ft) ==> SinglesIn(pre, i, |pre|, ft')
  {
    var s, from := Stack(pre), Offset(pre, i);
    assert pre[..|pre|] == pre;
    forall p | 0 <= p < |s| && s[p].start >= from && s[p].start !in ft'.removed && s[p].end != 0
      ensures SumHeld(pre, s[p], s[p].end, ft'.summaries)
    {
      assert SumHeld(pre, s[p], s[p].end, ft.summaries);
    }
    if SinglesIn(pre, i, |pre|, ft) {
      forall k | i <= k < |pre| ensures SingleHeld(pre, k, ft') {
        assert SingleHeld(pre, k, ft) && Abuts(pre, k);
        if i < k { OffsetsIncrease(pre, i, k); }
      }
    }
  }

  lemma {:induction false} LineIsBelow(pre: seq<Record>, i0: nat, i: nat, j: nat, ft: FileTables,
          active: Option<Turn>, summary: Option<ActiveSummary>)
    requires i <= j < i0 <= |pre| && Progress(pre, i, j, ft, active, summary)
    ensures var ft' := LineEffect(ft, Stack(pre[..j]), pre[j], active, summary);
            SameFrom(ft, ft', Offset(pre, i0)) && Sane(pre, ft')
  {
    FromBefore(pre, i, j);
    SingleSeen(pre, i, j, active);
    SaneStep(pre, j, ft, active, summary);
    LineIsLocal(pre, j, ft, active, summary, Offset(pre, i));
    if j + 1 < i0 { OffsetsIncrease(pre, j + 1, i0); }
  }

  lemma {:induction false} CoverRecords(pre: seq<Record>, i: nat, ft: FileTables)
    requires i <= |pre| && Cover(pre, i, ft)
    ensures Tiled(pre) && RecordsIn(pre, i, |pre|, ft.records)
  {
  }

  lemma {:induction false} LineRecords(ft: FileTables, s: seq<Turn>, r: Record, active: Option<Turn>,
          summary: Option<ActiveSummary>)
    ensures LineEffect(ft, s, r, active, summary).records == ft.records[r.start := RefOf(r)]
  {
  }

  /** A backfilled line, and the commits among them, leave the covered suffix as it is. */
  lemma {:induction false} LineKeepsCover(pre: seq<Record>, i0: nat, i: nat, j: nat, ft: FileTables,
          active: Option<Turn>, summary: Option<ActiveSummary>, ft': FileTables)
    requires i <= j < i0 <= |pre| && Progress(pre, i, j, ft, active, summary) && Cover(pre, i0, ft)
    requires ft' == LineEffect(ft, Stack(pre[..j]), pre[j], active, summary)
    ensures Cover(pre, i0, ft') && (SinglesIn(pre, i0, |pre|, ft) ==> SinglesIn(pre, i0, |pre|, ft'))
  {
    LineIsBelow(pre, i0, i, j, ft, active, summary);
    CoverRecords(pre, i0, ft);
    RecordsStep(pre, i0, |pre|, j, ft.records);
    LineRecords(ft, Stack(pre[..j]), pre[j], active, summary);
    FarRowsCover(pre, i0, ft, ft');
  }

  lemma {:induction false} RememberKeepsCover(pre: seq<Record>, i0: nat, ft: FileTables, summary: Option<ActiveSummary>)
    requires i0 <= |pre| && Cover(pre, i0, ft) && (summary.Some? ==> summary.value.start < Offset(pre, i0))
    ensures Cover(pre, i0, Remembered(ft, summary))
    ensures SinglesIn(pre, i0, |pre|, ft) ==> SinglesIn(pre, i0, |pre|, Remembered(ft, summary))
  {
    forall x | x >= Offset(pre, i0)
      ensures (x in ft.summaries <==> x in Remembered(ft, summary).summaries) && (x in ft.summaries ==> ft.summaries[x] == Remembered(ft, summary).summaries[x])
    {
      SummaryUntouched(ft.summaries, ft.removed, Remember(summary), x);
    }
    InsertSummariesAvoids(ft.summaries, ft.removed, Remember(summary));
    FarRowsCover(pre, i0, ft, Remembered(ft, summary));
  }

  /** The row of a turn that runs into the covered suffix: the suffix begins by interrupting it. */
  function Interrupted(active: Option<Turn>, at: nat): (rows: seq<Turn>) {
    if active.Some? then [active.value.(end := at)] else []
  }

  /** The tables a finished backfill commits. */
  function Joined(ft: FileTables, active: Option<Turn>, summary: Option<ActiveSummary>, at: nat): (ft': FileTables) {
    Remembered(ft.(turns := InsertTurns(ft.turns, ft.removed, Interrupted(active, at))), summary)
  }

  /** What became of a turn of the older range once the covered suffix is folded too. */
  lemma {:induction false} AcrossJoin(pre: seq<Record>, i0: nat, p: nat)
    requires Tiled(pre) && i0 <= |pre| && CleanFrom(pre, i0)
    requires p < |Stack(pre)| && Stack(pre)[p].start < Offset(pre, i0)
    ensures var s0 := Stack(pre[..i0]);
            && p < |s0| && s0[p].start == Stack(pre)[p].start
            && (s0[p].end != 0 ==> Stack(pre)[p] == s0[p])
            && (s0[p].end == 0 ==> TopOpen(s0) && p == |s0| - 1 && Stack(pre)[p] == s0[p].(end := Offset(pre, i0), completed := false))
  {
    var s0, s := Stack(pre[..i0]), Stack(pre);
    assert pre[..|pre|] == pre;
    StackRemains(pre, i0, |pre|);
    TiledPrefix(pre, i0);
    StackShape(pre[..i0]);
    if s0[p].end == 0 {
      var s1 := Stack(pre[..i0 + 1]);
      StackSnoc(pre, i0);
      assert Abuts(pre, i0);
      assert s1[p] == s0[p].(end := Offset(pre, i0), completed := false);
      StackRemains(pre, i0 + 1, |pre|);
      RunsToJoin(pre, i0, p);
    }
  }

  lemma {:induction false} RunsToJoin(pre: seq<Record>, i0: nat, p: nat)
    requires Tiled(pre) && i0 < |pre| && p < |Stack(pre[..i0])| && Stack(pre[..i0])[p].end == 0
    ensures 0 < Offset(pre, i0)
  {
    TiledPrefix(pre, i0);
    StackShape(pre[..i0]);
  }

  lemma {:induction false} InterruptIsBelow(pre: seq<Record>, i: nat, i0: nat, ft: FileTables,
          active: Option<Turn>, summary: Option<ActiveSummary>)
    requires i <= i0 <= |pre| && Progress(pre, i, i0, ft, active, summary)
    ensures var ft' := Joined(ft, active, summary, Offset(pre, i0));
            && SameFrom(ft, ft', Offset(pre, i0)) && Sane(pre, ft') && ft'.records == ft.records && ft'.removed == ft.removed
  {
    var at := Offset(pre, i0);
    var rows, ft' := Interrupted(active, at), Joined(ft, active, summary, at);
    assert BatchOrigin(pre, rows);
    InsertKeepsOrigin(pre, ft.turns, ft.removed, rows);
    InsertTurnsAvoids(ft.turns, ft.removed, rows);
    InsertSummariesAvoids(ft.summaries, ft.removed, Remember(summary));
    forall x | x >= at
      ensures (x in ft.turns <==> x in ft'.turns) && (x in ft.turns ==> ft.turns[x] == ft'.turns[x])
      ensures (x in ft.summaries <==> x in ft'.summaries) && (x in ft.summaries ==> ft.summaries[x] == ft'.summaries[x])
    {
      TurnUntouched(ft.turns, ft.removed, rows, x);
      SummaryUntouched(ft.summaries, ft.removed, Remember(summary), x);
    }
  }

  /** A turn of the older range has its final row and its whole projection. */
  lemma {:induction false} JoinTurn(pre: seq<Record>, i: nat, i0: nat, ft: FileTables, active: Option<Turn>,
          summary: Option<ActiveSummary>, p: nat)
    requires i <= i0 <= |pre| && Progress(pre, i, i0, ft, active, summary) && CleanFrom(pre, i0)
    requires p < |Stack(pre)| && Offset(pre, i) <= Stack(pre)[p].start < Offset(pre, i0) && Stack(pre)[p].start !in ft.removed
    ensures var ft', t := Joined(ft, active, summary, Offset(pre, i0)), Stack(pre)[p];
            t.start in ft'.turns && ft'.turns[t.start] == t && t.end != 0 && SumHeld(pre, t, t.end, ft'.summaries)
  {
    var s0, t, at := Stack(pre[..i0]), Stack(pre)[p], Offset(pre, i0);
    AcrossJoin(pre, i0, p);
    TiledPrefix(pre, i0);
    StackShape(pre[..i0]);
    if s0[p].end != 0 {
      if active.Some? { ActiveBeside(s0, active, Offset(pre, i), at, p); }
      TurnUntouched(ft.turns, ft.removed, Interrupted(active, at), t.start);
      SummaryUntouched(ft.summaries, ft.removed, Remember(summary), t.start);
      assert SumHeld(pre, s0[p], s0[p].end, ft.summaries);
    } else {
      assert active == Some(s0[p]);
      assert Remember(summary) == [(t.start, Summary(t.id, Span(pre, t.start, at)))];
    }
  }

  lemma {:induction false} JoinTombs(pre: seq<Record>, i: nat, i0: nat, removed: set<nat>)
    requires i <= i0 <= |pre| && TombsComplete(pre, i, i0, removed) && TombsComplete(pre, i0, |pre|, removed)
    ensures TombsComplete(pre, i, |pre|, removed)
  {
    forall x | Candidate(pre, i, |pre|, x) && x !in Starts(Stack(pre[..|pre|])) ensures x in removed {
      if !StartedIn(pre, i0, |pre|, x) {
        if x !in Starts(Stack(pre[..i])) {
          var b :| i <= b < |pre| && BeginsAt(pre[b], x);
          assert b < i0;
          assert StartedIn(pre, i, i0, x);
        }
        assert Candidate(pre, i, i0, x);
        if x in Starts(Stack(pre[..i0])) { assert Candidate(pre, i0, |pre|, x); }
      } else {
        assert Candidate(pre, i0, |pre|, x);
      }
    }
  }

  /** A finished backfill extends coverage down to its first record. */
  lemma {:induction false} JoinHeld(pre: seq<Record>, i: nat, i0: nat, ft: FileTables, active: Option<Turn>,
          summary: Option<ActiveSummary>)
    requires i <= i0 <= |pre| && Progress(pre, i, i0, ft, active, summary)
    requires Cover(pre, i0, Joined(ft, active, summary, Offset(pre, i0)))
    ensures Held(pre, i, |pre|, Joined(ft, active, summary, Offset(pre, i0)))
  {
    var s, from, at := Stack(pre), Offset(pre, i), Offset(pre, i0);
    var ft' := Joined(ft, active, summary, at);
    assert pre[..|pre|] == pre;
    forall p | 0 <= p < |s| && s[p].start >= from && s[p].start !in ft'.removed
      ensures s[p].start in ft'.turns && ft'.turns[s[p].start] == s[p]
      ensures s[p].end != 0 ==> SumHeld(pre, s[p], s[p].end, ft'.summaries)
    {
      if s[p].start < at { JoinTurn(pre, i, i0, ft, active, summary, p); }
    }
    JoinTombs(pre, i, i0, ft'.removed);
    forall k | i <= k < |pre| ensures RecordHeld(pre, k, ft'.records) { }
  }

  lemma {:induction false} JoinCovers(pre: seq<Record>, i: nat, i0: nat, ft: FileTables, active: Option<Turn>,
          summary: Option<ActiveSummary>)
    requires i <= i0 <= |pre| && Progress(pre, i, i0, ft, active, summary) && Cover(pre, i0, ft)
    ensures Cover(pre, i, Joined(ft, active, summary, Offset(pre, i0)))
    ensures SinglesIn(pre, i0, |pre|, ft) ==> SinglesIn(pre, i0, |pre|, Joined(ft, active, summary, Offset(pre, i0)))
  {
    var ft' := Joined(ft, active, summary, Offset(pre, i0));
    InterruptIsBelow(pre, i, i0, ft, active, summary);
    CoverRecords(pre, i0, ft);
    FarRowsCover(pre, i0, ft, ft');
    JoinHeld(pre, i, i0, ft, active, summary);
    assert pre[..|pre|] == pre;
    if i0 < |pre| { OpenInside(pre, i0, |pre|); }
  }

  lemma {:induction false} JoinSingles(pre: seq<Record>, i: nat, i0: nat, ft: FileTables, active: Option<Turn>,
          summary: Option<ActiveSummary>)
    requires i <= i0 <= |pre| && Progress(pre, i, i0, ft, active, summary)
    requires SinglesIn(pre, i, i0, ft) && SinglesIn(pre, i0, |pre|, Joined(ft, active, summary, Offset(pre, i0)))
    ensures SinglesIn(pre, i, |pre|, Joined(ft, active, summary, Offset(pre, i0)))
  {
    var at := Offset(pre, i0);
    var mid := ft.(turns := InsertTurns(ft.turns, ft.removed, Interrupted(active, at)));
    if active.Some? { StartedAsIn(pre, active.value.start, active.value.id); }
    forall k | i <= k < i0 ensures SingleHeld(pre, k, mid) {
      assert SingleHeld(pre, k, ft);
      if IsSingle(pre, k) && active.Some? {
        SingleApart(pre, k, active.value.start);
        TurnUntouched(ft.turns, ft.removed, Interrupted(active, at), pre[k].start);
      }
    }
    RememberKeepsSingles(pre, i, i0, mid, active, summary, at, Offset(pre, i));
    forall k | i <= k < |pre| ensures SingleHeld(pre, k, Joined(ft, active, summary, at)) { }
  }
}
