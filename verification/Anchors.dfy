/**
 Anchor recovery: coverage grows until it holds a named turn and the older neighbours a reader asks
 for with it.
 */
module Anchors {
  import opened Wrappers
  import opened Transcript
  import opened ReverseScan
  import opened LogicalTurns
  import opened LogicalAgreement
  import opened TurnVisitors
  import opened ColdScan
  import opened SurvivingTurns
  import opened Store
  import opened ScanInvariants
  import opened Coverage
  import opened LineScan
  import opened TableReads
  import opened ForwardScan
  import opened IndexReads
  import opened Backfill

  /** The callback's registers: whether the anchor was met, how many older turns are missing, where coverage must begin. */
  datatype Hunt = Hunt(found: bool, remaining: nat, from: nat)

  function Chase(anchor: string): (visit: (Hunt, Turn) -> (Hunt, bool)) {
    (hunt: Hunt, turn: Turn) =>
      if turn.id == anchor then
        if hunt.remaining == 0 then (Hunt(true, 0, turn.start), false) else (hunt.(found := true), true)
      else if hunt.found && turn.end != 0 then
        var left := if hunt.remaining > 0 then hunt.remaining - 1 else 0;
        if left == 0 then (Hunt(true, 0, turn.start), false) else (hunt.(remaining := left), true)
      else (hunt, true)
  }

  /** Where coverage must begin to hold the anchor at place `k` and `older` closed turns before it; byte 0 if there are fewer. */
  function Target(turns: seq<Turn>, k: nat, older: nat): (from: nat)
    requires k <= |turns|
  {
    if k == |turns| then 0
    else if older == 0 then turns[k].start
    else
      var closed := Closed(turns[k + 1..]);
      if |closed| >= older then closed[older - 1].start else 0
  }

  ghost predicate Elsewhere(turns: seq<Turn>, anchor: string, from: nat) {
    forall i :: from <= i < |turns| ==> turns[i].id != anchor
  }

  lemma {:induction false} ChaseOlder(turns: seq<Turn>, anchor: string, n: nat)
    requires n > 0 && Elsewhere(turns, anchor, 0)
    ensures Consume(turns, Hunt(true, n, 0), Chase(anchor)).0.from == if |Closed(turns)| >= n then Closed(turns)[n - 1].start else 0
  {
    if turns != [] {
      var t, rest := turns[0], turns[1..];
      assert turns == [t] + rest && turns[0].id != anchor;
      ClosedConcat([t], rest);
      assert Closed([t]) == if t.end != 0 then [t] else [];
      assert Elsewhere(rest, anchor, 0) by {
        forall i | 0 <= i < |rest| ensures rest[i].id != anchor { assert turns[i + 1].id != anchor; }
      }
      if t.end == 0 {
        assert [] + Closed(rest) == Closed(rest);
        ChaseOlder(rest, anchor, n);
      } else if n > 1 {
        ChaseOlder(rest, anchor, n - 1);
      }
    }
  }

  lemma {:induction false} ChaseFinds(turns: seq<Turn>, anchor: string, k: nat, older: nat)
    requires AnchorAt(turns, anchor, k) && Elsewhere(turns, anchor, k + 1)
    ensures Consume(turns, Hunt(false, older, 0), Chase(anchor)).0.from == Target(turns, k, older)
  {
    if turns == [] { return; }
    var t, rest := turns[0], turns[1..];
    if k > 0 {
      assert turns[0].id != anchor;
      assert forall i :: 0 <= i < |rest| ==> rest[i] == turns[i + 1];
      ChaseFinds(rest, anchor, k - 1, older);
      if k < |turns| { assert rest[k..] == turns[k + 1..]; }
    } else if older > 0 {
      assert forall i :: 0 <= i < |rest| ==> rest[i] == turns[i + 1];
      ChaseOlder(rest, anchor, older);
    }
  }

  // --- The index already holds them ---

  lemma {:induction false} IdsDiffer(log: seq<Record>, a: Turn, b: Turn)
    requires Tiled(log) && Exclusive(log) && UniqueIds(log) && a in Newest(log, 0) && b in Newest(log, 0) && a.id == b.id
    ensures a.start == b.start
  {
    var names :| Names(log, names);
    ListedNamed(log, names, a);
    ListedNamed(log, names, b);
  }

  lemma {:induction false} ListedNamed(log: seq<Record>, names: map<string, nat>, t: Turn)
    requires Tiled(log) && Exclusive(log) && Names(log, names) && t in Newest(log, 0)
    ensures t.id in names && names[t.id] == t.start
  {
    NewestAreSurvivors(log, t);
    if t in Stack(log) {
      var p :| 0 <= p < |Stack(log)| && Stack(log)[p] == t;
      StackOrigin(log, p);
      var j :| 0 <= j < |log| && log[j].start == t.start && log[j].mark == Started(t.id);
      assert StartsAt(log[j], t.start, t.id);
    }
    NamedRow(log, t, names);
  }

  /** With unique ids an anchor names one place of the list. */
  lemma {:induction false} AnchorPlace(log: seq<Record>, anchor: string) returns (k: nat)
    requires Tiled(log) && Exclusive(log) && UniqueIds(log)
    ensures AnchorAt(Newest(log, 0), anchor, k) && Elsewhere(Newest(log, 0), anchor, k + 1)
  {
    var turns := Newest(log, 0);
    NewestDescends(log, 0);
    k := 0;
    while k < |turns| && turns[k].id != anchor
      invariant 0 <= k <= |turns| && forall i :: 0 <= i < k ==> turns[i].id != anchor
    {
      k := k + 1;
    }
    if k < |turns| {
      forall i | k < i < |turns| ensures turns[i].id != anchor {
        if turns[i].id == anchor { IdsDiffer(log, turns[i], turns[k]); }
      }
    }
  }

  /** Only the newest listed turn can be open. */
  lemma {:induction false} OlderAreClosed(log: seq<Record>, k: nat)
    requires Tiled(log) && Exclusive(log) && k < |Newest(log, 0)|
    ensures Closed(Newest(log, 0)[k + 1..]) == Newest(log, 0)[k + 1..]
  {
    var turns := Newest(log, 0);
    ItemsExtendStack(log);
    forall i | 0 < i < |turns| ensures turns[i].end != 0 {
      var items := InterruptLast(Items(log), 0);
      assert turns[i] == items[|items| - 1 - i].turn;
    }
    AllClosed(turns[k + 1..]);
  }

  lemma {:induction false} AllClosed(turns: seq<Turn>)
    requires forall i :: 0 <= i < |turns| ==> turns[i].end != 0
    ensures Closed(turns) == turns
  {
    if turns != [] { AllClosed(turns[..|turns| - 1]); }
  }

  lemma {:induction false} RetainAll(page: seq<Turn>, from: nat)
    requires forall i :: 0 <= i < |page| ==> page[i].start >= from
    ensures Retain(page, from) == page
  {
    if page != [] { RetainAll(page[1..], from); }
  }

  /** The row an id finds inside coverage is the listed turn with that id. */
  lemma {:induction false} AnchorRow(log: seq<Record>, i: nat, ft: FileTables, anchor: string, k: nat)
    requires i <= |log| && Cover(log, i, ft) && SinglesIn(log, i, |log|, ft) && Exclusive(log)
    requires Inverse(ft.turns, ft.turnsById) && AnchorAt(Newest(log, 0), anchor, k) && Elsewhere(Newest(log, 0), anchor, k + 1)
    requires TurnById(ft, anchor).Some? && TurnById(ft, anchor).value.start >= Offset(log, i)
    ensures k < |Newest(log, 0)| && Newest(log, 0)[k] == TurnById(ft, anchor).value
  {
    var row, turns := TurnById(ft, anchor).value, Newest(log, 0);
    assert row.id == anchor && ft.turns[row.start] == row;
    RowsAreSurvivors(log, i, ft, row);
    NewestAreSurvivors(log, row);
    var m :| 0 <= m < |turns| && turns[m] == row;
    assert turns[m].id == anchor;
  }

  lemma {:induction false} OlderInList(log: seq<Record>, turns: seq<Turn>, from: nat, k: nat, older: nat, page: seq<Turn>)
    requires turns == Newest(log, 0) && Tiled(log) && Exclusive(log) && k < |turns| && older > 0
    requires page == First(Between(turns, from, Some(turns[k].start)), older) && |page| == older
    ensures older <= |turns| - (k + 1) && page == turns[k + 1..][..older]
  {
    NewestDescends(log, 0);
    PageAboveFloor(turns, from, turns[k].start, older);
    TakenSkips(turns, k + 1, turns[k].start, older);
  }

  lemma {:induction false} CoveredPage(log: seq<Record>, i: nat, ft: FileTables, older: nat, k: nat, page: seq<Turn>)
    requires i <= |log| && Cover(log, i, ft) && SinglesIn(log, i, |log|, ft) && Exclusive(log)
    requires k < |Newest(log, 0)| && older > 0 && page == TurnsDesc(ft.turns, Some(Newest(log, 0)[k].start), older)
    requires |page| == older && forall m :: 0 <= m < older ==> page[m].start >= Offset(log, i)
    ensures older <= |Newest(log, 0)| - (k + 1) && page == Newest(log, 0)[k + 1..][..older]
  {
    var turns, from := Newest(log, 0), Offset(log, i);
    var before := Some(turns[k].start);
    RowsListNewest(log, i, ft, before);
    DescReads(ft.turns, from, before, older, Between(turns, from, before));
    RetainAll(page, from);
    OlderInList(log, turns, from, k, older, page);
  }

  /** If the covered rows hold the anchor and `older` rows before it, coverage already begins low enough. */
  lemma {:induction false} CoveredTarget(log: seq<Record>, i: nat, ft: FileTables, older: nat, k: nat, page: seq<Turn>)
    requires i <= |log| && Cover(log, i, ft) && SinglesIn(log, i, |log|, ft) && Exclusive(log)
    requires k < |Newest(log, 0)| && Newest(log, 0)[k].start >= Offset(log, i)
    requires page == TurnsDesc(ft.turns, Some(Newest(log, 0)[k].start), older)
    requires |page| == older && forall m :: 0 <= m < older ==> page[m].start >= Offset(log, i)
    ensures Offset(log, i) <= Target(Newest(log, 0), k, older)
  {
    if older > 0 {
      CoveredPage(log, i, ft, older, k, page);
      OlderAreClosed(log, k);
      assert page[older - 1] == Newest(log, 0)[k + 1..][older - 1];
    }
  }

  // --- The operation ---

  /** Coverage holds the anchor and the older neighbours asked for. */
  ghost predicate Recovered(log: seq<Record>, i: nat, anchor: string, older: nat)
    requires Tiled(log) && i <= |log|
  {
    exists k :: AnchorAt(Newest(log, 0), anchor, k) && Offset(log, i) <= Target(Newest(log, 0), k, older)
  }

  /** From record `i` on lie the listed turn at place `k` and the `older` ones behind it, or all there are. */
  ghost predicate HoldsOlder(log: seq<Record>, i: nat, k: nat, older: nat)
    requires i <= |log|
  {
    && (forall m :: k <= m <= k + older && m < |Newest(log, 0)| ==> Offset(log, i) <= Newest(log, 0)[m].start)
    && (k + older >= |Newest(log, 0)| ==> Offset(log, i) == 0)
  }

  /** So a recovered anchor and its neighbours lie inside coverage, and without an anchor everything does. */
  lemma {:induction false} RecoveredHolds(log: seq<Record>, i: nat, anchor: string, older: nat)
    requires Tiled(log) && Exclusive(log) && i <= |log|
    ensures Recovered(log, i, anchor, older) <==> exists k :: AnchorAt(Newest(log, 0), anchor, k) && HoldsOlder(log, i, k, older)
  {
    forall k | AnchorAt(Newest(log, 0), anchor, k)
      ensures Offset(log, i) <= Target(Newest(log, 0), k, older) <==> HoldsOlder(log, i, k, older)
    {
      TargetHolds(log, i, k, older);
    }
  }

  lemma {:induction false} TargetHolds(log: seq<Record>, i: nat, k: nat, older: nat)
    requires Tiled(log) && Exclusive(log) && i <= |log| && k <= |Newest(log, 0)|
    ensures Offset(log, i) <= Target(Newest(log, 0), k, older) <==> HoldsOlder(log, i, k, older)
  {
    var turns := Newest(log, 0);
    NewestDescends(log, 0);
    if k < |turns| && older > 0 {
      OlderAreClosed(log, k);
      if k + older < |turns| { assert turns[k + 1..][older - 1] == turns[k + older]; }
    }
  }

  /** What is needed to say where the anchor is: rows that miss no turn, a list both scans agree on, and unique ids. */
  ghost predicate Known(log: seq<Record>, ft: FileTables, ext: Extent) {
    Whole(ft, ext) && ReadsAlike(log, false) && UniqueIds(log)
  }

  /** The locked part of `index_through_anchor`. */
  method AnchorStep(lane: Lane, source: Source, file: SourceFile, anchor: string, older: nat, commits: nat, ghost ext: Extent)
    returns (outcome: Outcome, left: nat, ghost ext': Extent)
    requires WellFormed(file) && Apart(file.log) && lane.Valid() && AtRest(lane.tables, ext)
    requires lane.tables.state.Some? && Matches(lane.tables.state.value, file) ==> ext.indexed <= file.log
    modifies lane
    ensures lane.Valid() && AtRest(lane.tables, ext') && (ext' == ext || ext'.indexed <= file.log)
    ensures Stamped(old(lane.tables), ext, lane.tables, ext', file)
    ensures outcome.Indexed? ==> ext'.indexed == file.log && lane.tables.state.Some? && Matches(lane.tables.state.value, file)
    ensures outcome.Indexed? && Current(old(lane.tables), ext, file) ==> ext'.first <= ext.first
    ensures outcome.Indexed? && Current(old(lane.tables), ext, file) && Known(file.log, old(lane.tables), ext) ==>
              Recovered(file.log, ext'.first, anchor, older)
    ensures Kept(source, old(lane.writes), ext) ==> Kept(source, lane.writes, ext')
    ensures Whole(old(lane.tables), ext) && !Haunted(old(lane.tables)) ==> Whole(lane.tables, ext')
    ensures outcome.Failed? ==> !Fine(file.log)
    ensures Paid(|old(lane.writes)|, |lane.writes|, commits, left, outcome)
    ensures outcome.Crashed? ==> commits < Bound(file.log)
    ensures outcome.Indexed? ==> commits - left <= Bound(file.log)
    ensures Fine(file.log) && commits >= Bound(file.log) ==> outcome.Indexed?
  {
    left, ext' := commits, ext;
    if lane.tables.state.None? || !Fresh(lane.tables.state.value, file) {
      outcome, left, ext' := IndexFile(lane, source, file, left, ext);
      return;
    }
    OffsetInjective(file.log, |ext.indexed|, |file.log|);
    assert ext.indexed == file.log;
    outcome, left, ext' := AnchorRange(lane, source, file, anchor, older, left, ext.first);
  }

  method AnchorRange(lane: Lane, source: Source, file: SourceFile, anchor: string, older: nat, commits: nat, ghost i0: nat)
    returns (outcome: Outcome, left: nat, ghost ext': Extent)
    requires WellFormed(file) && Apart(file.log) && i0 <= |file.log| && lane.Valid() && AtRest(lane.tables, Extent(file.log, i0))
    requires lane.tables.state.Some? && Matches(lane.tables.state.value, file)
    modifies lane
    ensures lane.Valid() && AtRest(lane.tables, ext') && ext'.indexed == file.log && ext'.first <= i0
    ensures lane.tables.state.Some? && Matches(lane.tables.state.value, file)
    ensures outcome.Indexed? && Known(file.log, old(lane.tables), Extent(file.log, i0)) ==> Recovered(file.log, ext'.first, anchor, older)
    ensures Kept(source, old(lane.writes), Extent(file.log, i0)) ==> Kept(source, lane.writes, ext')
    ensures Whole(old(lane.tables), Extent(file.log, i0)) ==> Whole(lane.tables, ext')
    ensures outcome.Failed? ==> !Fine(file.log)
    ensures Paid(|old(lane.writes)|, |lane.writes|, commits, left, outcome)
    ensures outcome.Crashed? ==> commits < Bound(file.log)
    ensures outcome.Indexed? ==> commits - left <= Bound(file.log)
  {
    left, ext' := commits, Extent(file.log, i0);
    var held := AnchorHeld(lane, file, anchor, older, i0);
    if held { return Indexed, left, ext'; }
    outcome, left, ext' := AnchorHunt(lane, source, file, anchor, older, left, i0);
  }

  /** Whether the rows show, without reading the file, that coverage already begins low enough. */
  method AnchorHeld(lane: Lane, file: SourceFile, anchor: string, older: nat, ghost i0: nat) returns (held: bool)
    requires WellFormed(file) && i0 <= |file.log| && lane.Valid() && AtRest(lane.tables, Extent(file.log, i0)) && lane.tables.state.Some?
    ensures held && Known(file.log, lane.tables, Extent(file.log, i0)) ==> Recovered(file.log, i0, anchor, older)
  {
    var log, state := file.log, lane.tables.state.value;
    ghost var k, known := 0, Known(log, lane.tables, Extent(log, i0));
    if known {
      k := AnchorPlace(log, anchor);
      ReadAlike(log, false);
    }
    if state.IsComplete() { return true; }
    var row := TurnById(lane.tables, anchor);
    if row.None? || row.value.start < state.indexedFrom { return false; }
    var page := TurnsDesc(lane.tables.turns, Some(row.value.start), older);
    held := |page| == older && forall m :: 0 <= m < |page| ==> page[m].start >= state.indexedFrom;
    if held && known {
      AnchorRow(log, i0, lane.tables, anchor, k);
      CoveredTarget(log, i0, lane.tables, older, k, page);
    }
  }

  /** Reads back through the file for them, and fills coverage down to where they begin. */
  method AnchorHunt(lane: Lane, source: Source, file: SourceFile, anchor: string, older: nat, commits: nat, ghost i0: nat)
    returns (outcome: Outcome, left: nat, ghost ext': Extent)
    requires WellFormed(file) && Apart(file.log) && i0 <= |file.log| && lane.Valid() && AtRest(lane.tables, Extent(file.log, i0))
    requires lane.tables.state.Some? && Matches(lane.tables.state.value, file)
    modifies lane
    ensures lane.Valid() && AtRest(lane.tables, ext') && ext'.indexed == file.log && ext'.first <= i0
    ensures lane.tables.state.Some? && Matches(lane.tables.state.value, file)
    ensures outcome.Indexed? && Known(file.log, old(lane.tables), Extent(file.log, i0)) ==> Recovered(file.log, ext'.first, anchor, older)
    ensures Kept(source, old(lane.writes), Extent(file.log, i0)) ==> Kept(source, lane.writes, ext')
    ensures Whole(old(lane.tables), Extent(file.log, i0)) ==> Whole(lane.tables, ext')
    ensures outcome.Failed? ==> !Fine(file.log)
    ensures Paid(|old(lane.writes)|, |lane.writes|, commits, left, outcome)
    ensures outcome.Crashed? ==> commits < Bound(file.log)
    ensures outcome.Indexed? ==> commits - left <= Bound(file.log)
  {
    var log := file.log;
    left, ext' := commits, Extent(log, i0);
    ghost var k, known := 0, Known(log, lane.tables, ext');
    if known {
      k := AnchorPlace(log, anchor);
      ReadAlike(log, false);
    }
    RecordsFitTheFile(log);
    var hunt := VisitLogicalTurnsReverse(log, 0, Hunt(false, older, 0), Chase(anchor));
    if hunt.Unreadable? { return Failed(InvalidBoundary(hunt.offset)), left, ext'; }
    if known { ChaseFinds(Newest(log, 0), anchor, k, older); }
    var indexedFrom := hunt.state.from;
    if indexedFrom >= lane.tables.state.value.indexedFrom { return Indexed, left, ext'; }
    ghost var i := ChaseIsClean(log, anchor, older);
    if i >= i0 { FromAfter(log, i0, i); }
    outcome, left := IndexPrefixRange(lane, source, file, indexedFrom, left, i, i0);
    if outcome.Indexed? { ext' := Extent(log, i); }
  }

  lemma {:induction false} FromAfter(log: seq<Record>, i0: nat, i: nat)
    requires Tiled(log) && i0 <= i <= |log|
    ensures Offset(log, i0) <= Offset(log, i)
  {
    if i0 < i { OffsetsIncrease(log, i0, i); }
  }

  /** What the hunt ends with is byte 0 or the start of a listed turn. */
  lemma {:induction false} ChaseStart(turns: seq<Turn>, anchor: string, hunt: Hunt)
    ensures var from := Consume(turns, hunt, Chase(anchor)).0.from;
            from == hunt.from || exists t :: t in turns && t.start == from
  {
    if turns != [] {
      var (next, more) := Chase(anchor)(hunt, turns[0]);
      assert turns[0] in turns;
      if more {
        ChaseStart(turns[1..], anchor, next);
        assert forall t :: t in turns[1..] ==> t in turns;
      }
    }
  }

  lemma {:induction false} ChaseIsClean(log: seq<Record>, anchor: string, older: nat) returns (i: nat)
    requires Tiled(log) && Apart(log)
    ensures i <= |log| && CleanFrom(log, i)
    ensures Offset(log, i) == Consume(RevLogical(log, 0, 0, None, []), Hunt(false, older, 0), Chase(anchor)).0.from
  {
    var turns := RevLogical(log, 0, 0, None, []);
    var from := Consume(turns, Hunt(false, older, 0), Chase(anchor)).0.from;
    ChaseStart(turns, anchor, Hunt(false, older, 0));
    if from == 0 { return 0; }
    var t :| t in turns && t.start == from;
    i := ListedStart(log, false, t);
  }
}
