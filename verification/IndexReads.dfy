/**
 The indexed reads of scan.rs against the reference list of surviving turns: a live page, and a page
 of a frozen prefix read through the index of the file that keeps growing past it. Both are
 compared with the cold scan they stand in for.
 */
module IndexReads {
  import opened Wrappers
  import opened Transcript
  import opened ReverseScan
  import opened LogicalTurns
  import opened LogicalAgreement
  import opened TurnVisitors
  import opened ColdScan
  import opened SurvivingTurns
  import opened Store
  import opened ScanInvariants
  import opened Coverage
  import opened TableReads
  import opened ForwardScan

  // --- Parts of a descending list ---

  /** The turns of a list that start in `from..before`. */
  function Between(turns: seq<Turn>, from: nat, before: Option<nat>): (part: seq<Turn>) {
    if turns == [] then []
    else
      var t := turns[0];
      (if from <= t.start && (before.None? || t.start < before.value) then [t] else []) + Between(turns[1..], from, before)
  }

  lemma {:induction false} BetweenMembers(turns: seq<Turn>, from: nat, before: Option<nat>, t: Turn)
    ensures t in Between(turns, from, before) <==> t in turns && from <= t.start && (before.None? || t.start < before.value)
  {
    if turns != [] {
      BetweenMembers(turns[1..], from, before, t);
      assert turns == [turns[0]] + turns[1..];
    }
  }

  lemma {:induction false} BetweenDescends(turns: seq<Turn>, from: nat, before: Option<nat>)
    requires Descending(turns)
    ensures Descending(Between(turns, from, before))
  {
    if turns != [] {
      var rest := Between(turns[1..], from, before);
      BetweenDescends(turns[1..], from, before);
      forall k | 0 <= k < |rest| ensures rest[k].start < turns[0].start {
        BetweenMembers(turns[1..], from, before, rest[k]);
        var m :| 0 <= m < |turns| - 1 && turns[1..][m] == rest[k];
        assert turns[0].start > turns[m + 1].start;
      }
    }
  }

  /** Where everything starts below `from`, nothing is between. */
  lemma {:induction false} BetweenEmpty(turns: seq<Turn>, from: nat, before: Option<nat>)
    requires forall k :: 0 <= k < |turns| ==> turns[k].start < from
    ensures Between(turns, from, before) == []
  {
    if turns != [] { BetweenEmpty(turns[1..], from, before); }
  }

  /** A cold page begins with the turns from any floor on, and is no more than those if they fill it. */
  lemma {:induction false} PageAboveFloor(turns: seq<Turn>, from: nat, before: nat, limit: nat)
    requires Descending(turns)
    ensures var part := First(Between(turns, from, Some(before)), limit);
            part <= Taken(turns, before, limit) && (from == 0 || |part| == limit ==> part == Taken(turns, before, limit))
  {
    if turns == [] || limit == 0 { return; }
    var t, rest := turns[0], turns[1..];
    if from <= t.start < before {
      PageAboveFloor(rest, from, before, limit - 1);
      assert First([t] + Between(rest, from, Some(before)), limit) == [t] + First(Between(rest, from, Some(before)), limit - 1);
    } else if t.start >= before {
      PageAboveFloor(rest, from, before, limit);
      assert [] + Between(rest, from, Some(before)) == Between(rest, from, Some(before));
    } else {
      BetweenEmpty(turns, from, Some(before));
    }
  }

  // --- The rows are the survivors ---

  /** Inside coverage a row is a surviving turn, task or standalone, and every surviving turn has its row. */
  lemma {:induction false} RowsAreSurvivors(pre: seq<Record>, i: nat, ft: FileTables, t: Turn)
    requires i <= |pre| && Cover(pre, i, ft) && SinglesIn(pre, i, |pre|, ft) && Offset(pre, i) <= t.start
    ensures t.start in ft.turns && ft.turns[t.start] == t <==> Survives(pre, t)
  {
    TaskRowsExact(pre, i, ft, t);
    if t in Stack(pre) { return; }
    if Survives(pre, t) {
      var j :| 0 <= j < |pre| && IsThisSingle(pre, j, t.start, t);
      assert Abuts(pre, j);
      if j < i { OffsetsIncrease(pre, j, i); }
      assert SingleHeld(pre, j, ft);
    }
    if t.start in ft.turns && ft.turns[t.start] == t {
      var j := OtherRowsAreSingles(pre, i, ft, t.start);
      assert IsThisSingle(pre, j, t.start, t);
    }
  }

  /** The covered rows, read newest first, are the reference list. */
  lemma {:induction false} RowsListNewest(pre: seq<Record>, i: nat, ft: FileTables, before: Option<nat>)
    requires i <= |pre| && Cover(pre, i, ft) && SinglesIn(pre, i, |pre|, ft) && Exclusive(pre)
    ensures Lists(ft.turns, Offset(pre, i), before, Between(Newest(pre, 0), Offset(pre, i), before))
    ensures forall x :: x in ft.turns ==> ft.turns[x].start == x
  {
    var from, newest := Offset(pre, i), Newest(pre, 0);
    var list := Between(newest, from, before);
    NewestDescends(pre, 0);
    BetweenDescends(newest, from, before);
    forall k | 0 <= k < |list| ensures Listed(ft.turns, from, before, list[k]) {
      BetweenMembers(newest, from, before, list[k]);
      NewestAreSurvivors(pre, list[k]);
      RowsAreSurvivors(pre, i, ft, list[k]);
    }
    forall x | x in ft.turns ensures ft.turns[x].start == x { assert RowOrigin(pre, x, ft.turns[x]); }
    forall x | RowIn(ft.turns, from, before, x) ensures ft.turns[x] in list {
      assert RowOrigin(pre, x, ft.turns[x]);
      RowsAreSurvivors(pre, i, ft, ft.turns[x]);
      NewestAreSurvivors(pre, ft.turns[x]);
      BetweenMembers(newest, from, before, ft.turns[x]);
    }
  }

  // --- A record that is a turn by itself ---

  /** A record that is a turn by itself is listed as one, completed, over its own bytes, and nothing else starts there. */
  lemma {:induction false} SingleIsListed(log: seq<Record>, frozen: bool, j: nat)
    requires Tiled(log) && Exclusive(log) && j < |log| && log[j].standalone.Some? && !TopOpen(Stack(log[..j + 1]))
    ensures var (t, list) := (Turn(log[j].standalone.value, log[j].start, log[j].end, true), Surviving(log, frozen));
            t in list && forall u :: u in list && u.start == log[j].start ==> u == t
    ensures ReadsAlike(log, frozen) ==> ReverseTurns(log, frozen) == Surviving(log, frozen)
  {
    var t, list := Turn(log[j].standalone.value, log[j].start, log[j].end, true), Surviving(log, frozen);
    ReadsSurviving(log, frozen);
    assert IsThisSingle(log, j, t.start, t);
    NewestMembers(log, NextStart(log, frozen), t);
    NewestDescends(log, NextStart(log, frozen));
    var k :| 0 <= k < |list| && list[k] == t;
    forall u | u in list && u.start == log[j].start ensures u == t {
      var i :| 0 <= i < |list| && list[i] == u;
      assert i == k;
    }
  }

  /** So it is on a cold page below whose offset it starts, as exactly that turn, unless newer turns fill the page. */
  lemma {:induction false} PageShowsSingle(log: seq<Record>, frozen: bool, before: Option<nat>, limit: nat, j: nat)
    requires ReadsAlike(log, frozen) && j < |log| && log[j].standalone.Some? && !TopOpen(Stack(log[..j + 1]))
    ensures var t := Turn(log[j].standalone.value, log[j].start, log[j].end, true);
            var page := Taken(ReverseTurns(log, frozen), SearchEnd(log, before), limit);
            && (forall u :: u in page && u.start == log[j].start ==> u == t)
            && ((before.None? || log[j].start < before.value) && t !in page ==> |page| == limit && forall u :: u in page ==> u.start > t.start)
  {
    var t, list, end := Turn(log[j].standalone.value, log[j].start, log[j].end, true), ReverseTurns(log, frozen), SearchEnd(log, before);
    SingleIsListed(log, frozen, j);
    assert Abuts(log, j) && Offset(log, j) == log[j].start < Offset(log, j + 1);
    if j + 1 < |log| { OffsetsIncrease(log, j + 1, |log|); }
    NewestDescends(log, NextStart(log, frozen));
    TakenIs(list, end, limit);
  }

  // --- The live page ---

  datatype Page = Page(turns: seq<Turn>, hasMore: bool)

  /** The checkpoint matches this observation exactly. */
  predicate Fresh(state: FileState, file: SourceFile) {
    Matches(state, file) && state.indexedBytes == DurableEnd(file.log)
  }

  /** Only an observation of the very file that was indexed, at the same length and time, finds the checkpoint fresh. */
  lemma {:induction false} FreshMeans(state: FileState, seen: SourceFile, file: SourceFile)
    requires Describes(state, seen)
    ensures Fresh(state, file) <==>
              && (file.device, file.inode, file.modifiedNanos) == (seen.device, seen.inode, seen.modifiedNanos)
              && DurableEnd(file.log) == DurableEnd(seen.log)
              && file.tail(DurableEnd(seen.log)) == seen.tail(DurableEnd(seen.log))
  {
  }

  /** What a well-formed row looks like to a reader. */
  predicate RowInRange(t: Turn, from: nat, durable: nat) {
    from <= t.start && (t.end == 0 || t.start < t.end) && t.end <= durable
  }

  lemma {:induction false} SurvivorInRange(log: seq<Record>, t: Turn)
    requires Tiled(log) && Survives(log, t)
    ensures RowInRange(t, 0, DurableEnd(log))
  {
    if t in Stack(log) {
      var p :| 0 <= p < |Stack(log)| && Stack(log)[p] == t;
      StackShape(log);
    } else {
      var j :| 0 <= j < |log| && IsThisSingle(log, j, t.start, t);
      assert Abuts(log, j);
      if j + 1 < |log| { OffsetsIncrease(log, j + 1, |log|); }
    }
  }

  lemma {:induction false} RetainKeeps(page: seq<Turn>, from: nat)
    ensures forall t :: t in Retain(page, from) ==> t.start >= from
  {
    if page != [] { RetainKeeps(page[1..], from); }
  }

  /** `current_indexed_turns_from_file`: a page of rows, or nothing when the checkpoint is not this file's. */
  method CurrentIndexedTurns(ft: FileTables, file: SourceFile, before: Option<nat>, limit: nat,
          ghost ext: Extent) returns (r: Option<Page>)
    requires WellFormed(file) && AtRest(ft, ext) && Whole(ft, ext) && Exclusive(file.log)
    requires ft.state.Some? && Matches(ft.state.value, file) ==> ext.indexed <= file.log
    ensures r.Some? ==> ft.state.Some? && Fresh(ft.state.value, file)
    ensures ft.state.Some? && before.Some? && before.value <= ft.state.value.indexedFrom ==> r.None?
    ensures ft.state.Some? && Fresh(ft.state.value, file) && (before.Some? ==> before.value > ft.state.value.indexedFrom) ==>
              var from := ft.state.value.indexedFrom;
              var page := First(Between(Newest(file.log, 0), from, before), limit);
              r == if page == [] && from != 0 then None else Some(Page(page, from != 0 && |page| < limit))
  {
    if ft.state.None? || !Fresh(ft.state.value, file) { return None; }
    var state := ft.state.value;
    if before.Some? && before.value <= state.indexedFrom { return None; }
    OffsetInjective(file.log, |ext.indexed|, |file.log|);
    assert ext.indexed == file.log;
    RowsListNewest(file.log, ext.first, ft, before);
    ghost var list := Between(Newest(file.log, 0), state.indexedFrom, before);
    DescReads(ft.turns, state.indexedFrom, before, limit, list);
    var turns := Retain(TurnsDesc(ft.turns, before, limit), state.indexedFrom);
    if turns == [] && !state.IsComplete() { return None; }
    var k := 0;
    while k < |turns|
      invariant 0 <= k <= |turns|
    {
      BetweenMembers(Newest(file.log, 0), state.indexedFrom, before, turns[k]);
      NewestAreSurvivors(file.log, turns[k]);
      SurvivorInRange(file.log, turns[k]);
      if !RowInRange(turns[k], state.indexedFrom, DurableEnd(file.log)) { return None; }
      k := k + 1;
    }
    return Some(Page(turns, !state.IsComplete() && |turns| < limit));
  }

  /**
   The indexed page is the head of the cold page, and all of it unless the page says there is more
   below coverage.
   */
  lemma {:induction false} IndexedPageIsColdPage(log: seq<Record>, from: nat, before: Option<nat>, limit: nat)
    requires ReadsAlike(log, false)
    ensures var page := First(Between(Newest(log, 0), from, before), limit);
            var cold := Taken(ReverseTurns(log, false), SearchEnd(log, before), limit);
            page <= cold && (!(from != 0 && |page| < limit) ==> page == cold)
  {
    var newest, bound := Newest(log, 0), SearchEnd(log, before);
    ReadAlike(log, false);
    NewestDescends(log, 0);
    SameBetween(newest, from, before, Some(bound), DurableEnd(log));
    PageAboveFloor(newest, from, bound, limit);
  }

  /** A bound past every start may be replaced by the durable end. */
  lemma {:induction false} SameBetween(turns: seq<Turn>, from: nat, before: Option<nat>, bound: Option<nat>, durable: nat)
    requires forall t :: t in turns ==> t.start < durable
    requires bound == Some(if before.Some? then Min(before.value, durable) else durable)
    ensures Between(turns, from, before) == Between(turns, from, bound)
  {
    if turns != [] {
      assert turns[0] in turns;
      SameBetween(turns[1..], from, before, bound, durable);
    }
  }

  // --- A frozen prefix of a file that keeps growing ---

  /** How a reader closes a turn that runs past the fork point. */
  function CloseAtForkPoint(t: Turn, end: nat): (clipped: Turn) {
    if t.end == 0 || t.end > end then t.(end := end, completed := false) else t
  }

  function ClipAll(turns: seq<Turn>, end: nat): (clipped: seq<Turn>) {
    seq(|turns|, k requires 0 <= k < |turns| => CloseAtForkPoint(turns[k], end))
  }

  /** A turn that survives the whole log, seen from the prefix `log[..e]`: it survives there, and clipping gives its frozen range. */
  lemma {:induction false} SurvivorInPrefix(log: seq<Record>, e: nat, t: Turn)
    requires Tiled(log) && e <= |log| && t in Stack(log) && t.start < Offset(log, e)
    ensures CloseAtForkPoint(t, Offset(log, e)) in Interrupt(Stack(log[..e]), Offset(log, e))
  {
    var s, s0, end := Stack(log), Stack(log[..e]), Offset(log, e);
    var p :| 0 <= p < |s| && s[p] == t;
    assert log[..|log|] == log;
    StackRemains(log, e, |log|);
    TiledPrefix(log, e);
    StackShape(log[..e]);
    if s0[p].end == 0 {
      ClosedLater(log, e, |log|, p);
      assert Interrupt(s0, end)[p] == CloseAtForkPoint(t, end);
    } else {
      assert Interrupt(s0, end)[p] == s0[p] == t;
    }
  }

  /** Still open, ended later, or interrupted right at the fork point. */
  predicate EndsFrom(t: Turn, id: string, at: nat) {
    t.id == id && (t.end == 0 || t.end > at || (t.end == at && !t.completed))
  }

  lemma {:induction false} StepEndsFrom(s: seq<Turn>, r: Record, p: nat, id: string, at: nat)
    requires Shape(s, r.start) && r.start < r.end && at <= r.start
    requires p < |s| && EndsFrom(s[p], id, at) && p < |StepStack(s, r)| && StepStack(s, r)[p].start == s[p].start
    ensures EndsFrom(StepStack(s, r)[p], id, at)
  {
  }

  lemma {:induction false} StepKeepsStart(s: seq<Turn>, r: Record, p: nat)
    requires Shape(s, r.start) && p < |StepStack(s, r)| && StepStack(s, r)[p].start < r.start
    ensures p < |s| && s[p].start == StepStack(s, r)[p].start
  {
  }

  /** A turn open at record `e` ends there or later, and when it ends right there it was interrupted. */
  lemma {:induction false} ClosedLater(log: seq<Record>, e: nat, k: nat, p: nat)
    requires Tiled(log) && e <= k <= |log| && p < |Stack(log[..e])| && Stack(log[..e])[p].end == 0
    requires p < |Stack(log[..k])| && Stack(log[..k])[p].start == Stack(log[..e])[p].start
    ensures EndsFrom(Stack(log[..k])[p], Stack(log[..e])[p].id, Offset(log, e))
    decreases k
  {
    if e < k {
      var s, r := Stack(log[..k - 1]), log[k - 1];
      StackSnoc(log, k - 1);
      FromBefore(log, e, k - 1);
      TiledPrefix(log, k - 1);
      StackShape(log[..k - 1]);
      StartsBelow(log, e, p);
      StepKeepsStart(s, r, p);
      ClosedLater(log, e, k - 1, p);
      StepEndsFrom(s, r, p, Stack(log[..e])[p].id, Offset(log, e));
    }
  }

  lemma {:induction false} StartsBelow(log: seq<Record>, e: nat, p: nat)
    requires Tiled(log) && e <= |log| && p < |Stack(log[..e])|
    ensures Stack(log[..e])[p].start < Offset(log, e)
  {
    TiledPrefix(log, e);
    StackShape(log[..e]);
  }

  /** With no tombstone in range, nothing that the prefix holds has been removed later. */
  lemma {:induction false} PrefixSurvives(log: seq<Record>, i: nat, e: nat, ft: FileTables, from: nat, before: nat, t: Turn)
    requires i <= |log| && e <= |log| && Cover(log, i, ft) && Offset(log, i) <= from
    requires !HasRemovedTurns(ft.removed, from, before)
    requires t in Stack(log[..e]) && from <= t.start < before
    ensures t.start in Starts(Stack(log))
  {
    var s := Stack(log[..e]);
    var p :| 0 <= p < |s| && s[p] == t;
    assert log[..|log|] == log;
    StackBorn(log, 0, e, p);
    var b :| 0 <= b < e && BeginsAt(log[b], t.start);
    assert Abuts(log, b) && BeginsAt(log[b], t.start);
    if b < i { OffsetsIncrease(log, b, i); }
    assert Candidate(log, i, |log|, t.start);
  }

  lemma {:induction false} ExclusivePrefix(log: seq<Record>, e: nat)
    requires Exclusive(log) && e <= |log|
    ensures Exclusive(log[..e])
  {
  }

  /** A standalone turn of the prefix is one of the whole log, and the other way round. */
  lemma {:induction false} SingleInPrefix(log: seq<Record>, e: nat, j: nat, t: Turn)
    requires Tiled(log) && e <= |log| && j < |log| && t.start < Offset(log, e)
    requires IsThisSingle(log, j, t.start, t) || (j < e && IsThisSingle(log[..e], j, t.start, t))
    ensures j < e && IsThisSingle(log, j, t.start, t) && IsThisSingle(log[..e], j, t.start, t)
    ensures CloseAtForkPoint(t, Offset(log, e)) == t
  {
    assert Abuts(log, j);
    if e < j { OffsetsIncrease(log, e, j); }
    assert log[..e][..j + 1] == log[..j + 1];
    if j + 1 < e { OffsetsIncrease(log, j + 1, e); }
  }

  /** Every frozen task turn in range comes from a surviving turn of the whole log. */
  lemma {:induction false} FrozenSource(log: seq<Record>, i: nat, e: nat, ft: FileTables, from: nat,
          before: nat, t: Turn) returns (u: Turn)
    requires i <= |log| && e <= |log| && Cover(log, i, ft) && Exclusive(log) && Offset(log, i) <= from
    requires before <= Offset(log, e) && !HasRemovedTurns(ft.removed, from, before) && from <= t.start < before
    requires t in Interrupt(Stack(log[..e]), Offset(log, e))
    ensures u in Newest(log, 0) && CloseAtForkPoint(u, Offset(log, e)) == t
  {
    var s0, end := Stack(log[..e]), Offset(log, e);
    var frozen := Interrupt(s0, end);
    var p :| 0 <= p < |frozen| && frozen[p] == t;
    assert frozen[p].start == s0[p].start && s0[p] in s0;
    PrefixSurvives(log, i, e, ft, from, before, s0[p]);
    var q := StartsOf(Stack(log), t.start);
    u := Stack(log)[q];
    assert u in Stack(log);
    SurvivorInPrefix(log, e, u);
    OneFrozen(log, e, p, CloseAtForkPoint(u, end));
    NewestAreSurvivors(log, u);
  }

  /** A frozen prefix lists one turn per start. */
  lemma {:induction false} OneFrozen(log: seq<Record>, e: nat, p: nat, t: Turn)
    requires Tiled(log) && e <= |log| && p < |Stack(log[..e])|
    requires t in Interrupt(Stack(log[..e]), Offset(log, e)) && t.start == Stack(log[..e])[p].start
    ensures Interrupt(Stack(log[..e]), Offset(log, e))[p] == t
  {
    var s0, frozen := Stack(log[..e]), Interrupt(Stack(log[..e]), Offset(log, e));
    TiledPrefix(log, e);
    StackShape(log[..e]);
    var m :| 0 <= m < |frozen| && frozen[m] == t;
    assert frozen[m].start == s0[m].start;
  }

  /** The reading of a frozen prefix through the index, before paging: clipped rows are the frozen turns. */
  lemma {:induction false} FrozenTurns(log: seq<Record>, i: nat, e: nat, ft: FileTables, from: nat, before: nat, t: Turn)
    requires i <= |log| && e <= |log| && Cover(log, i, ft) && Exclusive(log) && Offset(log, i) <= from
    requires before <= Offset(log, e) && !HasRemovedTurns(ft.removed, from, before) && from <= t.start < before
    ensures (exists u :: u in Newest(log, 0) && CloseAtForkPoint(u, Offset(log, e)) == t) <==> t in Newest(log[..e], Offset(log, e))
  {
    var end, frozen := Offset(log, e), log[..e];
    TiledPrefix(log, e);
    ExclusivePrefix(log, e);
    NewestMembers(frozen, end, t);
    if exists u :: u in Newest(log, 0) && CloseAtForkPoint(u, end) == t {
      var u :| u in Newest(log, 0) && CloseAtForkPoint(u, end) == t;
      NewestAreSurvivors(log, u);
      if u in Stack(log) {
        SurvivorInPrefix(log, e, u);
      } else {
        var j :| 0 <= j < |log| && IsThisSingle(log, j, u.start, u);
        SingleInPrefix(log, e, j, u);
      }
    }
    if t in Newest(frozen, end) {
      if t in Interrupt(Stack(frozen), end) {
        var u := FrozenSource(log, i, e, ft, from, before, t);
      } else {
        var j :| 0 <= j < e && IsThisSingle(frozen, j, t.start, t);
        SingleInPrefix(log, e, j, t);
        NewestAreSurvivors(log, t);
        assert CloseAtForkPoint(t, end) == t;
      }
    }
  }

  lemma {:induction false} ClipDescends(turns: seq<Turn>, end: nat)
    requires Descending(turns)
    ensures Descending(ClipAll(turns, end))
    ensures forall t :: t in ClipAll(turns, end) <==> exists u :: u in turns && CloseAtForkPoint(u, end) == t
  {
    var clipped := ClipAll(turns, end);
    forall t ensures t in clipped <==> exists u :: u in turns && CloseAtForkPoint(u, end) == t {
      if t in clipped {
        var k :| 0 <= k < |clipped| && clipped[k] == t;
        assert turns[k] in turns;
      }
      if u :| u in turns && CloseAtForkPoint(u, end) == t {
        var k :| 0 <= k < |turns| && turns[k] == u;
        assert clipped[k] == t;
      }
    }
  }

  /**
   A frozen prefix read through the growing file's index: where no tombstone lies in range, the
   clipped rows of `from..before` are exactly the turns a scan of that prefix alone would find.
   */
  lemma {:induction false} FrozenRangeAgrees(log: seq<Record>, i: nat, e: nat, ft: FileTables, from: nat, before: nat)
    requires i <= |log| && e <= |log| && Cover(log, i, ft) && Exclusive(log) && Offset(log, i) <= from
    requires before <= Offset(log, e) && !HasRemovedTurns(ft.removed, from, before)
    ensures ClipAll(Between(Newest(log, 0), from, Some(before)), Offset(log, e))
         == Between(Newest(log[..e], Offset(log, e)), from, Some(before))
  {
    var end := Offset(log, e);
    var live, frozen := Newest(log, 0), Newest(log[..e], end);
    var a, b := ClipAll(Between(live, from, Some(before)), end), Between(frozen, from, Some(before));
    TiledPrefix(log, e);
    ExclusivePrefix(log, e);
    NewestDescends(log, 0);
    NewestDescends(log[..e], end);
    BetweenDescends(live, from, Some(before));
    BetweenDescends(frozen, from, Some(before));
    ClipDescends(Between(live, from, Some(before)), end);
    forall t ensures t in a <==> t in b {
      BetweenMembers(frozen, from, Some(before), t);
      ClippedMembers(live, end, from, before, t);
      if from <= t.start < before { FrozenTurns(log, i, e, ft, from, before, t); }
    }
    DescendingUnique(a, b);
  }

  lemma {:induction false} ClippedMembers(live: seq<Turn>, end: nat, from: nat, before: nat, t: Turn)
    requires Descending(live)
    ensures t in ClipAll(Between(live, from, Some(before)), end) <==>
              from <= t.start < before && exists u :: u in live && CloseAtForkPoint(u, end) == t
  {
    BetweenDescends(live, from, Some(before));
    ClipDescends(Between(live, from, Some(before)), end);
    if t in ClipAll(Between(live, from, Some(before)), end) {
      var u :| u in Between(live, from, Some(before)) && CloseAtForkPoint(u, end) == t;
      BetweenMembers(live, from, Some(before), u);
    }
    if u :| from <= t.start < before && u in live && CloseAtForkPoint(u, end) == t {
      BetweenMembers(live, from, Some(before), u);
    }
  }

  /** A full page holds everything from its oldest start on. */
  lemma {:induction false} FloorAtLast(turns: seq<Turn>, from: nat, before: nat, n: nat)
    requires Descending(turns) && 0 < n <= |Between(turns, from, Some(before))|
    ensures var page := First(Between(turns, from, Some(before)), n);
            Between(turns, page[n - 1].start, Some(before)) == page
  {
    var all := Between(turns, from, Some(before));
    var page := First(all, n);
    var low := page[n - 1].start;
    BetweenDescends(turns, from, Some(before));
    BetweenDescends(turns, low, Some(before));
    forall t ensures t in Between(turns, low, Some(before)) <==> t in page {
      BetweenMembers(turns, from, Some(before), t);
      BetweenMembers(turns, low, Some(before), t);
      BetweenMembers(turns, from, Some(before), all[n - 1]);
      if t in all && t.start >= low {
        var k :| 0 <= k < |all| && all[k] == t;
        assert k < n;
        assert page[k] == t;
      }
      if t in page {
        var k :| 0 <= k < n && page[k] == t;
        assert all[k] == t && t.start >= low;
      }
    }
    DescendingUnique(Between(turns, low, Some(before)), page);
  }

  lemma {:induction false} ClipFirst(turns: seq<Turn>, end: nat, n: nat)
    ensures ClipAll(First(turns, n), end) == First(ClipAll(turns, end), n)
  {
  }

  /** The index may answer for the prefix that ends at `end`: it reaches that far, and below the page asked for. */
  predicate CoversPrefix(ft: FileTables, file: SourceFile, end: nat, before0: nat) {
    && ft.state.Some? && ft.state.value.indexedBytes >= end && Matches(ft.state.value, file)
    && (Min(before0, end) > ft.state.value.indexedFrom || ft.state.value.IsComplete())
  }

  lemma {:induction false} ListedInRange(log: seq<Record>, from: nat, before: nat, limit: nat)
    requires Tiled(log) && Exclusive(log)
    ensures var page := First(Between(Newest(log, 0), from, Some(before)), limit);
            forall k :: 0 <= k < |page| ==> RowInRange(page[k], 0, DurableEnd(log))
  {
    var page := First(Between(Newest(log, 0), from, Some(before)), limit);
    forall k | 0 <= k < |page| ensures RowInRange(page[k], 0, DurableEnd(log)) {
      BetweenMembers(Newest(log, 0), from, Some(before), page[k]);
      NewestAreSurvivors(log, page[k]);
      SurvivorInRange(log, page[k]);
    }
  }

  /** The page that the rows of a covered prefix make up, or nothing. */
  ghost function FrozenPage(ft: FileTables, file: SourceFile, end: nat, before: nat, limit: nat, ext: Extent): (page: Option<Page>) {
    if !CoversPrefix(ft, file, end, before) then None
    else
      var from := ft.state.value.indexedFrom;
      var turns := First(Between(Newest(ext.indexed, 0), from, Some(Min(before, end))), limit);
      if turns == [] && from != 0 then None else Some(Page(turns, from != 0 && |turns| < limit))
  }

  /** The index has the whole page, and no tombstone lies in its range. */
  ghost predicate IndexServes(ft: FileTables, file: SourceFile, end: nat, before: nat, limit: nat, ext: Extent) {
    var page := FrozenPage(ft, file, end, before, limit, ext);
    page.Some? && !page.value.hasMore && !HasRemovedTurns(ft.removed, PageFloor(page.value.turns, limit), before)
  }

  /** `frozen_indexed_turns_from_file`: rows of the prefix that ends at `end`, unclipped. */
  method FrozenIndexedTurns(ft: FileTables, file: SourceFile, end: nat, before0: nat, limit: nat,
          ghost ext: Extent) returns (r: Option<Page>)
    requires WellFormed(file) && AtRest(ft, ext) && Whole(ft, ext) && Exclusive(file.log)
    requires ft.state.Some? && Matches(ft.state.value, file) ==> ext.indexed <= file.log
    ensures !CoversPrefix(ft, file, end, before0) ==> r.None?
    ensures CoversPrefix(ft, file, end, before0) ==>
              && ext.indexed <= file.log && end <= DurableEnd(ext.indexed)
              && var from := ft.state.value.indexedFrom;
                 var page := First(Between(Newest(ext.indexed, 0), from, Some(Min(before0, end))), limit);
                 r == if page == [] && from != 0 then None else Some(Page(page, from != 0 && |page| < limit))
  {
    if ft.state.None? || !(ft.state.value.indexedBytes >= end && Matches(ft.state.value, file)) { return None; }
    var state, before := ft.state.value, Min(before0, end);
    if before <= state.indexedFrom && !state.IsComplete() { return None; }
    ExclusivePrefix(file.log, |ext.indexed|);
    assert file.log[..|ext.indexed|] == ext.indexed;
    RowsListNewest(ext.indexed, ext.first, ft, Some(before));
    DescReads(ft.turns, state.indexedFrom, Some(before), limit, Between(Newest(ext.indexed, 0), state.indexedFrom, Some(before)));
    var turns := Retain(TurnsDesc(ft.turns, Some(before), limit), state.indexedFrom);
    if turns == [] && !state.IsComplete() { return None; }
    ListedInRange(ext.indexed, state.indexedFrom, before, limit);
    if exists k :: 0 <= k < |turns| && !RowInRange(turns[k], 0, state.indexedBytes) { return None; }
    return Some(Page(turns, !state.IsComplete() && |turns| < limit));
  }

  /**
   What the index answers for a prefix that ends at byte `end`: when the file the checkpoint describes
   reaches `end` and still matches, and coverage begins at byte 0 or holds a full page, then exactly while
   no tombstone lies in the page's range.
   */
  lemma {:induction false} ServesMeans(ft: FileTables, seen: SourceFile, file: SourceFile, end: nat, before: nat, limit: nat,
          ext: Extent, page: seq<Turn>)
    requires ft.state.Some? && Describes(ft.state.value, seen) && before <= end
    requires page == First(Between(Newest(ext.indexed, 0), ft.state.value.indexedFrom, Some(before)), limit)
    ensures IndexServes(ft, file, end, before, limit, ext) <==>
              && (file.device, file.inode) == (seen.device, seen.inode)
              && end <= DurableEnd(seen.log) <= DurableEnd(file.log)
              && file.tail(DurableEnd(seen.log)) == seen.tail(DurableEnd(seen.log))
              && (DurableEnd(file.log) > DurableEnd(seen.log) || file.modifiedNanos == seen.modifiedNanos)
              && (ft.state.value.indexedFrom == 0 || (ft.state.value.indexedFrom < before && |page| == limit && page != []))
              && forall x :: x in ft.removed && x < before ==> |page| == limit && page != [] && x < page[limit - 1].start
  {
    var state := ft.state.value;
    assert Min(before, end) == before && |page| <= limit;
    CheckpointHolds(state, seen, file);
    var from := PageFloor(page, limit);
    assert !HasRemovedTurns(ft.removed, from, before) <==> forall x :: x in ft.removed && x < before ==> x < from;
  }

  lemma {:induction false} ShortPage(live: seq<Turn>, frozen: seq<Turn>, before: nat, limit: nat, end: nat)
    requires Descending(frozen) && ClipAll(Between(live, 0, Some(before)), end) == Between(frozen, 0, Some(before))
    ensures ClipAll(First(Between(live, 0, Some(before)), limit), end) == Taken(frozen, before, limit)
  {
    ClipFirst(Between(live, 0, Some(before)), end, limit);
    PageAboveFloor(frozen, 0, before, limit);
  }

  lemma {:induction false} FullPage(live: seq<Turn>, frozen: seq<Turn>, floor: nat, before: nat, limit: nat,
          end: nat, from: nat)
    requires Descending(live) && Descending(frozen) && 0 < limit <= |Between(live, floor, Some(before))|
    requires from == First(Between(live, floor, Some(before)), limit)[limit - 1].start
    requires ClipAll(Between(live, from, Some(before)), end) == Between(frozen, from, Some(before))
    ensures ClipAll(First(Between(live, floor, Some(before)), limit), end) == Taken(frozen, before, limit)
  {
    FloorAtLast(live, floor, before, limit);
    PageAboveFloor(frozen, from, before, limit);
    assert |Between(frozen, from, Some(before))| == limit;
    assert First(Between(frozen, from, Some(before)), limit) == Between(frozen, from, Some(before));
  }

  /** From which byte on a page of the index must be free of tombstones. */
  function PageFloor(page: seq<Turn>, limit: nat): (from: nat) {
    if |page| < limit || page == [] then 0 else page[|page| - 1].start
  }

  /** The page the index serves for a frozen prefix is the page its own cold scan would find. */
  lemma {:induction false} FrozenPageAgrees(log: seq<Record>, i: nat, e: nat, ft: FileTables, before: nat,
          limit: nat, page: seq<Turn>)
    requires i <= |log| && e <= |log| && Cover(log, i, ft) && Exclusive(log) && before <= Offset(log, e)
    requires page == First(Between(Newest(log, 0), Offset(log, i), Some(before)), limit)
    requires |page| < limit ==> Offset(log, i) == 0
    requires !HasRemovedTurns(ft.removed, PageFloor(page, limit), before)
    ensures ClipAll(page, Offset(log, e)) == Taken(Surviving(log[..e], true), before, limit)
  {
    var end, floor, live, frozen := Offset(log, e), Offset(log, i), Newest(log, 0), Newest(log[..e], Offset(log, e));
    var from := PageFloor(page, limit);
    TiledPrefix(log, e);
    if limit == 0 { return; }
    NewestDescends(log, 0);
    NewestDescends(log[..e], end);
    PageAboveCoverage(live, floor, before, limit);
    FrozenRangeAgrees(log, i, e, ft, from, before);
    PageOfRange(live, frozen, floor, before, limit, end);
  }

  lemma {:induction false} PageAboveCoverage(live: seq<Turn>, floor: nat, before: nat, limit: nat)
    requires limit > 0 && (|First(Between(live, floor, Some(before)), limit)| < limit ==> floor == 0)
    ensures floor <= PageFloor(First(Between(live, floor, Some(before)), limit), limit)
  {
    var page := First(Between(live, floor, Some(before)), limit);
    if |page| >= limit { BetweenMembers(live, floor, Some(before), page[|page| - 1]); }
  }

  lemma {:induction false} PageOfRange(live: seq<Turn>, frozen: seq<Turn>, floor: nat, before: nat, limit: nat, end: nat)
    requires Descending(live) && Descending(frozen) && limit > 0
    requires |First(Between(live, floor, Some(before)), limit)| < limit ==> floor == 0
    requires var from := PageFloor(First(Between(live, floor, Some(before)), limit), limit);
             ClipAll(Between(live, from, Some(before)), end) == Between(frozen, from, Some(before))
    ensures ClipAll(First(Between(live, floor, Some(before)), limit), end) == Taken(frozen, before, limit)
  {
    var page := First(Between(live, floor, Some(before)), limit);
    if |page| < limit { ShortPage(live, frozen, before, limit, end); }
    else { FullPage(live, frozen, floor, before, limit, end, PageFloor(page, limit)); }
  }

  /**
   `frozen_latest`: through the index when it covers the page and no turn of its range was removed,
   by a scan of the prefix otherwise. Either way the page is the one the prefix alone determines.
   */
  method FrozenLatest(ft: FileTables, file: SourceFile, e: nat, before: Option<nat>, limit: nat,
          ghost ext: Extent) returns (r: Visited<seq<Turn>>)
    requires WellFormed(file) && e <= |file.log| && AtRest(ft, ext) && Whole(ft, ext) && Exclusive(file.log) && ReadsAlike(file.log[..e], true)
    requires ft.state.Some? && Matches(ft.state.value, file) ==> ext.indexed <= file.log
    ensures r.Finished? ==> r.state == Taken(Surviving(file.log[..e], true), SearchEnd(file.log[..e], before), limit)
    ensures r.Unreadable? <==>
              && !IndexServes(ft, file, DurableEnd(file.log[..e]), SearchEnd(file.log[..e], before), limit, ext)
              && exists j: nat :: PageBlocked(file.log[..e], true, j, SearchEnd(file.log[..e], before), limit)
    ensures r.Unreadable? ==> exists j: nat :: NewestUnreadable(file.log[..e], j) && file.log[j].start == r.offset
  {
    var log := file.log[..e];
    TiledPrefix(file.log, e);
    var end := DurableEnd(log);
    var bound := SearchEnd(log, before);
    var indexed := FrozenIndexedTurns(ft, file, end, bound, limit, ext);
    assert indexed == FrozenPage(ft, file, end, bound, limit, ext);
    if indexed.Some? && !indexed.value.hasMore {
      var turns := indexed.value.turns;
      if !HasRemovedTurns(ft.removed, PageFloor(turns, limit), bound) {
        PrefixInside(file.log, ext.indexed, e);
        FrozenPageAgrees(ext.indexed, ext.first, e, ft, bound, limit, turns);
        return Finished(ClipAll(turns, end));
      }
    }
    RecordsFitTheFile(log);
    if e < |file.log| { OffsetsIncrease(file.log, e, |file.log|); }
    r := ScanTailTurns(log, true, Some(bound), limit);
  }

  /** A prefix whose bytes are indexed is a prefix of the indexed lines. */
  lemma {:induction false} PrefixInside(log: seq<Record>, indexed: seq<Record>, e: nat)
    requires Tiled(log) && indexed <= log && e <= |log| && Offset(log, e) <= DurableEnd(indexed) && Exclusive(log)
    ensures e <= |indexed| && indexed[..e] == log[..e] && Offset(indexed, e) == Offset(log, e) && Exclusive(indexed)
  {
    if e > |indexed| { OffsetsIncrease(log, |indexed|, e); }
  }
}
