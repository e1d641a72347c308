/**
 The cold reads of scan.rs: pages of turns discovered from the durable tail without an index, and the
 neighbours of an anchor. Each is told twice: over the list the reverse visitor finds, for every log,
 and over the surviving turns, for every log on which the two agree.
 */
module ColdScan {
  import opened Wrappers
  import opened Transcript
  import opened ReverseScan
  import opened LogicalTurns
  import opened SurvivingTurns
  import opened LogicalAgreement
  import opened TurnVisitors

  // --- Pages ---

  /** The first `limit` turns that start before `before`. */
  function Taken(turns: seq<Turn>, before: nat, limit: nat): (page: seq<Turn>) {
    if limit == 0 || turns == [] then []
    else if turns[0].start < before then [turns[0]] + Taken(turns[1..], before, limit - 1)
    else Taken(turns[1..], before, limit)
  }

  function CollectPage(before: nat, limit: nat): (visit: (seq<Turn>, Turn) -> (seq<Turn>, bool)) {
    (page: seq<Turn>, turn: Turn) =>
      var page' := if turn.start < before then page + [turn] else page;
      (page', |page'| < limit)
  }

  lemma {:induction false} CollectTakes(turns: seq<Turn>, page: seq<Turn>, before: nat, limit: nat)
    requires |page| < limit
    ensures Consume(turns, page, CollectPage(before, limit)).0 == page + Taken(turns, before, limit - |page|)
    ensures Consume(turns, page, CollectPage(before, limit)).1 <==> |page + Taken(turns, before, limit - |page|)| < limit
  {
    if turns != [] {
      var page' := if turns[0].start < before then page + [turns[0]] else page;
      if |page'| < limit { CollectTakes(turns[1..], page', before, limit); }
    }
  }

  function ReverseTurns(log: seq<Record>, frozen: bool): (turns: seq<Turn>) {
    RevLogical(log, 0, NextStart(log, frozen), None, [])
  }

  /** The turns that survive, as a cold read of the live file or of the frozen prefix should list them. */
  function Surviving(log: seq<Record>, frozen: bool): (turns: seq<Turn>) {
    Newest(log, NextStart(log, frozen))
  }

  lemma {:induction false} ReadsSurviving(log: seq<Record>, frozen: bool)
    ensures ReadsAlike(log, frozen) ==> ReverseTurns(log, frozen) == Surviving(log, frozen)
  {
    if ReadsAlike(log, frozen) { ReadAlike(log, frozen); }
  }

  function SearchEnd(log: seq<Record>, before: Option<nat>): (end: nat) {
    if before.Some? then Min(before.value, DurableEnd(log)) else DurableEnd(log)
  }

  lemma {:induction false} TakesNothing(turns: seq<Turn>, limit: nat)
    ensures Taken(turns, 0, limit) == []
  {
    if turns != [] && limit > 0 { TakesNothing(turns[1..], limit); }
  }

  /** A page holds listed turns below its offset, newest first; one is left out only of a full page of newer turns. */
  ghost predicate IsPage(turns: seq<Turn>, before: nat, limit: nat, page: seq<Turn>) {
    && |page| <= limit && Descending(page)
    && (forall t :: t in page ==> t in turns && t.start < before)
    && (forall t :: t in turns && t.start < before && t !in page ==> |page| == limit && forall u :: u in page ==> u.start > t.start)
  }

  lemma {:induction false} TakenIs(turns: seq<Turn>, before: nat, limit: nat)
    requires Descending(turns)
    ensures IsPage(turns, before, limit, Taken(turns, before, limit))
  {
    if limit > 0 && turns != [] {
      var room := if turns[0].start < before then limit - 1 else limit;
      assert turns == [turns[0]] + turns[1..];
      TakenIs(turns[1..], before, room);
      OneMoreTaken(turns, before, room, Taken(turns[1..], before, room));
    }
  }

  lemma {:induction false} OneMoreTaken(turns: seq<Turn>, before: nat, room: nat, page: seq<Turn>)
    requires turns != [] && Descending(turns) && IsPage(turns[1..], before, room, page)
    ensures if turns[0].start < before then IsPage(turns, before, room + 1, [turns[0]] + page) else IsPage(turns, before, room, page)
  {
    var first, rest := turns[0], turns[1..];
    FirstIsNewest(turns);
    if first.start < before { PageWithFirst(first, rest, before, room, page); }
    assert forall t :: t in turns <==> t == first || t in rest;
  }

  lemma {:induction false} FirstIsNewest(turns: seq<Turn>)
    requires turns != [] && Descending(turns)
    ensures forall t :: t in turns[1..] ==> t.start < turns[0].start
  {
    forall t | t in turns[1..] ensures t.start < turns[0].start {
      var q :| 0 <= q < |turns[1..]| && turns[1..][q] == t;
      assert turns[q + 1] == t;
    }
  }

  lemma {:induction false} PageWithFirst(first: Turn, rest: seq<Turn>, before: nat, room: nat, page: seq<Turn>)
    requires IsPage(rest, before, room, page) && first.start < before && forall t :: t in rest ==> t.start < first.start
    ensures var more := [first] + page;
            && Descending(more) && (forall u :: u in more <==> u == first || u in page)
            && (forall t :: t in rest && t.start < before && t !in more ==> |more| == room + 1 && forall u :: u in more ==> u.start > t.start)
  {
  }

  // --- Where an unreadable line stops a scan ---

  /** The turns a scan has met once it has read back to record `i`. */
  function MetFrom(log: seq<Record>, frozen: bool, i: nat): (turns: seq<Turn>)
    requires i <= |log|
  {
    LogicalRecords(LogicalRegs(0, NextStart(log, frozen), None, []), log[i..]).1
  }

  ghost predicate NewestUnreadable(log: seq<Record>, j: nat) {
    j < |log| && log[j].mark.Broken? && ReadableIn(log, j + 1, |log|)
  }

  lemma {:induction false} SomeIsNewest(log: seq<Record>, hi: nat) returns (j: nat)
    requires hi <= |log| && ReadableIn(log, hi, |log|) && !Readable(log)
    ensures NewestUnreadable(log, j)
  {
    if log[hi - 1].mark.Broken? { return hi - 1; }
    j := SomeIsNewest(log, hi - 1);
  }

  /** The newest unreadable record stops the scan, because the page is not full when the scan gets there. */
  ghost predicate PageBlocked(log: seq<Record>, frozen: bool, j: nat, before: nat, limit: nat) {
    NewestUnreadable(log, j) && before > 0 && |Taken(MetFrom(log, frozen, j + 1), before, limit)| < limit
  }

  lemma {:induction false} PageBlocks(log: seq<Record>, frozen: bool, j: nat, before: nat, limit: nat)
    requires before > 0 && limit > 0
    ensures BlocksLogical(log, j, NextStart(log, frozen), [], CollectPage(before, limit)) <==> PageBlocked(log, frozen, j, before, limit)
  {
    if j < |log| {
      var met := MetFrom(log, frozen, j + 1);
      CollectTakes(met, [], before, limit);
      assert [] + Taken(met, before, limit) == Taken(met, before, limit);
    }
  }

  method ScanTailTurns(log: seq<Record>, frozen: bool, before: Option<nat>, limit: nat) returns (r: Visited<seq<Turn>>)
    requires |log| <= U64_MAX
    ensures r.Finished? ==> r.state == Taken(ReverseTurns(log, frozen), SearchEnd(log, before), limit)
    ensures r.Finished? && ReadsAlike(log, frozen) ==> r.state == Taken(Surviving(log, frozen), SearchEnd(log, before), limit)
    ensures r.Unreadable? <==> exists j: nat :: PageBlocked(log, frozen, j, SearchEnd(log, before), limit)
    ensures r.Unreadable? ==> exists j: nat :: NewestUnreadable(log, j) && log[j].start == r.offset
  {
    ReadsSurviving(log, frozen);
    var searchEnd := SearchEnd(log, before);
    if limit == 0 || searchEnd == 0 {
      TakesNothing(ReverseTurns(log, frozen), limit);
      return Finished([]);
    }
    r := VisitLogicalTurnsReverse(log, NextStart(log, frozen), [], CollectPage(searchEnd, limit));
    VisitIsPage(log, frozen, searchEnd, limit, r);
  }

  lemma {:induction false} VisitIsPage(log: seq<Record>, frozen: bool, before: nat, limit: nat, r: Visited<seq<Turn>>)
    requires limit > 0 && before > 0 && VisitsLogical(log, NextStart(log, frozen), [], CollectPage(before, limit), r)
    ensures r.Finished? ==> r.state == Taken(ReverseTurns(log, frozen), before, limit)
    ensures r.Unreadable? <==> exists j: nat :: PageBlocked(log, frozen, j, before, limit)
    ensures r.Unreadable? ==> exists j: nat :: NewestUnreadable(log, j) && log[j].start == r.offset
  {
    CollectTakes(ReverseTurns(log, frozen), [], before, limit);
    forall j: nat ensures BlocksLogical(log, j, NextStart(log, frozen), [], CollectPage(before, limit)) <==> PageBlocked(log, frozen, j, before, limit) {
      PageBlocks(log, frozen, j, before, limit);
    }
  }

  /** On a descending list the turns before an offset are what follows it. */
  lemma {:induction false} TakenSkips(turns: seq<Turn>, k: nat, before: nat, limit: nat)
    requires Descending(turns) && k <= |turns|
    requires forall i :: 0 <= i < k ==> turns[i].start >= before
    requires k < |turns| ==> turns[k].start < before
    ensures Taken(turns, before, limit) == turns[k..][..Min(limit, |turns| - k)]
    decreases |turns|, limit
  {
    if limit == 0 || turns == [] { return; }
    if k > 0 {
      TakenSkips(turns[1..], k - 1, before, limit);
      assert turns[1..][k - 1..] == turns[k..];
    } else {
      if |turns| > 1 { assert turns[1].start < turns[0].start; }
      TakenSkips(turns[1..], 0, before, limit - 1);
      assert turns[0..][..Min(limit, |turns|)] == [turns[0]] + turns[1..][..Min(limit - 1, |turns| - 1)];
    }
  }

  // --- All pages ---

  ghost predicate StartFrom(turns: seq<Turn>, from: nat) {
    forall i :: 0 <= i < |turns| ==> turns[i].start >= from
  }

  /** One record more: it starts before all that was held back. */
  lemma {:induction false} RecordStartsFrom(r: Record, regs: LogicalRegs)
    requires StartFrom(regs.pending, r.start)
    ensures var (next, turns) := LogicalRecord(regs, r); StartFrom(turns, r.start) && StartFrom(next.pending, r.start)
  {
  }

  /** What a scan meets or holds back by the time it has read record `i` starts there or later. */
  lemma {:induction false} MetStartsFrom(log: seq<Record>, i: nat, start: LogicalRegs)
    requires Tiled(log) && i <= |log| && start.pending == []
    ensures var (carried, seen) := LogicalRecords(start, log[i..]);
            StartFrom(seen, Offset(log, i)) && StartFrom(carried.pending, Offset(log, i))
    decreases |log| - i
  {
    if i < |log| {
      MetStartsFrom(log, i + 1, start);
      assert Abuts(log, i) && Offset(log, i) == log[i].start <= Offset(log, i + 1);
      var (carried, seen) := LogicalRecords(start, log[i + 1..]);
      RecordStartsFrom(log[i], carried);
      LogicalBelow(log[i], log[i + 1..], start);
      assert log[i..] == [log[i]] + log[i + 1..];
    } else {
      assert log[i..] == [];
    }
  }

  lemma {:induction false} TakenHead(a: seq<Turn>, b: seq<Turn>, before: nat, limit: nat)
    ensures Taken(a, before, limit) <= Taken(a + b, before, limit)
    ensures |Taken(a, before, limit)| == limit ==> Taken(a + b, before, limit) == Taken(a, before, limit)
  {
    if limit > 0 && a != [] {
      assert (a + b)[1..] == a[1..] + b && (a + b)[0] == a[0];
      TakenHead(a[1..], b, before, if a[0].start < before then limit - 1 else limit);
    }
  }

  lemma {:induction false} TakenMembers(turns: seq<Turn>, before: nat, limit: nat, from: nat)
    requires StartFrom(turns, from)
    ensures |Taken(turns, before, limit)| <= limit && StartFrom(Taken(turns, before, limit), from)
  {
    if limit > 0 && turns != [] {
      assert forall i :: 0 <= i < |turns| - 1 ==> turns[1..][i] == turns[i + 1];
      TakenMembers(turns[1..], before, if turns[0].start < before then limit - 1 else limit, from);
    }
  }

  /** What a page holds by the time record `i` was read is the head of the whole page. */
  lemma {:induction false} PageBegun(log: seq<Record>, frozen: bool, i: nat, before: nat, limit: nat)
    requires i <= |log|
    ensures var page, met := Taken(ReverseTurns(log, frozen), before, limit), Taken(MetFrom(log, frozen, i), before, limit);
            met <= page && (|met| == limit ==> page == met)
  {
    var start := LogicalRegs(0, NextStart(log, frozen), None, []);
    LogicalHead(log, i, start);
    TakenHead(MetFrom(log, frozen, i), RevRegs(log[..i], LogicalRecords(start, log[i..]).0), before, limit);
  }

  /** A page that was full before the scan got to record `j` holds only turns that start behind that record. */
  lemma {:induction false} FullPageStarts(log: seq<Record>, frozen: bool, j: nat, before: nat, limit: nat)
    requires Tiled(log) && NewestUnreadable(log, j) && before > 0 && !PageBlocked(log, frozen, j, before, limit)
    ensures StartFrom(Taken(ReverseTurns(log, frozen), before, limit), log[j].end)
  {
    var start, met := LogicalRegs(0, NextStart(log, frozen), None, []), MetFrom(log, frozen, j + 1);
    MetStartsFrom(log, j + 1, start);
    TakenMembers(met, before, limit, log[j].end);
    PageBegun(log, frozen, j + 1, before, limit);
  }

  /** Repeating the scan from the oldest turn of each page, as a reader that wants them all does. */
  method ListByPages(log: seq<Record>, frozen: bool, limit: nat) returns (r: Visited<seq<Turn>>)
    requires |log| <= U64_MAX && limit > 0 && ReadsAlike(log, frozen)
    ensures r.Finished? ==> r.state == Surviving(log, frozen)
    ensures r.Unreadable? <==> !Readable(log)
    ensures r.Unreadable? ==> exists j: nat :: NewestUnreadable(log, j) && log[j].start == r.offset
  {
    ReadsSurviving(log, frozen);
    NewestDescends(log, NextStart(log, frozen));
    r := ListPages(log, frozen, limit);
  }

  method ListPages(log: seq<Record>, frozen: bool, limit: nat) returns (r: Visited<seq<Turn>>)
    requires |log| <= U64_MAX && limit > 0 && Tiled(log) && Descending(ReverseTurns(log, frozen))
    requires forall t :: t in ReverseTurns(log, frozen) ==> t.start < DurableEnd(log)
    ensures r.Finished? ==> r.state == ReverseTurns(log, frozen)
    ensures r.Unreadable? <==> !Readable(log)
    ensures r.Unreadable? ==> exists j: nat :: NewestUnreadable(log, j) && log[j].start == r.offset
  {
    var listed, before := [], None;
    while true
      invariant PagesTo(log, frozen, listed, before)
      decreases |ReverseTurns(log, frozen)| - |listed|
    {
      r := ScanTailTurns(log, frozen, before, limit);
      if r.Unreadable? {
        UnreadableIsOne(log);
        return;
      }
      var page := r.state;
      NextPage(log, frozen, listed, before, limit, page);
      if page == [] { return Finished(listed); }
      listed := listed + page;
      before := Some(page[|page| - 1].start);
    }
  }

  /** These turns are listed so far, and `before` is where the next page ends. */
  ghost predicate PagesTo(log: seq<Record>, frozen: bool, listed: seq<Turn>, before: Option<nat>) {
    && listed <= ReverseTurns(log, frozen)
    && before == (if listed == [] then None else Some(listed[|listed| - 1].start))
    && (listed != [] ==> forall j: nat :: NewestUnreadable(log, j) ==> listed[|listed| - 1].start >= log[j].end)
  }

  lemma {:induction false} NextPage(log: seq<Record>, frozen: bool, listed: seq<Turn>, before: Option<nat>,
          limit: nat, page: seq<Turn>)
    requires Tiled(log) && limit > 0 && Descending(ReverseTurns(log, frozen)) && PagesTo(log, frozen, listed, before)
    requires forall t :: t in ReverseTurns(log, frozen) ==> t.start < DurableEnd(log)
    requires page == Taken(ReverseTurns(log, frozen), SearchEnd(log, before), limit)
    requires !exists j: nat :: PageBlocked(log, frozen, j, SearchEnd(log, before), limit)
    ensures |listed| + |page| <= |ReverseTurns(log, frozen)|
    ensures page != [] ==> PagesTo(log, frozen, listed + page, Some(page[|page| - 1].start))
    ensures page == [] ==> listed == ReverseTurns(log, frozen) && Readable(log)
  {
    var all := ReverseTurns(log, frozen);
    PageFollows(log, frozen, before, limit, |listed|, page);
    PrefixGrows(all, listed, page);
    if page == [] { LastPageReadsAll(log, frozen, before, limit); }
  }

  lemma {:induction false} PrefixGrows(all: seq<Turn>, listed: seq<Turn>, page: seq<Turn>)
    requires listed <= all && |listed| + |page| <= |all| && page == all[|listed|..|listed| + |page|]
    ensures listed + page <= all && (page != [] ==> (listed + page)[|listed + page| - 1] == page[|page| - 1])
    ensures |listed| == |all| ==> listed == all
  {
  }

  lemma {:induction false} UnreadableIsOne(log: seq<Record>)
    ensures (exists j: nat :: NewestUnreadable(log, j)) ==> !Readable(log)
  {
    if j: nat :| NewestUnreadable(log, j) { assert log[j].mark.Broken?; }
  }

  /** The next page is what follows the turns listed so far, and the scan for it passed no unreadable record newer than its turns. */
  lemma {:induction false} PageFollows(log: seq<Record>, frozen: bool, before: Option<nat>, limit: nat, k: nat, page: seq<Turn>)
    requires Tiled(log) && limit > 0 && Descending(ReverseTurns(log, frozen)) && k <= |ReverseTurns(log, frozen)|
    requires forall t :: t in ReverseTurns(log, frozen) ==> t.start < DurableEnd(log)
    requires before == if k == 0 then None else Some(ReverseTurns(log, frozen)[k - 1].start)
    requires page == Taken(ReverseTurns(log, frozen), SearchEnd(log, before), limit)
    requires !exists j: nat :: PageBlocked(log, frozen, j, SearchEnd(log, before), limit)
    ensures k + |page| <= |ReverseTurns(log, frozen)| && page == ReverseTurns(log, frozen)[k..k + |page|]
    ensures page == [] ==> k == |ReverseTurns(log, frozen)|
    ensures page != [] ==> forall j: nat :: NewestUnreadable(log, j) ==> page[|page| - 1].start >= log[j].end
  {
    var all, end := ReverseTurns(log, frozen), SearchEnd(log, before);
    assert k > 0 ==> end == all[k - 1].start;
    TakenSkips(all, k, end, limit);
    assert page == all[k..][..Min(limit, |all| - k)];
    forall j: nat | page != [] && NewestUnreadable(log, j) ensures page[|page| - 1].start >= log[j].end {
      if end == 0 { TakesNothing(all, limit); }
      FullPageStarts(log, frozen, j, end, limit);
    }
  }

  /** An empty page was looked for down to the first record. */
  lemma {:induction false} LastPageReadsAll(log: seq<Record>, frozen: bool, before: Option<nat>, limit: nat)
    requires Tiled(log) && limit > 0 && Taken(ReverseTurns(log, frozen), SearchEnd(log, before), limit) == []
    requires !exists j: nat :: PageBlocked(log, frozen, j, SearchEnd(log, before), limit)
    requires before.Some? ==> forall j: nat :: NewestUnreadable(log, j) ==> before.value >= log[j].end
    ensures Readable(log)
  {
    if !Readable(log) {
      var end := SearchEnd(log, before);
      var j := SomeIsNewest(log, |log|);
      assert NewestUnreadable(log, j) && Abuts(log, j);
      if j + 1 < |log| { OffsetsIncrease(log, j + 1, |log|); }
      assert end > 0;
      EmptyPageBlocks(log, frozen, j, end, limit);
    }
  }

  lemma {:induction false} EmptyPageBlocks(log: seq<Record>, frozen: bool, j: nat, before: nat, limit: nat)
    requires NewestUnreadable(log, j) && before > 0 && limit > 0 && Taken(ReverseTurns(log, frozen), before, limit) == []
    ensures PageBlocked(log, frozen, j, before, limit)
  {
    PageBegun(log, frozen, j + 1, before, limit);
    assert |Taken(MetFrom(log, frozen, j + 1), before, limit)| <= |Taken(ReverseTurns(log, frozen), before, limit)|;
  }

  // --- The neighbours of an anchor ---

  /** The turns that have ended. */
  function Closed(turns: seq<Turn>): (r: seq<Turn>) {
    if turns == [] then []
    else
      var last := turns[|turns| - 1];
      Closed(turns[..|turns| - 1]) + (if last.end != 0 then [last] else [])
  }

  lemma {:induction false} ClosedConcat(a: seq<Turn>, b: seq<Turn>)
    ensures Closed(a + b) == Closed(a) + Closed(b)
  {
    if b == [] {
      assert a + b == a;
    } else {
      ClosedConcat(a, b[..|b| - 1]);
      assert (a + b)[..|a + b| - 1] == a + b[..|b| - 1];
    }
  }

  lemma {:induction false} ClosedSnoc(turns: seq<Turn>, t: Turn)
    ensures Closed(turns + [t]) == if t.end != 0 then Closed(turns) + [t] else Closed(turns)
  {
    assert (turns + [t])[..|turns|] == turns;
    assert Closed(turns) + [] == Closed(turns);
  }

  function Newer(anchor: string, limit: nat): (visit: ((bool, seq<Turn>), Turn) -> ((bool, seq<Turn>), bool)) {
    (state: (bool, seq<Turn>), turn: Turn) =>
      if turn.id == anchor then ((turn.end != 0, state.1), false)
      else if turn.end != 0 && limit > 0 then
        ((state.0, (if |state.1| == limit then state.1[1..] else state.1) + [turn]), true)
      else (state, true)
  }

  /** The last `n` turns of a list. */
  function Last(turns: seq<Turn>, n: nat): (r: seq<Turn>) {
    turns[|turns| - Min(n, |turns|)..]
  }

  /** `k` is the place of the anchor: the newest turn with its id. */
  ghost predicate AnchorAt(turns: seq<Turn>, anchor: string, k: nat) {
    && k <= |turns|
    && (k < |turns| ==> turns[k].id == anchor)
    && (forall i :: 0 <= i < k ==> turns[i].id != anchor)
  }

  lemma {:induction false} LastSnoc(turns: seq<Turn>, t: Turn, n: nat)
    requires n > 0
    ensures Last(turns + [t], n) == (if |Last(turns, n)| == n then Last(turns, n)[1..] else Last(turns, n)) + [t]
  {
  }

  lemma {:induction false} NewerStep(seen: seq<Turn>, t: Turn, anchor: string, limit: nat)
    requires t.id != anchor
    ensures Newer(anchor, limit)((false, Last(Closed(seen), limit)), t) == ((false, Last(Closed(seen + [t]), limit)), true)
  {
    var kept := Last(Closed(seen), limit);
    ClosedSnoc(seen, t);
    if t.end == 0 || limit == 0 {
      assert Newer(anchor, limit)((false, kept), t) == ((false, kept), true);
      assert Last(Closed(seen + [t]), limit) == kept;
    } else {
      LastSnoc(Closed(seen), t, limit);
      assert Newer(anchor, limit)((false, kept), t) == ((false, (if |kept| == limit then kept[1..] else kept) + [t]), true);
    }
  }

  /** The bounded deque keeps the last `limit` closed turns met before the anchor. */
  lemma {:induction false} DequeKeepsLast(turns: seq<Turn>, anchor: string, limit: nat, k: nat, seen: seq<Turn>)
    requires AnchorAt(turns, anchor, k)
    ensures Consume(turns, (false, Last(Closed(seen), limit)), Newer(anchor, limit)).0
         == (k < |turns| && turns[k].end != 0, Last(Closed(seen + turns[..k]), limit))
  {
    if turns == [] || k == 0 {
      assert seen + turns[..k] == seen;
    } else {
      var t := turns[0];
      assert turns[0].id != anchor;
      NewerStep(seen, t, anchor, limit);
      assert Consume(turns, (false, Last(Closed(seen), limit)), Newer(anchor, limit))
          == Consume(turns[1..], (false, Last(Closed(seen + [t]), limit)), Newer(anchor, limit));
      assert AnchorAt(turns[1..], anchor, k - 1) by {
        assert forall i :: 0 <= i < |turns| - 1 ==> turns[1..][i] == turns[i + 1];
      }
      DequeKeepsLast(turns[1..], anchor, limit, k - 1, seen + [t]);
      assert seen + [t] + turns[1..][..k - 1] == seen + turns[..k];
    }
  }

  /** The nearest `limit` closed turns after the anchor at place `k`, oldest first; nothing without a closed anchor. */
  function AfterAnchor(turns: seq<Turn>, k: nat, limit: nat): (page: Option<seq<Turn>>) {
    if k < |turns| && turns[k].end != 0 then Some(Reverse(Last(Closed(turns[..k]), limit))) else None
  }

  /** The nearest `limit` closed turns before it, newest first. */
  function BeforeAnchor(turns: seq<Turn>, k: nat, limit: nat): (page: Option<seq<Turn>>) {
    if k < |turns| && turns[k].end != 0 then Some(First(Closed(turns[k + 1..]), limit)) else None
  }

  lemma {:induction false} ClosedAre(turns: seq<Turn>)
    ensures forall t :: t in Closed(turns) <==> t in turns && t.end != 0
  {
    if turns != [] {
      var init, last := turns[..|turns| - 1], turns[|turns| - 1];
      ClosedAre(init);
      assert turns == init + [last];
    }
  }

  lemma {:induction false} ClosedDescends(turns: seq<Turn>)
    requires Descending(turns)
    ensures Descending(Closed(turns))
  {
    if turns != [] {
      var init := turns[..|turns| - 1];
      ClosedDescends(init);
      ClosedAre(init);
    }
  }

  /** A page of closed turns beside the anchor: `page` holds some that lie on its side, all of them unless it is full. */
  ghost predicate Neighbours(side: seq<Turn>, limit: nat, page: seq<Turn>) {
    && |page| <= limit
    && (forall t :: t in page ==> t in side && t.end != 0)
    && (forall t :: t in side && t.end != 0 && t !in page ==> |page| == limit)
  }

  lemma {:induction false} NeighboursOf(side: seq<Turn>, limit: nat, page: seq<Turn>)
    requires |page| == Min(limit, |Closed(side)|) && (forall t :: t in page ==> t in Closed(side))
    requires |page| == |Closed(side)| ==> forall t :: t in Closed(side) ==> t in page
    ensures Neighbours(side, limit, page)
  {
    ClosedAre(side);
  }

  /** Whatever of a descending list is not among its first `n` is older than all of them. */
  lemma {:induction false} FirstIs(list: seq<Turn>, n: nat)
    requires Descending(list)
    ensures var page := First(list, n);
            && |page| == Min(n, |list|) && Descending(page) && (forall t :: t in page ==> t in list)
            && (forall t :: t in list ==> t in page || forall u :: u in page ==> u.start > t.start)
  {
    var page := First(list, n);
    assert forall m :: 0 <= m < |page| ==> page[m] == list[m];
    forall t | t in list ensures t in page || forall u :: u in page ==> u.start > t.start {
      var q :| 0 <= q < |list| && list[q] == t;
      if q < |page| { assert page[q] == t; }
    }
  }

  /** Whatever is not among its last `n` is newer than all of them. */
  lemma {:induction false} LastIs(list: seq<Turn>, n: nat)
    requires Descending(list)
    ensures var page := Last(list, n);
            && |page| == Min(n, |list|) && Descending(page) && (forall t :: t in page ==> t in list)
            && (forall t :: t in list ==> t in page || forall u :: u in page ==> u.start < t.start)
  {
    var page := Last(list, n);
    var left := |list| - |page|;
    assert forall m :: 0 <= m < |page| ==> page[m] == list[left + m];
    forall t | t in list ensures t in page || forall u :: u in page ==> u.start < t.start {
      var q :| 0 <= q < |list| && list[q] == t;
      if q >= left { assert page[q - left] == t; }
    }
  }

  lemma {:induction false} ReversedAscends(page: seq<Turn>)
    requires Descending(page)
    ensures forall m, n :: 0 <= m < n < |page| ==> Reverse(page)[m].start < Reverse(page)[n].start
    ensures forall t :: t in Reverse(page) <==> t in page
  {
    assert forall m :: 0 <= m < |page| ==> page[m] == Reverse(page)[|page| - 1 - m];
  }

  /** Behind the anchor, oldest first: what is left out is newer than all of it. */
  lemma {:induction false} AfterAnchorIs(turns: seq<Turn>, k: nat, limit: nat)
    requires Descending(turns) && k <= |turns|
    ensures AfterAnchor(turns, k, limit).Some? <==> k < |turns| && turns[k].end != 0
    ensures AfterAnchor(turns, k, limit).Some? ==>
              var page := AfterAnchor(turns, k, limit).value;
              && Neighbours(turns[..k], limit, page)
              && (forall m, n :: 0 <= m < n < |page| ==> page[m].start < page[n].start)
              && (forall t, u :: t in turns[..k] && t.end != 0 && t !in page && u in page ==> u.start < t.start)
  {
    if k < |turns| && turns[k].end != 0 {
      var closed, last := Closed(turns[..k]), Last(Closed(turns[..k]), limit);
      ClosedAre(turns[..k]);
      ClosedDescends(turns[..k]);
      LastIs(closed, limit);
      ReversedAscends(last);
      assert |last| == |closed| ==> last == closed;
      NeighboursOf(turns[..k], limit, Reverse(last));
    }
  }

  /** Before the anchor, newest first: what is left out is older than all of it. */
  lemma {:induction false} BeforeAnchorIs(turns: seq<Turn>, k: nat, limit: nat)
    requires Descending(turns) && k <= |turns|
    ensures BeforeAnchor(turns, k, limit).Some? <==> k < |turns| && turns[k].end != 0
    ensures BeforeAnchor(turns, k, limit).Some? ==>
              var page := BeforeAnchor(turns, k, limit).value;
              && Neighbours(turns[k + 1..], limit, page)
              && (forall m, n :: 0 <= m < n < |page| ==> page[m].start > page[n].start)
              && (forall t, u :: t in turns[k + 1..] && t.end != 0 && t !in page && u in page ==> u.start > t.start)
  {
    if k < |turns| && turns[k].end != 0 {
      var closed := Closed(turns[k + 1..]);
      ClosedAre(turns[k + 1..]);
      ClosedDescends(turns[k + 1..]);
      FirstIs(closed, limit);
      assert |First(closed, limit)| == |closed| ==> First(closed, limit) == closed;
      NeighboursOf(turns[k + 1..], limit, First(closed, limit));
    }
  }

  lemma {:induction false} NewerGoesOn(turns: seq<Turn>, anchor: string, limit: nat, state: (bool, seq<Turn>))
    ensures Consume(turns, state, Newer(anchor, limit)).1 <==> forall i :: 0 <= i < |turns| ==> turns[i].id != anchor
  {
    if turns != [] && turns[0].id != anchor {
      NewerGoesOn(turns[1..], anchor, limit, Newer(anchor, limit)(state, turns[0]).0);
      assert forall i :: 0 < i < |turns| ==> turns[i] == turns[1..][i - 1];
    }
  }

  /** The newest unreadable record stops the scan before it has met the anchor. */
  ghost predicate BeforeAnchorBlocked(log: seq<Record>, j: nat, k: nat) {
    NewestUnreadable(log, j) && |MetFrom(log, false, j + 1)| <= k
  }

  /** What was met is the head of what the scan would find. */
  lemma {:induction false} MetIsHead(log: seq<Record>, frozen: bool, i: nat)
    requires i <= |log|
    ensures MetFrom(log, frozen, i) <= ReverseTurns(log, frozen)
  {
    LogicalHead(log, i, LogicalRegs(0, NextStart(log, frozen), None, []));
  }

  lemma {:induction false} NewerBlocks(log: seq<Record>, anchor: string, limit: nat, j: nat, k: nat)
    requires AnchorAt(ReverseTurns(log, false), anchor, k)
    ensures BlocksLogical(log, j, 0, (false, []), Newer(anchor, limit)) <==> BeforeAnchorBlocked(log, j, k)
  {
    if j < |log| {
      var met, turns := MetFrom(log, false, j + 1), ReverseTurns(log, false);
      MetIsHead(log, false, j + 1);
      NewerGoesOn(met, anchor, limit, (false, []));
      assert forall i :: 0 <= i < |met| ==> met[i] == turns[i];
    }
  }

  lemma {:induction false} NewerFinds(turns: seq<Turn>, anchor: string, limit: nat, k: nat)
    requires AnchorAt(turns, anchor, k)
    ensures var state := Consume(turns, (false, []), Newer(anchor, limit)).0;
            AfterAnchor(turns, k, limit) == if state.0 then Some(Reverse(state.1)) else None
  {
    DequeKeepsLast(turns, anchor, limit, k, []);
    assert [] + turns[..k] == turns[..k] && Last(Closed([]), limit) == [];
  }

  method ScanTurnsAfter(log: seq<Record>, anchor: string, limit: nat, ghost k: nat) returns (r: Visited<Option<seq<Turn>>>)
    requires |log| <= U64_MAX && AnchorAt(ReverseTurns(log, false), anchor, k)
    ensures r.Finished? ==> r.state == AfterAnchor(ReverseTurns(log, false), k, limit)
    ensures r.Finished? && ReadsAlike(log, false) ==> r.state == AfterAnchor(Surviving(log, false), k, limit)
    ensures r.Unreadable? <==> exists j: nat :: BeforeAnchorBlocked(log, j, k)
    ensures r.Unreadable? ==> exists j: nat :: NewestUnreadable(log, j) && log[j].start == r.offset
  {
    ReadsSurviving(log, false);
    NewerFinds(ReverseTurns(log, false), anchor, limit, k);
    forall j: nat ensures BlocksLogical(log, j, 0, (false, []), Newer(anchor, limit)) <==> BeforeAnchorBlocked(log, j, k) {
      NewerBlocks(log, anchor, limit, j, k);
    }
    var visited := VisitLogicalTurnsReverse(log, 0, (false, []), Newer(anchor, limit));
    match visited
    case Unreadable(offset) => return Unreadable(offset);
    case Finished(state) =>
      assert state == Consume(ReverseTurns(log, false), (false, []), Newer(anchor, limit)).0;
      return Finished(if state.0 then Some(Reverse(state.1)) else None);
  }

  function Older(anchor: string, limit: nat): (visit: ((bool, seq<Turn>), Turn) -> ((bool, seq<Turn>), bool)) {
    (state: (bool, seq<Turn>), turn: Turn) =>
      if turn.id == anchor then ((turn.end != 0, state.1), turn.end != 0 && limit > 0)
      else
        var turns := if state.0 && turn.end != 0 then state.1 + [turn] else state.1;
        ((state.0, turns), !state.0 || |turns| < limit)
  }

  /** The first `n` turns of a list. */
  function First(turns: seq<Turn>, n: nat): (r: seq<Turn>) {
    turns[..Min(n, |turns|)]
  }

  lemma {:induction false} OlderCollects(turns: seq<Turn>, anchor: string, limit: nat, taken: seq<Turn>)
    requires |taken| < limit && forall i :: 0 <= i < |turns| ==> turns[i].id != anchor
    ensures Consume(turns, (true, taken), Older(anchor, limit)).0 == (true, First(taken + Closed(turns), limit))
  {
    if turns == [] {
      assert taken + Closed(turns) == taken;
      return;
    }
    var t, rest := turns[0], turns[1..];
    assert turns == [t] + rest;
    ClosedConcat([t], rest);
    assert turns[0].id != anchor;
    if t.end != 0 {
      assert taken + Closed(turns) == taken + [t] + Closed(rest);
      if |taken| + 1 < limit { OlderCollects(rest, anchor, limit, taken + [t]); }
    } else {
      assert Closed(turns) == Closed(rest);
      OlderCollects(rest, anchor, limit, taken);
    }
  }

  lemma {:induction false} OlderFinds(turns: seq<Turn>, anchor: string, limit: nat, k: nat)
    requires AnchorAt(turns, anchor, k) && forall i :: k < i < |turns| ==> turns[i].id != anchor
    ensures Consume(turns, (false, []), Older(anchor, limit)).0
         == if k < |turns| && turns[k].end != 0 then (true, First(Closed(turns[k + 1..]), limit)) else (false, [])
  {
    if turns == [] { return; }
    if k > 0 {
      assert turns[0].id != anchor;
      assert forall i :: 0 <= i < |turns| - 1 ==> turns[1..][i] == turns[i + 1];
      OlderFinds(turns[1..], anchor, limit, k - 1);
      if k < |turns| { assert turns[1..][k..] == turns[k + 1..]; }
    } else if turns[0].end != 0 && limit > 0 {
      OlderCollects(turns[1..], anchor, limit, []);
      assert [] + Closed(turns[1..]) == Closed(turns[1..]);
    }
  }

  /** When the callback still wants more after these turns: before the anchor, or with too few closed turns behind it. */
  predicate WantsOlder(turns: seq<Turn>, k: nat, limit: nat) {
    k < |turns| ==> turns[k].end != 0 && |Closed(turns[k + 1..])| < limit
  }

  lemma {:induction false} OlderFills(turns: seq<Turn>, anchor: string, limit: nat, taken: seq<Turn>)
    requires |taken| < limit && forall i :: 0 <= i < |turns| ==> turns[i].id != anchor
    ensures Consume(turns, (true, taken), Older(anchor, limit)).1 <==> |taken| + |Closed(turns)| < limit
  {
    if turns != [] {
      var t, rest := turns[0], turns[1..];
      assert turns == [t] + rest && turns[0].id != anchor;
      ClosedConcat([t], rest);
      assert Closed([t]) == if t.end != 0 then [t] else [];
      if t.end == 0 { OlderFills(rest, anchor, limit, taken); }
      else if |taken| + 1 < limit { OlderFills(rest, anchor, limit, taken + [t]); }
    }
  }

  lemma {:induction false} OlderGoesOn(turns: seq<Turn>, anchor: string, limit: nat, k: nat)
    requires (forall i :: 0 <= i < |turns| ==> (turns[i].id == anchor <==> i == k))
    ensures Consume(turns, (false, []), Older(anchor, limit)).1 <==> WantsOlder(turns, k, limit)
  {
    if turns == [] { return; }
    assert forall i :: 0 < i < |turns| ==> turns[i] == turns[1..][i - 1];
    if k > 0 {
      assert turns[0].id != anchor;
      OlderGoesOn(turns[1..], anchor, limit, k - 1);
      if k < |turns| { assert turns[1..][k..] == turns[k + 1..]; }
    } else if turns[0].end != 0 && limit > 0 {
      OlderFills(turns[1..], anchor, limit, []);
    }
  }

  /** The newest unreadable record stops the scan while its page is not full. */
  ghost predicate AfterAnchorBlocked(log: seq<Record>, frozen: bool, j: nat, k: nat, limit: nat) {
    NewestUnreadable(log, j) && WantsOlder(MetFrom(log, frozen, j + 1), k, limit)
  }

  lemma {:induction false} OlderBlocks(log: seq<Record>, frozen: bool, anchor: string, limit: nat, j: nat, k: nat)
    requires AnchorAt(ReverseTurns(log, frozen), anchor, k)
    requires forall i :: k < i < |ReverseTurns(log, frozen)| ==> ReverseTurns(log, frozen)[i].id != anchor
    ensures BlocksLogical(log, j, NextStart(log, frozen), (false, []), Older(anchor, limit)) <==> AfterAnchorBlocked(log, frozen, j, k, limit)
  {
    if j < |log| {
      var met, turns := MetFrom(log, frozen, j + 1), ReverseTurns(log, frozen);
      MetIsHead(log, frozen, j + 1);
      assert forall i :: 0 <= i < |met| ==> met[i] == turns[i];
      OlderGoesOn(met, anchor, limit, k);
    }
  }

  method ScanTurnsBefore(log: seq<Record>, frozen: bool, anchor: string, limit: nat, ghost k: nat)
    returns (r: Visited<Option<seq<Turn>>>)
    requires |log| <= U64_MAX && AnchorAt(ReverseTurns(log, frozen), anchor, k)
    requires forall i :: k < i < |ReverseTurns(log, frozen)| ==> ReverseTurns(log, frozen)[i].id != anchor
    ensures r.Finished? ==> r.state == BeforeAnchor(ReverseTurns(log, frozen), k, limit)
    ensures r.Finished? && ReadsAlike(log, frozen) ==> r.state == BeforeAnchor(Surviving(log, frozen), k, limit)
    ensures r.Unreadable? <==> exists j: nat :: AfterAnchorBlocked(log, frozen, j, k, limit)
    ensures r.Unreadable? ==> exists j: nat :: NewestUnreadable(log, j) && log[j].start == r.offset
  {
    ReadsSurviving(log, frozen);
    OlderFinds(ReverseTurns(log, frozen), anchor, limit, k);
    forall j: nat
      ensures BlocksLogical(log, j, NextStart(log, frozen), (false, []), Older(anchor, limit)) <==> AfterAnchorBlocked(log, frozen, j, k, limit)
    {
      OlderBlocks(log, frozen, anchor, limit, j, k);
    }
    var visited := VisitLogicalTurnsReverse(log, NextStart(log, frozen), (false, []), Older(anchor, limit));
    match visited
    case Unreadable(offset) => return Unreadable(offset);
    case Finished(state) => return Finished(if state.0 then Some(state.1) else None);
  }
}
