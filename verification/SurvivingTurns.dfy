/**
 What the list of surviving turns is: the turns of the stack and the records that are turns by
 themselves, each once, newest first. And where a turn list may be cut: the starts a bootstrap or
 an anchor recovery picks are clean places for coverage to begin.
 */
module SurvivingTurns {
  import opened Wrappers
  import opened Transcript
  import opened ReverseScan
  import opened LogicalTurns
  import opened ScanInvariants

  ghost predicate Ascending(items: seq<Item>, bound: nat) {
    && (forall i, j :: 0 <= i < j < |items| ==> items[i].turn.start < items[j].turn.start)
    && (forall i :: 0 <= i < |items| ==> items[i].turn.start < bound)
  }

  lemma {:induction false} DropAscends(items: seq<Item>, n: nat, bound: nat)
    requires Ascending(items, bound)
    ensures Ascending(DropTasks(items, n), bound)
    decreases |items|
  {
    if n != 0 && items != [] {
      var init, last := items[..|items| - 1], items[|items| - 1];
      DropAscends(init, if last.task then n - 1 else n, last.turn.start);
    }
  }

  lemma {:induction false} StepAscends(items: seq<Item>, r: Record)
    requires Ascending(items, r.start) && r.start < r.end && (!r.mark.Plain? ==> r.standalone.None?)
    ensures Ascending(StepItems(items, r), r.end)
  {
    match r.mark
    case Started(id) => return;
    case Terminal(id, completed) => return;
    case Rollback(n) => DropAscends(items, n, r.start); return;
    case _ =>
  }

  lemma {:induction false} ItemsAscend(log: seq<Record>)
    requires Tiled(log) && Exclusive(log)
    ensures Ascending(Items(log), DurableEnd(log))
  {
    if log != [] {
      var k := |log| - 1;
      TiledPrefix(log, k);
      ItemsAscend(log[..k]);
      assert Abuts(log, k);
      StepAscends(Items(log[..k]), log[k]);
    }
  }

  /** The listed turns are strictly newest first and start inside the file. */
  lemma {:induction false} NewestDescends(log: seq<Record>, next: nat)
    requires Tiled(log) && Exclusive(log)
    ensures Descending(Newest(log, next))
    ensures forall t :: t in Newest(log, next) ==> t.start < DurableEnd(log)
  {
    ItemsAscend(log);
    var items, cut := Items(log), InterruptLast(Items(log), next);
    assert forall i :: 0 <= i < |cut| ==> cut[i].turn.start == items[i].turn.start;
  }

  // --- Which turns they are ---

  /** A turn survives when the stack holds it or its record is a turn by itself. */
  ghost predicate Survives(log: seq<Record>, t: Turn) {
    t in Stack(log) || exists j :: 0 <= j < |log| && IsThisSingle(log, j, t.start, t)
  }

  /** The standalone items, oldest first. */
  function Singles(items: seq<Item>): (r: seq<Turn>) {
    if items == [] then []
    else
      var last := items[|items| - 1];
      Singles(items[..|items| - 1]) + (if last.task then [] else [last.turn])
  }

  lemma {:induction false} SinglesSnoc(items: seq<Item>, item: Item)
    ensures Singles(items + [item]) == Singles(items) + (if item.task then [] else [item.turn])
  {
    assert (items + [item])[..|items|] == items;
  }

  /** A rollback takes no standalone turn. */
  lemma {:induction false} DropKeepsSingles(items: seq<Item>, n: nat)
    ensures Singles(DropTasks(items, n)) == Singles(items)
    decreases |items|
  {
    if n != 0 && items != [] {
      var init, last := items[..|items| - 1], items[|items| - 1];
      if last.task {
        DropKeepsSingles(init, n - 1);
        assert Singles(init) + [] == Singles(init);
      } else {
        DropKeepsSingles(init, n);
        SinglesSnoc(DropTasks(init, n), last);
      }
    }
  }

  lemma {:induction false} CloseKeepsSingles(items: seq<Item>, end: nat, completed: bool)
    requires OpenLast(items)
    ensures Singles(CloseLast(items, end, completed)) == Singles(items)
  {
    assert CloseLast(items, end, completed)[..|items| - 1] == items[..|items| - 1];
  }

  lemma {:induction false} StepSingles(items: seq<Item>, r: Record)
    ensures Singles(StepItems(items, r))
         == Singles(items) + (if r.standalone.Some? && !OpenLast(StepMark(items, r)) then [SingleTurn(r)] else [])
  {
    var marked := StepMark(items, r);
    match r.mark {
      case Started(id) =>
        if OpenLast(items) { CloseKeepsSingles(items, r.start, false); }
        SinglesSnoc(InterruptLast(items, r.start), Item(Turn(id, r.start, 0, false), true));
      case Terminal(id, completed) =>
        if OpenLast(items) { CloseKeepsSingles(items, r.end, completed); }
      case Rollback(n) => DropKeepsSingles(items, n);
      case _ =>
    }
    assert Singles(marked) == Singles(items);
    if r.standalone.Some? && !OpenLast(marked) { SinglesSnoc(marked, Item(SingleTurn(r), false)); }
  }

  lemma {:induction false} OpenAfterMark(log: seq<Record>, k: nat)
    requires Tiled(log) && Exclusive(log) && k < |log| && log[k].standalone.Some?
    ensures OpenLast(StepMark(Items(log[..k]), log[k])) == TopOpen(Stack(log[..k + 1]))
  {
    TiledPrefix(log, k);
    ItemsExtendStack(log[..k]);
    StackSnoc(log, k);
  }

  lemma {:induction false} SinglesAre(log: seq<Record>, t: Turn)
    requires Tiled(log) && Exclusive(log)
    ensures t in Singles(Items(log)) <==> exists j :: 0 <= j < |log| && IsThisSingle(log, j, t.start, t)
  {
    if log != [] {
      var k := |log| - 1;
      var init := log[..k];
      TiledPrefix(log, k);
      SinglesAre(init, t);
      StepSingles(Items(init), log[k]);
      if log[k].standalone.Some? { OpenAfterMark(log, k); }
      assert log[..k + 1] == log;
      forall j | 0 <= j < k ensures IsThisSingle(init, j, t.start, t) <==> IsThisSingle(log, j, t.start, t) {
        assert init[..j + 1] == log[..j + 1];
      }
      if IsThisSingle(log, k, t.start, t) { assert t in Singles(Items(log)); }
      if t in Singles(Items(log)) && t !in Singles(Items(init)) { assert IsThisSingle(log, k, t.start, t); }
    }
  }

  lemma {:induction false} ItemsSplit(items: seq<Item>, t: Turn)
    ensures t in TurnsOf(items) <==> t in Tasks(items) || t in Singles(items)
  {
    if items != [] {
      var init, last := items[..|items| - 1], items[|items| - 1];
      ItemsSplit(init, t);
      assert TurnsOf(items) == TurnsOf(init) + [last.turn];
    }
  }

  lemma {:induction false} ReverseMembers(turns: seq<Turn>, t: Turn)
    ensures t in Reverse(turns) <==> t in turns
  {
    if t in turns {
      var i :| 0 <= i < |turns| && turns[i] == t;
      assert Reverse(turns)[|turns| - 1 - i] == t;
    }
    if t in Reverse(turns) {
      var i :| 0 <= i < |turns| && Reverse(turns)[i] == t;
      assert turns[|turns| - 1 - i] == t;
    }
  }

  /** The list of a prefix frozen at `next` holds the stack's turns, the last one closed there, and the standalone ones. */
  lemma {:induction false} NewestMembers(log: seq<Record>, next: nat, t: Turn)
    requires Tiled(log) && Exclusive(log)
    ensures t in Newest(log, next) <==>
              t in Interrupt(Stack(log), next) || exists j :: 0 <= j < |log| && IsThisSingle(log, j, t.start, t)
  {
    var items := Items(log);
    ItemsExtendStack(log);
    if OpenLast(items) {
      TasksOfClose(items, next, false);
      CloseKeepsSingles(items, next, false);
    }
    ItemsSplit(InterruptLast(items, next), t);
    SinglesAre(log, t);
    ReverseMembers(TurnsOf(InterruptLast(items, next)), t);
  }

  /** The live list holds exactly the turns that survive. */
  lemma {:induction false} NewestAreSurvivors(log: seq<Record>, t: Turn)
    requires Tiled(log) && Exclusive(log)
    ensures t in Newest(log, 0) <==> Survives(log, t)
  {
    NewestMembers(log, 0, t);
    StackShape(log);
    assert Interrupt(Stack(log), 0) == Stack(log);
  }

  // --- Where coverage may begin ---

  /**
   The logs whose standalone turns the logical visitor places right: none at all, or no boundary
   doubles as one and no foreign terminal is met.
   */
  ghost predicate Apart(log: seq<Record>) {
    NoStandalone(log) || (NoForeign(log) && Exclusive(log))
  }

  /** Record `i` starts at byte `x` and coverage may begin with it. */
  ghost predicate CleanStart(log: seq<Record>, i: nat, x: nat)
    requires i < |log|
  {
    log[i].start == x && (TopOpen(Stack(log[..i])) ==> log[i].mark.Started?)
  }

  /** A standalone turn held back at record `k` turns out clean if no turn is open there. */
  ghost predicate HeldClean(log: seq<Record>, k: nat, x: nat)
    requires k <= |log|
  {
    exists j :: k <= j < |log| && log[j].start == x && (TopOpen(Stack(log[..j])) ==> TopOpen(Stack(log[..k])))
  }

  ghost predicate AllHeldClean(log: seq<Record>, k: nat, pending: seq<Turn>)
    requires k <= |log|
  {
    forall p :: 0 <= p < |pending| ==> HeldClean(log, k, pending[p].start)
  }

  lemma {:induction false} OpenOnlyIfBefore(log: seq<Record>, k: nat)
    requires Tiled(log) && k < |log| && !log[k].mark.Started?
    ensures TopOpen(Stack(log[..k + 1])) ==> TopOpen(Stack(log[..k]))
    ensures log[k].mark.Terminal? && !ForeignAt(log, k) ==> !TopOpen(Stack(log[..k + 1]))
  {
    StackSnoc(log, k);
    TiledPrefix(log, k);
    StackShape(log[..k]);
    assert Abuts(log, k);
  }

  lemma {:induction false} HoldClean(log: seq<Record>, k: nat, pending: seq<Turn>)
    requires Tiled(log) && k < |log| && !log[k].mark.Started? && AllHeldClean(log, k + 1, pending)
    ensures AllHeldClean(log, k, Hold(pending, log[k])) && AllHeldClean(log, k, pending)
  {
    OpenOnlyIfBefore(log, k);
    var held := Hold(pending, log[k]);
    forall p | 0 <= p < |held| ensures HeldClean(log, k, held[p].start) {
      if p < |pending| {
        assert HeldClean(log, k + 1, pending[p].start);
        var j :| k + 1 <= j < |log| && log[j].start == pending[p].start && (TopOpen(Stack(log[..j])) ==> TopOpen(Stack(log[..k + 1])));
        assert TopOpen(Stack(log[..j])) ==> TopOpen(Stack(log[..k]));
      } else {
        assert log[k].start == held[p].start;
      }
    }
    forall p | 0 <= p < |pending| ensures HeldClean(log, k, pending[p].start) { assert held[p] == pending[p]; }
  }

  ghost predicate AnyCleanStart(log: seq<Record>, x: nat) {
    exists i :: 0 <= i < |log| && CleanStart(log, i, x)
  }

  lemma {:induction false} HeldIsClean(log: seq<Record>, k: nat, x: nat)
    requires k <= |log| && HeldClean(log, k, x) && !TopOpen(Stack(log[..k]))
    ensures AnyCleanStart(log, x)
  {
    var j :| k <= j < |log| && log[j].start == x && (TopOpen(Stack(log[..j])) ==> TopOpen(Stack(log[..k])));
    assert CleanStart(log, j, x);
  }

  /** Held turns met at a terminal, or at the head of the log, are clean. */
  lemma {:induction false} FlushedIsClean(log: seq<Record>, k: nat, pending: seq<Turn>, t: Turn)
    requires Tiled(log) && k <= |log| && AllHeldClean(log, k, pending) && t in pending
    requires k > 0 ==> log[k - 1].mark.Terminal? && !ForeignAt(log, k - 1)
    ensures AnyCleanStart(log, t.start)
  {
    var p :| 0 <= p < |pending| && pending[p] == t;
    assert HeldClean(log, k, pending[p].start);
    if k > 0 { OpenOnlyIfBefore(log, k - 1); }
    HeldIsClean(log, k, t.start);
  }

  ghost predicate NoStandalone(log: seq<Record>) {
    forall j :: 0 <= j < |log| ==> log[j].standalone.None?
  }

  /** One record back in the logical visitor: where a listed turn comes from. */
  lemma {:induction false} ListedFrom(log: seq<Record>, k: nat, skipped: nat, next: nat,
          terminal: Option<Close>, pending: seq<Turn>, t: Turn)
    requires 0 < k <= |log| && t in RevLogical(log[..k], skipped, next, terminal, pending)
    ensures var r, rest := log[k - 1], log[..k - 1];
            match r.mark
            case Rollback(n) => t in RevLogical(rest, skipped + n, next, terminal, pending)
            case Terminal(id, completed) => t in pending || t in RevLogical(rest, skipped, next, Some(Close(id, r.end, completed)), [])
            case Started(id) => t.start == r.start || t in RevLogical(rest, if skipped > 0 then skipped - 1 else 0, r.start, None, [])
            case _ => t in RevLogical(rest, skipped, next, terminal, Hold(pending, r))
  {
    assert log[..k][..k - 1] == log[..k - 1];
  }

  /** Wherever a listed turn starts, coverage may begin. */
  lemma {:induction false} ListedStartsClean(log: seq<Record>, k: nat, skipped: nat, next: nat,
          terminal: Option<Close>, pending: seq<Turn>, t: Turn)
    requires Tiled(log) && Apart(log) && k <= |log| && AllHeldClean(log, k, pending)
    requires NoStandalone(log) ==> pending == []
    requires t in RevLogical(log[..k], skipped, next, terminal, pending)
    ensures AnyCleanStart(log, t.start)
    decreases k
  {
    if k == 0 {
      FlushedIsClean(log, 0, pending, t);
      return;
    }
    var r := log[k - 1];
    ListedFrom(log, k, skipped, next, terminal, pending, t);
    match r.mark
    case Rollback(n) =>
      HoldClean(log, k - 1, pending);
      ListedStartsClean(log, k - 1, skipped + n, next, terminal, pending, t);
      return;
    case Terminal(id, completed) =>
      if t in pending {
        assert !ForeignAt(log, k - 1);
        FlushedIsClean(log, k, pending, t);
      } else {
        ListedStartsClean(log, k - 1, skipped, next, Some(Close(id, r.end, completed)), [], t);
      }
      return;
    case Started(id) =>
      if t.start == r.start {
        assert CleanStart(log, k - 1, t.start);
      } else {
        ListedStartsClean(log, k - 1, if skipped > 0 then skipped - 1 else 0, r.start, None, [], t);
      }
      return;
    case _ =>
      HoldClean(log, k - 1, pending);
      ListedStartsClean(log, k - 1, skipped, next, terminal, Hold(pending, r), t);
  }
}
