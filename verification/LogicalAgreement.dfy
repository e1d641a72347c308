/**
 Exactly when the logical reverse visitor lists the surviving turns. It holds standalone turns back
 until the next boundary on its way: a terminal, or the head of the log, shows that they stand
 alone, and a start that they belong to its turn. It does not ask whether that turn was still open.
 */
module LogicalAgreement {
  import opened Wrappers
  import opened Transcript
  import opened ReverseScan
  import opened LogicalTurns
  import opened ScanInvariants
  import opened SurvivingTurns
  import opened ReverseAgreement

  /** The nearest start or terminal before record `j` is a start. */
  predicate InsideStart(log: seq<Record>, j: nat)
    requires j <= |log|
  {
    j > 0 && (log[j - 1].mark.Started? || (!log[j - 1].mark.Terminal? && InsideStart(log, j - 1)))
  }

  /** The visitor's guess is right for every standalone record: a start precedes it exactly if a turn is open there. */
  ghost predicate GuessesRight(log: seq<Record>) {
    forall j :: 0 <= j < |log| && log[j].standalone.Some? ==> (TopOpen(Stack(log[..j])) <==> InsideStart(log, j))
  }

  /** What makes the reverse scans of a log list its surviving turns. */
  ghost predicate ReadsAlike(log: seq<Record>, frozen: bool) {
    Tiled(log) && Exclusive(log) && NoneSpoiled(log, frozen) && GuessesRight(log)
  }

  // --- What the visitor lists ---

  ghost predicate FreeAt(log: seq<Record>, j: nat, t: Turn) {
    j < |log| && log[j].standalone.Some? && t == SingleTurn(log[j]) && !InsideStart(log, j)
  }

  /** Some standalone record among the first `n` makes the visitor list `t`. */
  ghost predicate FreeBefore(log: seq<Record>, n: nat, t: Turn) {
    exists j :: 0 <= j < n && FreeAt(log, j, t)
  }

  lemma {:induction false} InsidePrefix(log: seq<Record>, k: nat, j: nat)
    requires j <= k <= |log|
    ensures InsideStart(log[..k], j) == InsideStart(log, j)
    decreases j
  {
    if j > 0 { InsidePrefix(log, k, j - 1); }
  }

  lemma {:induction false} FreePrefix(log: seq<Record>, k: nat, t: Turn)
    requires k <= |log|
    ensures FreeBefore(log[..k], k, t) <==> FreeBefore(log, k, t)
  {
    forall j | 0 <= j < k ensures FreeAt(log[..k], j, t) <==> FreeAt(log, j, t) { InsidePrefix(log, k, j); }
  }

  lemma {:induction false} FreeSnoc(log: seq<Record>, t: Turn)
    requires log != []
    ensures FreeBefore(log, |log|, t) <==> FreeBefore(log[..|log| - 1], |log| - 1, t) || FreeAt(log, |log| - 1, t)
  {
    FreePrefix(log, |log| - 1, t);
    if j :| 0 <= j < |log| && FreeAt(log, j, t) { assert j < |log| - 1 || j == |log| - 1; }
  }

  /** Whatever its registers hold: the task visitor's turns, the turns held back if no start comes first, and the free standalone ones. */
  lemma {:induction false} ListedMembers(log: seq<Record>, skipped: nat, next: nat, terminal: Option<Close>,
          pending: seq<Turn>, t: Turn)
    requires Exclusive(log)
    ensures t in RevLogical(log, skipped, next, terminal, pending) <==>
              || t in RevTasks(log, skipped, next, terminal)
              || (t in pending && !InsideStart(log, |log|))
              || FreeBefore(log, |log|, t)
  {
    if log != [] {
      var k := |log| - 1;
      var rest, r := log[..k], log[k];
      FreeSnoc(log, t);
      InsidePrefix(log, k, k);
      match r.mark
      case Rollback(n) => ListedMembers(rest, skipped + n, next, terminal, pending, t);
      case Terminal(id, completed) => ListedMembers(rest, skipped, next, Some(Close(id, r.end, completed)), [], t);
      case Started(id) => ListedMembers(rest, if skipped > 0 then skipped - 1 else 0, r.start, None, [], t);
      case _ => ListedMembers(rest, skipped, next, terminal, Hold(pending, r), t);
    }
  }

  /** The list descends. */
  lemma {:induction false} ListedDescends(log: seq<Record>, skipped: nat, next: nat, terminal: Option<Close>,
          pending: seq<Turn>)
    requires Tiled(log) && Descending(pending) && forall i :: 0 <= i < |pending| ==> pending[i].start >= DurableEnd(log)
    ensures Descending(RevLogical(log, skipped, next, terminal, pending))
    ensures pending == [] ==> AllBelow(RevLogical(log, skipped, next, terminal, pending), DurableEnd(log))
  {
    if log != [] {
      var k := |log| - 1;
      var rest, r := log[..k], log[k];
      TiledPrefix(log, k);
      assert Abuts(log, k);
      match r.mark
      case Rollback(n) =>
        ListedDescends(rest, skipped + n, next, terminal, pending);
        return;
      case Terminal(id, completed) =>
        var met := Some(Close(id, r.end, completed));
        ListedDescends(rest, skipped, next, met, []);
        DescendingConcat(pending, RevLogical(rest, skipped, next, met, []), r.start);
        return;
      case Started(id) =>
        ListedDescends(rest, if skipped > 0 then skipped - 1 else 0, r.start, None, []);
        if skipped == 0 { DescendingConcat([ClosedBy(r, next, terminal)], RevLogical(rest, 0, r.start, None, []), r.start); }
        return;
      case _ =>
        ListedDescends(rest, skipped, next, terminal, Hold(pending, r));
        if r.standalone.Some? { BelowHeld(rest, skipped, next, terminal, pending, r); }
    }
  }

  ghost predicate AllBelow(turns: seq<Turn>, bound: nat) {
    forall i :: 0 <= i < |turns| ==> turns[i].start < bound
  }

  lemma {:induction false} DescendingConcat(a: seq<Turn>, b: seq<Turn>, bound: nat)
    requires Descending(a) && Descending(b) && AllBelow(b, bound) && forall i :: 0 <= i < |a| ==> a[i].start >= bound
    ensures Descending(a + b)
  {
  }

  /** With nothing else held back, one more standalone record keeps the list below its end. */
  lemma {:induction false} BelowHeld(rest: seq<Record>, skipped: nat, next: nat, terminal: Option<Close>,
          pending: seq<Turn>, r: Record)
    requires Tiled(rest) && r.start == DurableEnd(rest) && r.start < r.end && r.standalone.Some?
    ensures pending == [] ==> AllBelow(RevLogical(rest, skipped, next, terminal, Hold(pending, r)), r.end)
  {
    if pending == [] { HeldBound(rest, skipped, next, terminal, Hold(pending, r), r.end); }
  }

  lemma {:induction false} HeldBound(log: seq<Record>, skipped: nat, next: nat, terminal: Option<Close>,
          pending: seq<Turn>, bound: nat)
    requires Tiled(log) && AllBelow(pending, bound) && DurableEnd(log) < bound
    ensures AllBelow(RevLogical(log, skipped, next, terminal, pending), bound)
  {
    if log != [] {
      var k := |log| - 1;
      var rest, r := log[..k], log[k];
      TiledPrefix(log, k);
      assert Abuts(log, k);
      match r.mark
      case Rollback(n) => HeldBound(rest, skipped + n, next, terminal, pending, bound);
      case Terminal(id, completed) => HeldBound(rest, skipped, next, Some(Close(id, r.end, completed)), [], bound);
      case Started(id) => HeldBound(rest, if skipped > 0 then skipped - 1 else 0, r.start, None, [], bound);
      case _ => HeldBound(rest, skipped, next, terminal, Hold(pending, r), bound);
    }
  }

  // --- The exact condition ---

  /** The standalone turns of the forward fold. */
  ghost predicate AloneBefore(log: seq<Record>, t: Turn) {
    exists j :: 0 <= j < |log| && IsThisSingle(log, j, t.start, t)
  }

  /** Some record of the log starts a task turn where `t` starts. */
  ghost predicate TaskStart(log: seq<Record>, t: Turn) {
    exists j :: 0 <= j < |log| && BeginsAt(log[j], t.start)
  }

  lemma {:induction false} PlainKeepsStack(log: seq<Record>, j: nat)
    requires Exclusive(log) && j < |log| && log[j].standalone.Some?
    ensures log[j].mark.Plain? && Stack(log[..j + 1]) == Stack(log[..j])
  {
    StackSnoc(log, j);
  }

  lemma {:induction false} SameSingles(log: seq<Record>, t: Turn)
    requires Exclusive(log) && GuessesRight(log)
    ensures FreeBefore(log, |log|, t) <==> AloneBefore(log, t)
  {
    forall j | 0 <= j < |log| ensures FreeAt(log, j, t) <==> IsThisSingle(log, j, t.start, t) {
      if log[j].standalone.Some? { PlainKeepsStack(log, j); }
    }
  }

  lemma {:induction false} StackStarts(log: seq<Record>, next: nat, t: Turn)
    requires t in Interrupt(Stack(log), next)
    ensures TaskStart(log, t)
  {
    var p :| 0 <= p < |Stack(log)| && Interrupt(Stack(log), next)[p] == t;
    PlaceStarts(log, p, t);
  }

  lemma {:induction false} TaskStarts(log: seq<Record>, next: nat, t: Turn)
    requires Tiled(log) && t in RevTasks(log, 0, next, None)
    ensures TaskStart(log, t)
  {
    var turns := RevTasks(log, 0, next, None);
    ReverseScanStarts(log, next);
    var i :| 0 <= i < |turns| && turns[i] == t;
    PlaceStarts(log, |turns| - 1 - i, t);
  }

  lemma {:induction false} PlaceStarts(log: seq<Record>, p: nat, t: Turn)
    requires p < |Stack(log)| && Stack(log)[p].start == t.start
    ensures TaskStart(log, t)
  {
    StackOrigin(log, p);
    var j :| 0 <= j < |log| && log[j].start == Stack(log)[p].start && log[j].mark == Started(Stack(log)[p].id);
    assert BeginsAt(log[j], t.start);
  }

  /** A standalone record starts no task turn. */
  lemma {:induction false} SingleIsNoTask(log: seq<Record>, j: nat)
    requires Tiled(log) && Exclusive(log) && j < |log| && log[j].standalone.Some?
    ensures !TaskStart(log, SingleTurn(log[j]))
  {
    if TaskStart(log, SingleTurn(log[j])) {
      var k :| 0 <= k < |log| && BeginsAt(log[k], log[j].start);
      SameRecord(log, j, k);
    }
  }

  lemma {:induction false} FreeIsNoTask(log: seq<Record>, t: Turn)
    requires Tiled(log) && Exclusive(log) && (FreeBefore(log, |log|, t) || AloneBefore(log, t))
    ensures !TaskStart(log, t)
  {
    if FreeBefore(log, |log|, t) {
      var j :| 0 <= j < |log| && FreeAt(log, j, t);
      SingleIsNoTask(log, j);
    } else {
      var j :| 0 <= j < |log| && IsThisSingle(log, j, t.start, t);
      SingleIsNoTask(log, j);
    }
  }

  /** The members of both lists, told apart by what their record is. */
  lemma {:induction false} BothMembers(log: seq<Record>, next: nat, t: Turn)
    requires Tiled(log) && Exclusive(log)
    ensures t in RevLogical(log, 0, next, None, []) <==> t in RevTasks(log, 0, next, None) || FreeBefore(log, |log|, t)
    ensures t in Newest(log, next) <==> t in Interrupt(Stack(log), next) || AloneBefore(log, t)
    ensures TaskStart(log, t) ==> !FreeBefore(log, |log|, t) && !AloneBefore(log, t)
    ensures !TaskStart(log, t) ==> t !in RevTasks(log, 0, next, None) && t !in Interrupt(Stack(log), next)
  {
    ListedMembers(log, 0, next, None, [], t);
    NewestMembers(log, next, t);
    if t in RevTasks(log, 0, next, None) { TaskStarts(log, next, t); }
    if t in Interrupt(Stack(log), next) { StackStarts(log, next, t); }
    if FreeBefore(log, |log|, t) || AloneBefore(log, t) { FreeIsNoTask(log, t); }
  }

  lemma {:induction false} TasksDescend(log: seq<Record>, next: nat)
    requires Tiled(log)
    ensures Descending(RevTasks(log, 0, next, None)) && Descending(Reverse(Interrupt(Stack(log), next)))
  {
    ReverseScanStarts(log, next);
    StackShape(log);
    var s, kept := Stack(log), Interrupt(Stack(log), next);
    assert forall p :: 0 <= p < |s| ==> kept[p].start == s[p].start;
  }

  /** Alike lists come from alike task turns. */
  lemma {:induction false} SameTasks(log: seq<Record>, next: nat)
    requires Tiled(log) && Exclusive(log) && RevLogical(log, 0, next, None, []) == Newest(log, next)
    ensures RevTasks(log, 0, next, None) == Reverse(Interrupt(Stack(log), next))
  {
    var tasks, kept := RevTasks(log, 0, next, None), Interrupt(Stack(log), next);
    TasksDescend(log, next);
    forall t ensures t in tasks <==> t in Reverse(kept) {
      BothMembers(log, next, t);
      ReverseMembers(kept, t);
    }
    DescendingUnique(tasks, Reverse(kept));
  }

  /** And from alike standalone turns. */
  lemma {:induction false} SameGuesses(log: seq<Record>, next: nat)
    requires Tiled(log) && Exclusive(log) && RevLogical(log, 0, next, None, []) == Newest(log, next)
    ensures GuessesRight(log)
  {
    forall j | 0 <= j < |log| && log[j].standalone.Some? ensures TopOpen(Stack(log[..j])) <==> InsideStart(log, j) {
      var t := SingleTurn(log[j]);
      BothMembers(log, next, t);
      SingleIsNoTask(log, j);
      PlainKeepsStack(log, j);
      FreeHere(log, j);
      AloneHere(log, j);
    }
  }

  lemma {:induction false} FreeHere(log: seq<Record>, j: nat)
    requires Tiled(log) && j < |log| && log[j].standalone.Some?
    ensures FreeBefore(log, |log|, SingleTurn(log[j])) <==> !InsideStart(log, j)
  {
    var t := SingleTurn(log[j]);
    if !InsideStart(log, j) { assert FreeAt(log, j, t); }
    if FreeBefore(log, |log|, t) {
      var k :| 0 <= k < |log| && FreeAt(log, k, t);
      SameRecord(log, j, k);
    }
  }

  lemma {:induction false} AloneHere(log: seq<Record>, j: nat)
    requires Tiled(log) && j < |log| && log[j].standalone.Some?
    ensures AloneBefore(log, SingleTurn(log[j])) <==> IsSingle(log, j)
  {
    var t := SingleTurn(log[j]);
    if IsSingle(log, j) { assert IsThisSingle(log, j, t.start, t); }
    if AloneBefore(log, t) {
      var k :| 0 <= k < |log| && IsThisSingle(log, k, t.start, t);
      SameRecord(log, j, k);
    }
  }

  /**
   The logical visitor lists exactly the surviving turns, task and standalone, newest first, if and
   only if no surviving task turn is spoiled by a foreign terminal and, for every standalone record,
   the nearest start or terminal before it is a start exactly when a turn is open there.
   */
  lemma {:induction false} LogicalScanAgreesExactly(log: seq<Record>, frozen: bool)
    requires Tiled(log) && Exclusive(log)
    ensures RevLogical(log, 0, NextStart(log, frozen), None, []) == Newest(log, NextStart(log, frozen))
            <==> NoneSpoiled(log, frozen) && GuessesRight(log)
  {
    var next := NextStart(log, frozen);
    ReverseScanAgreesExactly(log, frozen);
    if RevLogical(log, 0, next, None, []) == Newest(log, next) {
      SameTasks(log, next);
      SameGuesses(log, next);
    }
    if RevTasks(log, 0, next, None) == Reverse(Interrupt(Stack(log), next)) && GuessesRight(log) { AlikeLists(log, next); }
  }

  lemma {:induction false} AlikeLists(log: seq<Record>, next: nat)
    requires Tiled(log) && Exclusive(log) && GuessesRight(log)
    requires RevTasks(log, 0, next, None) == Reverse(Interrupt(Stack(log), next))
    ensures RevLogical(log, 0, next, None, []) == Newest(log, next)
  {
    ListedDescends(log, 0, next, None, []);
    NewestDescends(log, next);
    forall t ensures t in RevLogical(log, 0, next, None, []) <==> t in Newest(log, next) {
      BothMembers(log, next, t);
      SameSingles(log, t);
      ReverseMembers(Interrupt(Stack(log), next), t);
    }
    DescendingUnique(RevLogical(log, 0, next, None, []), Newest(log, next));
  }

  lemma {:induction false} ReadAlike(log: seq<Record>, frozen: bool)
    requires ReadsAlike(log, frozen)
    ensures RevLogical(log, 0, NextStart(log, frozen), None, []) == Newest(log, NextStart(log, frozen))
  {
    LogicalScanAgreesExactly(log, frozen);
  }

  /** Orderly logs meet it. */
  lemma {:induction false} OrderlyReadsAlike(log: seq<Record>, frozen: bool)
    requires Orderly(log)
    ensures ReadsAlike(log, frozen)
  {
    LogicalScanAgrees(log, NextStart(log, frozen));
    LogicalScanAgreesExactly(log, frozen);
  }

  // --- Logs that do not meet it ---

  const BEGIN := Record(0, 1, Started("a"), None, true, 1, [])
  const UNDO := Record(1, 2, Rollback(1), None, true, 1, [])
  const ALONE := Record(2, 3, Plain, Some("x"), true, 1, [])
  const FOREIGN := Record(1, 2, Terminal("b", true), None, true, 1, [])

  lemma {:induction false} ThreeTile(a: Record, b: Record, c: Record)
    requires a.start == 0 && a.end == b.start == 1 && b.end == c.start == 2 && c.end == 3
    ensures Tiled([a, b, c])
  {
    var log := [a, b, c];
    forall i | 0 <= i < 3 ensures Abuts(log, i) { }
  }

  lemma {:induction false} FoldThree(a: Record, b: Record, c: Record)
    ensures Items([a, b, c]) == StepItems(StepItems(StepItems([], a), b), c)
    ensures [a, b, c][..2] == [a, b] && [a, b][..1] == [a] && [a][..0] == []
  {
    assert [a, b, c][..2] == [a, b] && [a, b][..1] == [a] && [a][..0] == [];
    assert Items([a]) == StepItems([], a);
    assert Items([a, b]) == StepItems(Items([a]), b);
  }

  /** A rollback of the running turn: the standalone turn behind it survives, and the visitor drops it at the start that was undone. */
  lemma {:induction false} RollbackHidesStandalone()
    ensures Tiled([BEGIN, UNDO, ALONE]) && Exclusive([BEGIN, UNDO, ALONE])
    ensures RevLogical([BEGIN, UNDO, ALONE], 0, 0, None, []) == []
    ensures Newest([BEGIN, UNDO, ALONE], 0) == [SingleTurn(ALONE)]
  {
    ThreeTile(BEGIN, UNDO, ALONE);
    BackOverRollback();
    ForthOverRollback();
  }

  lemma {:induction false} BackOverRollback()
    ensures RevLogical([BEGIN, UNDO, ALONE], 0, 0, None, []) == []
  {
    var x := SingleTurn(ALONE);
    assert [BEGIN, UNDO, ALONE][..2] == [BEGIN, UNDO] && [BEGIN, UNDO][..1] == [BEGIN] && [BEGIN][..0] == [];
    assert Hold([], ALONE) == [x];
    assert RevLogical([BEGIN], 1, 0, None, [x]) == [];
    assert RevLogical([BEGIN, UNDO], 0, 0, None, [x]) == RevLogical([BEGIN], 1, 0, None, [x]);
  }

  lemma {:induction false} ForthOverRollback()
    ensures Newest([BEGIN, UNDO, ALONE], 0) == [SingleTurn(ALONE)]
  {
    FoldThree(BEGIN, UNDO, ALONE);
    UndoneFold(BEGIN, UNDO, ALONE);
    OneItem(Item(SingleTurn(ALONE), false));
  }

  lemma {:induction false} UndoneFold(a: Record, b: Record, c: Record)
    requires a.mark.Started? && a.standalone.None? && b.mark == Rollback(1) && b.standalone.None? && c.mark.Plain? && c.standalone.Some?
    ensures StepItems(StepItems(StepItems([], a), b), c) == [Item(SingleTurn(c), false)]
  {
    var task := Item(Turn(a.mark.id, a.start, 0, false), true);
    assert StepItems([], a) == [task] && [task][..0] == [];
    assert DropTasks([task], 1) == DropTasks([], 0) == [];
  }

  lemma {:induction false} OneItem(item: Item)
    requires item.turn.end != 0 || !item.turn.completed
    ensures Reverse(TurnsOf(InterruptLast([item], 0))) == [item.turn]
  {
    var x := item.turn;
    assert InterruptLast([item], 0) == [item];
    assert TurnsOf([item]) == [x] && Reverse([x]) == [x] + Reverse([x][..0]);
  }

  /** A foreign terminal: the visitor takes a standalone record of the running turn for a turn by itself. */
  lemma {:induction false} ForeignTerminalFreesStandalone()
    ensures Tiled([BEGIN, FOREIGN, ALONE]) && Exclusive([BEGIN, FOREIGN, ALONE])
    ensures RevLogical([BEGIN, FOREIGN, ALONE], 0, 0, None, []) == [SingleTurn(ALONE), Turn("a", 0, 0, false)]
    ensures Newest([BEGIN, FOREIGN, ALONE], 0) == [Turn("a", 0, 0, false)]
  {
    ThreeTile(BEGIN, FOREIGN, ALONE);
    BackOverForeign();
    ForthOverForeign();
  }

  lemma {:induction false} BackOverForeign()
    ensures RevLogical([BEGIN, FOREIGN, ALONE], 0, 0, None, []) == [SingleTurn(ALONE), Turn("a", 0, 0, false)]
  {
    var x, a := SingleTurn(ALONE), Turn("a", 0, 0, false);
    var met := Some(Close("b", 2, true));
    assert [BEGIN, FOREIGN, ALONE][..2] == [BEGIN, FOREIGN] && [BEGIN, FOREIGN][..1] == [BEGIN] && [BEGIN][..0] == [];
    assert Hold([], ALONE) == [x];
    assert RevLogical([BEGIN], 0, 0, met, []) == [a];
    assert RevLogical([BEGIN, FOREIGN], 0, 0, None, [x]) == [x] + RevLogical([BEGIN], 0, 0, met, []);
  }

  lemma {:induction false} ForthOverForeign()
    ensures Newest([BEGIN, FOREIGN, ALONE], 0) == [Turn("a", 0, 0, false)]
  {
    FoldThree(BEGIN, FOREIGN, ALONE);
    HeldFold(BEGIN, FOREIGN, ALONE);
    OneItem(Item(Turn("a", 0, 0, false), true));
  }

  lemma {:induction false} HeldFold(a: Record, b: Record, c: Record)
    requires a.mark.Started? && a.standalone.None? && b.mark.Terminal? && b.mark.id != a.mark.id && b.standalone.None? && c.mark.Plain?
    ensures StepItems(StepItems(StepItems([], a), b), c) == [Item(Turn(a.mark.id, a.start, 0, false), true)]
  {
  }
}
