/**
 Turns with standalone records: `Items` extends the forward stack with the records that are
 complete turns by themselves, and `RevLogical` is the reverse visitor that collects them on the
 way back. A rollback counts task turns only.
 */
module LogicalTurns {
  import opened Wrappers
  import opened Transcript
  import opened ReverseScan

  datatype Item = Item(turn: Turn, task: bool)

  predicate OpenLast(items: seq<Item>) {
    items != [] && items[|items| - 1].task && items[|items| - 1].turn.end == 0
  }

  function CloseLast(items: seq<Item>, end: nat, completed: bool): (r: seq<Item>)
    requires items != []
  {
    var last := items[|items| - 1];
    items[..|items| - 1] + [last.(turn := last.turn.(end := end, completed := completed))]
  }

  function InterruptLast(items: seq<Item>, at: nat): (r: seq<Item>) {
    if OpenLast(items) then CloseLast(items, at, false) else items
  }

  /** Removes the newest `n` task turns and leaves the standalone ones. */
  function DropTasks(items: seq<Item>, n: nat): (r: seq<Item>) {
    if n == 0 || items == [] then items
    else if items[|items| - 1].task then DropTasks(items[..|items| - 1], n - 1)
    else DropTasks(items[..|items| - 1], n) + [items[|items| - 1]]
  }

  function StepMark(items: seq<Item>, r: Record): (items': seq<Item>) {
    match r.mark
    case Started(id) => InterruptLast(items, r.start) + [Item(Turn(id, r.start, 0, false), true)]
    case Terminal(id, completed) =>
      if OpenLast(items) && items[|items| - 1].turn.id == id then CloseLast(items, r.end, completed) else items
    case Rollback(n) => DropTasks(items, n)
    case _ => items
  }

  function StepItems(items: seq<Item>, r: Record): (items': seq<Item>) {
    var marked := StepMark(items, r);
    if r.standalone.Some? && !OpenLast(marked) then marked + [Item(SingleTurn(r), false)] else marked
  }

  /** The surviving turns, task and standalone, oldest first. */
  function Items(log: seq<Record>): (items: seq<Item>) {
    if log == [] then [] else StepItems(Items(log[..|log| - 1]), log[|log| - 1])
  }

  function TurnsOf(items: seq<Item>): (r: seq<Turn>)
    ensures |r| == |items|
  {
    seq(|items|, i requires 0 <= i < |items| => items[i].turn)
  }

  /** No record is both a boundary and a standalone turn. */
  ghost predicate Exclusive(log: seq<Record>) {
    forall j :: 0 <= j < |log| ==> !log[j].mark.Plain? ==> log[j].standalone.None?
  }

  /** Record `j` removes turns while the newest of them is still running. */
  predicate OpenRollbackAt(log: seq<Record>, j: nat)
    requires j < |log|
  {
    log[j].mark.Rollback? && log[j].mark.count > 0 && TopOpen(Stack(log[..j]))
  }

  ghost predicate NoOpenRollback(log: seq<Record>) {
    forall j :: 0 <= j < |log| ==> !OpenRollbackAt(log, j)
  }

  /** The conditions under which the two scans treat standalone turns alike. */
  ghost predicate Orderly(log: seq<Record>) {
    Tiled(log) && NoForeign(log) && Exclusive(log) && NoOpenRollback(log)
  }

  lemma {:induction false} OrderlyPrefix(log: seq<Record>, k: nat)
    requires Orderly(log) && k <= |log|
    ensures Orderly(log[..k])
  {
    TiledPrefix(log, k);
    NoForeignPrefix(log, k);
    forall j | 0 <= j < k
      ensures !OpenRollbackAt(log[..k], j)
    {
      assert log[..k][..j] == log[..j];
      assert !OpenRollbackAt(log, j);
    }
  }

  // --- The reverse visitor ---

  function RevLogical(log: seq<Record>, skipped: nat, next: nat, terminal: Option<Close>, pending: seq<Turn>): (turns: seq<Turn>) {
    if log == [] then pending else
      var rest, r := log[..|log| - 1], log[|log| - 1];
      match r.mark
      case Rollback(n) => RevLogical(rest, skipped + n, next, terminal, pending)
      case Terminal(id, completed) => pending + RevLogical(rest, skipped, next, Some(Close(id, r.end, completed)), [])
      case Started(id) =>
        if skipped > 0 then RevLogical(rest, skipped - 1, r.start, None, [])
        else [ClosedBy(r, next, terminal)] + RevLogical(rest, 0, r.start, None, [])
      case _ =>
        RevLogical(rest, skipped, next, terminal, Hold(pending, r))
  }

  // --- Items and the task stack ---

  function Tasks(items: seq<Item>): (r: seq<Turn>) {
    if items == [] then []
    else
      var last := items[|items| - 1];
      Tasks(items[..|items| - 1]) + (if last.task then [last.turn] else [])
  }

  lemma {:induction false} TasksSnoc(items: seq<Item>, item: Item)
    ensures Tasks(items + [item]) == Tasks(items) + (if item.task then [item.turn] else [])
  {
    assert (items + [item])[..|items|] == items;
  }

  lemma {:induction false} PopSnoc(s: seq<Turn>, t: Turn, n: nat)
    requires n > 0
    ensures Pop(s + [t], n) == Pop(s, n - 1)
  {
  }

  lemma {:induction false} TasksOfDrop(items: seq<Item>, n: nat)
    ensures Tasks(DropTasks(items, n)) == Pop(Tasks(items), n)
    decreases |items|
  {
    if n != 0 && items != [] {
      var init, last := items[..|items| - 1], items[|items| - 1];
      if last.task {
        TasksOfDrop(init, n - 1);
        PopSnoc(Tasks(init), last.turn, n);
      } else {
        TasksOfDrop(init, n);
        TasksSnoc(DropTasks(init, n), last);
        assert Tasks(init) + [] == Tasks(init);
      }
    }
  }

  /** Only the last item can be open, and an open item is a task. */
  ghost predicate ItemShape(items: seq<Item>, bound: nat) {
    forall i :: 0 <= i < |items| ==>
      && items[i].turn.start < bound
      && (items[i].turn.end == 0 ==> i == |items| - 1 && items[i].task && !items[i].turn.completed)
  }

  lemma {:induction false} DropShape(items: seq<Item>, n: nat, bound: nat)
    requires ItemShape(items, bound)
    ensures ItemShape(DropTasks(items, n), bound)
    ensures n > 0 ==> !OpenLast(DropTasks(items, n))
    decreases |items|
  {
    if n != 0 && items != [] {
      var init, last := items[..|items| - 1], items[|items| - 1];
      DropShape(init, if last.task then n - 1 else n, bound);
    }
  }

  lemma {:induction false} StepMarkShape(items: seq<Item>, r: Record)
    requires ItemShape(items, r.start) && r.start < r.end
    ensures ItemShape(StepMark(items, r), if r.mark.Started? || r.mark.Terminal? then r.end else r.start)
  {
    match r.mark
    case Started(id) =>
      var below := InterruptLast(items, r.start);
      assert ItemShape(below, r.start);
    case Terminal(id, completed) =>
    case Rollback(n) => DropShape(items, n, r.start);
    case _ =>
  }

  lemma {:induction false} StepItemShape(items: seq<Item>, r: Record)
    requires ItemShape(items, r.start) && r.start < r.end
    requires !r.mark.Plain? ==> r.standalone.None?
    ensures ItemShape(StepItems(items, r), r.end)
  {
    StepMarkShape(items, r);
  }

  lemma {:induction false} TasksOfClose(items: seq<Item>, end: nat, completed: bool)
    requires items != [] && items[|items| - 1].task
    ensures Tasks(items) != [] && Tasks(CloseLast(items, end, completed)) == CloseTop(Tasks(items), end, completed)
    ensures Tasks(items)[|Tasks(items)| - 1] == items[|items| - 1].turn
  {
    var init, last := items[..|items| - 1], items[|items| - 1];
    TasksSnoc(init, last.(turn := last.turn.(end := end, completed := completed)));
  }

  lemma {:induction false} StepMarkTasks(items: seq<Item>, r: Record)
    requires TopOpen(Tasks(items)) == OpenLast(items)
    ensures Tasks(StepMark(items, r)) == StepStack(Tasks(items), r)
  {
    match r.mark
    case Started(id) =>
      if OpenLast(items) { TasksOfClose(items, r.start, false); }
      TasksSnoc(InterruptLast(items, r.start), Item(Turn(id, r.start, 0, false), true));
    case Terminal(id, completed) =>
      if OpenLast(items) { TasksOfClose(items, r.end, completed); }
    case Rollback(n) => TasksOfDrop(items, n);
    case _ =>
  }

  lemma {:induction false} StepTasks(items: seq<Item>, r: Record)
    requires TopOpen(Tasks(items)) == OpenLast(items)
    ensures Tasks(StepItems(items, r)) == StepStack(Tasks(items), r)
  {
    StepMarkTasks(items, r);
    if r.standalone.Some? { TasksSnoc(StepMark(items, r), Item(SingleTurn(r), false)); }
  }

  lemma {:induction false} TasksOpen(items: seq<Item>, bound: nat)
    requires ItemShape(items, bound)
    ensures TopOpen(Tasks(items)) == OpenLast(items)
    ensures forall turn :: turn in Tasks(items) ==> exists i :: 0 <= i < |items| && items[i].turn == turn
  {
    if items != [] {
      var init, last := items[..|items| - 1], items[|items| - 1];
      TasksOpen(init, bound);
      forall turn | turn in Tasks(items)
        ensures exists i :: 0 <= i < |items| && items[i].turn == turn
      {
        if turn in Tasks(init) {
          var i :| 0 <= i < |init| && init[i].turn == turn;
          assert items[i].turn == turn;
        } else {
          assert items[|items| - 1].turn == turn;
        }
      }
    }
  }

  /** The task items are the stack, and the item that is open is its top. */
  lemma {:induction false} ItemsExtendStack(log: seq<Record>)
    requires Tiled(log) && Exclusive(log)
    ensures ItemShape(Items(log), DurableEnd(log))
    ensures Tasks(Items(log)) == Stack(log)
    ensures TopOpen(Stack(log)) == OpenLast(Items(log))
  {
    if log != [] {
      var k := |log| - 1;
      TiledPrefix(log, k);
      ItemsExtendStack(log[..k]);
      assert Abuts(log, k);
      StepItemShape(Items(log[..k]), log[k]);
      StepTasks(Items(log[..k]), log[k]);
    }
    TasksOpen(Items(log), DurableEnd(log));
  }

  // --- The reverse visitor agrees with the forward items ---

  function CutItems(items: seq<Item>, skipped: nat, next: nat, terminal: Option<Close>): (r: seq<Item>) {
    if skipped > 0 then DropTasks(items, skipped)
    else if OpenLast(items) then
      var (end, completed) := Closing(items[|items| - 1].turn.id, next, terminal);
      CloseLast(items, end, completed)
    else items
  }

  lemma {:induction false} DropDrop(items: seq<Item>, a: nat, b: nat)
    ensures DropTasks(DropTasks(items, a), b) == DropTasks(items, a + b)
    decreases |items|
  {
    if a != 0 && items != [] {
      var init, last := items[..|items| - 1], items[|items| - 1];
      if last.task {
        DropDrop(init, a - 1, b);
      } else {
        DropDrop(init, a, b);
        assert (DropTasks(init, a) + [last])[..|DropTasks(init, a)|] == DropTasks(init, a);
      }
    }
  }

  lemma {:induction false} DropInterrupted(items: seq<Item>, end: nat, completed: bool, n: nat)
    requires OpenLast(items) && n > 0
    ensures DropTasks(CloseLast(items, end, completed), n) == DropTasks(items, n)
  {
    assert CloseLast(items, end, completed)[..|items| - 1] == items[..|items| - 1];
  }

  lemma {:induction false} DropSnoc(items: seq<Item>, item: Item, n: nat)
    requires n > 0
    ensures DropTasks(items + [item], n) == if item.task then DropTasks(items, n - 1) else DropTasks(items, n) + [item]
  {
    assert (items + [item])[..|items|] == items;
  }

  lemma {:induction false} CutAfterStart(items: seq<Item>, r: Record, skipped: nat, next: nat, terminal: Option<Close>)
    requires ItemShape(items, r.start) && r.mark.Started?
    ensures skipped > 0 ==> CutItems(StepMark(items, r), skipped, next, terminal) == CutItems(items, skipped - 1, r.start, None)
    ensures skipped == 0 ==>
              CutItems(StepMark(items, r), 0, next, terminal)
              == CutItems(items, 0, r.start, None) + [Item(ClosedBy(r, next, terminal), true)]
  {
    var started := Item(Turn(r.mark.id, r.start, 0, false), true);
    var below := InterruptLast(items, r.start);
    assert StepMark(items, r) == below + [started];
    if skipped > 0 {
      DropSnoc(below, started, skipped);
      if skipped > 1 && OpenLast(items) { DropInterrupted(items, r.start, false, skipped - 1); }
    }
  }

  /** The standalone turn a record adds to those the visitor holds back. */
  function Hold(pending: seq<Turn>, r: Record): (held: seq<Turn>) {
    if r.standalone.Some? then pending + [SingleTurn(r)] else pending
  }

  /** What the visitor still has to report once the records before it folded to `items`. */
  function Report(items: seq<Item>, skipped: nat, next: nat, terminal: Option<Close>, pending: seq<Turn>): (turns: seq<Turn>) {
    (if OpenLast(items) then [] else pending) + Reverse(TurnsOf(CutItems(items, skipped, next, terminal)))
  }

  lemma {:induction false} CutAfterDrop(items: seq<Item>, n: nat, skipped: nat, next: nat, terminal: Option<Close>, bound: nat)
    requires ItemShape(items, bound) && (n > 0 ==> !OpenLast(items))
    ensures CutItems(DropTasks(items, n), skipped, next, terminal) == CutItems(items, skipped + n, next, terminal)
    ensures OpenLast(DropTasks(items, n)) == OpenLast(items)
  {
    DropDrop(items, n, skipped);
    DropShape(items, n, bound);
  }

  lemma {:induction false} ReportRollback(log: seq<Record>, skipped: nat, next: nat, terminal: Option<Close>,
          pending: seq<Turn>)
    requires Orderly(log) && log != [] && log[|log| - 1].mark.Rollback?
    ensures Orderly(log[..|log| - 1])
    ensures Report(Items(log), skipped, next, terminal, pending)
         == Report(Items(log[..|log| - 1]), skipped + log[|log| - 1].mark.count, next, terminal, pending)
  {
    OrderlyStep(log);
    var items, r := Items(log[..|log| - 1]), log[|log| - 1];
    assert Items(log) == DropTasks(items, r.mark.count);
    CutAfterDrop(items, r.mark.count, skipped, next, terminal, r.start);
  }

  lemma {:induction false} ReportTerminal(log: seq<Record>, skipped: nat, next: nat, terminal: Option<Close>,
          pending: seq<Turn>)
    requires Orderly(log) && log != [] && log[|log| - 1].mark.Terminal?
    ensures Orderly(log[..|log| - 1])
    ensures var r := log[|log| - 1];
            Report(Items(log), skipped, next, terminal, pending)
            == pending + Report(Items(log[..|log| - 1]), skipped, next, Some(Close(r.mark.id, r.end, r.mark.completed)), [])
  {
    OrderlyStep(log);
    var items, r := Items(log[..|log| - 1]), log[|log| - 1];
    if OpenLast(items) && skipped > 0 { DropInterrupted(items, r.end, r.mark.completed, skipped); }
    var met := Some(Close(r.mark.id, r.end, r.mark.completed));
    assert CutItems(StepItems(items, r), skipped, next, terminal) == CutItems(items, skipped, next, met);
  }

  lemma {:induction false} TurnsSnoc(items: seq<Item>, item: Item)
    ensures TurnsOf(items + [item]) == TurnsOf(items) + [item.turn]
  {
  }

  lemma {:induction false} StartedReport(items: seq<Item>, r: Record, skipped: nat, next: nat,
          terminal: Option<Close>, pending: seq<Turn>)
    requires ItemShape(items, r.start) && r.mark.Started?
    ensures Report(StepMark(items, r), skipped, next, terminal, pending)
         == if skipped > 0 then Report(items, skipped - 1, r.start, None, [])
            else [ClosedBy(r, next, terminal)] + Report(items, 0, r.start, None, [])
  {
    CutAfterStart(items, r, skipped, next, terminal);
    if skipped > 0 {
      assert Report(items, skipped - 1, r.start, None, []) == Reverse(TurnsOf(CutItems(items, skipped - 1, r.start, None)));
    } else {
      var below, turn := CutItems(items, 0, r.start, None), ClosedBy(r, next, terminal);
      TurnsSnoc(below, Item(turn, true));
      ReverseSnoc(TurnsOf(below), turn);
      assert Report(items, 0, r.start, None, []) == Reverse(TurnsOf(below));
    }
  }

  lemma {:induction false} ReportStarted(log: seq<Record>, skipped: nat, next: nat, terminal: Option<Close>, pending: seq<Turn>)
    requires Orderly(log) && log != [] && log[|log| - 1].mark.Started?
    ensures Orderly(log[..|log| - 1])
    ensures var items, r := Items(log[..|log| - 1]), log[|log| - 1];
            Report(Items(log), skipped, next, terminal, pending)
            == if skipped > 0 then Report(items, skipped - 1, r.start, None, [])
               else [ClosedBy(r, next, terminal)] + Report(items, 0, r.start, None, [])
  {
    OrderlyStep(log);
    StartedReport(Items(log[..|log| - 1]), log[|log| - 1], skipped, next, terminal, pending);
  }

  lemma {:induction false} ReportHeld(items: seq<Item>, single: Turn, skipped: nat, next: nat,
          terminal: Option<Close>, pending: seq<Turn>)
    requires !OpenLast(items)
    ensures Report(items + [Item(single, false)], skipped, next, terminal, pending)
         == Report(items, skipped, next, terminal, pending + [single])
  {
    var item := Item(single, false);
    var cut := CutItems(items, skipped, next, terminal);
    if skipped > 0 { DropSnoc(items, item, skipped); }
    assert CutItems(items + [item], skipped, next, terminal) == cut + [item];
    assert TurnsOf(cut + [item]) == TurnsOf(cut) + [single];
    ReverseSnoc(TurnsOf(cut), single);
    InsertBetween(pending, single, Reverse(TurnsOf(cut)));
  }

  lemma {:induction false} ReportStandalone(log: seq<Record>, skipped: nat, next: nat, terminal: Option<Close>,
          pending: seq<Turn>)
    requires Orderly(log) && log != [] && (log[|log| - 1].mark.Plain? || log[|log| - 1].mark.Broken?)
    ensures Orderly(log[..|log| - 1])
    ensures Report(Items(log), skipped, next, terminal, pending)
         == Report(Items(log[..|log| - 1]), skipped, next, terminal, Hold(pending, log[|log| - 1]))
  {
    OrderlyStep(log);
    var items, r := Items(log[..|log| - 1]), log[|log| - 1];
    if r.standalone.Some? && !OpenLast(items) {
      ReportHeld(items, SingleTurn(r), skipped, next, terminal, pending);
    }
  }

  /** What a record of an orderly log meets. */
  lemma {:induction false} OrderlyStep(log: seq<Record>)
    requires Orderly(log) && log != []
    ensures var k := |log| - 1; var items, r := Items(log[..k]), log[k];
            && Orderly(log[..k]) && Items(log) == StepItems(items, r)
            && ItemShape(items, r.start) && r.start < r.end
            && (!r.mark.Plain? ==> r.standalone.None?)
            && (r.mark.Terminal? && OpenLast(items) ==> items[|items| - 1].turn.id == r.mark.id)
            && (r.mark.Rollback? && r.mark.count > 0 ==> !OpenLast(items))
  {
    var k := |log| - 1;
    OrderlyPrefix(log, k);
    ItemsExtendStack(log[..k]);
    assert Abuts(log, k);
    assert !ForeignAt(log, k) && !OpenRollbackAt(log, k);
    if OpenLast(Items(log[..k])) { OpenItemIsTop(log[..k]); }
  }

  lemma {:induction false} FoldRollback(log: seq<Record>, skipped: nat, next: nat, terminal: Option<Close>, pending: seq<Turn>)
    requires Orderly(log) && log != [] && log[|log| - 1].mark.Rollback?
    ensures RevLogical(log, skipped, next, terminal, pending) == Report(Items(log), skipped, next, terminal, pending)
    decreases |log|, 0
  {
    var rest, r := log[..|log| - 1], log[|log| - 1];
    ReportRollback(log, skipped, next, terminal, pending);
    RevLogicalIsFold(rest, skipped + r.mark.count, next, terminal, pending);
  }

  lemma {:induction false} FoldTerminal(log: seq<Record>, skipped: nat, next: nat, terminal: Option<Close>, pending: seq<Turn>)
    requires Orderly(log) && log != [] && log[|log| - 1].mark.Terminal?
    ensures RevLogical(log, skipped, next, terminal, pending) == Report(Items(log), skipped, next, terminal, pending)
    decreases |log|, 0
  {
    var rest, r := log[..|log| - 1], log[|log| - 1];
    ReportTerminal(log, skipped, next, terminal, pending);
    RevLogicalIsFold(rest, skipped, next, Some(Close(r.mark.id, r.end, r.mark.completed)), []);
  }

  lemma {:induction false} FoldStarted(log: seq<Record>, skipped: nat, next: nat, terminal: Option<Close>, pending: seq<Turn>)
    requires Orderly(log) && log != [] && log[|log| - 1].mark.Started?
    ensures RevLogical(log, skipped, next, terminal, pending) == Report(Items(log), skipped, next, terminal, pending)
    decreases |log|, 0
  {
    var rest, r := log[..|log| - 1], log[|log| - 1];
    ReportStarted(log, skipped, next, terminal, pending);
    RevLogicalIsFold(rest, if skipped > 0 then skipped - 1 else 0, r.start, None, []);
  }

  lemma {:induction false} FoldStandalone(log: seq<Record>, skipped: nat, next: nat, terminal: Option<Close>,
          pending: seq<Turn>)
    requires Orderly(log) && log != [] && (log[|log| - 1].mark.Plain? || log[|log| - 1].mark.Broken?)
    ensures RevLogical(log, skipped, next, terminal, pending) == Report(Items(log), skipped, next, terminal, pending)
    decreases |log|, 0
  {
    var rest, r := log[..|log| - 1], log[|log| - 1];
    ReportStandalone(log, skipped, next, terminal, pending);
    RevLogicalIsFold(rest, skipped, next, terminal, Hold(pending, r));
  }

  /** The logical visitor, whatever its registers hold when it enters the log. */
  lemma {:induction false} RevLogicalIsFold(log: seq<Record>, skipped: nat, next: nat, terminal: Option<Close>,
          pending: seq<Turn>)
    requires Orderly(log)
    ensures RevLogical(log, skipped, next, terminal, pending) == Report(Items(log), skipped, next, terminal, pending)
    decreases |log|, 1
  {
    if log == [] {
      assert pending + Reverse(TurnsOf(CutItems([], skipped, next, terminal))) == pending;
    } else {
      match log[|log| - 1].mark
      case Rollback(n) => FoldRollback(log, skipped, next, terminal, pending);
      case Terminal(id, completed) => FoldTerminal(log, skipped, next, terminal, pending);
      case Started(id) => FoldStarted(log, skipped, next, terminal, pending);
      case _ => FoldStandalone(log, skipped, next, terminal, pending);
    }
  }

  lemma {:induction false} OpenItemIsTop(log: seq<Record>)
    requires Tiled(log) && Exclusive(log) && OpenLast(Items(log))
    ensures TopOpen(Stack(log)) && Stack(log)[|Stack(log)| - 1] == Items(log)[|Items(log)| - 1].turn
  {
    ItemsExtendStack(log);
  }

  /** The surviving turns as a reader lists them: newest first. */
  function Newest(log: seq<Record>, next: nat): (turns: seq<Turn>) {
    Reverse(TurnsOf(InterruptLast(Items(log), next)))
  }

  /**
   On an orderly log the logical visitor reports exactly the surviving turns, task and standalone,
   newest first. `next == 0` is a live file; a frozen prefix closes its last turn at `next`.
   */
  lemma {:induction false} LogicalScanAgrees(log: seq<Record>, next: nat)
    requires Orderly(log)
    ensures RevLogical(log, 0, next, None, []) == Newest(log, next)
  {
    RevLogicalIsFold(log, 0, next, None, []);
    assert CutItems(Items(log), 0, next, None) == InterruptLast(Items(log), next);
  }

  // --- Lists of turns, newest first ---

  /** Strictly newest first. */
  ghost predicate Descending(turns: seq<Turn>) {
    forall i, j :: 0 <= i < j < |turns| ==> turns[i].start > turns[j].start
  }

  /** Two strictly descending lists of the same turns are the same list. */
  lemma {:induction false} DescendingUnique(a: seq<Turn>, b: seq<Turn>)
    requires Descending(a) && Descending(b) && forall t :: t in a <==> t in b
    ensures a == b
  {
    if a == [] {
      if b != [] { HeadIn(b); }
    } else {
      assert a[0] in b;
      assert b[0] in a;
      var i :| 0 <= i < |a| && a[i] == b[0];
      var j :| 0 <= j < |b| && b[j] == a[0];
      assert a[0] == b[0];
      forall t ensures t in a[1..] <==> t in b[1..] {
        TailMembers(a, t);
        TailMembers(b, t);
      }
      DescendingUnique(a[1..], b[1..]);
    }
  }

  lemma {:induction false} HeadIn(a: seq<Turn>)
    requires a != []
    ensures exists t :: t in a
  {
    assert a[0] in a;
  }

  lemma {:induction false} TailMembers(a: seq<Turn>, t: Turn)
    requires Descending(a) && a != []
    ensures t in a[1..] <==> t in a && t != a[0]
  {
    if t in a && t != a[0] {
      var i :| 0 <= i < |a| && a[i] == t;
      assert a[1..][i - 1] == t;
    }
    if t in a[1..] {
      var i :| 0 <= i < |a| - 1 && a[1..][i] == t;
      assert a[i + 1] == t && a[0].start > a[i + 1].start;
    }
  }
}
