/**
 The reverse scans of scan.rs: they find turns from the durable end backwards,
 with a `skipped` counter for rollbacks, a register for the last terminal met and
 the start of the next turn. `RevTasks` is what the task visitor hands to its
 callback when the callback never stops; it is compared with the forward `Stack`.
 */
module ReverseScan {
  import opened Wrappers
  import opened Transcript

  /** The register of the last terminal met on the way back. */
  datatype Close = Close(id: string, end: nat, completed: bool)

  /** How the visitor closes the turn `id` it has just reached. */
  function Closing(id: string, next: nat, terminal: Option<Close>): (r: (nat, bool)) {
    if terminal.Some? && terminal.value.id == id then (terminal.value.end, terminal.value.completed) else (next, false)
  }

  /** The turn a start record opens, closed as the visitor reports it. */
  function ClosedBy(r: Record, next: nat, terminal: Option<Close>): (turn: Turn)
    requires r.mark.Started?
  {
    var (end, completed) := Closing(r.mark.id, next, terminal);
    Turn(r.mark.id, r.start, end, completed)
  }

  /** What the scan takes for the start of the turn after the last: the durable end, if the log is a frozen prefix. */
  function NextStart(log: seq<Record>, frozen: bool): (next: nat) {
    if frozen then DurableEnd(log) else 0
  }

  function RevTasks(log: seq<Record>, skipped: nat, next: nat, terminal: Option<Close>): (turns: seq<Turn>) {
    if log == [] then [] else
      var rest, r := log[..|log| - 1], log[|log| - 1];
      match r.mark
      case Rollback(n) => RevTasks(rest, skipped + n, next, terminal)
      case Terminal(id, completed) => RevTasks(rest, skipped, next, Some(Close(id, r.end, completed)))
      case Started(id) =>
        if skipped > 0 then RevTasks(rest, skipped - 1, r.start, None)
        else [ClosedBy(r, next, terminal)] + RevTasks(rest, 0, r.start, None)
      case _ => RevTasks(rest, skipped, next, terminal)
  }

  // --- The forward fold that the reverse scan really computes ---

  /** A turn as the reverse scan will report it; `sealed` once a terminal followed its start. */
  datatype Seen = Seen(turn: Turn, sealed: bool)

  function SetTop(s: seq<Seen>, top: Seen): (r: seq<Seen>)
    requires s != []
  {
    s[..|s| - 1] + [top]
  }

  predicate SeenOpen(s: seq<Seen>) {
    s != [] && s[|s| - 1].turn.end == 0
  }

  function Finish(seen: Seen, next: nat, terminal: Option<Close>): (r: Seen) {
    var (end, completed) := Closing(seen.turn.id, next, if seen.sealed then None else terminal);
    seen.(turn := seen.turn.(end := end, completed := completed))
  }

  function StepSeen(s: seq<Seen>, r: Record): (s': seq<Seen>) {
    match r.mark
    case Started(id) =>
      (if SeenOpen(s) then SetTop(s, Finish(s[|s| - 1], r.start, None)) else s) + [Seen(Turn(id, r.start, 0, false), false)]
    case Terminal(id, completed) =>
      if SeenOpen(s) then SetTop(s, Finish(s[|s| - 1], 0, Some(Close(id, r.end, completed))).(sealed := true)) else s
    case Rollback(n) => if n >= |s| then [] else s[..|s| - n]
    case _ => s
  }

  function SeenStack(log: seq<Record>): (s: seq<Seen>) {
    if log == [] then [] else StepSeen(SeenStack(log[..|log| - 1]), log[|log| - 1])
  }

  function Cut(s: seq<Seen>, skipped: nat, next: nat, terminal: Option<Close>): (r: seq<Seen>) {
    if skipped >= |s| then []
    else if skipped > 0 then s[..|s| - skipped]
    else if SeenOpen(s) then SetTop(s, Finish(s[|s| - 1], next, terminal))
    else s
  }

  function Turns(s: seq<Seen>): (r: seq<Turn>)
    ensures |r| == |s|
  {
    seq(|s|, i requires 0 <= i < |s| => s[i].turn)
  }

  /** As `Shape`: only the newest turn may still be open. */
  ghost predicate SeenShape(s: seq<Seen>, bound: nat) {
    forall i :: 0 <= i < |s| ==>
      s[i].turn.start < bound && (s[i].turn.end == 0 ==> i == |s| - 1 && !s[i].turn.completed)
  }

  lemma {:induction false} StepSeenShape(s: seq<Seen>, r: Record)
    requires SeenShape(s, r.start) && r.start < r.end
    ensures SeenShape(StepSeen(s, r), r.end)
  {
    match r.mark
    case Started(id) =>
    case Terminal(id, completed) =>
    case Rollback(n) =>
    case _ =>
  }

  lemma {:induction false} SeenStackShape(log: seq<Record>)
    requires Tiled(log)
    ensures SeenShape(SeenStack(log), DurableEnd(log))
  {
    if log != [] {
      var k := |log| - 1;
      TiledPrefix(log, k);
      SeenStackShape(log[..k]);
      assert Abuts(log, k);
      StepSeenShape(SeenStack(log[..k]), log[k]);
    }
  }

  lemma {:induction false} CutRollback(s: seq<Seen>, r: Record, skipped: nat, next: nat, terminal: Option<Close>)
    requires SeenShape(s, r.start) && r.mark.Rollback?
    ensures Cut(StepSeen(s, r), skipped, next, terminal) == Cut(s, skipped + r.mark.count, next, terminal)
  {
  }

  lemma {:induction false} CutTerminal(s: seq<Seen>, r: Record, skipped: nat, next: nat, terminal: Option<Close>)
    requires SeenShape(s, r.start) && r.mark.Terminal? && r.start < r.end
    ensures Turns(Cut(StepSeen(s, r), skipped, next, terminal))
         == Turns(Cut(s, skipped, next, Some(Close(r.mark.id, r.end, r.mark.completed))))
  {
  }

  lemma {:induction false} CutStarted(s: seq<Seen>, r: Record, skipped: nat, next: nat, terminal: Option<Close>)
    requires SeenShape(s, r.start) && r.mark.Started?
    ensures skipped > 0 ==> Cut(StepSeen(s, r), skipped, next, terminal) == Cut(s, skipped - 1, r.start, None)
    ensures skipped == 0 ==>
              Turns(Cut(StepSeen(s, r), 0, next, terminal))
              == Turns(Cut(s, 0, r.start, None)) + [ClosedBy(r, next, terminal)]
  {
  }

  lemma {:induction false} LastSeen(log: seq<Record>)
    requires Tiled(log) && log != []
    ensures var k := |log| - 1;
            Tiled(log[..k]) && SeenShape(SeenStack(log[..k]), log[k].start) && log[k].start < log[k].end
  {
    TiledPrefix(log, |log| - 1);
    SeenStackShape(log[..|log| - 1]);
    assert Abuts(log, |log| - 1);
  }

  lemma {:induction false} FoldBackRollback(log: seq<Record>, skipped: nat, next: nat, terminal: Option<Close>)
    requires Tiled(log) && log != [] && log[|log| - 1].mark.Rollback?
    ensures RevTasks(log, skipped, next, terminal) == Reverse(Turns(Cut(SeenStack(log), skipped, next, terminal)))
    decreases |log|, 0
  {
    var rest, r := log[..|log| - 1], log[|log| - 1];
    LastSeen(log);
    ReverseScanIsFold(rest, skipped + r.mark.count, next, terminal);
    CutRollback(SeenStack(rest), r, skipped, next, terminal);
  }

  lemma {:induction false} FoldBackTerminal(log: seq<Record>, skipped: nat, next: nat, terminal: Option<Close>)
    requires Tiled(log) && log != [] && log[|log| - 1].mark.Terminal?
    ensures RevTasks(log, skipped, next, terminal) == Reverse(Turns(Cut(SeenStack(log), skipped, next, terminal)))
    decreases |log|, 0
  {
    var rest, r := log[..|log| - 1], log[|log| - 1];
    LastSeen(log);
    ReverseScanIsFold(rest, skipped, next, Some(Close(r.mark.id, r.end, r.mark.completed)));
    CutTerminal(SeenStack(rest), r, skipped, next, terminal);
  }

  lemma {:induction false} FoldBackStarted(log: seq<Record>, skipped: nat, next: nat, terminal: Option<Close>)
    requires Tiled(log) && log != [] && log[|log| - 1].mark.Started?
    ensures RevTasks(log, skipped, next, terminal) == Reverse(Turns(Cut(SeenStack(log), skipped, next, terminal)))
    decreases |log|, 0
  {
    var rest, r := log[..|log| - 1], log[|log| - 1];
    LastSeen(log);
    ReverseScanIsFold(rest, if skipped > 0 then skipped - 1 else 0, r.start, None);
    CutStarted(SeenStack(rest), r, skipped, next, terminal);
    if skipped == 0 { ReverseSnoc(Turns(Cut(SeenStack(rest), 0, r.start, None)), ClosedBy(r, next, terminal)); }
  }

  /**
   The reverse scan, for every log and whatever its registers hold when it enters: it reports,
   newest first, what the forward fold `SeenStack` leaves once the pending rollbacks are taken
   off. Nested and over-long rollbacks are included.
   */
  lemma {:induction false} ReverseScanIsFold(log: seq<Record>, skipped: nat, next: nat, terminal: Option<Close>)
    requires Tiled(log)
    ensures RevTasks(log, skipped, next, terminal) == Reverse(Turns(Cut(SeenStack(log), skipped, next, terminal)))
    decreases |log|, 1
  {
    if log != [] {
      match log[|log| - 1].mark
      case Rollback(n) => FoldBackRollback(log, skipped, next, terminal);
      case Terminal(id, completed) => FoldBackTerminal(log, skipped, next, terminal);
      case Started(id) => FoldBackStarted(log, skipped, next, terminal);
      case _ =>
        TiledPrefix(log, |log| - 1);
        ReverseScanIsFold(log[..|log| - 1], skipped, next, terminal);
    }
  }

  // --- Agreement with the forward stack ---

  /** Record `j` ends a turn other than the one that is open there. The forward scan skips it. */
  predicate ForeignAt(log: seq<Record>, j: nat)
    requires j < |log|
  {
    var s := Stack(log[..j]);
    TopOpen(s) && log[j].mark.Terminal? && log[j].mark.id != s[|s| - 1].id
  }

  ghost predicate NoForeign(log: seq<Record>) {
    forall j :: 0 <= j < |log| ==> !ForeignAt(log, j)
  }

  /** Same turns in the same order, whatever their ends. */
  ghost predicate SameStarts(v: seq<Seen>, s: seq<Turn>) {
    && |v| == |s|
    && (forall i :: 0 <= i < |s| ==> v[i].turn.id == s[i].id && v[i].turn.start == s[i].start)
    && (TopOpen(s) ==> SeenOpen(v))
  }

  lemma {:induction false} StepSameStarts(v: seq<Seen>, s: seq<Turn>, r: Record)
    requires SameStarts(v, s) && Shape(s, r.start) && r.start < r.end
    ensures SameStarts(StepSeen(v, r), StepStack(s, r))
  {
    match r.mark
    case Started(id) =>
    case Terminal(id, completed) =>
    case Rollback(n) =>
    case _ =>
  }

  lemma {:induction false} SeenStarts(log: seq<Record>)
    requires Tiled(log)
    ensures SameStarts(SeenStack(log), Stack(log))
  {
    if log != [] {
      var k := |log| - 1;
      TiledPrefix(log, k);
      SeenStarts(log[..k]);
      StackShape(log[..k]);
      assert Abuts(log, k);
      StepSameStarts(SeenStack(log[..k]), Stack(log[..k]), log[k]);
    }
  }

  lemma {:induction false} NoForeignPrefix(log: seq<Record>, k: nat)
    requires NoForeign(log) && k <= |log|
    ensures NoForeign(log[..k])
  {
    forall j | 0 <= j < k
      ensures !ForeignAt(log[..k], j)
    {
      assert log[..k][..j] == log[..j];
      assert !ForeignAt(log, j);
    }
  }

  lemma {:induction false} StepSeenExact(v: seq<Seen>, s: seq<Turn>, r: Record)
    requires Turns(v) == s && Shape(s, r.start) && r.start < r.end
    requires |v| == |s|
    requires TopOpen(s) ==> !v[|v| - 1].sealed
    requires !(TopOpen(s) && r.mark.Terminal? && r.mark.id != s[|s| - 1].id)
    ensures Turns(StepSeen(v, r)) == StepStack(s, r)
    ensures TopOpen(StepStack(s, r)) ==> !StepSeen(v, r)[|StepStack(s, r)| - 1].sealed
  {
    assert forall i :: 0 <= i < |v| ==> v[i].turn == s[i];
    match r.mark
    case Started(id) =>
    case Terminal(id, completed) =>
    case Rollback(n) =>
    case _ =>
  }

  lemma {:induction false} SeenExact(log: seq<Record>)
    requires Tiled(log) && NoForeign(log)
    ensures Turns(SeenStack(log)) == Stack(log)
    ensures TopOpen(Stack(log)) ==> !SeenStack(log)[|Stack(log)| - 1].sealed
  {
    if log != [] {
      var k := |log| - 1;
      TiledPrefix(log, k);
      NoForeignPrefix(log, k);
      SeenExact(log[..k]);
      StackShape(log[..k]);
      assert Abuts(log, k);
      assert !ForeignAt(log, k);
      StepSeenExact(SeenStack(log[..k]), Stack(log[..k]), log[k]);
    }
  }

  /**
   Without foreign terminals the reverse scan lists exactly the turns of the forward stack, newest
   first: over a live file with the running turn still open, over a frozen prefix with it closed
   at the end.
   */
  lemma {:induction false} ReverseScanAgrees(log: seq<Record>, next: nat)
    requires Tiled(log) && NoForeign(log)
    ensures RevTasks(log, 0, next, None) == Reverse(Interrupt(Stack(log), next))
    ensures Interrupt(Stack(log), 0) == Stack(log)
  {
    ReverseScanIsFold(log, 0, next, None);
    SeenExact(log);
    StackShape(log);
    var v, s := SeenStack(log), Stack(log);
    assert Turns(v) == s;
    assert Turns(Cut(v, 0, next, None)) == Interrupt(s, next);
  }

  /** Foreign terminals or not, the turns reported are the surviving ones in descending order. */
  lemma {:induction false} ReverseScanStarts(log: seq<Record>, next: nat)
    requires Tiled(log)
    ensures var turns := RevTasks(log, 0, next, None);
            && |turns| == |Stack(log)|
            && forall i :: 0 <= i < |turns| ==>
                 turns[i].start == Stack(log)[|turns| - 1 - i].start && turns[i].id == Stack(log)[|turns| - 1 - i].id
  {
    ReverseScanIsFold(log, 0, next, None);
    SeenStarts(log);
  }
}
