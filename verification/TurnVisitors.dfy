/**
 The reverse visitors as loops, and the page scans built on them. A callback is a state and a
 step: `visit(state, turn)` gives the new state and whether to go on. Each visitor returns the
 state its callback reaches, or where an unreadable boundary stopped it.
 */
module TurnVisitors {
  import opened Wrappers
  import opened Transcript
  import opened ReverseScan
  import opened LogicalTurns

  datatype Visited<+S> = Finished(state: S) | Unreadable(offset: nat)

  /** The callback's last state, and whether it would still take another turn. */
  function Consume<S>(turns: seq<Turn>, state: S, visit: (S, Turn) -> (S, bool)): (r: (S, bool)) {
    if turns == [] then (state, true)
    else
      var (next, more) := visit(state, turns[0]);
      if more then Consume(turns[1..], next, visit) else (next, false)
  }

  lemma {:induction false} ConsumeConcat<S>(a: seq<Turn>, b: seq<Turn>, state: S, visit: (S, Turn) -> (S, bool))
    ensures Consume(a + b, state, visit)
         == var (next, more) := Consume(a, state, visit); if more then Consume(b, next, visit) else (next, false)
  {
    if a == [] {
      assert a + b == b;
    } else {
      var (next, more) := visit(state, a[0]);
      assert (a + b)[1..] == a[1..] + b;
      if more { ConsumeConcat(a[1..], b, next, visit); }
    }
  }

  lemma {:induction false} ConsumeCons<S>(turn: Turn, rest: seq<Turn>, state: S, visit: (S, Turn) -> (S, bool))
    ensures Consume([turn] + rest, state, visit)
         == var (next, more) := visit(state, turn); if more then Consume(rest, next, visit) else (next, false)
  {
    assert ([turn] + rest)[1..] == rest;
  }

  /** Rollbacks still pending beyond the number of records left remove everything that is left. */
  lemma {:induction false} ManySkipped(log: seq<Record>, skipped: nat, next: nat, terminal: Option<Close>)
    requires skipped >= |log|
    ensures RevTasks(log, skipped, next, terminal) == []
  {
    if log != [] {
      var rest, r := log[..|log| - 1], log[|log| - 1];
      match r.mark
      case Rollback(n) => ManySkipped(rest, skipped + n, next, terminal);
      case Terminal(id, completed) => ManySkipped(rest, skipped, next, Some(Close(id, r.end, completed)));
      case Started(id) => ManySkipped(rest, skipped - 1, r.start, None);
      case _ => ManySkipped(rest, skipped, next, terminal);
    }
  }

  lemma {:induction false} ManySkippedLogical(log: seq<Record>, a: nat, b: nat, next: nat,
          terminal: Option<Close>, pending: seq<Turn>)
    requires a >= |log| && b >= |log|
    ensures RevLogical(log, a, next, terminal, pending) == RevLogical(log, b, next, terminal, pending)
  {
    if log != [] {
      var rest, r := log[..|log| - 1], log[|log| - 1];
      match r.mark
      case Rollback(n) => ManySkippedLogical(rest, a + n, b + n, next, terminal, pending);
      case Terminal(id, completed) => ManySkippedLogical(rest, a, b, next, Some(Close(id, r.end, completed)), []);
      case Started(id) => ManySkippedLogical(rest, a - 1, b - 1, r.start, None, []);
      case _ =>
        ManySkippedLogical(rest, a, b, next, terminal, Hold(pending, r));
    }
  }

  /** Every record has a byte, so a file of at most `u64::MAX` bytes has no more records than that. */
  lemma {:induction false} RecordsFitTheFile(log: seq<Record>)
    requires Tiled(log)
    ensures |log| <= DurableEnd(log)
  {
    if log != [] {
      TiledPrefix(log, |log| - 1);
      RecordsFitTheFile(log[..|log| - 1]);
      assert Abuts(log, |log| - 1);
    }
  }

  /** The saturating counter stands for the true one, or both exceed every turn left to skip. */
  ghost predicate SkipsAlike(counter: nat, exact: nat, left: nat) {
    counter == exact || (counter >= left && exact >= left)
  }

  // --- Boundaries of a byte range ---

  predicate IsBoundary(r: Record) {
    r.mark.Started? || r.mark.Terminal? || r.mark.Rollback?
  }

  /** The boundary records of `log[lo..hi]`, newest first. */
  function Boundaries(log: seq<Record>, lo: nat, hi: nat): (found: seq<Record>)
    requires hi <= |log|
  {
    if hi <= lo then []
    else (if IsBoundary(log[hi - 1]) then [log[hi - 1]] else []) + Boundaries(log, lo, hi - 1)
  }

  function ConsumeRecords<S>(found: seq<Record>, state: S, visit: (S, Record) -> (S, bool)): (r: (S, bool)) {
    if found == [] then (state, true)
    else
      var (next, more) := visit(state, found[0]);
      if more then ConsumeRecords(found[1..], next, visit) else (next, false)
  }

  lemma {:induction false} ConsumeRecord<S>(r: Record, rest: seq<Record>, state: S, visit: (S, Record) -> (S, bool))
    ensures ConsumeRecords([r] + rest, state, visit)
         == var (next, more) := visit(state, r); if more then ConsumeRecords(rest, next, visit) else (next, false)
  {
    assert ([r] + rest)[1..] == rest;
  }

  /** How a walk over boundary records ends: it ran out of them, its callback had enough, or a line is unreadable. */
  datatype Walked<+S> = Through(state: S) | Stopped(state: S) | Blocked(offset: nat)

  /** The boundaries of records `lo..hi`, newest first, handed to a callback. */
  function Walk<S>(log: seq<Record>, lo: nat, hi: nat, state: S, visit: (S, Record) -> (S, bool)): (w: Walked<S>)
    requires hi <= |log|
    decreases hi
  {
    if hi <= lo then Through(state)
    else
      var r := log[hi - 1];
      if r.mark.Broken? then Blocked(r.start)
      else if !IsBoundary(r) then Walk(log, lo, hi - 1, state, visit)
      else
        var (next, more) := visit(state, r);
        if more then Walk(log, lo, hi - 1, next, visit) else Stopped(next)
  }

  function Ends<S>(w: Walked<S>): (r: Visited<S>) {
    match w
    case Through(state) => Finished(state)
    case Stopped(state) => Finished(state)
    case Blocked(offset) => Unreadable(offset)
  }

  ghost predicate ReadableIn(log: seq<Record>, lo: nat, hi: nat)
    requires hi <= |log|
  {
    forall k :: lo <= k < hi ==> !log[k].mark.Broken?
  }

  /** Record `j` is the newest unreadable one, and the callback still goes on when the walk gets there. */
  ghost predicate BlocksWalk<S>(log: seq<Record>, lo: nat, j: nat, hi: nat, state: S, visit: (S, Record) -> (S, bool))
    requires hi <= |log|
  {
    lo <= j < hi && log[j].mark.Broken? && ReadableIn(log, j + 1, hi) && ConsumeRecords(Boundaries(log, j + 1, hi), state, visit).1
  }

  lemma {:induction false} BlocksBelow<S>(log: seq<Record>, lo: nat, j: nat, hi: nat, state: S, visit: (S, Record) -> (S, bool))
    requires lo < hi <= |log| && !log[hi - 1].mark.Broken?
    ensures var r := log[hi - 1];
            BlocksWalk(log, lo, j, hi, state, visit) <==>
            if !IsBoundary(r) then BlocksWalk(log, lo, j, hi - 1, state, visit)
            else visit(state, r).1 && BlocksWalk(log, lo, j, hi - 1, visit(state, r).0, visit)
  {
    var r := log[hi - 1];
    if lo <= j < hi - 1 {
      var rest := Boundaries(log, j + 1, hi - 1);
      if IsBoundary(r) {
        assert Boundaries(log, j + 1, hi) == [r] + rest;
        ConsumeRecord(r, rest, state, visit);
      } else {
        assert Boundaries(log, j + 1, hi) == [] + rest == rest;
      }
      assert ReadableIn(log, j + 1, hi) <==> ReadableIn(log, j + 1, hi - 1);
    }
  }

  /**
   What a walk comes to. It is blocked exactly by the newest unreadable record, and only if the callback
   has not had enough before; otherwise the callback has consumed the boundaries, up to where it stopped.
   */
  lemma {:induction false} WalkExactly<S>(log: seq<Record>, lo: nat, hi: nat, state: S, visit: (S, Record) -> (S, bool))
    requires hi <= |log|
    ensures var w := Walk(log, lo, hi, state, visit);
            && (w.Blocked? <==> exists j: nat :: BlocksWalk(log, lo, j, hi, state, visit))
            && (w.Blocked? ==> exists j: nat :: BlocksWalk(log, lo, j, hi, state, visit) && log[j].start == w.offset)
            && (!w.Blocked? ==> ConsumeRecords(Boundaries(log, lo, hi), state, visit) == (w.state, w.Through?))
    decreases hi
  {
    if lo < hi {
      var r, rest := log[hi - 1], Boundaries(log, lo, hi - 1);
      if r.mark.Broken? {
        assert BlocksWalk(log, lo, hi - 1, hi, state, visit);
      } else {
        var (next, more) := if IsBoundary(r) then visit(state, r) else (state, true);
        if IsBoundary(r) { ConsumeRecord(r, rest, state, visit); } else { assert [] + rest == rest; }
        if more {
          var below := hi - 1;
          WalkExactly(log, lo, below, next, visit);
          BlockedBelow(log, lo, hi, state, next, visit);
          assert Walk(log, lo, hi, state, visit) == Walk(log, lo, below, next, visit);
          if j: nat :| BlocksWalk(log, lo, j, below, next, visit) { assert BlocksWalk(log, lo, j, hi, state, visit); }
          if j: nat :| BlocksWalk(log, lo, j, hi, state, visit) { assert BlocksWalk(log, lo, j, below, next, visit); }
        } else {
          forall j: nat ensures !BlocksWalk(log, lo, j, hi, state, visit) { BlocksBelow(log, lo, j, hi, state, visit); }
        }
      }
    }
  }

  /** Where the callback goes on, the same record blocks the walk with and without its newest one. */
  lemma {:induction false} BlockedBelow<S>(log: seq<Record>, lo: nat, hi: nat, state: S, next: S,
          visit: (S, Record) -> (S, bool))
    requires lo < hi <= |log| && !log[hi - 1].mark.Broken?
    requires if IsBoundary(log[hi - 1]) then visit(state, log[hi - 1]) == (next, true) else next == state
    ensures forall j: nat :: BlocksWalk(log, lo, j, hi, state, visit) <==> BlocksWalk(log, lo, j, hi - 1, next, visit)
  {
    forall j: nat ensures BlocksWalk(log, lo, j, hi, state, visit) <==> BlocksWalk(log, lo, j, hi - 1, next, visit) {
      BlocksBelow(log, lo, j, hi, state, visit);
    }
  }

  /** `visit_boundaries_reverse` over whole records `lo..hi`. */
  method VisitBoundariesReverse<S>(log: seq<Record>, lo: nat, hi: nat, init: S, visit: (S, Record) -> (S, bool))
    returns (r: Visited<S>)
    requires lo <= hi <= |log|
    ensures r == Ends(Walk(log, lo, hi, init, visit))
    ensures r.Finished? ==> r.state == ConsumeRecords(Boundaries(log, lo, hi), init, visit).0
    ensures r.Unreadable? <==> exists j: nat :: BlocksWalk(log, lo, j, hi, init, visit)
    ensures r.Unreadable? ==> exists j: nat :: BlocksWalk(log, lo, j, hi, init, visit) && log[j].start == r.offset
  {
    WalkExactly(log, lo, hi, init, visit);
    var state, i := init, hi;
    while i > lo
      invariant lo <= i <= hi
      invariant Walk(log, lo, hi, init, visit) == Walk(log, lo, i, state, visit)
    {
      i := i - 1;
      var record := log[i];
      if record.mark.Broken? { return Unreadable(record.start); }
      if IsBoundary(record) {
        var (state', more) := visit(state, record);
        state := state';
        if !more { return Finished(state); }
      }
    }
    return Finished(state);
  }

  // --- The task visitor ---

  /** The callback's registers around those of its own callback. */
  datatype TaskState<S> = TaskState(skipped: nat, next: nat, terminal: Option<Close>, inner: S)

  function TaskStart<S>(init: S): (st: TaskState<S>) {
    TaskState(0, 0, None, init)
  }

  function TaskVisit<S>(visit: (S, Turn) -> (S, bool)): (step: (TaskState<S>, Record) -> (TaskState<S>, bool)) {
    (st: TaskState<S>, r: Record) =>
      match r.mark
      case Rollback(count) => (st.(skipped := SaturatingAdd(st.skipped, count)), true)
      case Terminal(id, completed) => (st.(terminal := Some(Close(id, r.end, completed))), true)
      case Started(_) =>
        if st.skipped > 0 then (TaskState(st.skipped - 1, r.start, None, st.inner), true)
        else
          var (inner, more) := visit(st.inner, ClosedBy(r, st.next, st.terminal));
          (TaskState(0, r.start, None, inner), more)
      case _ => (st, true)
  }

  /** Handed the boundaries of a log, it hands on the turns of the reverse scan. */
  lemma {:induction false} TasksConsumed<S>(log: seq<Record>, st: TaskState<S>, exact: nat, visit: (S, Turn) -> (S, bool))
    requires |log| <= U64_MAX && SkipsAlike(st.skipped, exact, |log|)
    ensures var (st', more) := ConsumeRecords(Boundaries(log, 0, |log|), st, TaskVisit(visit));
            (st'.inner, more) == Consume(RevTasks(log, exact, st.next, st.terminal), st.inner, visit)
    decreases |log|, 0
  {
    if log != [] {
      var n := |log| - 1;
      var rest, r, found := log[..n], log[n], Boundaries(log, 0, n);
      BoundariesPrefix(log, n, 0, n);
      if !IsBoundary(r) {
        assert [] + found == found;
        TasksConsumed(rest, st, exact, visit);
      } else {
        ConsumeRecord(r, found, st, TaskVisit(visit));
        match r.mark
        case Rollback(count) => TasksConsumed(rest, st.(skipped := SaturatingAdd(st.skipped, count)), exact + count, visit);
        case Terminal(id, completed) => TasksConsumed(rest, st.(terminal := Some(Close(id, r.end, completed))), exact, visit);
        case Started(_) => TaskStarted(rest, r, st, exact, visit);
      }
    }
  }

  lemma {:induction false} TaskStarted<S>(rest: seq<Record>, r: Record, st: TaskState<S>, exact: nat,
          visit: (S, Turn) -> (S, bool))
    requires |rest| < U64_MAX && r.mark.Started? && SkipsAlike(st.skipped, exact, |rest| + 1)
    ensures var (next, more) := TaskVisit(visit)(st, r);
            var (st', more') := if more then ConsumeRecords(Boundaries(rest, 0, |rest|), next, TaskVisit(visit)) else (next, false);
            (st'.inner, more') == Consume(RevTasks(rest + [r], exact, st.next, st.terminal), st.inner, visit)
    decreases |rest|, 1
  {
    assert (rest + [r])[..|rest|] == rest;
    var (next, more) := TaskVisit(visit)(st, r);
    if st.skipped > 0 {
      TasksConsumed(rest, next, exact - 1, visit);
    } else {
      var turn := ClosedBy(r, st.next, st.terminal);
      ConsumeCons(turn, RevTasks(rest, 0, r.start, None), st.inner, visit);
      if more { TasksConsumed(rest, next, 0, visit); }
    }
  }

  lemma {:induction false} BoundariesPrefix(log: seq<Record>, n: nat, lo: nat, hi: nat)
    requires lo <= hi <= n <= |log|
    ensures Boundaries(log[..n], lo, hi) == Boundaries(log, lo, hi)
    decreases hi
  {
    if lo < hi { BoundariesPrefix(log, n, lo, hi - 1); }
  }

  lemma {:induction false} BoundariesSuffix(log: seq<Record>, k: nat, hi: nat)
    requires k <= hi <= |log|
    ensures Boundaries(log[k..], 0, hi - k) == Boundaries(log, k, hi)
    decreases hi
  {
    if k < hi { BoundariesSuffix(log, k, hi - 1); }
  }

  /** Record `j` is the newest unreadable one, and the turns that start behind it leave the callback wanting more. */
  ghost predicate BlocksTasks<S>(log: seq<Record>, j: nat, init: S, visit: (S, Turn) -> (S, bool)) {
    j < |log| && log[j].mark.Broken? && Readable(log[j + 1..]) && Consume(RevTasks(log[j + 1..], 0, 0, None), init, visit).1
  }

  lemma {:induction false} TasksBlocked<S>(log: seq<Record>, j: nat, init: S, visit: (S, Turn) -> (S, bool))
    requires |log| <= U64_MAX
    ensures BlocksWalk(log, 0, j, |log|, TaskStart(init), TaskVisit(visit)) <==> BlocksTasks(log, j, init, visit)
  {
    if j < |log| {
      var newer := log[j + 1..];
      BoundariesSuffix(log, j + 1, |log|);
      TasksConsumed(newer, TaskStart(init), 0, visit);
      assert ReadableIn(log, j + 1, |log|) <==> Readable(newer) by {
        forall k | j + 1 <= k < |log| ensures newer[k - (j + 1)] == log[k] { }
      }
    }
  }

  /** What the walk over the boundaries comes to in terms of turns. */
  lemma {:induction false} TaskWalk<S>(log: seq<Record>, init: S, visit: (S, Turn) -> (S, bool))
    requires |log| <= U64_MAX
    ensures var w := Walk(log, 0, |log|, TaskStart(init), TaskVisit(visit));
            && (w.Blocked? <==> exists j: nat :: BlocksTasks(log, j, init, visit))
            && (w.Blocked? ==> exists j: nat :: BlocksTasks(log, j, init, visit) && log[j].start == w.offset)
            && (!w.Blocked? ==> (w.state.inner, w.Through?) == Consume(RevTasks(log, 0, 0, None), init, visit))
  {
    WalkExactly(log, 0, |log|, TaskStart(init), TaskVisit(visit));
    forall j: nat ensures BlocksWalk(log, 0, j, |log|, TaskStart(init), TaskVisit(visit)) <==> BlocksTasks(log, j, init, visit) {
      TasksBlocked(log, j, init, visit);
    }
    TasksConsumed(log, TaskStart(init), 0, visit);
  }

  /** The task turns of a log, newest first, until the callback has enough or a line is unreadable. */
  method VisitTaskTurnsReverse<S>(log: seq<Record>, init: S, visit: (S, Turn) -> (S, bool)) returns (r: Visited<S>)
    requires |log| <= U64_MAX
    ensures r.Finished? ==> r.state == Consume(RevTasks(log, 0, 0, None), init, visit).0
    ensures r.Unreadable? <==> exists j: nat :: BlocksTasks(log, j, init, visit)
    ensures r.Unreadable? ==> exists j: nat :: BlocksTasks(log, j, init, visit) && log[j].start == r.offset
  {
    TaskWalk(log, init, visit);
    var visited := VisitBoundariesReverse(log, 0, |log|, TaskStart(init), TaskVisit(visit));
    match visited
    case Finished(st) => return Finished(st.inner);
    case Unreadable(offset) => return Unreadable(offset);
  }

  // --- The logical visitor ---

  /** What the visitor carries from one record to the one before it. */
  datatype LogicalRegs = LogicalRegs(skipped: nat, next: nat, terminal: Option<Close>, pending: seq<Turn>)

  /** One record of the visitor: what it carries on, and the turns it hands out. */
  function LogicalRecord(regs: LogicalRegs, r: Record): (step: (LogicalRegs, seq<Turn>)) {
    match r.mark
    case Rollback(n) => (regs.(skipped := regs.skipped + n), [])
    case Terminal(id, completed) => (regs.(terminal := Some(Close(id, r.end, completed)), pending := []), regs.pending)
    case Started(id) =>
      (LogicalRegs(if regs.skipped > 0 then regs.skipped - 1 else 0, r.start, None, []),
       if regs.skipped > 0 then [] else [ClosedBy(r, regs.next, regs.terminal)])
    case _ => (regs.(pending := Hold(regs.pending, r)), [])
  }

  /** Many records, newest first. */
  function LogicalRecords(regs: LogicalRegs, log: seq<Record>): (step: (LogicalRegs, seq<Turn>))
    decreases |log|
  {
    if log == [] then (regs, [])
    else
      var (next, turns) := LogicalRecord(regs, log[|log| - 1]);
      var (last, older) := LogicalRecords(next, log[..|log| - 1]);
      (last, turns + older)
  }

  function RevRegs(log: seq<Record>, regs: LogicalRegs): (turns: seq<Turn>) {
    RevLogical(log, regs.skipped, regs.next, regs.terminal, regs.pending)
  }

  lemma {:induction false} LogicalStep(log: seq<Record>, i: nat, regs: LogicalRegs)
    requires i < |log|
    ensures var (next, turns) := LogicalRecord(regs, log[i]);
            RevRegs(log[..i + 1], regs) == turns + RevRegs(log[..i], next)
  {
    assert log[..i + 1][..i] == log[..i];
    assert [] + RevRegs(log[..i], LogicalRecord(regs, log[i]).0) == RevRegs(log[..i], LogicalRecord(regs, log[i]).0);
  }

  /** One more record below a suffix. */
  lemma {:induction false} LogicalBelow(r: Record, newer: seq<Record>, regs: LogicalRegs)
    ensures var (carried, seen) := LogicalRecords(regs, newer);
            LogicalRecords(regs, [r] + newer) == (LogicalRecord(carried, r).0, seen + LogicalRecord(carried, r).1)
    decreases |newer|
  {
    var all := [r] + newer;
    if newer == [] {
      assert all == [r] && all[..0] == [];
      assert LogicalRecord(regs, r).1 + [] == [] + LogicalRecord(regs, r).1;
    } else {
      var init, last := newer[..|newer| - 1], newer[|newer| - 1];
      assert all[..|all| - 1] == [r] + init && all[|all| - 1] == last;
      var (next, turns) := LogicalRecord(regs, last);
      LogicalBelow(r, init, next);
      var (carried, seen) := LogicalRecords(next, init);
      assert turns + (seen + LogicalRecord(carried, r).1) == turns + seen + LogicalRecord(carried, r).1;
    }
  }

  /** The turns handed out once the records from `i` on have been read, and the callback's answer to them. */
  function LogicalSoFar<S>(log: seq<Record>, i: nat, next0: nat, init: S, visit: (S, Turn) -> (S, bool)): (r: (S, bool))
    requires i <= |log|
  {
    Consume(LogicalRecords(LogicalRegs(0, next0, None, []), log[i..]).1, init, visit)
  }

  /** What is handed out by the time record `i` has been read is the head of what the whole log yields. */
  lemma {:induction false} LogicalHead(log: seq<Record>, i: nat, start: LogicalRegs)
    requires i <= |log|
    ensures var (carried, seen) := LogicalRecords(start, log[i..]);
            RevRegs(log, start) == seen + RevRegs(log[..i], carried)
    decreases |log| - i
  {
    if i == |log| {
      assert log[i..] == [] && log[..i] == log && [] + RevRegs(log, start) == RevRegs(log, start);
    } else {
      LogicalHead(log, i + 1, start);
      var (carried, seen) := LogicalRecords(start, log[i + 1..]);
      assert log[i..] == [log[i]] + log[i + 1..];
      LogicalBelow(log[i], log[i + 1..], start);
      LogicalStep(log, i, carried);
      assert seen + (LogicalRecord(carried, log[i]).1 + RevRegs(log[..i], LogicalRecord(carried, log[i]).0))
          == seen + LogicalRecord(carried, log[i]).1 + RevRegs(log[..i], LogicalRecord(carried, log[i]).0);
    }
  }

  /** Record `j` is the newest unreadable one, and what was handed out before it leaves the callback wanting more. */
  ghost predicate BlocksLogical<S>(log: seq<Record>, j: nat, next0: nat, init: S, visit: (S, Turn) -> (S, bool)) {
    j < |log| && log[j].mark.Broken? && ReadableIn(log, j + 1, |log|) && LogicalSoFar(log, j + 1, next0, init, visit).1
  }

  /** Hands the pending standalone turns to the callback, newest first. */
  method Flush<S>(pending: seq<Turn>, init: S, visit: (S, Turn) -> (S, bool)) returns (state: S, more: bool)
    ensures (state, more) == Consume(pending, init, visit)
  {
    state, more := init, true;
    var i := 0;
    assert pending[0..] == pending;
    while i < |pending|
      invariant 0 <= i <= |pending| && more
      invariant Consume(pending, init, visit) == Consume(pending[i..], state, visit)
    {
      var (state', more') := visit(state, pending[i]);
      assert pending[i..][1..] == pending[i + 1..];
      state, more := state', more';
      if !more { return; }
      i := i + 1;
    }
  }

  /** The visitor's registers around those of its callback. */
  datatype LogicalState<S> = LogicalState(regs: LogicalRegs, inner: S)

  function LogicalStart<S>(next0: nat, init: S): (st: LogicalState<S>) {
    LogicalState(LogicalRegs(0, next0, None, []), init)
  }

  /** What the visitor does with a boundary, or with a record that is a turn by itself. */
  function LogicalVisit<S>(visit: (S, Turn) -> (S, bool)): (step: (LogicalState<S>, Record) -> (LogicalState<S>, bool)) {
    (st: LogicalState<S>, r: Record) =>
      match r.mark
      case Rollback(count) => (st.(regs := st.regs.(skipped := SaturatingAdd(st.regs.skipped, count))), true)
      case Terminal(id, completed) =>
        var (inner, more) := Consume(st.regs.pending, st.inner, visit);
        (LogicalState(st.regs.(terminal := Some(Close(id, r.end, completed)), pending := []), inner), more)
      case Started(_) =>
        if st.regs.skipped > 0 then (st.(regs := LogicalRegs(st.regs.skipped - 1, r.start, None, [])), true)
        else
          var (inner, more) := visit(st.inner, ClosedBy(r, st.regs.next, st.regs.terminal));
          (LogicalState(LogicalRegs(0, r.start, None, []), inner), more)
      case _ => (st.(regs := st.regs.(pending := Hold(st.regs.pending, r))), true)
  }

  /** The records that a timeline scan hands on: boundaries, and records that are turns by themselves. */
  predicate IsEvent(r: Record) {
    IsBoundary(r) || r.standalone.Some?
  }

  /** The events of the first `hi` records, newest first, handed to a callback. */
  function WalkTimeline<S>(log: seq<Record>, hi: nat, state: S, visit: (S, Record) -> (S, bool)): (w: Walked<S>)
    requires hi <= |log|
    decreases hi
  {
    if hi == 0 then Through(state)
    else
      var w := WalkEvent(log[hi - 1], state, visit);
      if w.Through? then WalkTimeline(log, hi - 1, w.state, visit) else w
  }

  function WalkEvent<S>(r: Record, state: S, visit: (S, Record) -> (S, bool)): (w: Walked<S>) {
    if r.mark.Broken? then Blocked(r.start)
    else if !IsEvent(r) then Through(state)
    else
      var (next, more) := visit(state, r);
      if more then Through(next) else Stopped(next)
  }

  lemma {:induction false} TimelinePrefix<S>(log: seq<Record>, n: nat, hi: nat, state: S, visit: (S, Record) -> (S, bool))
    requires hi <= n <= |log|
    ensures WalkTimeline(log[..n], hi, state, visit) == WalkTimeline(log, hi, state, visit)
    decreases hi
  {
    if hi > 0 {
      var w := WalkEvent(log[hi - 1], state, visit);
      if w.Through? { TimelinePrefix(log, n, hi - 1, w.state, visit); }
    }
  }

  /** The skip counter of the visitor saturates; what it carries is otherwise what the definition carries. */
  ghost predicate CarriedAs(regs: LogicalRegs, exact: LogicalRegs, left: nat) {
    SkipsAlike(regs.skipped, exact.skipped, left) && regs.(skipped := exact.skipped) == exact
  }

  lemma {:induction false} ConsumeOne<S>(turn: Turn, state: S, visit: (S, Turn) -> (S, bool))
    ensures Consume([turn], state, visit) == visit(state, turn)
  {
    ConsumeCons(turn, [], state, visit);
    assert [turn] + [] == [turn];
  }

  /** One readable record. */
  lemma {:induction false} LogicalEvent<S>(r: Record, st: LogicalState<S>, exact: LogicalRegs, left: nat,
          visit: (S, Turn) -> (S, bool))
    requires left < U64_MAX && CarriedAs(st.regs, exact, left + 1) && !r.mark.Broken?
    ensures var (next, handed) := LogicalRecord(exact, r);
            var w, (inner, more) := WalkEvent(r, st, LogicalVisit(visit)), Consume(handed, st.inner, visit);
            !w.Blocked? && w.state.inner == inner && w.Through? == more && CarriedAs(w.state.regs, next, left)
  {
    match r.mark
    case Started(_) =>
      if st.regs.skipped == 0 { ConsumeOne(ClosedBy(r, st.regs.next, st.regs.terminal), st.inner, visit); }
    case Rollback(count) =>
      SkipsMore(st.regs.skipped, exact.skipped, count, left);
    case Terminal(_, _) =>
    case Plain => assert LogicalRecord(exact, r).0 == exact.(pending := Hold(exact.pending, r));
  }

  lemma {:induction false} SkipsMore(counter: nat, exact: nat, count: nat, left: nat)
    requires left < U64_MAX && SkipsAlike(counter, exact, left + 1)
    ensures SkipsAlike(SaturatingAdd(counter, count), exact + count, left)
  {
  }

  /** Record `j` is the newest unreadable one, and what was handed out before it leaves the callback wanting more. */
  ghost predicate BlocksRegs<S>(log: seq<Record>, j: nat, regs: LogicalRegs, init: S, visit: (S, Turn) -> (S, bool)) {
    j < |log| && log[j].mark.Broken? && ReadableIn(log, j + 1, |log|) && Consume(LogicalRecords(regs, log[j + 1..]).1, init, visit).1
  }

  /** With one readable record more on top. */
  lemma {:induction false} BlocksUnder<S>(log: seq<Record>, n: nat, j: nat, regs: LogicalRegs, init: S,
          visit: (S, Turn) -> (S, bool))
    requires |log| == n + 1 && !log[n].mark.Broken?
    ensures var (next, handed) := LogicalRecord(regs, log[n]);
            var (state, more) := Consume(handed, init, visit);
            BlocksRegs(log, j, regs, init, visit) <==> more && BlocksRegs(log[..n], j, next, state, visit)
  {
    var (next, handed) := LogicalRecord(regs, log[n]);
    if j < n {
      var newer, below := log[j + 1..], log[..n][j + 1..];
      assert newer[..|newer| - 1] == below && newer[|newer| - 1] == log[n];
      ConsumeConcat(handed, LogicalRecords(next, below).1, init, visit);
      assert ReadableIn(log, j + 1, n + 1) <==> ReadableIn(log[..n], j + 1, n);
    }
  }

  /** What the walk over the events comes to in terms of the turns handed out. */
  ghost predicate WalksLogical<S>(log: seq<Record>, regs: LogicalRegs, init: S, visit: (S, Turn) -> (S, bool),
          w: Walked<LogicalState<S>>) {
    && (w.Blocked? <==> exists j: nat :: BlocksRegs(log, j, regs, init, visit))
    && (w.Blocked? ==> exists j: nat :: BlocksRegs(log, j, regs, init, visit) && log[j].start == w.offset)
    && (!w.Blocked? ==> (w.state.inner, w.Through?) == Consume(LogicalRecords(regs, log).1, init, visit))
    && (w.Through? ==> w.state.regs.pending == LogicalRecords(regs, log).0.pending)
  }

  lemma {:induction false} LogicalWalk<S>(log: seq<Record>, st: LogicalState<S>, exact: LogicalRegs,
          visit: (S, Turn) -> (S, bool))
    requires |log| <= U64_MAX && CarriedAs(st.regs, exact, |log|)
    ensures WalksLogical(log, exact, st.inner, visit, WalkTimeline(log, |log|, st, LogicalVisit(visit)))
    decreases |log|
  {
    if log == [] { return; }
    var n := |log| - 1;
    var r := log[n];
    var w := WalkEvent(r, st, LogicalVisit(visit));
    if r.mark.Broken? {
      assert log[n + 1..] == [] && BlocksRegs(log, n, exact, st.inner, visit);
    } else {
      var next := LogicalRecord(exact, r).0;
      LogicalEvent(r, st, exact, n, visit);
      if w.Through? {
        LogicalWalk(log[..n], w.state, next, visit);
        TimelinePrefix(log, n, n, w.state, LogicalVisit(visit));
      }
      LogicalOnTop(log, n, exact, st.inner, visit, w, WalkTimeline(log, |log|, st, LogicalVisit(visit)));
    }
  }

  lemma {:induction false} LogicalOnTop<S>(log: seq<Record>, n: nat, regs: LogicalRegs, init: S, visit: (S, Turn) -> (S, bool),
          first: Walked<LogicalState<S>>, w: Walked<LogicalState<S>>)
    requires |log| == n + 1 && !log[n].mark.Broken? && !first.Blocked?
    requires (first.state.inner, first.Through?) == Consume(LogicalRecord(regs, log[n]).1, init, visit)
    requires if first.Through? then WalksLogical(log[..n], LogicalRecord(regs, log[n]).0, first.state.inner, visit, w) else w == first
    ensures WalksLogical(log, regs, init, visit, w)
  {
    var (next, handed) := LogicalRecord(regs, log[n]);
    var state := first.state.inner;
    ConsumeConcat(handed, LogicalRecords(next, log[..n]).1, init, visit);
    forall j: nat
      ensures BlocksRegs(log, j, regs, init, visit) <==> first.Through? && BlocksRegs(log[..n], j, next, state, visit)
    {
      BlocksUnder(log, n, j, regs, init, visit);
    }
    if j: nat :| first.Through? && BlocksRegs(log[..n], j, next, state, visit) { assert BlocksRegs(log, j, regs, init, visit); }
    if j: nat :| BlocksRegs(log, j, regs, init, visit) { assert BlocksRegs(log[..n], j, next, state, visit); }
  }

  /** The timeline scan over whole records. */
  method VisitTimelineReverse<S>(log: seq<Record>, init: S, visit: (S, Record) -> (S, bool)) returns (w: Walked<S>)
    ensures w == WalkTimeline(log, |log|, init, visit)
  {
    var state, i := init, |log|;
    while i > 0
      invariant 0 <= i <= |log|
      invariant WalkTimeline(log, |log|, init, visit) == WalkTimeline(log, i, state, visit)
    {
      i := i - 1;
      var record := log[i];
      if record.mark.Broken? { return Blocked(record.start); }
      if IsEvent(record) {
        var (state', more) := visit(state, record);
        state := state';
        if !more { return Stopped(state); }
      }
    }
    return Through(state);
  }

  /** The callback has consumed the listed turns, unless an unreadable record blocks the scan; then that one is reported. */
  ghost predicate VisitsLogical<S>(log: seq<Record>, next0: nat, init: S, visit: (S, Turn) -> (S, bool), r: Visited<S>) {
    && (r.Finished? ==> r.state == Consume(RevLogical(log, 0, next0, None, []), init, visit).0)
    && (r.Unreadable? <==> exists j: nat :: BlocksLogical(log, j, next0, init, visit))
    && (r.Unreadable? ==> exists j: nat :: BlocksLogical(log, j, next0, init, visit) && log[j].start == r.offset)
  }

  /** The end of the visitor: the turns still held back stand at the head of the file, alone. */
  method FinishLogical<S>(ghost log: seq<Record>, ghost next0: nat, ghost init: S,
          visit: (S, Turn) -> (S, bool), w: Walked<LogicalState<S>>)
    returns (r: Visited<S>)
    requires |log| <= U64_MAX && w == WalkTimeline(log, |log|, LogicalStart(next0, init), LogicalVisit(visit))
    ensures VisitsLogical(log, next0, init, visit, r)
  {
    ghost var start := LogicalRegs(0, next0, None, []);
    LogicalWalk(log, LogicalStart(next0, init), start, visit);
    LogicalHead(log, 0, start);
    ghost var (carried, seen) := LogicalRecords(start, log);
    assert log[0..] == log && log[..0] == [] && RevRegs([], carried) == carried.pending;
    ConsumeConcat(seen, carried.pending, init, visit);
    BlocksEither(log, next0, init, visit);
    match w
    case Blocked(offset) => return Unreadable(offset);
    case Stopped(st) => return Finished(st.inner);
    case Through(st) =>
      var state, _ := Flush(st.regs.pending, st.inner, visit);
      return Finished(state);
  }

  lemma {:induction false} BlocksEither<S>(log: seq<Record>, next0: nat, init: S, visit: (S, Turn) -> (S, bool))
    ensures forall j: nat :: BlocksLogical(log, j, next0, init, visit) <==> BlocksRegs(log, j, LogicalRegs(0, next0, None, []), init, visit)
  {
  }

  /** The task and standalone turns of a log, newest first, until the callback has enough or a line is unreadable. */
  method VisitLogicalTurnsReverse<S>(log: seq<Record>, next0: nat, init: S, visit: (S, Turn) -> (S, bool))
    returns (r: Visited<S>)
    requires |log| <= U64_MAX
    ensures r.Finished? ==> r.state == Consume(RevLogical(log, 0, next0, None, []), init, visit).0
    ensures r.Unreadable? <==> exists j: nat :: BlocksLogical(log, j, next0, init, visit)
    ensures r.Unreadable? ==> exists j: nat :: BlocksLogical(log, j, next0, init, visit) && log[j].start == r.offset
  {
    var w := VisitTimelineReverse(log, LogicalStart(next0, init), LogicalVisit(visit));
    r := FinishLogical(log, next0, init, visit, w);
  }
}
