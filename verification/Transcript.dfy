/**
 The transcript as the index sees it: a tiling of the durable file by records,
 each of which may mark a turn boundary, and the reference meaning of those
 marks. `Stack` folds the log forwards: a start pushes, a rollback pops, and a
 terminal or the next start closes the turn on top. Every scan of the index is
 proved against it.
 */
module Transcript {
  import opened Wrappers

  /** What a line means for turn ranges. `Broken` carries a boundary needle but no readable boundary. */
  datatype Mark =
    | Plain
    | Broken
    | Started(id: string)
    | Terminal(id: string, completed: bool)
    | Rollback(count: nat)

  /**
   One durable line: its byte span, its mark, the turn id it carries when it is a turn by itself,
   whether a projection can fold it, its class tag and its bytes.
   */
  datatype Record = Record(start: nat, end: nat, mark: Mark, standalone: Option<string>, foldable: bool, tag: byte, line: seq<byte>)

  /** The bytes `start..end` of one turn. While the turn runs it has no end yet, which is written as 0. */
  datatype Turn = Turn(id: string, start: nat, end: nat, completed: bool)

  /** Record `i` is not empty and starts where the one before it ends. */
  ghost predicate Abuts(log: seq<Record>, i: nat)
    requires i < |log|
  {
    log[i].start == Offset(log, i) && log[i].start < log[i].end
  }

  /**
   A turn's projection: the records folded into it, in order. Every provider projection is a
   function of that list, so what holds of the list holds of each of them.
   */
  datatype Summary = Summary(id: string, ingested: seq<Record>)

  function Ingest(summary: Summary, r: Record): (s: Summary) {
    summary.(ingested := summary.ingested + [r])
  }

  /** The records tile the file from byte 0, without gaps and without empty lines. */
  ghost predicate Tiled(log: seq<Record>) {
    forall i :: 0 <= i < |log| ==> Abuts(log, i)
  }

  /** Where record `k` starts; for `k == |log|`, the durable end. */
  function Offset(log: seq<Record>, k: nat): (r: nat)
    requires k <= |log|
  {
    if k == 0 then 0 else log[k - 1].end
  }

  function DurableEnd(log: seq<Record>): (r: nat) {
    Offset(log, |log|)
  }

  lemma {:induction false} OffsetsIncrease(log: seq<Record>, i: nat, j: nat)
    requires Tiled(log) && i < j <= |log|
    ensures Offset(log, i) < Offset(log, j)
  {
    assert Abuts(log, j - 1);
    if i < j - 1 { OffsetsIncrease(log, i, j - 1); }
  }

  lemma {:induction false} TiledPrefix(log: seq<Record>, k: nat)
    requires Tiled(log) && k <= |log|
    ensures Tiled(log[..k])
    ensures DurableEnd(log[..k]) == Offset(log, k)
  {
    forall i | 0 <= i < k
      ensures Abuts(log[..k], i)
    {
      assert Abuts(log, i);
    }
  }

  /** `Offset` is injective, so an offset on the tiling names one record. */
  lemma {:induction false} OffsetInjective(log: seq<Record>, i: nat, j: nat)
    requires Tiled(log) && i <= |log| && j <= |log|
    requires Offset(log, i) == Offset(log, j)
    ensures i == j
  {
    if i < j { OffsetsIncrease(log, i, j); }
    if j < i { OffsetsIncrease(log, j, i); }
  }

  /** No record's boundary is unreadable. */
  ghost predicate Readable(log: seq<Record>) {
    forall i :: 0 <= i < |log| ==> !log[i].mark.Broken?
  }

  // --- The reference fold ---

  predicate TopOpen(s: seq<Turn>) {
    s != [] && s[|s| - 1].end == 0
  }

  function CloseTop(s: seq<Turn>, end: nat, completed: bool): (r: seq<Turn>)
    requires s != []
  {
    s[..|s| - 1] + [s[|s| - 1].(end := end, completed := completed)]
  }

  /** A start, or the end of a frozen prefix, interrupts whatever turn is still open. */
  function Interrupt(s: seq<Turn>, at: nat): (r: seq<Turn>) {
    if TopOpen(s) then CloseTop(s, at, false) else s
  }

  function Pop(s: seq<Turn>, n: nat): (r: seq<Turn>) {
    if n >= |s| then [] else s[..|s| - n]
  }

  function StepStack(s: seq<Turn>, r: Record): (s': seq<Turn>) {
    match r.mark
    case Started(id) => Interrupt(s, r.start) + [Turn(id, r.start, 0, false)]
    case Terminal(id, completed) =>
      if TopOpen(s) && s[|s| - 1].id == id then CloseTop(s, r.end, completed) else s
    case Rollback(n) => Pop(s, n)
    case _ => s
  }

  /** The task turns that survive the log, oldest first. */
  function Stack(log: seq<Record>): (s: seq<Turn>) {
    if log == [] then [] else StepStack(Stack(log[..|log| - 1]), log[|log| - 1])
  }

  function Starts(s: seq<Turn>): (r: set<nat>) {
    set i | 0 <= i < |s| :: s[i].start
  }

  /** Record `j` is a turn by itself: a standalone record outside any open turn. */
  predicate IsSingle(log: seq<Record>, j: nat)
    requires j < |log|
  {
    log[j].standalone.Some? && !TopOpen(Stack(log[..j + 1]))
  }

  function SingleTurn(r: Record): (t: Turn)
    requires r.standalone.Some?
  {
    Turn(r.standalone.value, r.start, r.end, true)
  }

  // --- Shape of the stack ---

  /** Ascending, disjoint spans inside `[0, bound)`; only the top may be open. */
  ghost predicate Shape(s: seq<Turn>, bound: nat) {
    && (forall i, j :: 0 <= i < j < |s| ==> s[i].start < s[j].start && s[i].end <= s[j].start)
    && (forall i :: 0 <= i < |s| ==>
          && s[i].start < bound
          && (s[i].end != 0 ==> s[i].start < s[i].end <= bound)
          && (s[i].end == 0 ==> i == |s| - 1 && !s[i].completed))
  }

  lemma {:induction false} StackSnoc(log: seq<Record>, k: nat)
    requires k < |log|
    ensures Stack(log[..k + 1]) == StepStack(Stack(log[..k]), log[k])
  {
    assert log[..k + 1][..k] == log[..k];
  }

  lemma {:induction false} StepShape(s: seq<Turn>, r: Record)
    requires Shape(s, r.start) && r.start < r.end
    ensures Shape(StepStack(s, r), r.end)
  {
    match r.mark
    case Started(id) =>
    case Terminal(id, completed) =>
    case Rollback(n) =>
    case _ =>
  }

  lemma {:induction false} StackShape(log: seq<Record>)
    requires Tiled(log)
    ensures Shape(Stack(log), DurableEnd(log))
  {
    if log != [] {
      var k := |log| - 1;
      TiledPrefix(log, k);
      StackShape(log[..k]);
      assert Abuts(log, k);
      StepShape(Stack(log[..k]), log[k]);
    }
  }

  /** Every surviving turn was started by a record of the log that carries its id. */
  lemma {:induction false} StackOrigin(log: seq<Record>, p: nat)
    requires p < |Stack(log)|
    ensures exists j :: 0 <= j < |log| && log[j].start == Stack(log)[p].start && log[j].mark == Started(Stack(log)[p].id)
  {
    var init := log[..|log| - 1];
    var r := log[|log| - 1];
    var s := Stack(init);
    assert Stack(log) == StepStack(s, r);
    if r.mark.Started? && p == |Interrupt(s, r.start)| {
      assert Stack(log)[p] == Turn(r.mark.id, r.start, 0, false);
      assert log[|log| - 1].start == Stack(log)[p].start;
    } else {
      assert p < |s| && Stack(log)[p].start == s[p].start && Stack(log)[p].id == s[p].id;
      StackOrigin(init, p);
      var j :| 0 <= j < |init| && init[j].start == s[p].start && init[j].mark == Started(s[p].id);
      assert log[j] == init[j];
    }
  }

  /**
   `later` holds only what is left of `earlier` below `at`: a turn that started there can have
   been popped, or closed if it was still open, and nothing else.
   */
  ghost predicate Remains(earlier: seq<Turn>, later: seq<Turn>, at: nat) {
    forall p :: 0 <= p < |later| && later[p].start < at ==>
      && p < |earlier|
      && earlier[p].start == later[p].start
      && earlier[p].id == later[p].id
      && (earlier[p].end != 0 ==> earlier[p] == later[p])
  }

  lemma {:induction false} StepRemains(earlier: seq<Turn>, later: seq<Turn>, at: nat, r: Record)
    requires Remains(earlier, later, at) && at <= r.start
    ensures Remains(earlier, StepStack(later, r), at)
  {
  }

  lemma {:induction false} StackRemains(log: seq<Record>, i: nat, k: nat)
    requires Tiled(log) && i <= k <= |log|
    ensures Remains(Stack(log[..i]), Stack(log[..k]), Offset(log, i))
    decreases k
  {
    if i < k {
      StackRemains(log, i, k - 1);
      StackSnoc(log, k - 1);
      FromIsBelow(log, i, k - 1);
      StepRemains(Stack(log[..i]), Stack(log[..k - 1]), Offset(log, i), log[k - 1]);
    }
  }

  /** Some record of `log[i..k]` starts a turn at byte `x`. */
  ghost predicate StartedIn(log: seq<Record>, i: nat, k: nat, x: nat) {
    exists j :: i <= j < k <= |log| && BeginsAt(log[j], x)
  }

  ghost predicate BeginsAt(r: Record, x: nat) {
    r.start == x && r.mark.Started?
  }

  lemma {:induction false} StackBorn(log: seq<Record>, i: nat, k: nat, p: nat)
    requires Tiled(log) && i <= k <= |log|
    requires p < |Stack(log[..k])| && Offset(log, i) <= Stack(log[..k])[p].start
    ensures StartedIn(log, i, k, Stack(log[..k])[p].start)
  {
    var s := Stack(log[..k]);
    StackOrigin(log[..k], p);
    var j :| 0 <= j < k && log[..k][j].start == s[p].start && log[..k][j].mark == Started(s[p].id);
    assert Abuts(log, j);
    if j < i { OffsetsIncrease(log, j, i); }
    assert BeginsAt(log[j], s[p].start);
  }

  /** A record of `pre` starts the turn `id` at byte `x`. */
  ghost predicate StartedAs(pre: seq<Record>, x: nat, id: string) {
    exists j :: 0 <= j < |pre| && StartsAt(pre[j], x, id)
  }

  ghost predicate StartsAt(r: Record, x: nat, id: string) {
    r.start == x && r.mark == Started(id)
  }

  /** A surviving turn that has ended ends where some line does. */
  lemma {:induction false} StackEnds(log: seq<Record>, p: nat) returns (j: nat)
    requires Tiled(log) && p < |Stack(log)| && Stack(log)[p].end != 0
    ensures j <= |log| && Offset(log, j) == Stack(log)[p].end
  {
    var k := |log| - 1;
    var init, r, s := log[..k], log[k], Stack(log[..k]);
    assert Stack(log) == StepStack(s, r) && Abuts(log, k);
    TiledPrefix(log, k);
    if p < |s| && Stack(log)[p] == s[p] {
      j := StackEnds(init, p);
      assert Offset(init, j) == Offset(log, j);
    } else {
      j := if r.mark.Started? then k else |log|;
    }
  }

  /** The lines of a surviving turn; a running one reaches the durable end. */
  lemma {:induction false} TurnLines(log: seq<Record>, t: Turn) returns (i: nat, j: nat)
    requires Tiled(log) && t in Stack(log)
    ensures i < j <= |log| && log[i].start == Offset(log, i) == t.start && log[i].mark == Started(t.id)
    ensures log[j - 1].end == Offset(log, j) == if t.end != 0 then t.end else DurableEnd(log)
  {
    var p :| 0 <= p < |Stack(log)| && Stack(log)[p] == t;
    StackOrigin(log, p);
    var k :| 0 <= k < |log| && log[k].start == Stack(log)[p].start && log[k].mark == Started(Stack(log)[p].id);
    i, j := k, |log|;
    if t.end != 0 { j := StackEnds(log, p); }
    StackShape(log);
    assert Abuts(log, i);
    if j < i { OffsetsIncrease(log, j, i); }
  }

  // --- What the fold says of two boundaries that meet ---

  /** The boundary at record `i` is the last one before record `j`. */
  ghost predicate NextBoundary(log: seq<Record>, i: nat, j: nat) {
    i < j < |log| && forall k :: i < k < j ==> log[k].mark.Plain? || log[k].mark.Broken?
  }

  /** A turn that was started runs until the next boundary. */
  lemma {:induction false} StartedRuns(log: seq<Record>, i: nat, j: nat, id: string)
    requires NextBoundary(log, i, j) && log[i].mark == Started(id)
    ensures Stack(log[..j]) != [] && Stack(log[..j])[|Stack(log[..j])| - 1] == Turn(id, log[i].start, 0, false)
    decreases j
  {
    StackSnoc(log, j - 1);
    if i < j - 1 { StartedRuns(log, i, j - 1, id); }
  }

  /** Its own terminal closes it, as completed as the terminal says; the terminal of another turn does not. */
  lemma {:induction false} TerminalCloses(log: seq<Record>, i: nat, j: nat, id: string, other: string, completed: bool)
    requires NextBoundary(log, i, j) && log[i].mark == Started(id) && log[j].mark == Terminal(other, completed)
    ensures other == id ==> Turn(id, log[i].start, log[j].end, completed) in Stack(log[..j + 1])
    ensures other != id ==> Turn(id, log[i].start, 0, false) in Stack(log[..j + 1])
  {
    StartedRuns(log, i, j, id);
    StackSnoc(log, j);
    var s := Stack(log[..j + 1]);
    assert s[|s| - 1] in s;
  }

  /** The next start interrupts it there. */
  lemma {:induction false} StartInterrupts(log: seq<Record>, i: nat, j: nat, id: string)
    requires NextBoundary(log, i, j) && log[i].mark == Started(id) && log[j].mark.Started?
    ensures Turn(id, log[i].start, log[j].start, false) in Stack(log[..j + 1])
    ensures Turn(log[j].mark.id, log[j].start, 0, false) in Stack(log[..j + 1])
  {
    StartedRuns(log, i, j, id);
    StackSnoc(log, j);
    var s := Stack(log[..j + 1]);
    assert s[|s| - 2] in s && s[|s| - 1] in s;
  }

  /** A rollback of `n` drops the `n` newest turns and no other. */
  lemma {:induction false} RollbackDrops(log: seq<Record>, j: nat, n: nat)
    requires j < |log| && log[j].mark == Rollback(n)
    ensures |Stack(log[..j + 1])| == (if n < |Stack(log[..j])| then |Stack(log[..j])| - n else 0)
    ensures forall p :: 0 <= p < |Stack(log[..j + 1])| ==> Stack(log[..j + 1])[p] == Stack(log[..j])[p]
  {
    StackSnoc(log, j);
  }

  // --- The records of a byte range ---

  function Span(log: seq<Record>, from: nat, to: nat): (records: seq<Record>) {
    if log == [] then []
    else
      var last, before := log[|log| - 1], Span(log[..|log| - 1], from, to);
      if from <= last.start && last.end <= to then before + [last] else before
  }

  lemma {:induction false} SpanBeyond(log: seq<Record>, from: nat, to: nat)
    requires Tiled(log) && DurableEnd(log) <= from
    ensures Span(log, from, to) == []
  {
    if log != [] {
      var k := |log| - 1;
      assert Abuts(log, k);
      TiledPrefix(log, k);
      SpanBeyond(log[..k], from, to);
    }
  }

  /** Records past `to` do not matter. */
  lemma {:induction false} SpanPrefix(log: seq<Record>, k: nat, from: nat, to: nat)
    requires Tiled(log) && k <= |log| && to <= Offset(log, k)
    ensures Span(log, from, to) == Span(log[..k], from, to)
    decreases |log| - k
  {
    if k < |log| {
      assert Abuts(log, k);
      SpanPrefix(log, k + 1, from, to);
      assert log[..k + 1][..k] == log[..k];
    } else {
      assert log[..k] == log;
    }
  }

  /** Once `to` is past the last record, it does not matter either. */
  lemma {:induction false} SpanWhole(log: seq<Record>, from: nat, to: nat)
    requires Tiled(log) && DurableEnd(log) <= to
    ensures Span(log, from, to) == Span(log, from, DurableEnd(log))
  {
    if log != [] {
      var k := |log| - 1;
      TiledPrefix(log, k);
      assert Abuts(log, k);
      SpanWhole(log[..k], from, to);
      SpanWhole(log[..k], from, DurableEnd(log));
    }
  }

  /** Reading one more record of the log extends the range by it. */
  lemma {:induction false} SpanSnoc(log: seq<Record>, j: nat, from: nat)
    requires Tiled(log) && j < |log| && from <= log[j].start
    ensures Span(log, from, log[j].end) == Span(log, from, log[j].start) + [log[j]]
  {
    assert Abuts(log, j);
    TiledPrefix(log, j);
    SpanPrefix(log, j + 1, from, log[j].end);
    SpanPrefix(log, j, from, log[j].start);
    assert log[..j + 1][..j] == log[..j];
    SpanWhole(log[..j], from, log[j].end);
  }

  lemma {:induction false} SpanFirst(log: seq<Record>, j: nat)
    requires Tiled(log) && j < |log|
    ensures Span(log, log[j].start, log[j].end) == [log[j]]
  {
    assert Abuts(log, j);
    TiledPrefix(log, j);
    SpanSnoc(log, j, log[j].start);
    SpanPrefix(log, j, log[j].start, log[j].start);
    SpanBeyond(log[..j], log[j].start, log[j].start);
  }

  /** Two records never start at the same byte. */
  lemma {:induction false} SameRecord(log: seq<Record>, a: nat, b: nat)
    requires Tiled(log) && a < |log| && b < |log| && log[a].start == log[b].start
    ensures a == b
  {
    assert Abuts(log, a) && Abuts(log, b);
    OffsetInjective(log, a, b);
  }

  /** Between two line boundaries lie exactly the lines between them. */
  lemma {:induction false} SpanIsSlice(log: seq<Record>, i: nat, j: nat)
    requires Tiled(log) && i <= j <= |log|
    ensures Span(log, Offset(log, i), Offset(log, j)) == log[i..j]
    decreases j
  {
    var from, to := Offset(log, i), Offset(log, j);
    SpanPrefix(log, j, from, to);
    if i == j {
      TiledPrefix(log, j);
      SpanBeyond(log[..j], from, to);
    } else {
      SpanIsSlice(log, i, j - 1);
      FromIsBelow(log, i, j - 1);
      SpanSnoc(log, j - 1, from);
      assert log[i..j] == log[i..j - 1] + [log[j - 1]];
    }
  }

  lemma {:induction false} FromIsBelow(log: seq<Record>, i: nat, k: nat)
    requires Tiled(log) && i <= k < |log|
    ensures Offset(log, i) <= log[k].start == Offset(log, k)
  {
    assert Abuts(log, k);
    if i < k { OffsetsIncrease(log, i, k); }
  }
}
