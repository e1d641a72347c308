/**
 Exactly when the reverse scan and the forward scan disagree. A foreign terminal seals the turn that
 is open there: going back, it overwrites the register that held the turn's own, later terminal. The
 turn is then reported as running on to the next start.
 */
module ReverseAgreement {
  import opened Wrappers
  import opened Transcript
  import opened ReverseScan
  import opened ScanInvariants

  /** Record `j` is a foreign terminal for the turn that starts at `x`. */
  ghost predicate ForeignOf(log: seq<Record>, j: nat, x: nat)
    requires j < |log|
  {
    var s := Stack(log[..j]);
    TopOpen(s) && s[|s| - 1].start == x && log[j].mark.Terminal? && log[j].mark.id != s[|s| - 1].id
  }

  /** Record `k` is the terminal that closes the turn that starts at `x`. */
  ghost predicate ClosesAt(log: seq<Record>, k: nat, x: nat)
    requires k < |log|
  {
    var s := Stack(log[..k]);
    TopOpen(s) && s[|s| - 1].start == x && log[k].mark.Terminal? && log[k].mark.id == s[|s| - 1].id
  }

  /**
   The turn at `x` was sealed by a foreign terminal before its own terminal `k`, and what follows
   does not happen to hide it: the turn is completed, or neither a start nor the end of a frozen
   prefix comes right behind it.
   */
  ghost predicate Spoiled(log: seq<Record>, x: nat, frozen: bool) {
    && ForeignBefore(log, |log|, x)
    && (exists k :: 0 <= k < |log| && ClosesAt(log, k, x) && Exposed(log, k, frozen))
  }

  predicate Exposed(log: seq<Record>, k: nat, frozen: bool)
    requires k < |log|
  {
    log[k].mark.Terminal? && (log[k].mark.completed || !(if k + 1 < |log| then log[k + 1].mark.Started? else frozen))
  }

  // --- What became of each turn of the stack ---

  datatype Fate = Fate(foreign: bool, closedAt: Option<nat>)

  function StepFates(f: seq<Fate>, s: seq<Turn>, r: Record, k: nat): (f': seq<Fate>)
    requires |f| == |s|
    ensures |f'| == |StepStack(s, r)|
  {
    match r.mark
    case Started(id) => f + [Fate(false, None)]
    case Terminal(id, completed) =>
      if !TopOpen(s) then f
      else if s[|s| - 1].id == id then f[|f| - 1 := f[|f| - 1].(closedAt := Some(k))]
      else f[|f| - 1 := f[|f| - 1].(foreign := true)]
    case Rollback(n) => if n >= |f| then [] else f[..|f| - n]
    case _ => f
  }

  function Fates(log: seq<Record>): (f: seq<Fate>)
    ensures |f| == |Stack(log)|
  {
    if log == [] then []
    else StepFates(Fates(log[..|log| - 1]), Stack(log[..|log| - 1]), log[|log| - 1], |log| - 1)
  }

  /** One position of the stack, one step on. */
  lemma {:induction false} StepFate(f: seq<Fate>, s: seq<Turn>, r: Record, k: nat, p: nat)
    requires |f| == |s| && Shape(s, r.start) && r.start < r.end && p < |StepStack(s, r)|
    ensures var f', s', top := StepFates(f, s, r, k), StepStack(s, r), |s| - 1;
            && (p == |s| ==> r.mark.Started? && s'[p].start == r.start && f'[p] == Fate(false, None))
            && (p < |s| ==>
                  && s'[p].start == s[p].start
                  && (f'[p].foreign <==> f[p].foreign || (TopOpen(s) && p == top && r.mark.Terminal? && r.mark.id != s[top].id))
                  && f'[p].closedAt == if TopOpen(s) && p == top && r.mark.Terminal? && r.mark.id == s[top].id then Some(k) else f[p].closedAt)
  {
    match r.mark
    case Started(id) => return;
    case Terminal(id, completed) => return;
    case Rollback(n) => return;
    case _ =>
  }

  lemma {:induction false} OnePlace(s: seq<Turn>, bound: nat, p: nat, q: nat)
    requires Shape(s, bound) && p < |s| && q < |s| && s[p].start == s[q].start
    ensures p == q
  {
  }

  /** What precedes the last record. */
  lemma {:induction false} Last(log: seq<Record>)
    requires Tiled(log) && log != []
    ensures var k := |log| - 1;
            Tiled(log[..k]) && Shape(Stack(log[..k]), log[k].start) && log[k].start < log[k].end && Offset(log, k) == log[k].start
  {
    TiledPrefix(log, |log| - 1);
    StackShape(log[..|log| - 1]);
    assert Abuts(log, |log| - 1);
  }

  lemma {:induction false} TopBelow(log: seq<Record>, j: nat)
    requires Tiled(log) && j <= |log| && TopOpen(Stack(log[..j]))
    ensures Stack(log[..j])[|Stack(log[..j])| - 1].start < Offset(log, j)
  {
    TiledPrefix(log, j);
    StackShape(log[..j]);
  }

  /** A foreign terminal for the turn at `x` is among the records before `k`. */
  ghost predicate ForeignBefore(log: seq<Record>, k: nat, x: nat)
    requires k <= |log|
  {
    exists j :: 0 <= j < k && ForeignOf(log, j, x)
  }

  lemma {:induction false} ForeignSnoc(log: seq<Record>, k: nat, x: nat)
    requires k < |log|
    ensures ForeignBefore(log, k + 1, x) <==> ForeignBefore(log, k, x) || ForeignOf(log, k, x)
  {
    if j :| 0 <= j < k + 1 && ForeignOf(log, j, x) { assert j < k || j == k; }
  }

  lemma {:induction false} SameForeign(log: seq<Record>, k: nat, x: nat)
    requires k <= |log|
    ensures ForeignBefore(log[..k], k, x) <==> ForeignBefore(log, k, x)
  {
    forall j | 0 <= j < k ensures ForeignOf(log[..k], j, x) <==> ForeignOf(log, j, x) { assert log[..k][..j] == log[..j]; }
  }

  lemma {:induction false} ForeignBelow(log: seq<Record>, k: nat, x: nat)
    requires Tiled(log) && k <= |log| && ForeignBefore(log, k, x)
    ensures x < Offset(log, k)
  {
    var j :| 0 <= j < k && ForeignOf(log, j, x);
    TopBelow(log, j);
    OffsetsIncrease(log, j, k);
  }

  /** The fold remembers a foreign terminal exactly if there was one. */
  lemma {:induction false} FateForeign(log: seq<Record>, p: nat)
    requires Tiled(log) && p < |Stack(log)|
    ensures Fates(log)[p].foreign <==> ForeignBefore(log, |log|, Stack(log)[p].start)
  {
    var k := |log| - 1;
    var init, x := log[..k], Stack(log)[p].start;
    Last(log);
    StepFate(Fates(init), Stack(init), log[k], k, p);
    ForeignSnoc(log, k, x);
    SameForeign(log, k, x);
    if p == |Stack(init)| {
      if ForeignBefore(log, k, x) { ForeignBelow(log, k, x); }
    } else {
      FateForeign(init, p);
      ClosesHere(Stack(init), log[k], p);
    }
  }

  lemma {:induction false} ClosesBelow(log: seq<Record>, c: nat, k: nat, x: nat)
    requires Tiled(log) && c <= k <= |log| && c < |log| && ClosesAt(log, c, x)
    ensures x < Offset(log, k)
  {
    TopBelow(log, c);
    if c < k { OffsetsIncrease(log, c, k); }
  }

  lemma {:induction false} SameClose(log: seq<Record>, k: nat, c: nat, x: nat)
    requires c < k <= |log|
    ensures ClosesAt(log[..k], c, x) <==> ClosesAt(log, c, x)
  {
    assert log[..k][..c] == log[..c];
  }

  lemma {:induction false} FateClosed(log: seq<Record>, p: nat, c: nat)
    requires Tiled(log) && p < |Stack(log)|
    ensures Fates(log)[p].closedAt == Some(c) <==> c < |log| && ClosesAt(log, c, Stack(log)[p].start)
  {
    var k := |log| - 1;
    var init, x := log[..k], Stack(log)[p].start;
    Last(log);
    StepFate(Fates(init), Stack(init), log[k], k, p);
    if p == |Stack(init)| {
      if c < |log| && ClosesAt(log, c, x) { ClosesBelow(log, c, k, x); }
    } else {
      FateClosed(init, p, c);
      if c < k {
        SameClose(log, k, c, x);
        if ClosesAt(log, c, x) { ClosedOnce(log, c, k, p); }
      } else if c == k {
        ClosesHere(Stack(init), log[k], p);
      }
    }
  }

  /** The last record closes the turn at `p` only if that is the top. */
  lemma {:induction false} ClosesHere(s: seq<Turn>, r: Record, p: nat)
    requires Shape(s, r.start) && p < |s|
    ensures TopOpen(s) && s[|s| - 1].start == s[p].start ==> p == |s| - 1
  {
    if s[|s| - 1].start == s[p].start { OnePlace(s, r.start, p, |s| - 1); }
  }

  /** A turn that a terminal closed is not open again. */
  lemma {:induction false} ClosedOnce(log: seq<Record>, c: nat, k: nat, p: nat)
    requires Tiled(log) && c < k <= |log| && p < |Stack(log[..k])| && ClosesAt(log, c, Stack(log[..k])[p].start)
    ensures Stack(log[..k])[p].end != 0
  {
    StackRemains(log, c + 1, k);
    StackSnoc(log, c);
    TopBelow(log, c);
    assert Abuts(log, c);
    TiledPrefix(log, c);
    StackShape(log[..c]);
    var s, s1 := Stack(log[..c]), Stack(log[..c + 1]);
    assert s1[|s| - 1].start == Stack(log[..k])[p].start && s1[|s| - 1].end == log[c].end;
    TiledPrefix(log, c + 1);
    StackShape(log[..c + 1]);
    OnePlace(s1, Offset(log, c + 1), p, |s| - 1);
  }

  // --- The reverse scan's turn at the same place ---

  /** Where the first turn started at or after record `i`; 0 if none was. */
  function FirstStart(log: seq<Record>, i: nat): (at: nat)
    decreases |log| - i
  {
    if i >= |log| then 0 else if log[i].mark.Started? then log[i].start else FirstStart(log, i + 1)
  }

  lemma {:induction false} FirstStartSnoc(log: seq<Record>, i: nat)
    requires Tiled(log) && log != [] && 0 < i < |log|
    ensures var k := |log| - 1;
            var before := FirstStart(log[..k], i);
            && FirstStart(log, i) == (if before != 0 then before else if log[k].mark.Started? then log[k].start else 0)
    decreases |log| - i
  {
    var k := |log| - 1;
    assert Abuts(log, i);
    OffsetsIncrease(log, 0, i);
    if i < k { FirstStartSnoc(log, i + 1); }
  }

  /** How the reverse scan's turn `u` compares with the stack's turn `t`. */
  ghost predicate Alike(log: seq<Record>, u: Seen, t: Turn, fate: Fate) {
    && u.turn.id == t.id && u.turn.start == t.start
    && (t.end == 0 ==> u.turn == t && u.sealed == fate.foreign && fate.closedAt.None?)
    && (t.end != 0 && !(fate.foreign && fate.closedAt.Some?) ==> u.turn == t)
    && (t.end != 0 && fate.foreign && fate.closedAt.Some? ==>
          var k := fate.closedAt.value;
          && k < |log| && log[k].mark.Terminal? && t.end == log[k].end && t.completed == log[k].mark.completed
          && u.sealed && u.turn.end == FirstStart(log, k + 1) && !u.turn.completed)
  }

  /** Both folds as they stand before the last record `r` of `log`. */
  ghost predicate Before(log: seq<Record>, v: seq<Seen>, s: seq<Turn>, f: seq<Fate>) {
    && Tiled(log) && log != []
    && SameStarts(v, s) && |f| == |s|
    && Shape(s, log[|log| - 1].start) && SeenShape(v, log[|log| - 1].start)
    && log[|log| - 1].start < log[|log| - 1].end
    && forall p :: 0 <= p < |s| ==> Alike(log[..|log| - 1], v[p], s[p], f[p])
  }

  /** Nothing starts: what a spoiled turn ends with is as before. */
  lemma {:induction false} AlikeKept(log: seq<Record>, u: Seen, t: Turn, fate: Fate)
    requires Tiled(log) && log != [] && !log[|log| - 1].mark.Started? && Alike(log[..|log| - 1], u, t, fate)
    ensures Alike(log, u, t, fate)
  {
    if t.end != 0 && fate.foreign && fate.closedAt.Some? { FirstStartSnoc(log, fate.closedAt.value + 1); }
  }

  lemma {:induction false} AlikeStarted(log: seq<Record>, v: seq<Seen>, s: seq<Turn>, f: seq<Fate>, p: nat)
    requires Before(log, v, s, f) && log[|log| - 1].mark.Started? && p <= |s|
    ensures var r := log[|log| - 1];
            Alike(log, StepSeen(v, r)[p], StepStack(s, r)[p], StepFates(f, s, r, |log| - 1)[p])
  {
    if p < |s| {
      assert Alike(log[..|log| - 1], v[p], s[p], f[p]);
      AlikeOnStart(log, v[p], s[p], f[p]);
      StartedAt(v, s, f, log[|log| - 1], |log| - 1, p);
    }
  }

  /** How a start changes one place: what is open there ends. */
  function Ended(u: Seen, at: nat): (u': Seen) {
    if u.turn.end == 0 then Finish(u, at, None) else u
  }

  lemma {:induction false} AlikeOnStart(log: seq<Record>, u: Seen, t: Turn, fate: Fate)
    requires Tiled(log) && log != [] && log[|log| - 1].mark.Started? && log[|log| - 1].start > 0
    requires Alike(log[..|log| - 1], u, t, fate)
    ensures Alike(log, Ended(u, log[|log| - 1].start), if t.end == 0 then t.(end := log[|log| - 1].start, completed := false) else t, fate)
  {
    if t.end != 0 && fate.foreign && fate.closedAt.Some? { FirstStartSnoc(log, fate.closedAt.value + 1); }
  }

  lemma {:induction false} StartedAt(v: seq<Seen>, s: seq<Turn>, f: seq<Fate>, r: Record, k: nat, p: nat)
    requires SameStarts(v, s) && |f| == |s| && Shape(s, r.start) && SeenShape(v, r.start) && r.mark.Started? && p < |s|
    ensures StepFates(f, s, r, k)[p] == f[p] && StepSeen(v, r)[p] == Ended(v[p], r.start)
    ensures StepStack(s, r)[p] == if s[p].end == 0 then s[p].(end := r.start, completed := false) else s[p]
  {
  }

  lemma {:induction false} AlikeTerminal(log: seq<Record>, v: seq<Seen>, s: seq<Turn>, f: seq<Fate>, p: nat)
    requires Before(log, v, s, f) && log[|log| - 1].mark.Terminal? && p < |s|
    ensures var r := log[|log| - 1];
            Alike(log, StepSeen(v, r)[p], StepStack(s, r)[p], StepFates(f, s, r, |log| - 1)[p])
  {
    AlikeKept(log, v[p], s[p], f[p]);
  }

  lemma {:induction false} AlikeRest(log: seq<Record>, v: seq<Seen>, s: seq<Turn>, f: seq<Fate>, p: nat)
    requires Before(log, v, s, f) && !log[|log| - 1].mark.Started? && !log[|log| - 1].mark.Terminal?
    requires p < |StepStack(s, log[|log| - 1])|
    ensures var r := log[|log| - 1];
            p < |StepSeen(v, r)| && Alike(log, StepSeen(v, r)[p], StepStack(s, r)[p], StepFates(f, s, r, |log| - 1)[p])
  {
    AlikeKept(log, v[p], s[p], f[p]);
  }

  lemma {:induction false} FoldsAlike(log: seq<Record>)
    requires Tiled(log)
    ensures |SeenStack(log)| == |Stack(log)|
    ensures forall p :: 0 <= p < |Stack(log)| ==> Alike(log, SeenStack(log)[p], Stack(log)[p], Fates(log)[p])
  {
    SeenStarts(log);
    if log != [] {
      var k := |log| - 1;
      var init, r := log[..k], log[k];
      var v, s, f := SeenStack(init), Stack(init), Fates(init);
      Last(log);
      SeenStarts(init);
      SeenStackShape(init);
      FoldsAlike(init);
      assert Before(log, v, s, f);
      forall p | 0 <= p < |Stack(log)| ensures Alike(log, SeenStack(log)[p], Stack(log)[p], Fates(log)[p]) {
        if r.mark.Started? { AlikeStarted(log, v, s, f, p); }
        else if r.mark.Terminal? { AlikeTerminal(log, v, s, f, p); }
        else { AlikeRest(log, v, s, f, p); }
      }
    }
  }

  // --- The exact condition ---

  lemma {:induction false} FirstStartBehind(log: seq<Record>, k: nat)
    requires Tiled(log) && k < |log|
    ensures FirstStart(log, k + 1) == log[k].end <==> k + 1 < |log| && log[k + 1].mark.Started?
  {
    assert Abuts(log, k);
    if k + 1 < |log| {
      assert Abuts(log, k + 1);
      if !log[k + 1].mark.Started? { FirstStartLater(log, k + 2); }
    }
  }

  lemma {:induction false} FirstStartLater(log: seq<Record>, i: nat)
    requires Tiled(log) && i <= |log|
    ensures FirstStart(log, i) == 0 || FirstStart(log, i) >= Offset(log, i)
    decreases |log| - i
  {
    if i < |log| {
      assert Abuts(log, i);
      FirstStartLater(log, i + 1);
    }
  }

  /** The reverse scan's turn at one place, and the stack's, once what is still open was closed at the end. */
  ghost predicate EndAlike(log: seq<Record>, u: Seen, t: Turn, frozen: bool) {
    var next := NextStart(log, frozen);
    (if u.turn.end == 0 then u.turn.(end := next, completed := false) else u.turn)
    == if t.end == 0 then t.(end := next, completed := false) else t
  }

  /** At one place the two scans agree if and only if the turn there is not spoiled. */
  lemma {:induction false} AgreeAt(log: seq<Record>, p: nat, frozen: bool)
    requires Tiled(log) && p < |Stack(log)|
    ensures p < |SeenStack(log)|
    ensures EndAlike(log, SeenStack(log)[p], Stack(log)[p], frozen) <==> !Spoiled(log, Stack(log)[p].start, frozen)
  {
    var x, fate := Stack(log)[p].start, Fates(log)[p];
    FoldsAlike(log);
    assert Alike(log, SeenStack(log)[p], Stack(log)[p], fate);
    StackShape(log);
    FateForeign(log, p);
    if fate.closedAt.Some? {
      var k := fate.closedAt.value;
      FateClosed(log, p, k);
      FirstStartBehind(log, k);
      EndBehind(log, k);
      assert Abuts(log, k);
    }
    SpoiledFate(log, p, frozen);
  }

  /** Record `k` ends at the durable end if and only if it is the last. */
  lemma {:induction false} EndBehind(log: seq<Record>, k: nat)
    requires Tiled(log) && k < |log|
    ensures log[k].end == DurableEnd(log) <==> k + 1 == |log|
    ensures DurableEnd(log) > 0
  {
    OffsetsIncrease(log, k, |log|);
    if k + 1 < |log| { OffsetsIncrease(log, k + 1, |log|); }
  }

  /** Being spoiled, told by the fold. */
  lemma {:induction false} SpoiledFate(log: seq<Record>, p: nat, frozen: bool)
    requires Tiled(log) && p < |Stack(log)|
    ensures var fate := Fates(log)[p];
            Spoiled(log, Stack(log)[p].start, frozen) <==>
              fate.foreign && fate.closedAt.Some? && fate.closedAt.value < |log| && Exposed(log, fate.closedAt.value, frozen)
  {
    var x, fate := Stack(log)[p].start, Fates(log)[p];
    FateForeign(log, p);
    if fate.closedAt.Some? { FateClosed(log, p, fate.closedAt.value); }
    if k :| 0 <= k < |log| && ClosesAt(log, k, x) && Exposed(log, k, frozen) { FateClosed(log, p, k); }
  }

  ghost predicate NoneSpoiled(log: seq<Record>, frozen: bool) {
    forall p :: 0 <= p < |Stack(log)| ==> !Spoiled(log, Stack(log)[p].start, frozen)
  }

  /**
   The reverse scan lists exactly the surviving turns, newest first, if and only if none of them is
   spoiled by a foreign terminal: of a live file, and of a frozen prefix whose last turn ends with it.
   */
  lemma {:induction false} ReverseScanAgreesExactly(log: seq<Record>, frozen: bool)
    requires Tiled(log)
    ensures RevTasks(log, 0, NextStart(log, frozen), None) == Reverse(Interrupt(Stack(log), NextStart(log, frozen))) <==> NoneSpoiled(log, frozen)
  {
    var next := NextStart(log, frozen);
    ReverseScanIsFold(log, 0, next, None);
    ReverseInjective(Turns(Cut(SeenStack(log), 0, next, None)), Interrupt(Stack(log), next));
    ListsAlike(log, frozen);
  }

  /** Of a live file that is the stack itself. */
  lemma {:induction false} NothingInterrupted(log: seq<Record>)
    requires Tiled(log)
    ensures Interrupt(Stack(log), NextStart(log, false)) == Stack(log)
  {
    StackShape(log);
  }

  lemma {:induction false} ListsAlike(log: seq<Record>, frozen: bool)
    requires Tiled(log)
    ensures var next := NextStart(log, frozen);
            Turns(Cut(SeenStack(log), 0, next, None)) == Interrupt(Stack(log), next) <==> NoneSpoiled(log, frozen)
  {
    var next, s := NextStart(log, frozen), Stack(log);
    var cut, kept := Turns(Cut(SeenStack(log), 0, next, None)), Interrupt(s, next);
    SeenStarts(log);
    SeenStackShape(log);
    StackShape(log);
    CutTurns(SeenStack(log), next, DurableEnd(log));
    KeptTurns(s, next, DurableEnd(log));
    forall p | 0 <= p < |s| ensures cut[p] == kept[p] <==> !Spoiled(log, s[p].start, frozen) { AgreeAt(log, p, frozen); }
    assert cut == kept <==> forall p :: 0 <= p < |s| ==> cut[p] == kept[p];
  }

  lemma {:induction false} KeptTurns(s: seq<Turn>, next: nat, bound: nat)
    requires Shape(s, bound)
    ensures var kept := Interrupt(s, next);
            && |kept| == |s|
            && forall p :: 0 <= p < |s| ==> kept[p] == if s[p].end == 0 then s[p].(end := next, completed := false) else s[p]
  {
  }

  lemma {:induction false} CutTurns(v: seq<Seen>, next: nat, bound: nat)
    requires SeenShape(v, bound)
    ensures var cut := Turns(Cut(v, 0, next, None));
            && |cut| == |v|
            && forall p :: 0 <= p < |v| ==> cut[p] == if v[p].turn.end == 0 then v[p].turn.(end := next, completed := false) else v[p].turn
  {
  }

  lemma {:induction false} ReverseInjective(a: seq<Turn>, b: seq<Turn>)
    ensures Reverse(a) == Reverse(b) <==> a == b
  {
    if Reverse(a) == Reverse(b) {
      forall i | 0 <= i < |a| ensures a[i] == b[i] {
        assert Reverse(a)[|a| - 1 - i] == a[i] && Reverse(b)[|a| - 1 - i] == b[i];
      }
    }
  }

  // --- It happens ---

  const BEGUN := Record(0, 1, Started("a"), None, true, 1, [])
  const FOREIGN := Record(1, 2, Terminal("b", true), None, true, 1, [])
  const OWN := Record(2, 3, Terminal("a", true), None, true, 1, [])

  /** One foreign terminal inside a completed turn, and the cold scan shows that turn as running. */
  lemma {:induction false} ForeignTerminalReopens()
    ensures Tiled([BEGUN, FOREIGN, OWN])
    ensures Stack([BEGUN, FOREIGN, OWN]) == [Turn("a", 0, 3, true)]
    ensures RevTasks([BEGUN, FOREIGN, OWN], 0, 0, None) == [Turn("a", 0, 0, false)]
  {
    var log := [BEGUN, FOREIGN, OWN];
    assert log[..2] == [BEGUN, FOREIGN] && [BEGUN, FOREIGN][..1] == [BEGUN] && [BEGUN][..0] == [];
    var t := Turn("a", 0, 0, false);
    assert StepStack([], BEGUN) == [t] && StepStack([t], FOREIGN) == [t] && StepStack([t], OWN) == [Turn("a", 0, 3, true)];
    assert Stack([BEGUN]) == [t];
    assert Stack([BEGUN, FOREIGN]) == [t];
    assert RevTasks([BEGUN], 0, 0, Some(Close("b", 2, true))) == [t];
    assert RevTasks([BEGUN, FOREIGN], 0, 0, Some(Close("a", 3, true))) == [t];
  }
}
