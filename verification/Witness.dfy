/** What a client-held witness of a file guarantees once the file has grown. */
module Witness {
  import opened Wrappers
  import opened Transcript
  import opened ReverseScan
  import opened LogicalTurns
  import opened TurnVisitors
  import opened BlockScan
  import opened Store
  import opened ForwardScan

  /** The callback of `witness_matches`: any appended rollback breaks the witness. */
  function NoRollback(matched: bool, r: Record): (next: (bool, bool)) {
    (!r.mark.Rollback?, !r.mark.Rollback?)
  }

  ghost predicate RollbackFree(log: seq<Record>, lo: nat, hi: nat)
    requires hi <= |log|
  {
    forall k :: lo <= k < hi ==> !log[k].mark.Rollback?
  }

  /** The callback ends with, and goes on exactly with, the answer to whether a rollback was met. */
  lemma {:induction false} NoRollbackFound(log: seq<Record>, lo: nat, hi: nat)
    requires lo <= hi <= |log|
    ensures ConsumeRecords(Boundaries(log, lo, hi), true, NoRollback) == (RollbackFree(log, lo, hi), RollbackFree(log, lo, hi))
    decreases hi
  {
    if lo < hi {
      var r, rest := log[hi - 1], Boundaries(log, lo, hi - 1);
      NoRollbackFound(log, lo, hi - 1);
      if IsBoundary(r) { ConsumeRecord(r, rest, true, NoRollback); } else { assert [] + rest == rest; }
    }
  }

  /** What a client keeps of a file it has read: whose bytes they were, how many, their digest and when. */
  datatype FileWitness = FileWitness(device: nat, inode: nat, durableBytes: nat, tailHash: Digest, modifiedNanos: nat, observedBytes: nat)

  /** `observed` is the length of the file, its unfinished last line included. */
  function WitnessOf(file: SourceFile, observed: nat): (kept: FileWitness) {
    var durable := DurableEnd(file.log);
    FileWitness(file.device, file.inode, durable, file.tail(durable), file.modifiedNanos, observed)
  }

  /** `bytes_match` */
  predicate BytesMatch(kept: FileWitness, file: SourceFile, observed: nat) {
    && file.device == kept.device && file.inode == kept.inode
    && DurableEnd(file.log) >= kept.durableBytes
    && file.tail(kept.durableBytes) == kept.tailHash
    && (observed == kept.observedBytes ==> file.modifiedNanos == kept.modifiedNanos)
  }

  /** Another file, a shorter one, other bytes, or a file of the same length that was written again. */
  predicate Differs(kept: FileWitness, file: SourceFile, observed: nat) {
    || file.device != kept.device || file.inode != kept.inode
    || DurableEnd(file.log) < kept.durableBytes
    || file.tail(kept.durableBytes) != kept.tailHash
    || (observed == kept.observedBytes && file.modifiedNanos != kept.modifiedNanos)
  }

  /** No rollback was appended behind the witnessed bytes. */
  ghost predicate Unrolled(kept: FileWitness, log: seq<Record>) {
    RollbackFree(log, StartsBefore(log, kept.durableBytes), |log|)
  }

  /** Record `j` is the newest unreadable one, behind the witnessed bytes, and no rollback follows it. */
  ghost predicate WitnessBlocked(kept: FileWitness, log: seq<Record>, j: nat) {
    && StartsBefore(log, kept.durableBytes) <= j < |log| && log[j].mark.Broken?
    && ReadableIn(log, j + 1, |log|) && RollbackFree(log, j + 1, |log|)
  }

  /** `witness_matches` */
  method WitnessMatches(file: SourceFile, observed: nat, kept: FileWitness) returns (r: Visited<bool>)
    ensures Differs(kept, file, observed) ==> r == Finished(false)
    ensures !Differs(kept, file, observed) && r.Finished? ==> r.state == Unrolled(kept, file.log)
    ensures r.Unreadable? <==> !Differs(kept, file, observed) && exists j: nat :: WitnessBlocked(kept, file.log, j)
    ensures r.Unreadable? ==> exists j: nat :: WitnessBlocked(kept, file.log, j) && file.log[j].start == r.offset
  {
    if !BytesMatch(kept, file, observed) { return Finished(false); }
    var log, k := file.log, StartsBefore(file.log, kept.durableBytes);
    NoRollbackFound(log, k, |log|);
    forall j: nat ensures BlocksWalk(log, k, j, |log|, true, NoRollback) <==> WitnessBlocked(kept, log, j) {
      if j < |log| { NoRollbackFound(log, j + 1, |log|); }
    }
    r := VisitBoundariesReverse(log, k, |log|, true, NoRollback);
  }

  /**
   While a witness matches, every turn that survived the witnessed prefix survives with its id and
   start, and every turn that was closed there keeps its end and completion.
   */
  lemma {:induction false} WitnessedTurnsStay(log: seq<Record>, k: nat, n: nat, p: nat)
    requires Tiled(log) && k <= n <= |log| && RollbackFree(log, k, n) && p < |Stack(log[..k])|
    ensures p < |Stack(log[..n])|
    ensures var t, t' := Stack(log[..k])[p], Stack(log[..n])[p];
            t'.start == t.start && t'.id == t.id && (t.end != 0 ==> t' == t)
    decreases n
  {
    if k < n {
      WitnessedTurnsStay(log, k, n - 1, p);
      StackSnoc(log, n - 1);
      TiledPrefix(log, n - 1);
      StackShape(log[..n - 1]);
      StaysPut(Stack(log[..n - 1]), log[n - 1], p);
    }
  }

  /**
   The same for every turn that survives, standalone turns included: it keeps its place among the
   items, its id and its start, and if it was closed its end.
   */
  lemma {:induction false} WitnessedItemsStay(log: seq<Record>, k: nat, n: nat, p: nat)
    requires k <= n <= |log| && RollbackFree(log, k, n) && p < |Items(log[..k])|
    ensures p < |Items(log[..n])| && KeptItem(Items(log[..k])[p], Items(log[..n])[p])
    decreases n
  {
    if k < n {
      WitnessedItemsStay(log, k, n - 1, p);
      ItemStaysPut(Items(log[..n - 1]), log[n - 1], p);
      ItemsSnoc(log, n - 1);
    }
  }

  lemma {:induction false} ItemsSnoc(log: seq<Record>, n: nat)
    requires n < |log|
    ensures Items(log[..n + 1]) == StepItems(Items(log[..n]), log[n])
  {
    assert log[..n + 1][..n] == log[..n];
  }

  predicate KeptItem(a: Item, b: Item) {
    b.task == a.task && b.turn.start == a.turn.start && b.turn.id == a.turn.id && (a.turn.end != 0 ==> b.turn == a.turn)
  }

  lemma {:induction false} ItemStaysPut(items: seq<Item>, r: Record, p: nat)
    requires !r.mark.Rollback? && p < |items|
    ensures p < |StepItems(items, r)| && KeptItem(items[p], StepItems(items, r)[p])
  {
    var marked := StepMark(items, r);
    assert p < |marked| && KeptItem(items[p], marked[p]);
  }

  /** So no turn that the witnessed prefix lists is missing from the list of the grown file. */
  lemma {:induction false} WitnessedListStays(log: seq<Record>, k: nat, t: Turn)
    requires Tiled(log) && k <= |log| && RollbackFree(log, k, |log|) && t in Newest(log[..k], 0)
    ensures exists t' :: t' in Newest(log, 0) && t'.start == t.start && t'.id == t.id && (t.end != 0 ==> t' == t)
  {
    assert log[..|log|] == log;
    var items, grown := Items(log[..k]), Items(log);
    var p := ListedAt(items, t);
    WitnessedItemsStay(log, k, |log|, p);
    AtListed(grown, p);
    ListedKept(items, grown, p);
  }

  lemma {:induction false} ListedKept(items: seq<Item>, grown: seq<Item>, p: nat)
    requires p < |items| && p < |grown| && KeptItem(items[p], grown[p])
    ensures var t, t' := ListedTurn(items, p), ListedTurn(grown, p);
            t'.start == t.start && t'.id == t.id && (t.end != 0 ==> t' == t)
  {
  }

  lemma {:induction false} StartsBeforeEnd(log: seq<Record>, k: nat)
    requires Tiled(log) && k <= |log|
    ensures StartsBefore(log, Offset(log, k)) == k
    decreases |log|
  {
    if log != [] {
      var n := |log| - 1;
      assert Abuts(log, n);
      if k <= n {
        if k < n { OffsetsIncrease(log, k, n); }
        TiledPrefix(log, n);
        StartsBeforeEnd(log[..n], k);
      }
    }
  }

  /**
   From one observation to the next: if the digest is honest about the witnessed bytes, a witness of
   the earlier one that matches the later one keeps every turn a reader was shown.
   */
  lemma {:induction false} WitnessedFileStays(earlier: SourceFile, before: nat, later: SourceFile, observed: nat, t: Turn)
    requires Tiled(earlier.log) && Tiled(later.log) && t in Newest(earlier.log, 0)
    requires BytesMatch(WitnessOf(earlier, before), later, observed) ==> earlier.log <= later.log
    requires BytesMatch(WitnessOf(earlier, before), later, observed) && Unrolled(WitnessOf(earlier, before), later.log)
    ensures exists t' :: t' in Newest(later.log, 0) && t'.start == t.start && t'.id == t.id && (t.end != 0 ==> t' == t)
  {
    var k := |earlier.log|;
    assert later.log[..k] == earlier.log && Offset(later.log, k) == DurableEnd(earlier.log);
    StartsBeforeEnd(later.log, k);
    WitnessedListStays(later.log, k, t);
  }

  /** Nothing behind record `k` is unreadable or a rollback. */
  ghost predicate OnlyGrew(log: seq<Record>, k: nat) {
    forall j :: k <= j < |log| ==> !log[j].mark.Broken? && !log[j].mark.Rollback?
  }

  /**
   The witness of one observation, asked about a later one: an appended file matches as long as it only
   grew, and anything else that its identity, its length, its digest or its time gives away does not.
   */
  method WitnessedLater(earlier: SourceFile, before: nat, later: SourceFile, observed: nat) returns (r: Visited<bool>)
    requires Tiled(earlier.log) && Tiled(later.log)
    ensures (&& later.device == earlier.device && later.inode == earlier.inode && earlier.log <= later.log
             && later.tail(DurableEnd(earlier.log)) == earlier.tail(DurableEnd(earlier.log)) && OnlyGrew(later.log, |earlier.log|)
             && (observed != before || later.modifiedNanos == earlier.modifiedNanos)) ==> r == Finished(true)
    ensures earlier.log <= later.log && (exists j :: |earlier.log| <= j < |later.log| && later.log[j].mark.Rollback?) && Readable(later.log) ==>
              r == Finished(false)
    ensures later.device != earlier.device || later.inode != earlier.inode ==> r == Finished(false)
    ensures DurableEnd(later.log) < DurableEnd(earlier.log) ==> r == Finished(false)
    ensures later.tail(DurableEnd(earlier.log)) != earlier.tail(DurableEnd(earlier.log)) ==> r == Finished(false)
    ensures observed == before && later.modifiedNanos != earlier.modifiedNanos ==> r == Finished(false)
  {
    var kept := WitnessOf(earlier, before);
    if earlier.log <= later.log {
      assert later.log[..|earlier.log|] == earlier.log && Offset(later.log, |earlier.log|) == DurableEnd(earlier.log);
      StartsBeforeEnd(later.log, |earlier.log|);
      LaterIsLonger(earlier.log, later.log);
    }
    r := WitnessMatches(later, observed, kept);
  }

  lemma {:induction false} LaterIsLonger(earlier: seq<Record>, later: seq<Record>)
    requires Tiled(later) && earlier <= later
    ensures DurableEnd(earlier) <= DurableEnd(later)
  {
    if |earlier| < |later| { OffsetsIncrease(later, |earlier|, |later|); }
  }

  /** The turn that the list shows for item `p` of a live log. */
  function ListedTurn(items: seq<Item>, p: nat): (t: Turn)
    requires p < |items|
  {
    InterruptLast(items, 0)[p].turn
  }

  lemma {:induction false} ListedAt(items: seq<Item>, t: Turn) returns (p: nat)
    requires t in Reverse(TurnsOf(InterruptLast(items, 0)))
    ensures p < |items| && ListedTurn(items, p) == t
  {
    var turns := TurnsOf(InterruptLast(items, 0));
    var q :| 0 <= q < |Reverse(turns)| && Reverse(turns)[q] == t;
    p := |turns| - 1 - q;
  }

  lemma {:induction false} AtListed(items: seq<Item>, p: nat)
    requires p < |items|
    ensures ListedTurn(items, p) in Reverse(TurnsOf(InterruptLast(items, 0)))
  {
    var turns := TurnsOf(InterruptLast(items, 0));
    assert Reverse(turns)[|turns| - 1 - p] == turns[p];
  }

  lemma {:induction false} StaysPut(s: seq<Turn>, r: Record, p: nat)
    requires !r.mark.Rollback? && p < |s|
    ensures p < |StepStack(s, r)| && StepStack(s, r)[p].start == s[p].start && StepStack(s, r)[p].id == s[p].id
    ensures s[p].end != 0 ==> StepStack(s, r)[p] == s[p]
  {
  }
}
