/**
 From bytes to records, and the block-wise reverse scan over bytes. A provider reads a line; the
 scan looks for its needles in fixed-size blocks from the end back, each block read with enough
 bytes of the next one to see a needle that straddles the cut.
 */
module BlockScan {
  import opened Wrappers
  import opened Transcript
  import opened ReverseScan
  import opened TurnVisitors
  import opened SourceBytes

  /** What a provider tells the index about a line: which texts a boundary must contain, and how the line reads. */
  datatype Provider = Provider(
    needles: seq<seq<byte>>,
    boundary: seq<byte> -> Mark,
    standaloneNeedle: Option<seq<byte>>,
    standalone: seq<byte> -> Option<string>,
    foldable: seq<byte> -> bool,
    classify: seq<byte> -> byte
  )

  /** `needle` stands at byte `o`, all of it before `end`. */
  predicate Occurs(bytes: seq<byte>, needle: seq<byte>, o: nat, end: nat) {
    o + |needle| <= end <= |bytes| && bytes[o..o + |needle|] == needle
  }

  predicate HasNeedle(line: seq<byte>, needles: seq<seq<byte>>) {
    exists n, o :: 0 <= n < |needles| && 0 <= o <= |line| && Occurs(line, needles[n], o, |line|)
  }

  /** `boundary_of`: a line without a needle is never parsed. */
  function MarkOf(line: seq<byte>, provider: Provider): (mark: Mark) {
    if HasNeedle(line, provider.needles) then provider.boundary(line) else Plain
  }

  /** A format without a needle for them has no records that are turns by themselves. */
  function StandaloneOf(line: seq<byte>, provider: Provider): (id: Option<string>) {
    if provider.standaloneNeedle.None? then None else provider.standalone(line)
  }

  function LineRecord(file: seq<byte>, start: nat, end: nat, provider: Provider): (r: Record)
    requires start <= end <= |file|
  {
    var line := file[start..end];
    Record(start, end, MarkOf(line, provider), StandaloneOf(line, provider), provider.foldable(line), provider.classify(line), line)
  }

  /** The durable lines of a file as records. */
  function RecordsOf(file: seq<byte>, end: nat, provider: Provider): (log: seq<Record>)
    requires end <= |file|
  {
    if end == 0 then []
    else
      LineBaseIs(file, end - 1);
      var start := LineBase(file, end - 1);
      RecordsOf(file, start, provider) + [LineRecord(file, start, end, provider)]
  }

  /** They tile it. */
  lemma {:induction false} RecordsTile(file: seq<byte>, end: nat, provider: Provider)
    requires end <= |file|
    ensures Tiled(RecordsOf(file, end, provider)) && DurableEnd(RecordsOf(file, end, provider)) == end
  {
    if end > 0 {
      LineBaseIs(file, end - 1);
      var start := LineBase(file, end - 1);
      var before, log := RecordsOf(file, start, provider), RecordsOf(file, end, provider);
      RecordsTile(file, start, provider);
      forall i | 0 <= i < |log| ensures Abuts(log, i) {
        if i < |before| { assert Abuts(before, i); }
      }
    }
  }

  /** The bytes of `needle` stand in `line` from byte `o` on. */
  ghost predicate StandsAt(line: seq<byte>, needle: seq<byte>, o: nat) {
    o + |needle| <= |line| && forall d :: 0 <= d < |needle| ==> line[o + d] == needle[d]
  }

  lemma {:induction false} OccursIs(line: seq<byte>, needle: seq<byte>, o: nat)
    ensures Occurs(line, needle, o, |line|) <==> StandsAt(line, needle, o)
  {
    if StandsAt(line, needle, o) {
      assert forall d :: 0 <= d < |needle| ==> line[o..o + |needle|][d] == needle[d];
    }
    if Occurs(line, needle, o, |line|) {
      assert forall d :: 0 <= d < |needle| ==> needle[d] == line[o..o + |needle|][d] == line[o + d];
    }
  }

  /**
   Every record is one line of the file, up to and with its newline if that is durable. Its boundary is
   what the provider reads in it if a boundary needle stands anywhere in it, and none otherwise.
   */
  lemma {:induction false} RecordReads(file: seq<byte>, end: nat, provider: Provider, k: nat)
    requires end <= |file| && k < |RecordsOf(file, end, provider)|
    ensures var r := RecordsOf(file, end, provider)[k];
            && r.start < r.end <= end && r.line == file[r.start..r.end]
            && (r.start == 0 || file[r.start - 1] == NEWLINE) && (forall x :: r.start <= x < r.end - 1 ==> file[x] != NEWLINE)
            && r.foldable == provider.foldable(r.line) && r.tag == provider.classify(r.line)
            && r.standalone == (if provider.standaloneNeedle.Some? then provider.standalone(r.line) else None)
            && ((exists n, o: nat :: 0 <= n < |provider.needles| && StandsAt(r.line, provider.needles[n], o)) ==> r.mark == provider.boundary(r.line))
            && ((forall n, o: nat :: 0 <= n < |provider.needles| ==> !StandsAt(r.line, provider.needles[n], o)) ==> r.mark == Plain)
  {
    LineBaseIs(file, end - 1);
    var start := LineBase(file, end - 1);
    if k < |RecordsOf(file, start, provider)| {
      RecordReads(file, start, provider, k);
    } else {
      NeedleIsRead(file[start..end], provider);
    }
  }

  lemma {:induction false} NeedleIsRead(line: seq<byte>, provider: Provider)
    ensures (exists n, o: nat :: 0 <= n < |provider.needles| && StandsAt(line, provider.needles[n], o)) ==> MarkOf(line, provider) == provider.boundary(line)
    ensures (forall n, o: nat :: 0 <= n < |provider.needles| ==> !StandsAt(line, provider.needles[n], o)) ==> MarkOf(line, provider) == Plain
  {
    forall n, o: nat | 0 <= n < |provider.needles| ensures Occurs(line, provider.needles[n], o, |line|) <==> StandsAt(line, provider.needles[n], o) {
      OccursIs(line, provider.needles[n], o);
    }
  }

  // --- Hits ---

  /** No needle is empty, contains a newline, or overlaps a shifted copy of itself. */
  ghost predicate WellChosen(needles: seq<seq<byte>>) {
    forall n :: 0 <= n < |needles| ==> GoodNeedle(needles[n])
  }

  ghost predicate GoodNeedle(needle: seq<byte>) {
    && needle != []
    && NoNewline(needle, 0, |needle|)
    && (forall d :: 0 < d < |needle| ==> needle[d..] != needle[..|needle| - d])
  }

  function CountAt(bytes: seq<byte>, needles: seq<seq<byte>>, o: nat, end: nat): (count: nat) {
    if needles == [] then 0
    else CountAt(bytes, needles[..|needles| - 1], o, end) + (if Occurs(bytes, needles[|needles| - 1], o, end) then 1 else 0)
  }

  function Copies(o: nat, count: nat): (r: seq<nat>) {
    seq(count, _ => o)
  }

  /** Every needle occurrence that starts in `lo..hi`, once each, newest first. */
  function AllHits(bytes: seq<byte>, needles: seq<seq<byte>>, lo: nat, hi: nat, end: nat): (hits: seq<nat>)
    decreases hi
  {
    if hi <= lo then [] else Copies(hi - 1, CountAt(bytes, needles, hi - 1, end)) + AllHits(bytes, needles, lo, hi - 1, end)
  }

  lemma {:induction false} HitsSplit(bytes: seq<byte>, needles: seq<seq<byte>>, lo: nat, mid: nat, hi: nat, end: nat)
    requires lo <= mid <= hi
    ensures AllHits(bytes, needles, lo, hi, end) == AllHits(bytes, needles, mid, hi, end) + AllHits(bytes, needles, lo, mid, end)
    decreases hi
  {
    if mid < hi { HitsSplit(bytes, needles, lo, mid, hi - 1, end); }
  }

  ghost predicate SortedDown(xs: seq<nat>) {
    forall i, j :: 0 <= i < j < |xs| ==> xs[i] >= xs[j]
  }

  /** How often `x` stands in a list. */
  function Times(xs: seq<nat>, x: nat): (n: nat) {
    if xs == [] then 0 else (if xs[0] == x then 1 else 0) + Times(xs[1..], x)
  }

  lemma {:induction false} TimesConcat(a: seq<nat>, b: seq<nat>, x: nat)
    ensures Times(a + b, x) == Times(a, x) + Times(b, x)
  {
    if a == [] {
      assert a + b == b;
    } else {
      TimesConcat(a[1..], b, x);
      assert (a + b)[1..] == a[1..] + b;
    }
  }

  lemma {:induction false} TimesSome(xs: seq<nat>, x: nat)
    ensures Times(xs, x) > 0 <==> x in xs
  {
    if xs != [] {
      TimesSome(xs[1..], x);
      assert xs == [xs[0]] + xs[1..];
    }
  }

  lemma {:induction false} CopiesCount(o: nat, count: nat, x: nat)
    ensures Times(Copies(o, count), x) == if x == o then count else 0
  {
    if count > 0 {
      CopiesCount(o, count - 1, x);
      assert Copies(o, count)[1..] == Copies(o, count - 1);
    }
  }

  lemma {:induction false} HitsCount(bytes: seq<byte>, needles: seq<seq<byte>>, lo: nat, hi: nat, end: nat, x: nat)
    ensures Times(AllHits(bytes, needles, lo, hi, end), x) == if lo <= x < hi then CountAt(bytes, needles, x, end) else 0
    decreases hi
  {
    if lo < hi {
      var count := CountAt(bytes, needles, hi - 1, end);
      HitsCount(bytes, needles, lo, hi - 1, end, x);
      CopiesCount(hi - 1, count, x);
      TimesConcat(Copies(hi - 1, count), AllHits(bytes, needles, lo, hi - 1, end), x);
    }
  }

  lemma {:induction false} HitsSorted(bytes: seq<byte>, needles: seq<seq<byte>>, lo: nat, hi: nat, end: nat)
    ensures SortedDown(AllHits(bytes, needles, lo, hi, end))
    ensures forall i :: 0 <= i < |AllHits(bytes, needles, lo, hi, end)| ==> lo <= AllHits(bytes, needles, lo, hi, end)[i] < hi
    decreases hi
  {
    if lo < hi { HitsSorted(bytes, needles, lo, hi - 1, end); }
  }

  ghost predicate SameTimes(a: seq<nat>, b: seq<nat>) {
    forall x: nat :: Times(a, x) == Times(b, x)
  }

  lemma {:induction false} HeadsMeet(a: seq<nat>, b: seq<nat>)
    requires SortedDown(a) && SortedDown(b) && SameTimes(a, b) && a != []
    ensures b != [] && a[0] <= b[0]
  {
    TimesSome(a, a[0]);
    TimesSome(b, a[0]);
    assert Times(a, a[0]) == Times(b, a[0]);
    var i :| 0 <= i < |b| && b[i] == a[0];
    assert i > 0 ==> b[0] >= b[i];
  }

  lemma {:induction false} SortedUnique(a: seq<nat>, b: seq<nat>)
    requires SortedDown(a) && SortedDown(b) && SameTimes(a, b)
    ensures a == b
  {
    if a != [] {
      HeadsMeet(a, b);
      HeadsMeet(b, a);
      forall x: nat ensures Times(a[1..], x) == Times(b[1..], x) { assert Times(a, x) == Times(b, x); }
      SortedUnique(a[1..], b[1..]);
      assert a == [a[0]] + a[1..] && b == [b[0]] + b[1..];
    } else if b != [] {
      HeadsMeet(b, a);
    }
  }

  // --- One block ---

  function NextOccurrence(buffer: seq<byte>, needle: seq<byte>, from: nat): (at: Option<nat>)
    decreases |buffer| - from
  {
    if from + |needle| > |buffer| then None
    else if Occurs(buffer, needle, from, |buffer|) then Some(from)
    else if from >= |buffer| then None
    else NextOccurrence(buffer, needle, from + 1)
  }

  lemma {:induction false} NextOccurrenceIs(buffer: seq<byte>, needle: seq<byte>, from: nat)
    ensures var at := NextOccurrence(buffer, needle, from);
            && (at.None? ==> forall i :: i >= from ==> !Occurs(buffer, needle, i, |buffer|))
            && (at.Some? ==>
                  && at.value >= from && Occurs(buffer, needle, at.value, |buffer|)
                  && (forall i :: from <= i < at.value ==> !Occurs(buffer, needle, i, |buffer|)))
    decreases |buffer| - from
  {
    if from + |needle| <= |buffer| && !Occurs(buffer, needle, from, |buffer|) && from < |buffer| {
      NextOccurrenceIs(buffer, needle, from + 1);
    }
  }

  /** `memmem::find_iter`: occurrences from the left, each search going on behind the last match. */
  method FindIter(buffer: seq<byte>, needle: seq<byte>) returns (found: seq<nat>)
    requires GoodNeedle(needle)
    ensures FoundAll(found, buffer, needle, |buffer| + 1)
  {
    found := [];
    var from := 0;
    while true
      invariant FoundAll(found, buffer, needle, from)
      decreases |buffer| + 1 - from
    {
      NextOccurrenceIs(buffer, needle, from);
      var at := NextOccurrence(buffer, needle, from);
      if at.None? {
        FoundMore(found, found, buffer, needle, from, |buffer| + 1);
        return;
      }
      forall x: nat | at.value < x < at.value + |needle| ensures !Occurs(buffer, needle, x, |buffer|) {
        NoOverlap(buffer, needle, at.value, x);
      }
      FoundOne(found, buffer, needle, from, at.value);
      found, from := found + [at.value], at.value + |needle|;
    }
  }

  /** `found` holds every occurrence that starts before `from`, once. */
  ghost predicate FoundAll(found: seq<nat>, buffer: seq<byte>, needle: seq<byte>, from: nat) {
    forall x: nat :: Times(found, x) == if x < from && Occurs(buffer, needle, x, |buffer|) then 1 else 0
  }

  lemma {:induction false} FoundMore(found: seq<nat>, more: seq<nat>, buffer: seq<byte>, needle: seq<byte>, from: nat, to: nat)
    requires FoundAll(found, buffer, needle, from) && forall x: nat :: x >= from ==> !Occurs(buffer, needle, x, |buffer|)
    requires needle != [] && to == |buffer| + 1 && more == found
    ensures FoundAll(more, buffer, needle, to)
  {
    forall x: nat ensures Times(more, x) == if x < to && Occurs(buffer, needle, x, |buffer|) then 1 else 0 {
      assert Times(found, x) == if x < from && Occurs(buffer, needle, x, |buffer|) then 1 else 0;
    }
  }

  lemma {:induction false} FoundOne(found: seq<nat>, buffer: seq<byte>, needle: seq<byte>, from: nat, at: nat)
    requires FoundAll(found, buffer, needle, from) && from <= at && Occurs(buffer, needle, at, |buffer|)
    requires forall x: nat :: from <= x < at + |needle| && x != at ==> !Occurs(buffer, needle, x, |buffer|)
    requires needle != []
    ensures FoundAll(found + [at], buffer, needle, at + |needle|)
  {
    forall x: nat ensures Times(found + [at], x) == if x < at + |needle| && Occurs(buffer, needle, x, |buffer|) then 1 else 0 {
      TimesConcat(found, [at], x);
      assert Times([at], x) == if x == at then 1 else 0;
    }
  }

  lemma {:induction false} Shift(buffer: seq<byte>, needle: seq<byte>, o: nat, x: nat)
    requires Occurs(buffer, needle, o, |buffer|) && Occurs(buffer, needle, x, |buffer|) && o < x < o + |needle|
    ensures needle[x - o..] == needle[..|needle| - (x - o)]
  {
    assert needle[x - o..] == buffer[x..o + |needle|];
    assert needle[..|needle| - (x - o)] == buffer[x..o + |needle|];
  }

  lemma {:induction false} NoOverlap(buffer: seq<byte>, needle: seq<byte>, o: nat, x: nat)
    requires GoodNeedle(needle) && Occurs(buffer, needle, o, |buffer|) && o < x < o + |needle|
    ensures !Occurs(buffer, needle, x, |buffer|)
  {
    if Occurs(buffer, needle, x, |buffer|) { Shift(buffer, needle, o, x); }
  }

  /** The longest needle, less one byte: how far a block reads into the next. */
  function Overlap(needles: seq<seq<byte>>): (overlap: nat)
    ensures forall n :: 0 <= n < |needles| ==> |needles[n]| <= overlap + 1
  {
    if needles == [] then 0
    else
      var rest := Overlap(needles[..|needles| - 1]);
      if |needles[|needles| - 1]| > rest + 1 then |needles[|needles| - 1]| - 1 else rest
  }

  /** Matches in file offsets, without those in the part read ahead. */
  function Kept(found: seq<nat>, core: nat, position: nat): (kept: seq<nat>) {
    if found == [] then []
    else
      (if core + found[0] < position then [core + found[0]] else []) + Kept(found[1..], core, position)
  }

  lemma {:induction false} KeptCount(found: seq<nat>, core: nat, position: nat, x: nat)
    ensures Times(Kept(found, core, position), x) == if core <= x < position then Times(found, x - core) else 0
  {
    if found != [] {
      var first, rest := core + found[0], Kept(found[1..], core, position);
      KeptCount(found[1..], core, position, x);
      if first < position {
        assert ([first] + rest)[1..] == rest;
      } else {
        assert [] + rest == rest;
      }
    }
  }

  /** Each offset of the core is matched as often as needles occur there. */
  ghost predicate Counted(matches: seq<nat>, file: seq<byte>, needles: seq<seq<byte>>, core: nat, position: nat, searchEnd: nat) {
    forall x: nat :: Times(matches, x) == if core <= x < position then CountAt(file, needles, x, searchEnd) else 0
  }

  /** A block sees an occurrence that starts in it exactly as the file has it. */
  lemma {:induction false} InBlock(file: seq<byte>, needle: seq<byte>, core: nat, readEnd: nat, x: nat, searchEnd: nat)
    requires core <= x && core <= readEnd <= searchEnd <= |file| && (x + |needle| <= readEnd || readEnd == searchEnd)
    ensures Occurs(file[core..readEnd], needle, x - core, readEnd - core) <==> Occurs(file, needle, x, searchEnd)
  {
    if x + |needle| <= readEnd {
      var part, whole := file[core..readEnd][x - core..x - core + |needle|], file[x..x + |needle|];
      forall i | 0 <= i < |needle| ensures part[i] == whole[i] { assert file[core..readEnd][x - core + i] == file[x + i]; }
      assert part == whole;
    }
  }

  lemma {:induction false} CountedStep(matches: seq<nat>, found: seq<nat>, file: seq<byte>,
          needles: seq<seq<byte>>, n: nat, core: nat, position: nat, readEnd: nat, searchEnd: nat)
    requires n < |needles| && core < position <= searchEnd <= |file| && readEnd == Min(searchEnd, position + Overlap(needles))
    requires Counted(matches, file, needles[..n], core, position, searchEnd) && FoundAll(found, file[core..readEnd], needles[n], readEnd - core + 1)
    ensures Counted(matches + Kept(found, core, position), file, needles[..n + 1], core, position, searchEnd)
  {
    var kept := Kept(found, core, position);
    assert needles[..n + 1][..n] == needles[..n];
    forall x: nat ensures Times(matches + kept, x) == if core <= x < position then CountAt(file, needles[..n + 1], x, searchEnd) else 0 {
      TimesConcat(matches, kept, x);
      KeptCount(found, core, position, x);
      if core <= x < position {
        InBlock(file, needles[n], core, readEnd, x, searchEnd);
        assert Times(found, x - core) == if Occurs(file[core..readEnd], needles[n], x - core, readEnd - core) then 1 else 0;
      }
    }
  }

  /** The matches of one block, in file offsets, kept to those that start in the block's core. */
  method BlockMatches(file: seq<byte>, needles: seq<seq<byte>>, core: nat, position: nat, searchEnd: nat)
    returns (hits: seq<nat>)
    requires WellChosen(needles) && core < position <= searchEnd <= |file|
    ensures hits == AllHits(file, needles, core, position, searchEnd)
  {
    var readEnd := Min(searchEnd, position + Overlap(needles));
    var buffer := file[core..readEnd];
    var matches: seq<nat> := [];
    var n := 0;
    CountedNone(file, needles, core, position, searchEnd);
    while n < |needles|
      invariant 0 <= n <= |needles| && Counted(matches, file, needles[..n], core, position, searchEnd)
    {
      assert GoodNeedle(needles[n]);
      var found := FindIter(buffer, needles[n]);
      CountedStep(matches, found, file, needles, n, core, position, readEnd, searchEnd);
      matches := matches + Kept(found, core, position);
      n := n + 1;
    }
    assert needles[..n] == needles;
    hits := SortDescending(matches);
    SortedHits(matches, hits, file, needles, core, position, searchEnd);
  }

  lemma {:induction false} CountedNone(file: seq<byte>, needles: seq<seq<byte>>, core: nat, position: nat, searchEnd: nat)
    ensures Counted([], file, needles[..0], core, position, searchEnd)
  {
  }

  lemma {:induction false} SortedHits(matches: seq<nat>, hits: seq<nat>, file: seq<byte>,
          needles: seq<seq<byte>>, core: nat, position: nat, searchEnd: nat)
    requires Counted(matches, file, needles, core, position, searchEnd) && SortedDown(hits) && SameTimes(hits, matches)
    ensures hits == AllHits(file, needles, core, position, searchEnd)
  {
    var all := AllHits(file, needles, core, position, searchEnd);
    forall x: nat ensures Times(hits, x) == Times(all, x) {
      HitsCount(file, needles, core, position, searchEnd, x);
      assert Times(hits, x) == Times(matches, x);
    }
    HitsSorted(file, needles, core, position, searchEnd);
    SortedUnique(hits, all);
  }

  method InsertDescending(sorted: seq<nat>, x: nat) returns (longer: seq<nat>)
    requires SortedDown(sorted)
    ensures SortedDown(longer) && SameTimes(longer, sorted + [x])
  {
    var k := 0;
    while k < |sorted| && sorted[k] >= x
      invariant 0 <= k <= |sorted| && forall m :: 0 <= m < k ==> sorted[m] >= x
    {
      k := k + 1;
    }
    longer := sorted[..k] + [x] + sorted[k..];
    forall y: nat ensures Times(longer, y) == Times(sorted + [x], y) { InsertTimes(sorted, k, x, y); }
  }

  lemma {:induction false} InsertTimes(sorted: seq<nat>, k: nat, x: nat, y: nat)
    requires k <= |sorted|
    ensures Times(sorted[..k] + [x] + sorted[k..], y) == Times(sorted + [x], y)
  {
    assert sorted == sorted[..k] + sorted[k..];
    TimesConcat(sorted[..k], sorted[k..], y);
    TimesConcat(sorted, [x], y);
    TimesConcat(sorted[..k], [x], y);
    TimesConcat(sorted[..k] + [x], sorted[k..], y);
  }

  /** The library sort, newest first. */
  method SortDescending(xs: seq<nat>) returns (sorted: seq<nat>)
    ensures SortedDown(sorted) && SameTimes(sorted, xs)
  {
    sorted := [];
    var i := 0;
    while i < |xs|
      invariant 0 <= i <= |xs| && SortedDown(sorted) && SameTimes(sorted, xs[..i])
    {
      ghost var before := sorted;
      sorted := InsertDescending(sorted, xs[i]);
      SnocTimes(before, sorted, xs, i);
      i := i + 1;
    }
    assert xs[..i] == xs;
  }

  lemma {:induction false} SnocTimes(before: seq<nat>, sorted: seq<nat>, xs: seq<nat>, i: nat)
    requires i < |xs| && SameTimes(before, xs[..i]) && SameTimes(sorted, before + [xs[i]])
    ensures SameTimes(sorted, xs[..i + 1])
  {
    assert xs[..i + 1] == xs[..i] + [xs[i]];
    forall y: nat ensures Times(sorted, y) == Times(xs[..i + 1], y) {
      assert Times(before, y) == Times(xs[..i], y);
      TimesConcat(before, [xs[i]], y);
      TimesConcat(xs[..i], [xs[i]], y);
    }
  }

  // --- From hits to lines ---

  /** The line a hit lies in, as a record. */
  function LineAt(file: seq<byte>, o: nat, searchEnd: nat, provider: Provider): (r: Record)
    requires o <= searchEnd <= |file|
  {
    LineBaseIs(file, o);
    LineStopIs(file, o, searchEnd);
    LineRecord(file, LineBase(file, o), LineStop(file, o, searchEnd), provider)
  }

  /** What the hits make the scan do: each is looked up as a line, and a line before `stop` is passed over. */
  function WalkHits<S>(file: seq<byte>, hits: seq<nat>, searchEnd: nat, stop: nat, provider: Provider, state: S,
          visit: (S, Record) -> (S, bool)): (w: Walked<S>)
    requires searchEnd <= |file| && forall i :: 0 <= i < |hits| ==> hits[i] <= searchEnd
    decreases |hits|
  {
    if hits == [] then Through(state)
    else
      var w := WalkLine(LineAt(file, hits[0], searchEnd, provider), stop, state, visit);
      if w.Through? then WalkHits(file, hits[1..], searchEnd, stop, provider, w.state, visit) else w
  }

  function WalkLine<S>(r: Record, stop: nat, state: S, visit: (S, Record) -> (S, bool)): (w: Walked<S>) {
    if r.start < stop then Through(state)
    else if r.mark.Broken? then Blocked(r.start)
    else if !IsBoundary(r) then Through(state)
    else
      var (next, more) := visit(state, r);
      if more then Through(next) else Stopped(next)
  }

  lemma {:induction false} WalkHitsConcat<S>(file: seq<byte>, a: seq<nat>, b: seq<nat>, searchEnd: nat, stop: nat,
          provider: Provider, state: S, visit: (S, Record) -> (S, bool))
    requires searchEnd <= |file| && (forall i :: 0 <= i < |a| ==> a[i] <= searchEnd) && (forall i :: 0 <= i < |b| ==> b[i] <= searchEnd)
    ensures var w := WalkHits(file, a, searchEnd, stop, provider, state, visit);
            WalkHits(file, a + b, searchEnd, stop, provider, state, visit)
            == if w.Through? then WalkHits(file, b, searchEnd, stop, provider, w.state, visit) else w
    decreases |a|
  {
    if a == [] {
      assert a + b == b;
    } else {
      assert (a + b)[1..] == a[1..] + b;
      var w := WalkLine(LineAt(file, a[0], searchEnd, provider), stop, state, visit);
      if w.Through? { WalkHitsConcat(file, a[1..], b, searchEnd, stop, provider, w.state, visit); }
    }
  }

  /** Byte `o` lies in the line `s..e`. */
  lemma {:induction false} InLine(file: seq<byte>, s: nat, e: nat, o: nat, searchEnd: nat)
    requires s <= o < e <= searchEnd <= |file| && s == LineBase(file, e - 1) && file[e - 1] == NEWLINE
    ensures LineBase(file, o) == s && LineStop(file, o, searchEnd) == e
  {
    LineBaseIs(file, e - 1);
    SameBase(file, s, o);
    SameBase(file, s, e - 1);
    SameStop(file, o, e - 1, searchEnd);
  }

  /** The hits of one line do together what the line does once. */
  lemma {:induction false} WalkOfLine<S>(file: seq<byte>, s: nat, e: nat, hits: seq<nat>, searchEnd: nat,
          stop: nat, provider: Provider, state: S, visit: (S, Record) -> (S, bool))
    requires s < e <= searchEnd <= |file| && s == LineBase(file, e - 1) && file[e - 1] == NEWLINE
    requires forall i :: 0 <= i < |hits| ==> s <= hits[i] < e
    ensures var r := LineRecord(file, s, e, provider);
            && (s < stop || (!r.mark.Broken? && !IsBoundary(r)) ==> WalkHits(file, hits, searchEnd, stop, provider, state, visit) == Through(state))
            && (s >= stop && r.mark.Broken? && hits != [] ==> WalkHits(file, hits, searchEnd, stop, provider, state, visit) == Blocked(s))
            && (|hits| == 1 ==> WalkHits(file, hits, searchEnd, stop, provider, state, visit) == WalkLine(r, stop, state, visit))
    decreases |hits|
  {
    if hits != [] {
      InLine(file, s, e, hits[0], searchEnd);
      WalkOfLine(file, s, e, hits[1..], searchEnd, stop, provider, state, visit);
    }
  }

  lemma {:induction false} SliceOfSlice(file: seq<byte>, s: nat, e: nat, o: nat, n: nat)
    requires s <= e <= |file| && o + n <= e - s
    ensures file[s..e][o..o + n] == file[s + o..s + o + n]
  {
    var a, b := file[s..e][o..o + n], file[s + o..s + o + n];
    assert |a| == |b| == n;
    forall i | 0 <= i < n ensures a[i] == b[i] { assert a[i] == file[s..e][o + i] == file[s + (o + i)] == file[s + o + i] == b[i]; }
  }

  /** A line that was parsed at all holds a needle, and so has a hit. */
  lemma {:induction false} NeedleHits(file: seq<byte>, needles: seq<seq<byte>>, s: nat, e: nat, searchEnd: nat)
    requires s < e <= searchEnd <= |file| && HasNeedle(file[s..e], needles) && forall n :: 0 <= n < |needles| ==> needles[n] != []
    ensures AllHits(file, needles, s, e, searchEnd) != []
  {
    var line := file[s..e];
    var n, o :| 0 <= n < |needles| && 0 <= o <= |line| && Occurs(line, needles[n], o, |line|);
    var needle := needles[n];
    SliceOfSlice(file, s, e, o, |needle|);
    CountHits(file, needles, n, s + o, searchEnd);
    HitsSplit(file, needles, s, s + o, e, searchEnd);
    HitsSplit(file, needles, s + o, s + o + 1, e, searchEnd);
    HitsAtByte(file, needles, s + o, searchEnd);
  }

  lemma {:induction false} HitsAtByte(file: seq<byte>, needles: seq<seq<byte>>, o: nat, end: nat)
    requires CountAt(file, needles, o, end) > 0
    ensures |AllHits(file, needles, o, o + 1, end)| > 0
  {
    assert |Copies(o, CountAt(file, needles, o, end))| > 0;
  }

  lemma {:induction false} CountHits(file: seq<byte>, needles: seq<seq<byte>>, n: nat, o: nat, end: nat)
    requires n < |needles| && Occurs(file, needles[n], o, end)
    ensures CountAt(file, needles, o, end) > 0
  {
    if n < |needles| - 1 { CountHits(file, needles[..|needles| - 1], n, o, end); }
  }

  /** A boundary line holds exactly one needle occurrence. */
  ghost predicate OneHitPerBoundary(file: seq<byte>, log: seq<Record>, searchEnd: nat, provider: Provider) {
    forall k :: 0 <= k < |log| && IsBoundary(log[k]) ==> HitOnce(file, log[k], searchEnd, provider)
  }

  ghost predicate HitOnce(file: seq<byte>, r: Record, searchEnd: nat, provider: Provider) {
    |AllHits(file, provider.needles, r.start, r.end, searchEnd)| == 1
  }

  /** How many records start before byte `stop`. */
  function StartsBefore(log: seq<Record>, stop: nat): (count: nat)
    ensures count <= |log|
  {
    if log == [] then 0
    else if log[|log| - 1].start < stop then |log|
    else StartsBefore(log[..|log| - 1], stop)
  }

  lemma {:induction false} WalkPrefix<S>(log: seq<Record>, n: nat, lo: nat, hi: nat, state: S, visit: (S, Record) -> (S, bool))
    requires lo <= hi <= n <= |log|
    ensures Walk(log[..n], lo, hi, state, visit) == Walk(log, lo, hi, state, visit)
    decreases hi
  {
    if lo < hi {
      var r := log[hi - 1];
      if !r.mark.Broken? {
        if !IsBoundary(r) { WalkPrefix(log, n, lo, hi - 1, state, visit); }
        else if visit(state, r).1 { WalkPrefix(log, n, lo, hi - 1, visit(state, r).0, visit); }
      }
    }
  }

  predicate LineEnd(file: seq<byte>, e: nat)
    requires e <= |file|
  {
    e == 0 || file[e - 1] == NEWLINE
  }

  /** The walk over all records that start at `stop` or later. */
  function WalkFrom<S>(log: seq<Record>, stop: nat, state: S, visit: (S, Record) -> (S, bool)): (w: Walked<S>) {
    Walk(log, StartsBefore(log, stop), |log|, state, visit)
  }

  /**
   Going through the hits down to `stop` is walking the records that start there or later: each
   boundary line is visited once, newest first, and an unreadable line stops the scan when it is met.
   */
  lemma {:induction false} HitsWalkLines<S>(file: seq<byte>, e: nat, searchEnd: nat, stop: nat, provider: Provider,
          state: S, visit: (S, Record) -> (S, bool))
    requires e <= searchEnd <= |file| && LineEnd(file, e) && WellChosen(provider.needles)
    requires OneHitPerBoundary(file, RecordsOf(file, e, provider), searchEnd, provider)
    ensures var hits := AllHits(file, provider.needles, stop, e, searchEnd);
            && (forall i :: 0 <= i < |hits| ==> hits[i] <= searchEnd)
            && WalkHits(file, hits, searchEnd, stop, provider, state, visit) == WalkFrom(RecordsOf(file, e, provider), stop, state, visit)
    decreases e, 1
  {
    HitsSorted(file, provider.needles, stop, e, searchEnd);
    if e == 0 { return; }
    LineBaseIs(file, e - 1);
    var s := LineBase(file, e - 1);
    var before, r := RecordsOf(file, s, provider), LineRecord(file, s, e, provider);
    var log := RecordsOf(file, e, provider);
    RecordsTile(file, e, provider);
    assert log == before + [r] && log[..|before|] == before;
    if s < stop {
      if stop < e { WalkOfLine(file, s, e, AllHits(file, provider.needles, stop, e, searchEnd), searchEnd, stop, provider, state, visit); }
    } else {
      HitsStep(file, s, e, searchEnd, stop, provider, before, r, state, visit);
    }
  }

  /** One more line on top of the log. */
  lemma {:induction false} WalkSnoc<S>(before: seq<Record>, r: Record, stop: nat, state: S, visit: (S, Record) -> (S, bool))
    requires r.start >= stop
    ensures var w := WalkLine(r, stop, state, visit);
            WalkFrom(before + [r], stop, state, visit) == if w.Through? then WalkFrom(before, stop, w.state, visit) else w
  {
    var log := before + [r];
    assert log[..|before|] == before;
    var w := WalkLine(r, stop, state, visit);
    if w.Through? { WalkPrefix(log, |before|, StartsBefore(before, stop), |before|, w.state, visit); }
  }

  lemma {:induction false} HitOnceBefore(file: seq<byte>, before: seq<Record>, r: Record, searchEnd: nat, provider: Provider)
    requires OneHitPerBoundary(file, before + [r], searchEnd, provider)
    ensures OneHitPerBoundary(file, before, searchEnd, provider) && (IsBoundary(r) ==> HitOnce(file, r, searchEnd, provider))
  {
    var log := before + [r];
    forall k | 0 <= k < |before| && IsBoundary(before[k]) ensures HitOnce(file, before[k], searchEnd, provider) { assert log[k] == before[k]; }
    assert log[|before|] == r;
  }

  lemma {:induction false} LineWalks<S>(file: seq<byte>, s: nat, e: nat, searchEnd: nat, stop: nat, provider: Provider,
          state: S, visit: (S, Record) -> (S, bool))
    requires stop <= s < e <= searchEnd <= |file| && file[e - 1] == NEWLINE && s == LineBase(file, e - 1) && WellChosen(provider.needles)
    requires IsBoundary(LineRecord(file, s, e, provider)) ==> HitOnce(file, LineRecord(file, s, e, provider), searchEnd, provider)
    ensures var r, mine := LineRecord(file, s, e, provider), AllHits(file, provider.needles, s, e, searchEnd);
            && (forall i :: 0 <= i < |mine| ==> mine[i] <= searchEnd)
            && WalkHits(file, mine, searchEnd, stop, provider, state, visit) == WalkLine(r, stop, state, visit)
  {
    HitsSorted(file, provider.needles, s, e, searchEnd);
    WalkOfLine(file, s, e, AllHits(file, provider.needles, s, e, searchEnd), searchEnd, stop, provider, state, visit);
    if LineRecord(file, s, e, provider).mark.Broken? {
      forall n | 0 <= n < |provider.needles| ensures provider.needles[n] != [] { assert GoodNeedle(provider.needles[n]); }
      NeedleHits(file, provider.needles, s, e, searchEnd);
    }
  }

  /** The hits of the newest line come first. */
  lemma {:induction false} LineFirst<S>(file: seq<byte>, s: nat, e: nat, searchEnd: nat, stop: nat, provider: Provider,
          state: S, visit: (S, Record) -> (S, bool))
    requires stop <= s < e <= searchEnd <= |file| && file[e - 1] == NEWLINE && s == LineBase(file, e - 1) && WellChosen(provider.needles)
    requires IsBoundary(LineRecord(file, s, e, provider)) ==> HitOnce(file, LineRecord(file, s, e, provider), searchEnd, provider)
    ensures var hits, older := AllHits(file, provider.needles, stop, e, searchEnd), AllHits(file, provider.needles, stop, s, searchEnd);
            var w := WalkLine(LineRecord(file, s, e, provider), stop, state, visit);
            && (forall i :: 0 <= i < |hits| ==> hits[i] <= searchEnd) && (forall i :: 0 <= i < |older| ==> older[i] <= searchEnd)
            && WalkHits(file, hits, searchEnd, stop, provider, state, visit)
            == if w.Through? then WalkHits(file, older, searchEnd, stop, provider, w.state, visit) else w
  {
    var mine, older := AllHits(file, provider.needles, s, e, searchEnd), AllHits(file, provider.needles, stop, s, searchEnd);
    HitsSplit(file, provider.needles, stop, s, e, searchEnd);
    LineWalks(file, s, e, searchEnd, stop, provider, state, visit);
    HitsSorted(file, provider.needles, stop, s, searchEnd);
    WalkHitsConcat(file, mine, older, searchEnd, stop, provider, state, visit);
  }

  lemma {:induction false} HitsStep<S>(file: seq<byte>, s: nat, e: nat, searchEnd: nat, stop: nat,
          provider: Provider, before: seq<Record>, r: Record, state: S, visit: (S, Record) -> (S, bool))
    requires stop <= s < e <= searchEnd <= |file| && file[e - 1] == NEWLINE && s == LineBase(file, e - 1) && WellChosen(provider.needles)
    requires LineEnd(file, s) && before == RecordsOf(file, s, provider) && r == LineRecord(file, s, e, provider)
    requires OneHitPerBoundary(file, before + [r], searchEnd, provider)
    ensures var hits := AllHits(file, provider.needles, stop, e, searchEnd);
            && (forall i :: 0 <= i < |hits| ==> hits[i] <= searchEnd)
            && WalkHits(file, hits, searchEnd, stop, provider, state, visit) == WalkFrom(before + [r], stop, state, visit)
    decreases e, 0
  {
    HitOnceBefore(file, before, r, searchEnd, provider);
    LineFirst(file, s, e, searchEnd, stop, provider, state, visit);
    WalkSnoc(before, r, stop, state, visit);
    var w := WalkLine(r, stop, state, visit);
    if w.Through? { HitsWalkLines(file, s, searchEnd, stop, provider, w.state, visit); }
  }

  /** Record `j` is the newest unreadable one from `stop` on, and the callback still goes on when the walk gets there. */
  ghost predicate BlocksFrom<S>(log: seq<Record>, stop: nat, j: nat, state: S, visit: (S, Record) -> (S, bool)) {
    BlocksWalk(log, StartsBefore(log, stop), j, |log|, state, visit)
  }

  /**
   The callback has consumed the boundaries from `stop` on, unless an unreadable record blocks the
   walk; then that one is reported.
   */
  ghost predicate Walks<S>(log: seq<Record>, stop: nat, init: S, visit: (S, Record) -> (S, bool), r: Visited<S>) {
    && (r.Finished? ==> r.state == ConsumeRecords(Boundaries(log, StartsBefore(log, stop), |log|), init, visit).0)
    && (r.Unreadable? <==> exists j: nat :: BlocksFrom(log, stop, j, init, visit))
    && (r.Unreadable? ==> exists j: nat :: BlocksFrom(log, stop, j, init, visit) && log[j].start == r.offset)
  }

  lemma {:induction false} WalkFromExactly<S>(log: seq<Record>, stop: nat, init: S, visit: (S, Record) -> (S, bool))
    ensures Walks(log, stop, init, visit, Ends(WalkFrom(log, stop, init, visit)))
  {
    var lo, w := StartsBefore(log, stop), WalkFrom(log, stop, init, visit);
    WalkExactly(log, lo, |log|, init, visit);
    if w.Blocked? {
      var j: nat :| BlocksWalk(log, lo, j, |log|, init, visit) && log[j].start == w.offset;
      assert BlocksFrom(log, stop, j, init, visit);
    }
    forall j: nat | BlocksFrom(log, stop, j, init, visit) ensures w.Blocked? {
      assert BlocksWalk(log, lo, j, |log|, init, visit);
    }
  }

  // --- The scan ---

  /**
   `visit_boundaries_reverse`: for any block size it walks exactly the records of `stop..searchEnd`,
   each boundary once and newest first, until its callback stops it or a line is unreadable.
   */
  method VisitBoundariesInBlocks<S>(file: seq<byte>, searchEnd: nat, stop: nat, provider: Provider, block: nat,
          init: S, visit: (S, Record) -> (S, bool))
    returns (r: Visited<S>)
    requires searchEnd <= |file| && LineEnd(file, searchEnd) && block > 0 && WellChosen(provider.needles)
    requires OneHitPerBoundary(file, RecordsOf(file, searchEnd, provider), searchEnd, provider)
    ensures r == Ends(WalkFrom(RecordsOf(file, searchEnd, provider), stop, init, visit))
    ensures Walks(RecordsOf(file, searchEnd, provider), stop, init, visit, r)
  {
    ghost var log := RecordsOf(file, searchEnd, provider);
    var w := WalkBlocks(file, searchEnd, stop, provider, block, init, visit);
    WalkFromExactly(log, stop, init, visit);
    return Ends(w);
  }

  /** Its loop. */
  method WalkBlocks<S>(file: seq<byte>, searchEnd: nat, stop: nat, provider: Provider, block: nat,
          init: S, visit: (S, Record) -> (S, bool))
    returns (w: Walked<S>)
    requires searchEnd <= |file| && LineEnd(file, searchEnd) && block > 0 && WellChosen(provider.needles)
    requires OneHitPerBoundary(file, RecordsOf(file, searchEnd, provider), searchEnd, provider)
    ensures w == WalkFrom(RecordsOf(file, searchEnd, provider), stop, init, visit)
  {
    HitsWalkLines(file, searchEnd, searchEnd, stop, provider, init, visit);
    ghost var all := HitsIn(file, stop, searchEnd, searchEnd, provider);
    var state, position := init, searchEnd;
    while position > stop
      invariant position <= searchEnd && (position >= stop || position == searchEnd)
      invariant WalkHits(file, all, searchEnd, stop, provider, init, visit)
             == WalkHits(file, HitsIn(file, stop, position, searchEnd, provider), searchEnd, stop, provider, state, visit)
    {
      var core := if position >= block && position - block >= stop then position - block else stop;
      var hits := BlockMatches(file, provider.needles, core, position, searchEnd);
      HitsSplit(file, provider.needles, stop, core, position, searchEnd);
      HitsSorted(file, provider.needles, core, position, searchEnd);
      WalkHitsConcat(file, hits, HitsIn(file, stop, core, searchEnd, provider), searchEnd, stop, provider, state, visit);
      w := VisitHits(file, hits, searchEnd, stop, provider, state, visit);
      if !w.Through? { return; }
      state, position := w.state, core;
    }
    return Through(state);
  }

  ghost function HitsIn(file: seq<byte>, lo: nat, hi: nat, searchEnd: nat, provider: Provider): (hits: seq<nat>)
    requires hi <= searchEnd
    ensures forall i :: 0 <= i < |hits| ==> hits[i] < searchEnd
  {
    HitsSorted(file, provider.needles, lo, hi, searchEnd);
    AllHits(file, provider.needles, lo, hi, searchEnd)
  }

  /** The hits of one block. */
  method VisitHits<S>(file: seq<byte>, hits: seq<nat>, searchEnd: nat, stop: nat, provider: Provider, init: S,
          visit: (S, Record) -> (S, bool))
    returns (w: Walked<S>)
    requires searchEnd <= |file| && LineEnd(file, searchEnd) && forall i :: 0 <= i < |hits| ==> hits[i] < searchEnd
    ensures w == WalkHits(file, hits, searchEnd, stop, provider, init, visit)
  {
    var state, i := init, 0;
    assert hits[0..] == hits;
    while i < |hits|
      invariant 0 <= i <= |hits|
      invariant WalkHits(file, hits, searchEnd, stop, provider, init, visit) == WalkHits(file, hits[i..], searchEnd, stop, provider, state, visit)
    {
      var o := hits[i];
      assert hits[i..][1..] == hits[i + 1..];
      var start, line := ReadLineAt(file, o, searchEnd);
      var record := LineAt(file, o, searchEnd, provider);
      if start >= stop {
        if MarkOf(line, provider).Broken? { return Blocked(start); }
        if IsBoundary(record) {
          var (state', goOn) := visit(state, record);
          state := state';
          if !goOn { return Stopped(state); }
        }
      }
      i := i + 1;
    }
    return Through(state);
  }

  // --- From bytes to turns ---

  /**
   The reverse task visitor on the bytes of a file, block by block: its callback consumes the turns
   of the reverse scan over the file's records.
   */
  method VisitTaskTurnsInBlocks<S>(file: seq<byte>, searchEnd: nat, provider: Provider, block: nat, init: S,
          visit: (S, Turn) -> (S, bool))
    returns (r: Visited<S>)
    requires searchEnd <= |file| && searchEnd <= U64_MAX && LineEnd(file, searchEnd) && block > 0 && WellChosen(provider.needles)
    requires OneHitPerBoundary(file, RecordsOf(file, searchEnd, provider), searchEnd, provider)
    ensures var log := RecordsOf(file, searchEnd, provider);
            && (r.Finished? ==> r.state == Consume(RevTasks(log, 0, 0, None), init, visit).0)
            && (r.Unreadable? <==> exists j: nat :: BlocksTasks(log, j, init, visit))
            && (r.Unreadable? ==> exists j: nat :: BlocksTasks(log, j, init, visit) && log[j].start == r.offset)
  {
    ghost var log := RecordsOf(file, searchEnd, provider);
    RecordsTile(file, searchEnd, provider);
    RecordsFitTheFile(log);
    TaskWalk(log, init, visit);
    NoneStartsBefore(log);
    var visited := VisitBoundariesInBlocks(file, searchEnd, 0, provider, block, TaskStart(init), TaskVisit(visit));
    match visited
    case Finished(st) => return Finished(st.inner);
    case Unreadable(offset) => return Unreadable(offset);
  }

  lemma {:induction false} NoneStartsBefore(log: seq<Record>)
    ensures StartsBefore(log, 0) == 0
  {
    if log != [] { NoneStartsBefore(log[..|log| - 1]); }
  }

  // --- The timeline scan ---

  /** One match of the timeline scan: of a boundary needle, or of the needle of records that are turns by themselves. */
  datatype TimelineHit = TimelineHit(offset: nat, alone: bool)

  /** The matches of both kinds in one descending order. */
  function MergeHits(turns: seq<nat>, alone: seq<nat>): (hits: seq<TimelineHit>)
    decreases |turns| + |alone|
  {
    if turns == [] && alone == [] then []
    else if alone == [] || (turns != [] && turns[0] >= alone[0]) then [TimelineHit(turns[0], false)] + MergeHits(turns[1..], alone)
    else [TimelineHit(alone[0], true)] + MergeHits(turns, alone[1..])
  }

  ghost predicate HitsBetween(hits: seq<nat>, lo: nat, hi: nat) {
    forall i :: 0 <= i < |hits| ==> lo <= hits[i] < hi
  }

  ghost predicate TimelineBelow(hits: seq<TimelineHit>, hi: nat) {
    forall i :: 0 <= i < |hits| ==> hits[i].offset < hi
  }

  /** Matches behind a cut come before matches in front of it. */
  lemma {:induction false} MergeSplits(newTurns: seq<nat>, oldTurns: seq<nat>, newAlone: seq<nat>,
          oldAlone: seq<nat>, cut: nat, hi: nat)
    requires HitsBetween(newTurns, cut, hi) && HitsBetween(newAlone, cut, hi)
    requires (oldTurns != [] ==> oldTurns[0] < cut) && (oldAlone != [] ==> oldAlone[0] < cut)
    ensures MergeHits(newTurns + oldTurns, newAlone + oldAlone) == MergeHits(newTurns, newAlone) + MergeHits(oldTurns, oldAlone)
    decreases |newTurns| + |newAlone|
  {
    if newTurns == [] && newAlone == [] {
      assert newTurns + oldTurns == oldTurns && newAlone + oldAlone == oldAlone;
      assert [] + MergeHits(oldTurns, oldAlone) == MergeHits(oldTurns, oldAlone);
    } else if newAlone == [] || (newTurns != [] && newTurns[0] >= newAlone[0]) {
      TailBetween(newTurns, cut, hi);
      MergeSplits(newTurns[1..], oldTurns, newAlone, oldAlone, cut, hi);
      SplitAtTurn(newTurns, oldTurns, newAlone, oldAlone, cut);
    } else {
      TailBetween(newAlone, cut, hi);
      MergeSplits(newTurns, oldTurns, newAlone[1..], oldAlone, cut, hi);
      SplitAtAlone(newTurns, oldTurns, newAlone, oldAlone, cut);
    }
  }

  lemma {:induction false} SplitAtTurn(newTurns: seq<nat>, oldTurns: seq<nat>, newAlone: seq<nat>, oldAlone: seq<nat>, cut: nat)
    requires newTurns != [] && newTurns[0] >= cut && (newAlone == [] || newTurns[0] >= newAlone[0])
    requires oldAlone != [] ==> oldAlone[0] < cut
    requires MergeHits(newTurns[1..] + oldTurns, newAlone + oldAlone) == MergeHits(newTurns[1..], newAlone) + MergeHits(oldTurns, oldAlone)
    ensures MergeHits(newTurns + oldTurns, newAlone + oldAlone) == MergeHits(newTurns, newAlone) + MergeHits(oldTurns, oldAlone)
  {
    var turns := newTurns + oldTurns;
    assert turns[0] == newTurns[0] && turns[1..] == newTurns[1..] + oldTurns;
    HeadIs(newAlone, oldAlone);
    MergeTurn(turns, newAlone + oldAlone);
    MergeTurn(newTurns, newAlone);
    ConsConcat(TimelineHit(newTurns[0], false), MergeHits(newTurns[1..], newAlone), MergeHits(oldTurns, oldAlone));
  }

  lemma {:induction false} SplitAtAlone(newTurns: seq<nat>, oldTurns: seq<nat>, newAlone: seq<nat>,
          oldAlone: seq<nat>, cut: nat)
    requires newAlone != [] && newAlone[0] >= cut && (newTurns == [] || newTurns[0] < newAlone[0])
    requires oldTurns != [] ==> oldTurns[0] < cut
    requires MergeHits(newTurns + oldTurns, newAlone[1..] + oldAlone) == MergeHits(newTurns, newAlone[1..]) + MergeHits(oldTurns, oldAlone)
    ensures MergeHits(newTurns + oldTurns, newAlone + oldAlone) == MergeHits(newTurns, newAlone) + MergeHits(oldTurns, oldAlone)
  {
    var alone := newAlone + oldAlone;
    assert alone[0] == newAlone[0] && alone[1..] == newAlone[1..] + oldAlone;
    HeadIs(newTurns, oldTurns);
    MergeAlone(newTurns + oldTurns, alone);
    MergeAlone(newTurns, newAlone);
    ConsConcat(TimelineHit(newAlone[0], true), MergeHits(newTurns, newAlone[1..]), MergeHits(oldTurns, oldAlone));
  }

  lemma {:induction false} ConsConcat(h: TimelineHit, a: seq<TimelineHit>, b: seq<TimelineHit>)
    ensures [h] + (a + b) == [h] + a + b
  {
  }

  lemma {:induction false} TailBetween(hits: seq<nat>, lo: nat, hi: nat)
    requires HitsBetween(hits, lo, hi) && hits != []
    ensures HitsBetween(hits[1..], lo, hi) && lo <= hits[0] < hi
  {
  }

  lemma {:induction false} HeadIs(a: seq<nat>, b: seq<nat>)
    ensures a + b != [] ==> (a + b)[0] == if a != [] then a[0] else b[0]
  {
  }

  lemma {:induction false} MergeTurn(turns: seq<nat>, alone: seq<nat>)
    requires turns != [] && (alone == [] || turns[0] >= alone[0])
    ensures MergeHits(turns, alone) == [TimelineHit(turns[0], false)] + MergeHits(turns[1..], alone)
  {
  }

  lemma {:induction false} MergeAlone(turns: seq<nat>, alone: seq<nat>)
    requires alone != [] && (turns == [] || turns[0] < alone[0])
    ensures MergeHits(turns, alone) == [TimelineHit(alone[0], true)] + MergeHits(turns, alone[1..])
  {
  }

  /** What one match makes the scan do. */
  function WalkHit<S>(r: Record, alone: bool, state: S, visit: (S, Record) -> (S, bool)): (w: Walked<S>) {
    if !alone && r.mark.Broken? then Blocked(r.start)
    else if (if alone then r.standalone.Some? else IsBoundary(r)) then
      var (next, more) := visit(state, r);
      if more then Through(next) else Stopped(next)
    else Through(state)
  }

  function WalkTimelineHits<S>(file: seq<byte>, hits: seq<TimelineHit>, searchEnd: nat, provider: Provider, state: S,
          visit: (S, Record) -> (S, bool)): (w: Walked<S>)
    requires searchEnd <= |file| && TimelineBelow(hits, searchEnd)
    decreases |hits|
  {
    if hits == [] then Through(state)
    else
      var w := WalkHit(LineAt(file, hits[0].offset, searchEnd, provider), hits[0].alone, state, visit);
      if w.Through? then WalkTimelineHits(file, hits[1..], searchEnd, provider, w.state, visit) else w
  }

  lemma {:induction false} TimelineConcat<S>(file: seq<byte>, a: seq<TimelineHit>, b: seq<TimelineHit>, searchEnd: nat,
          provider: Provider, state: S, visit: (S, Record) -> (S, bool))
    requires searchEnd <= |file| && TimelineBelow(a, searchEnd) && TimelineBelow(b, searchEnd)
    ensures var w := WalkTimelineHits(file, a, searchEnd, provider, state, visit);
            TimelineBelow(a + b, searchEnd)
            && WalkTimelineHits(file, a + b, searchEnd, provider, state, visit)
            == if w.Through? then WalkTimelineHits(file, b, searchEnd, provider, w.state, visit) else w
    decreases |a|
  {
    if a == [] {
      assert a + b == b;
    } else {
      assert (a + b)[1..] == a[1..] + b;
      var w := WalkHit(LineAt(file, a[0].offset, searchEnd, provider), a[0].alone, state, visit);
      if w.Through? { TimelineConcat(file, a[1..], b, searchEnd, provider, w.state, visit); }
    }
  }

  /** The matches of one line, as far as the line is concerned. */
  function WalkLineHits<S>(r: Record, hits: seq<TimelineHit>, state: S, visit: (S, Record) -> (S, bool)): (w: Walked<S>)
    decreases |hits|
  {
    if hits == [] then Through(state)
    else
      var w := WalkHit(r, hits[0].alone, state, visit);
      if w.Through? then WalkLineHits(r, hits[1..], w.state, visit) else w
  }

  lemma {:induction false} HitsOfLine<S>(file: seq<byte>, s: nat, e: nat, hits: seq<TimelineHit>, searchEnd: nat,
          provider: Provider, state: S, visit: (S, Record) -> (S, bool))
    requires s < e <= searchEnd <= |file| && s == LineBase(file, e - 1) && file[e - 1] == NEWLINE
    requires forall i :: 0 <= i < |hits| ==> s <= hits[i].offset < e
    ensures TimelineBelow(hits, searchEnd)
    ensures WalkTimelineHits(file, hits, searchEnd, provider, state, visit)
         == WalkLineHits(LineRecord(file, s, e, provider), hits, state, visit)
    decreases |hits|
  {
    if hits != [] {
      InLine(file, s, e, hits[0].offset, searchEnd);
      var w := WalkHit(LineRecord(file, s, e, provider), hits[0].alone, state, visit);
      if w.Through? { HitsOfLine(file, s, e, hits[1..], searchEnd, provider, w.state, visit); }
    }
  }

  /** How many matches of a kind a line must have: exactly one if the kind makes it an event, at least one if it is unreadable. */
  ghost predicate HitRight(r: Record, turns: seq<nat>, alone: seq<nat>) {
    && (IsBoundary(r) ==> |turns| == 1)
    && (r.mark.Broken? ==> turns != [])
    && (r.standalone.Some? ==> |alone| == 1 && r.mark.Plain?)
  }

  /** In whatever order they come, the matches of one line do together what the line does once. */
  lemma {:induction false} LineOnce<S>(r: Record, turns: seq<nat>, alone: seq<nat>, state: S, visit: (S, Record) -> (S, bool))
    requires HitRight(r, turns, alone)
    ensures WalkLineHits(r, MergeHits(turns, alone), state, visit) == WalkEvent(r, state, visit)
    decreases |turns| + |alone|
  {
    if turns == [] && alone == [] {
    } else if alone == [] || (turns != [] && turns[0] >= alone[0]) {
      var rest := MergeHits(turns[1..], alone);
      assert MergeHits(turns, alone)[1..] == rest;
      if IsBoundary(r) { LineIdle(r, turns[1..], alone, WalkHit(r, false, state, visit), visit); }
      else if !r.mark.Broken? { LineOnce(r, turns[1..], alone, state, visit); }
    } else {
      var rest := MergeHits(turns, alone[1..]);
      assert MergeHits(turns, alone)[1..] == rest;
      if r.standalone.Some? { LineIdle(r, turns, alone[1..], WalkHit(r, true, state, visit), visit); }
      else { LineOnce(r, turns, alone[1..], state, visit); }
    }
  }

  /** Once the match that counts is done, the others of the line do nothing. */
  lemma {:induction false} LineIdle<S>(r: Record, turns: seq<nat>, alone: seq<nat>, w: Walked<S>,
          visit: (S, Record) -> (S, bool))
    requires !r.mark.Broken? && (IsBoundary(r) ==> turns == []) && (r.standalone.Some? ==> alone == [])
    ensures w.Through? ==> WalkLineHits(r, MergeHits(turns, alone), w.state, visit) == w
    decreases |turns| + |alone|
  {
    if turns == [] && alone == [] {
    } else if alone == [] || (turns != [] && turns[0] >= alone[0]) {
      assert MergeHits(turns, alone)[1..] == MergeHits(turns[1..], alone);
      LineIdle(r, turns[1..], alone, w, visit);
    } else {
      assert MergeHits(turns, alone)[1..] == MergeHits(turns, alone[1..]);
      LineIdle(r, turns, alone[1..], w, visit);
    }
  }

  /** The needles of one kind. */
  function AloneNeedles(provider: Provider): (needles: seq<seq<byte>>) {
    if provider.standaloneNeedle.Some? then [provider.standaloneNeedle.value] else []
  }

  /** All matches of both kinds in `lo..hi`. */
  function Timeline(file: seq<byte>, provider: Provider, lo: nat, hi: nat, searchEnd: nat): (hits: seq<TimelineHit>) {
    MergeHits(AllHits(file, provider.needles, lo, hi, searchEnd), AllHits(file, AloneNeedles(provider), lo, hi, searchEnd))
  }

  lemma {:induction false} MergedInLine(file: seq<byte>, provider: Provider, lo: nat, hi: nat, searchEnd: nat)
    ensures var hits := Timeline(file, provider, lo, hi, searchEnd);
            forall i :: 0 <= i < |hits| ==> lo <= hits[i].offset < hi
  {
    HitsSorted(file, provider.needles, lo, hi, searchEnd);
    HitsSorted(file, AloneNeedles(provider), lo, hi, searchEnd);
    MergeStaysIn(AllHits(file, provider.needles, lo, hi, searchEnd), AllHits(file, AloneNeedles(provider), lo, hi, searchEnd), lo, hi);
  }

  lemma {:induction false} MergeStaysIn(turns: seq<nat>, alone: seq<nat>, lo: nat, hi: nat)
    requires HitsBetween(turns, lo, hi) && HitsBetween(alone, lo, hi)
    ensures forall i :: 0 <= i < |MergeHits(turns, alone)| ==> lo <= MergeHits(turns, alone)[i].offset < hi
    decreases |turns| + |alone|
  {
    if turns == [] && alone == [] {
    } else if alone == [] || (turns != [] && turns[0] >= alone[0]) {
      MergeStaysIn(turns[1..], alone, lo, hi);
    } else {
      MergeStaysIn(turns, alone[1..], lo, hi);
    }
  }

  lemma {:induction false} TimelineIsBelow(file: seq<byte>, provider: Provider, lo: nat, hi: nat, searchEnd: nat)
    requires hi <= searchEnd
    ensures TimelineBelow(Timeline(file, provider, lo, hi, searchEnd), searchEnd)
  {
    MergedInLine(file, provider, lo, hi, searchEnd);
  }

  lemma {:induction false} TimelineSplits(file: seq<byte>, provider: Provider, lo: nat, mid: nat, hi: nat, searchEnd: nat)
    requires lo <= mid <= hi
    ensures Timeline(file, provider, lo, hi, searchEnd)
         == Timeline(file, provider, mid, hi, searchEnd) + Timeline(file, provider, lo, mid, searchEnd)
  {
    var needles, single := provider.needles, AloneNeedles(provider);
    HitsSplit(file, needles, lo, mid, hi, searchEnd);
    HitsSplit(file, single, lo, mid, hi, searchEnd);
    HitsSorted(file, needles, mid, hi, searchEnd);
    HitsSorted(file, needles, lo, mid, searchEnd);
    HitsSorted(file, single, mid, hi, searchEnd);
    HitsSorted(file, single, lo, mid, searchEnd);
    MergeSplits(AllHits(file, needles, mid, hi, searchEnd), AllHits(file, needles, lo, mid, searchEnd),
                AllHits(file, single, mid, hi, searchEnd), AllHits(file, single, lo, mid, searchEnd), mid, hi);
  }

  /** A boundary line holds one boundary needle, and a line that is a turn by itself holds its needle once and is no boundary. */
  ghost predicate OneHitPerEvent(file: seq<byte>, log: seq<Record>, searchEnd: nat, provider: Provider) {
    forall k :: 0 <= k < |log| ==> EventOnce(file, log[k], searchEnd, provider)
  }

  ghost predicate EventOnce(file: seq<byte>, r: Record, searchEnd: nat, provider: Provider) {
    && (IsBoundary(r) ==> HitOnce(file, r, searchEnd, provider))
    && (r.standalone.Some? ==> r.mark.Plain? && |AllHits(file, AloneNeedles(provider), r.start, r.end, searchEnd)| == 1)
  }

  lemma {:induction false} LineTimeline<S>(file: seq<byte>, s: nat, e: nat, searchEnd: nat, provider: Provider,
          state: S, visit: (S, Record) -> (S, bool))
    requires s < e <= searchEnd <= |file| && file[e - 1] == NEWLINE && s == LineBase(file, e - 1) && WellChosen(provider.needles)
    requires EventOnce(file, LineRecord(file, s, e, provider), searchEnd, provider)
    ensures TimelineBelow(Timeline(file, provider, s, e, searchEnd), searchEnd)
    ensures WalkTimelineHits(file, Timeline(file, provider, s, e, searchEnd), searchEnd, provider, state, visit)
         == WalkEvent(LineRecord(file, s, e, provider), state, visit)
  {
    var r, hits := LineRecord(file, s, e, provider), Timeline(file, provider, s, e, searchEnd);
    var turns, alone := AllHits(file, provider.needles, s, e, searchEnd), AllHits(file, AloneNeedles(provider), s, e, searchEnd);
    if r.mark.Broken? {
      forall n | 0 <= n < |provider.needles| ensures provider.needles[n] != [] { assert GoodNeedle(provider.needles[n]); }
      NeedleHits(file, provider.needles, s, e, searchEnd);
    }
    LineOnce(r, turns, alone, state, visit);
    MergedInLine(file, provider, s, e, searchEnd);
    HitsOfLine(file, s, e, hits, searchEnd, provider, state, visit);
  }

  /** The matches of the newest line come first. */
  lemma {:induction false} TimelineLine<S>(file: seq<byte>, s: nat, e: nat, searchEnd: nat, provider: Provider,
          state: S, visit: (S, Record) -> (S, bool))
    requires s < e <= searchEnd <= |file| && file[e - 1] == NEWLINE && s == LineBase(file, e - 1) && WellChosen(provider.needles)
    requires EventOnce(file, LineRecord(file, s, e, provider), searchEnd, provider)
    ensures TimelineBelow(Timeline(file, provider, 0, e, searchEnd), searchEnd)
    ensures TimelineBelow(Timeline(file, provider, 0, s, searchEnd), searchEnd)
    ensures var w := WalkEvent(LineRecord(file, s, e, provider), state, visit);
            WalkTimelineHits(file, Timeline(file, provider, 0, e, searchEnd), searchEnd, provider, state, visit)
            == if w.Through? then WalkTimelineHits(file, Timeline(file, provider, 0, s, searchEnd), searchEnd, provider, w.state, visit) else w
  {
    LineTimeline(file, s, e, searchEnd, provider, state, visit);
    TimelineIsBelow(file, provider, 0, s, searchEnd);
    TimelineSplits(file, provider, 0, s, e, searchEnd);
    TimelineConcat(file, Timeline(file, provider, s, e, searchEnd), Timeline(file, provider, 0, s, searchEnd), searchEnd, provider, state, visit);
  }

  /** Going through the matches of both kinds from the end back is walking the events of the records from the end back. */
  lemma {:induction false} HitsWalkTimeline<S>(file: seq<byte>, e: nat, searchEnd: nat, provider: Provider,
          state: S, visit: (S, Record) -> (S, bool))
    requires e <= searchEnd <= |file| && LineEnd(file, e) && WellChosen(provider.needles)
    requires OneHitPerEvent(file, RecordsOf(file, e, provider), searchEnd, provider)
    ensures TimelineBelow(Timeline(file, provider, 0, e, searchEnd), searchEnd)
    ensures WalkTimelineHits(file, Timeline(file, provider, 0, e, searchEnd), searchEnd, provider, state, visit)
         == WalkTimeline(RecordsOf(file, e, provider), |RecordsOf(file, e, provider)|, state, visit)
    decreases e, 1
  {
    if e == 0 { return; }
    LineBaseIs(file, e - 1);
    var s := LineBase(file, e - 1);
    var before, r := RecordsOf(file, s, provider), LineRecord(file, s, e, provider);
    assert RecordsOf(file, e, provider) == before + [r];
    TimelineStep(file, s, e, searchEnd, provider, before, r, state, visit);
  }

  lemma {:induction false} EventOnceBefore(file: seq<byte>, before: seq<Record>, r: Record, searchEnd: nat, provider: Provider)
    requires OneHitPerEvent(file, before + [r], searchEnd, provider)
    ensures OneHitPerEvent(file, before, searchEnd, provider) && EventOnce(file, r, searchEnd, provider)
  {
    var log := before + [r];
    forall k | 0 <= k < |before| ensures EventOnce(file, before[k], searchEnd, provider) { assert log[k] == before[k]; }
    assert log[|before|] == r;
  }

  lemma {:induction false} TimelineSnoc<S>(before: seq<Record>, r: Record, state: S, visit: (S, Record) -> (S, bool))
    ensures var w := WalkEvent(r, state, visit);
            WalkTimeline(before + [r], |before| + 1, state, visit)
            == if w.Through? then WalkTimeline(before, |before|, w.state, visit) else w
  {
    var log := before + [r];
    assert log[..|before|] == before && log[|before|] == r;
    var w := WalkEvent(r, state, visit);
    if w.Through? { TimelinePrefix(log, |before|, |before|, w.state, visit); }
  }

  lemma {:induction false} TimelineStep<S>(file: seq<byte>, s: nat, e: nat, searchEnd: nat, provider: Provider,
          before: seq<Record>, r: Record, state: S, visit: (S, Record) -> (S, bool))
    requires s < e <= searchEnd <= |file| && file[e - 1] == NEWLINE && s == LineBase(file, e - 1) && WellChosen(provider.needles)
    requires LineEnd(file, s) && before == RecordsOf(file, s, provider) && r == LineRecord(file, s, e, provider)
    requires OneHitPerEvent(file, before + [r], searchEnd, provider)
    ensures TimelineBelow(Timeline(file, provider, 0, e, searchEnd), searchEnd)
    ensures WalkTimelineHits(file, Timeline(file, provider, 0, e, searchEnd), searchEnd, provider, state, visit)
         == WalkTimeline(before + [r], |before| + 1, state, visit)
    decreases e, 0
  {
    EventOnceBefore(file, before, r, searchEnd, provider);
    TimelineLine(file, s, e, searchEnd, provider, state, visit);
    TimelineSnoc(before, r, state, visit);
    var w := WalkEvent(r, state, visit);
    if w.Through? { HitsWalkTimeline(file, s, searchEnd, provider, w.state, visit); }
  }

  /** `visit_timeline_boundaries_reverse`: the same walk, block by block. */
  method VisitTimelineInBlocks<S>(file: seq<byte>, searchEnd: nat, provider: Provider, block: nat, init: S,
          visit: (S, Record) -> (S, bool))
    returns (w: Walked<S>)
    requires searchEnd <= |file| && LineEnd(file, searchEnd) && block > 0 && WellChosen(provider.needles) && WellChosen(AloneNeedles(provider))
    requires OneHitPerEvent(file, RecordsOf(file, searchEnd, provider), searchEnd, provider)
    ensures w == WalkTimeline(RecordsOf(file, searchEnd, provider), |RecordsOf(file, searchEnd, provider)|, init, visit)
  {
    HitsWalkTimeline(file, searchEnd, searchEnd, provider, init, visit);
    var state, position: nat := init, searchEnd;
    while position > 0
      invariant position <= searchEnd && TimelineBelow(Timeline(file, provider, 0, position, searchEnd), searchEnd)
      invariant WalkTimeline(RecordsOf(file, searchEnd, provider), |RecordsOf(file, searchEnd, provider)|, init, visit)
             == WalkTimelineHits(file, Timeline(file, provider, 0, position, searchEnd), searchEnd, provider, state, visit)
    {
      var core := if position >= block then position - block else 0;
      var turns := BlockMatches(file, provider.needles, core, position, searchEnd);
      var alone := BlockMatches(file, AloneNeedles(provider), core, position, searchEnd);
      TimelineIsBelow(file, provider, core, position, searchEnd);
      TimelineIsBelow(file, provider, 0, core, searchEnd);
      TimelineSplits(file, provider, 0, core, position, searchEnd);
      TimelineConcat(file, Timeline(file, provider, core, position, searchEnd), Timeline(file, provider, 0, core, searchEnd),
                     searchEnd, provider, state, visit);
      w := VisitTimelineHits(file, MergeHits(turns, alone), searchEnd, provider, state, visit);
      if !w.Through? { return; }
      state, position := w.state, core;
    }
    return Through(state);
  }

  /** The matches of one block. */
  method VisitTimelineHits<S>(file: seq<byte>, hits: seq<TimelineHit>, searchEnd: nat, provider: Provider, init: S,
          visit: (S, Record) -> (S, bool))
    returns (w: Walked<S>)
    requires searchEnd <= |file| && LineEnd(file, searchEnd) && TimelineBelow(hits, searchEnd)
    ensures w == WalkTimelineHits(file, hits, searchEnd, provider, init, visit)
  {
    var state, i := init, 0;
    assert hits[0..] == hits;
    while i < |hits|
      invariant 0 <= i <= |hits| && TimelineBelow(hits[i..], searchEnd)
      invariant WalkTimelineHits(file, hits, searchEnd, provider, init, visit)
             == WalkTimelineHits(file, hits[i..], searchEnd, provider, state, visit)
    {
      var o, alone := hits[i].offset, hits[i].alone;
      assert hits[i..][1..] == hits[i + 1..];
      var start, line := ReadLineAt(file, o, searchEnd);
      var record := LineAt(file, o, searchEnd, provider);
      if !alone && MarkOf(line, provider).Broken? { return Blocked(start); }
      if (if alone then StandaloneOf(line, provider).Some? else IsBoundary(record)) {
        var (state', goOn) := visit(state, record);
        state := state';
        if !goOn { return Stopped(state); }
      }
      i := i + 1;
    }
    return Through(state);
  }

  /**
   The logical visitor on the bytes of a file: its callback consumes the task and standalone turns
   that the reverse scan lists for the file's records.
   */
  method VisitLogicalTurnsInBlocks<S>(file: seq<byte>, searchEnd: nat, next0: nat, provider: Provider, block: nat, init: S,
          visit: (S, Turn) -> (S, bool))
    returns (r: Visited<S>)
    requires searchEnd <= |file| && searchEnd <= U64_MAX && LineEnd(file, searchEnd) && block > 0
    requires WellChosen(provider.needles) && WellChosen(AloneNeedles(provider))
    requires OneHitPerEvent(file, RecordsOf(file, searchEnd, provider), searchEnd, provider)
    ensures VisitsLogical(RecordsOf(file, searchEnd, provider), next0, init, visit, r)
  {
    ghost var log := RecordsOf(file, searchEnd, provider);
    RecordsTile(file, searchEnd, provider);
    RecordsFitTheFile(log);
    var w := VisitTimelineInBlocks(file, searchEnd, provider, block, LogicalStart(next0, init), LogicalVisit(visit));
    r := FinishLogical(log, next0, init, visit, w);
  }
}
