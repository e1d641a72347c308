/** Thread-list paging: filter, sort, resume strictly after a cursor, cut one page. */
module ThreadList {
  import opened ThreadCursor
  import opened Wrappers

  const MAX_PAGE: nat := 500

  datatype Thread = Thread(id: string, cwd: string, archived: bool, createdAt: i64, updatedAt: i64, recencyAt: Option<i64>)

  /** One candidate of a listing: the thread, the text its search looks in, and whether nothing was said in it yet. */
  datatype Row = Row(thread: Thread, searchText: string, shell: bool)

  datatype Window = Window(lower: Option<i64>, lowerInclusive: bool, upper: Option<i64>, upperInclusive: bool)

  datatype Params = Params(archived: bool, cwd: Option<string>, searchTerm: Option<string>, key: SortKey, direction: Direction, window: Option<Window>, cursor: Option<string>, limit: nat)

  datatype Page = Page(threads: seq<Thread>, next: Option<string>)

  /** Failing means "invalid thread list cursor". */
  datatype Result = Success(page: Page) | Failure

  // --- Order ---

  /** Text order: by code point, a prefix first. */
  predicate TextBefore(a: string, b: string) {
    if a == "" then b != ""
    else if b == "" then false
    else if a[0] == b[0] then TextBefore(a[1..], b[1..])
    else a[0] < b[0]
  }

  predicate Ascending(a: Spot, b: Spot) {
    a.value < b.value || (a.value == b.value && TextBefore(a.id, b.id))
  }

  /** `b` is listed strictly after `a`. */
  predicate Before(a: Spot, b: Spot, direction: Direction) {
    if direction == Asc then Ascending(a, b) else Ascending(b, a)
  }

  lemma {:induction false} TextOrderIsTotal(a: string, b: string)
    ensures TextBefore(a, b) || a == b || TextBefore(b, a)
    ensures TextBefore(a, b) ==> a != b && !TextBefore(b, a)
  {
    if a != "" && b != "" && a[0] == b[0] {
      TextOrderIsTotal(a[1..], b[1..]);
      assert a == [a[0]] + a[1..] && b == [b[0]] + b[1..];
    }
  }

  lemma {:induction false} TextOrderIsTransitive(a: string, b: string, c: string)
    requires TextBefore(a, b) && TextBefore(b, c)
    ensures TextBefore(a, c)
  {
    if a != "" && a[0] == b[0] == c[0] {
      TextOrderIsTransitive(a[1..], b[1..], c[1..]);
    }
  }

  lemma {:induction false} OrderIsTotal(a: Spot, b: Spot, direction: Direction)
    ensures Before(a, b, direction) || a == b || Before(b, a, direction)
    ensures Before(a, b, direction) ==> a != b && !Before(b, a, direction)
  {
    TextOrderIsTotal(a.id, b.id);
    TextOrderIsTotal(b.id, a.id);
  }

  lemma {:induction false} OrderIsTransitive(a: Spot, b: Spot, c: Spot, direction: Direction)
    requires Before(a, b, direction) && Before(b, c, direction)
    ensures Before(a, c, direction)
  {
    if a.value == b.value == c.value {
      if direction == Asc { TextOrderIsTransitive(a.id, b.id, c.id); } else { TextOrderIsTransitive(c.id, b.id, a.id); }
    }
  }

  function SortValue(thread: Thread, key: SortKey): (value: i64) {
    match key
    case CreatedAt => thread.createdAt
    case UpdatedAt => thread.updatedAt
    case RecencyAt => if thread.recencyAt.Some? then thread.recencyAt.value else thread.updatedAt
  }

  function SpotOf(thread: Thread, key: SortKey): (spot: Spot) {
    Spot(SortValue(thread, key), thread.id)
  }

  // --- Filtering ---

  predicate InWindow(value: i64, window: Option<Window>) {
    window.None? ||
    (&& (window.value.lower.Some? ==> if window.value.lowerInclusive then window.value.lower.value <= value else window.value.lower.value < value)
     && (window.value.upper.Some? ==> if window.value.upperInclusive then value <= window.value.upper.value else value < window.value.upper.value))
  }

  predicate Contains(text: string, term: string)
    requires term != ""
  {
    |term| <= |text| && (text[..|term|] == term || Contains(text[1..], term))
  }

  /** `lower` is the library's conversion to lower case. */
  predicate Matches(row: Row, params: Params, lower: string -> string) {
    && row.thread.archived == params.archived
    && (params.archived || !row.shell)
    && (params.cwd.None? || row.thread.cwd == params.cwd.value)
    && (params.searchTerm.None? || lower(params.searchTerm.value) == "" || Contains(lower(row.searchText), lower(params.searchTerm.value)))
    && InWindow(SortValue(row.thread, params.key), params.window)
  }

  function Listed(rows: seq<Row>, params: Params, lower: string -> string): (threads: seq<Thread>) {
    if rows == [] then []
    else (if Matches(rows[0], params, lower) then [rows[0].thread] else []) + Listed(rows[1..], params, lower)
  }

  // --- Sorting ---

  predicate Sorted(threads: seq<Thread>, key: SortKey, direction: Direction) {
    threads == [] || (NoneBefore(SpotOf(threads[0], key), threads[1..], key, direction) && Sorted(threads[1..], key, direction))
  }

  /** Nothing here is listed before `bound`. */
  predicate NoneBefore(bound: Spot, threads: seq<Thread>, key: SortKey, direction: Direction) {
    forall i :: 0 <= i < |threads| ==> !Before(SpotOf(threads[i], key), bound, direction)
  }

  lemma {:induction false} SortedPairwise(threads: seq<Thread>, key: SortKey, direction: Direction, i: nat, j: nat)
    requires Sorted(threads, key, direction) && i < j < |threads|
    ensures !Before(SpotOf(threads[j], key), SpotOf(threads[i], key), direction)
  {
    if i == 0 {
      assert threads[j] == threads[1..][j - 1];
    } else {
      SortedPairwise(threads[1..], key, direction, i - 1, j - 1);
    }
  }

  /** A stable place: before the first thread that must come later. */
  function Insert(thread: Thread, threads: seq<Thread>, key: SortKey, direction: Direction): (r: seq<Thread>) {
    if threads == [] || !Before(SpotOf(threads[0], key), SpotOf(thread, key), direction) then [thread] + threads
    else [threads[0]] + Insert(thread, threads[1..], key, direction)
  }

  function Sort(threads: seq<Thread>, key: SortKey, direction: Direction): (r: seq<Thread>) {
    if threads == [] then [] else Insert(threads[0], Sort(threads[1..], key, direction), key, direction)
  }

  /** How many of the threads carry this id. */
  function Times(threads: seq<Thread>, id: string): (n: nat) {
    if threads == [] then 0 else Times(threads[1..], id) + if threads[0].id == id then 1 else 0
  }

  lemma {:induction false} TimesOfConcat(a: seq<Thread>, b: seq<Thread>, id: string)
    ensures Times(a + b, id) == Times(a, id) + Times(b, id)
  {
    if a == [] {
      assert a + b == b;
    } else {
      assert (a + b)[1..] == a[1..] + b;
      TimesOfConcat(a[1..], b, id);
    }
  }

  lemma {:induction false} TimesOfNone(threads: seq<Thread>, id: string)
    ensures Times(threads, id) == 0 <==> forall i :: 0 <= i < |threads| ==> threads[i].id != id
  {
    if threads != [] {
      TimesOfNone(threads[1..], id);
      assert forall i :: 0 < i < |threads| ==> threads[i] == threads[1..][i - 1];
    }
  }

  /** What is not before `b` cannot be before something `b` is not before. */
  lemma {:induction false} StaysAfter(a: Spot, b: Spot, c: Spot, direction: Direction)
    requires !Before(a, b, direction) && Before(c, b, direction)
    ensures Before(c, a, direction)
  {
    OrderIsTotal(a, b, direction);
    if Before(b, a, direction) {
      OrderIsTransitive(c, b, a, direction);
    }
  }

  lemma {:induction false} InsertStaysAfter(bound: Spot, thread: Thread, threads: seq<Thread>, key: SortKey,
          direction: Direction)
    requires NoneBefore(bound, threads, key, direction) && !Before(SpotOf(thread, key), bound, direction)
    ensures NoneBefore(bound, Insert(thread, threads, key, direction), key, direction)
  {
    if threads != [] && Before(SpotOf(threads[0], key), SpotOf(thread, key), direction) {
      InsertStaysAfter(bound, thread, threads[1..], key, direction);
    }
  }

  lemma {:induction false} InsertStaysSorted(thread: Thread, threads: seq<Thread>, key: SortKey, direction: Direction)
    requires Sorted(threads, key, direction)
    ensures Sorted(Insert(thread, threads, key, direction), key, direction)
  {
    if threads == [] {
    } else if !Before(SpotOf(threads[0], key), SpotOf(thread, key), direction) {
      forall i | 0 <= i < |threads| ensures !Before(SpotOf(threads[i], key), SpotOf(thread, key), direction) {
        if i > 0 && Before(SpotOf(threads[i], key), SpotOf(thread, key), direction) {
          StaysAfter(SpotOf(threads[0], key), SpotOf(thread, key), SpotOf(threads[i], key), direction);
        }
      }
    } else {
      InsertStaysSorted(thread, threads[1..], key, direction);
      OrderIsTotal(SpotOf(threads[0], key), SpotOf(thread, key), direction);
      InsertStaysAfter(SpotOf(threads[0], key), thread, threads[1..], key, direction);
    }
  }

  lemma {:induction false} InsertKeepsMembers(thread: Thread, threads: seq<Thread>, key: SortKey, direction: Direction)
    ensures multiset(Insert(thread, threads, key, direction)) == multiset([thread]) + multiset(threads)
  {
    if threads != [] && Before(SpotOf(threads[0], key), SpotOf(thread, key), direction) {
      InsertKeepsMembers(thread, threads[1..], key, direction);
      assert threads == [threads[0]] + threads[1..];
    }
  }

  lemma {:induction false} InsertKeepsTimes(thread: Thread, threads: seq<Thread>, key: SortKey, direction: Direction,
          id: string)
    ensures Times(Insert(thread, threads, key, direction), id) == Times([thread] + threads, id)
  {
    if threads != [] && Before(SpotOf(threads[0], key), SpotOf(thread, key), direction) {
      InsertKeepsTimes(thread, threads[1..], key, direction, id);
    }
  }

  /** Sorting is ordered and loses or adds nothing. */
  lemma {:induction false} SortIsOrderedPermutation(threads: seq<Thread>, key: SortKey, direction: Direction)
    ensures Sorted(Sort(threads, key, direction), key, direction)
    ensures multiset(Sort(threads, key, direction)) == multiset(threads)
  {
    if threads != [] {
      SortIsOrderedPermutation(threads[1..], key, direction);
      InsertStaysSorted(threads[0], Sort(threads[1..], key, direction), key, direction);
      InsertKeepsMembers(threads[0], Sort(threads[1..], key, direction), key, direction);
      assert threads == [threads[0]] + threads[1..];
    }
  }

  lemma {:induction false} SortKeepsTimes(threads: seq<Thread>, key: SortKey, direction: Direction, id: string)
    ensures Times(Sort(threads, key, direction), id) == Times(threads, id)
  {
    if threads != [] {
      SortKeepsTimes(threads[1..], key, direction, id);
      InsertKeepsTimes(threads[0], Sort(threads[1..], key, direction), key, direction, id);
    }
  }

  // --- One page ---

  /** `after` is `None` on the first page. */
  predicate IsAfter(spot: Spot, after: Option<Spot>, direction: Direction) {
    after.None? || Before(after.value, spot, direction)
  }

  /** Where the page resumes: the first thread strictly after the cursor. */
  function ResumeAt(ordered: seq<Thread>, after: Option<Spot>, key: SortKey, direction: Direction): (from: nat)
    ensures from <= |ordered|
  {
    if ordered == [] || IsAfter(SpotOf(ordered[0], key), after, direction) then 0
    else 1 + ResumeAt(ordered[1..], after, key, direction)
  }

  /** The limit the request is held to. */
  function PageSize(limit: nat): (size: nat) {
    if limit == 0 then 1 else Min(limit, MAX_PAGE)
  }

  predicate Accepts(cursor: string, params: Params) {
    Decode(cursor).Some? && Decode(cursor).value.key == params.key && Decode(cursor).value.direction == params.direction
  }

  /** One page before its cursor is printed: `last` is where the next page resumes, if there is one. */
  datatype Slice = Slice(threads: seq<Thread>, last: Option<Spot>)

  function Cut(ordered: seq<Thread>, from: nat, size: nat, key: SortKey): (slice: Slice)
    requires from <= |ordered|
  {
    var threads := ordered[from..Min(from + size, |ordered|)];
    Slice(threads, if threads != [] && from + size < |ordered| then Some(SpotOf(threads[|threads| - 1], key)) else None)
  }

  function Ordered(rows: seq<Row>, params: Params, lower: string -> string): (threads: seq<Thread>) {
    Sort(Listed(rows, params, lower), params.key, params.direction)
  }

  function ResumePoint(rows: seq<Row>, params: Params, after: Option<Spot>, lower: string -> string): (from: nat)
    ensures from <= |Ordered(rows, params, lower)|
  {
    ResumeAt(Ordered(rows, params, lower), after, params.key, params.direction)
  }

  function SliceOf(rows: seq<Row>, params: Params, after: Option<Spot>, lower: string -> string): (slice: Slice) {
    Cut(Ordered(rows, params, lower), ResumePoint(rows, params, after, lower), PageSize(params.limit), params.key)
  }

  function After(params: Params): (after: Option<Spot>)
    requires params.cursor.Some? ==> Accepts(params.cursor.value, params)
  {
    if params.cursor.Some? then Some(Decode(params.cursor.value).value.spot) else None
  }

  function Next(last: Option<Spot>, params: Params): (next: Option<string>) {
    if last.Some? then Some(Encode(Cursor(params.key, params.direction, last.value))) else None
  }

  function List(rows: seq<Row>, params: Params, lower: string -> string): (r: Result) {
    if params.cursor.Some? && !Accepts(params.cursor.value, params) then Failure
    else
      var slice := SliceOf(rows, params, After(params), lower);
      Success(Page(slice.threads, Next(slice.last, params)))
  }

  /** The page starts exactly where the threads after the cursor start. */
  lemma {:induction false} ResumeSplits(ordered: seq<Thread>, after: Option<Spot>, key: SortKey, direction: Direction, k: nat)
    requires Sorted(ordered, key, direction) && k < |ordered|
    ensures k >= ResumeAt(ordered, after, key, direction) <==> IsAfter(SpotOf(ordered[k], key), after, direction)
  {
    if !IsAfter(SpotOf(ordered[0], key), after, direction) {
      if k > 0 { ResumeSplits(ordered[1..], after, key, direction, k - 1); }
    } else if k > 0 && after.Some? {
      var (a, first, at) := (after.value, SpotOf(ordered[0], key), SpotOf(ordered[k], key));
      OrderIsTotal(first, at, direction);
      if first != at { OrderIsTransitive(a, first, at, direction); }
    }
  }

  /** A thread that stands alone under its id is found at one place. */
  lemma {:induction false} SoleIndex(threads: seq<Thread>, id: string) returns (k: nat)
    requires Times(threads, id) == 1
    ensures k < |threads| && threads[k].id == id
    ensures forall i :: 0 <= i < |threads| && threads[i].id == id ==> i == k
  {
    if threads[0].id == id {
      k := 0;
      TimesOfNone(threads[1..], id);
      assert forall i :: 0 < i < |threads| ==> threads[i] == threads[1..][i - 1];
    } else {
      var j := SoleIndex(threads[1..], id);
      k := j + 1;
      assert forall i :: 0 < i < |threads| ==> threads[i] == threads[1..][i - 1];
    }
  }

  lemma {:induction false} TimesOfSlice(threads: seq<Thread>, id: string, k: nat, from: nat, to: nat)
    requires from <= to <= |threads| && k < |threads| && threads[k].id == id && Times(threads, id) == 1
    ensures Times(threads[from..to], id) == if from <= k < to then 1 else 0
  {
    var a, b, c := threads[..from], threads[from..to], threads[to..];
    assert threads == a + (b + c);
    TimesOfConcat(a, b + c, id);
    TimesOfConcat(b, c, id);
    var j := SoleIndex(threads, id);
    if k < from { assert a[k].id == id; TimesOfNone(a, id); }
    else if k < to { assert b[k - from].id == id; TimesOfNone(b, id); }
    else { assert c[k - to].id == id; TimesOfNone(c, id); }
  }

  // --- What a page holds ---

  /** Listed once, under this sort value. */
  predicate Stable(rows: seq<Row>, params: Params, lower: string -> string, spot: Spot) {
    var listed := Listed(rows, params, lower);
    Times(listed, spot.id) == 1 && forall i :: 0 <= i < |listed| && listed[i].id == spot.id ==> SortValue(listed[i], params.key) == spot.value
  }

  lemma {:induction false} StableInOrder(rows: seq<Row>, params: Params, lower: string -> string, spot: Spot) returns (k: nat)
    requires Stable(rows, params, lower, spot)
    ensures var ordered := Ordered(rows, params, lower);
            && Times(ordered, spot.id) == 1
            && k < |ordered| && SpotOf(ordered[k], params.key) == spot
            && forall i :: 0 <= i < |ordered| && ordered[i].id == spot.id ==> i == k
  {
    var listed, ordered := Listed(rows, params, lower), Ordered(rows, params, lower);
    SortIsOrderedPermutation(listed, params.key, params.direction);
    SortKeepsTimes(listed, params.key, params.direction, spot.id);
    k := SoleIndex(ordered, spot.id);
    assert ordered[k] in multiset(ordered);
    assert ordered[k] in listed;
  }

  /** What one cut holds and how it ends. */
  lemma {:induction false} CutSpans(ordered: seq<Thread>, from: nat, size: nat, key: SortKey)
    requires from <= |ordered| && size > 0
    ensures var slice := Cut(ordered, from, size, key);
            && (slice.last.Some? <==> from + size < |ordered|)
            && slice.threads == ordered[from..Min(from + size, |ordered|)]
            && (slice.last.Some? ==> slice.last == Some(SpotOf(ordered[from + size - 1], key)))
  {
  }

  lemma {:induction false} CutHoldsItsStretch(ordered: seq<Thread>, after: Option<Spot>, size: nat,
          key: SortKey, direction: Direction, spot: Spot, k: nat)
    requires Sorted(ordered, key, direction) && Times(ordered, spot.id) == 1 && size > 0
    requires k < |ordered| && SpotOf(ordered[k], key) == spot
    requires forall i :: 0 <= i < |ordered| && ordered[i].id == spot.id ==> i == k
    ensures var slice := Cut(ordered, ResumeAt(ordered, after, key, direction), size, key);
            Times(slice.threads, spot.id) ==
            if IsAfter(spot, after, direction) && (slice.last.None? || !Before(slice.last.value, spot, direction)) then 1 else 0
  {
    var from := ResumeAt(ordered, after, key, direction);
    var to := Min(from + size, |ordered|);
    CutSpans(ordered, from, size, key);
    TimesOfSlice(ordered, spot.id, k, from, to);
    ResumeSplits(ordered, after, key, direction, k);
    if from + size < |ordered| {
      OrderIsTotal(SpotOf(ordered[to - 1], key), spot, direction);
      if k < to - 1 { SortedPairwise(ordered, key, direction, k, to - 1); }
      if k > to - 1 { SortedPairwise(ordered, key, direction, to - 1, k); }
    }
  }

  /** A stable thread is on the page exactly if it lies after the page's cursor and not after the next one. */
  lemma {:induction false} PageHoldsItsStretch(rows: seq<Row>, params: Params, after: Option<Spot>,
          lower: string -> string, spot: Spot)
    requires Stable(rows, params, lower, spot)
    ensures var slice := SliceOf(rows, params, after, lower);
            Times(slice.threads, spot.id) ==
            if IsAfter(spot, after, params.direction) && (slice.last.None? || !Before(slice.last.value, spot, params.direction)) then 1 else 0
  {
    var k := StableInOrder(rows, params, lower, spot);
    SortIsOrderedPermutation(Listed(rows, params, lower), params.key, params.direction);
    CutHoldsItsStretch(Ordered(rows, params, lower), after, PageSize(params.limit), params.key, params.direction, spot, k);
  }

  /** Each page that has a successor is full and moves the cursor forward. */
  lemma {:induction false} CursorsAdvance(rows: seq<Row>, params: Params, after: Option<Spot>, lower: string -> string)
    requires SliceOf(rows, params, after, lower).last.Some?
    ensures IsAfter(SliceOf(rows, params, after, lower).last.value, after, params.direction)
    ensures |SliceOf(rows, params, after, lower).threads| == PageSize(params.limit)
  {
    SortIsOrderedPermutation(Listed(rows, params, lower), params.key, params.direction);
    CutAdvances(Ordered(rows, params, lower), after, PageSize(params.limit), params.key, params.direction);
  }

  lemma {:induction false} CutAdvances(ordered: seq<Thread>, after: Option<Spot>, size: nat, key: SortKey, direction: Direction)
    requires Sorted(ordered, key, direction) && size > 0
    requires Cut(ordered, ResumeAt(ordered, after, key, direction), size, key).last.Some?
    ensures var slice := Cut(ordered, ResumeAt(ordered, after, key, direction), size, key);
            IsAfter(slice.last.value, after, direction) && |slice.threads| == size
  {
    var from := ResumeAt(ordered, after, key, direction);
    CutSpans(ordered, from, size, key);
    ResumeSplits(ordered, after, key, direction, from + size - 1);
  }

  // --- Following the positions to the end ---

  /** These stretches are read one after another, each resuming where the one before ended, over whatever rows exist then. */
  predicate Walks(snapshots: seq<seq<Row>>, params: Params, after: Option<Spot>, lower: string -> string,
          chunks: seq<seq<Thread>>) {
    && |snapshots| == |chunks| > 0
    && var slice := SliceOf(snapshots[0], params, after, lower);
    && chunks[0] == slice.threads
    && if slice.last.None? then |chunks| == 1 else Walks(snapshots[1..], params, slice.last, lower, chunks[1..])
  }

  function Appearances(chunks: seq<seq<Thread>>, id: string): (n: nat) {
    if chunks == [] then 0 else Times(chunks[0], id) + Appearances(chunks[1..], id)
  }

  lemma {:induction false} WalkMeetsStableThreadsOnce(snapshots: seq<seq<Row>>, params: Params,
          after: Option<Spot>, lower: string -> string, chunks: seq<seq<Thread>>, spot: Spot)
    requires Walks(snapshots, params, after, lower, chunks)
    requires forall n :: 0 <= n < |snapshots| ==> Stable(snapshots[n], params, lower, spot)
    ensures Appearances(chunks, spot.id) == if IsAfter(spot, after, params.direction) then 1 else 0
    decreases |chunks|
  {
    PageHoldsItsStretch(snapshots[0], params, after, lower, spot);
    var last := SliceOf(snapshots[0], params, after, lower).last;
    if last.None? {
      assert Appearances(chunks[1..], spot.id) == 0;
    } else {
      WalkMeetsStableThreadsOnce(snapshots[1..], params, last, lower, chunks[1..], spot);
      CursorsAdvance(snapshots[0], params, after, lower);
      Onward(after, last.value, spot, params.direction);
    }
  }

  lemma {:induction false} Onward(after: Option<Spot>, last: Spot, spot: Spot, direction: Direction)
    requires IsAfter(last, after, direction)
    ensures Before(last, spot, direction) ==> IsAfter(spot, after, direction)
  {
    if after.Some? && Before(last, spot, direction) { OrderIsTransitive(after.value, last, spot, direction); }
  }

  // --- A list that does not change ---

  predicate UniqueIds(threads: seq<Thread>) {
    threads == [] || (Times(threads[1..], threads[0].id) == 0 && UniqueIds(threads[1..]))
  }

  lemma {:induction false} UniqueIdsPairwise(threads: seq<Thread>, i: nat, j: nat)
    requires UniqueIds(threads) && i < j < |threads|
    ensures threads[i].id != threads[j].id
  {
    if i == 0 {
      TimesOfNone(threads[1..], threads[0].id);
      assert threads[j] == threads[1..][j - 1];
    } else {
      UniqueIdsPairwise(threads[1..], i - 1, j - 1);
    }
  }

  predicate AllEqual(snapshots: seq<seq<Row>>, rows: seq<Row>) {
    forall n :: 0 <= n < |snapshots| ==> snapshots[n] == rows
  }

  function Flatten(chunks: seq<seq<Thread>>): (threads: seq<Thread>) {
    if chunks == [] then [] else chunks[0] + Flatten(chunks[1..])
  }

  lemma {:induction false} JoinSlices(threads: seq<Thread>, from: nat, to: nat)
    requires from <= to <= |threads|
    ensures threads[from..] == threads[from..to] + threads[to..]
  {
  }

  lemma {:induction false} ResumesWhereItStopped(ordered: seq<Thread>, key: SortKey, direction: Direction, to: nat)
    requires Sorted(ordered, key, direction) && UniqueIds(ordered) && 0 < to < |ordered|
    ensures ResumeAt(ordered, Some(SpotOf(ordered[to - 1], key)), key, direction) == to
  {
    var last := SpotOf(ordered[to - 1], key);
    OrderIsTotal(last, last, direction);
    OrderIsTotal(last, SpotOf(ordered[to], key), direction);
    SortedPairwise(ordered, key, direction, to - 1, to);
    UniqueIdsPairwise(ordered, to - 1, to);
    ResumeSplits(ordered, Some(last), key, direction, to - 1);
    ResumeSplits(ordered, Some(last), key, direction, to);
  }

  lemma {:induction false} NextResumePoint(rows: seq<Row>, params: Params, after: Option<Spot>, lower: string -> string)
    requires UniqueIds(Ordered(rows, params, lower)) && SliceOf(rows, params, after, lower).last.Some?
    ensures ResumePoint(rows, params, SliceOf(rows, params, after, lower).last, lower)
            == ResumePoint(rows, params, after, lower) + PageSize(params.limit) < |Ordered(rows, params, lower)|
  {
    SortIsOrderedPermutation(Listed(rows, params, lower), params.key, params.direction);
    CutResumes(Ordered(rows, params, lower), after, PageSize(params.limit), params.key, params.direction);
  }

  lemma {:induction false} CutResumes(ordered: seq<Thread>, after: Option<Spot>, size: nat, key: SortKey, direction: Direction)
    requires Sorted(ordered, key, direction) && UniqueIds(ordered) && size > 0
    requires Cut(ordered, ResumeAt(ordered, after, key, direction), size, key).last.Some?
    ensures var from := ResumeAt(ordered, after, key, direction);
            ResumeAt(ordered, Cut(ordered, from, size, key).last, key, direction) == from + size < |ordered|
  {
    var from := ResumeAt(ordered, after, key, direction);
    CutSpans(ordered, from, size, key);
    ResumesWhereItStopped(ordered, key, direction, from + size);
  }

  /** A stretch and everything from where the next one resumes. */
  lemma {:induction false} CutTiles(ordered: seq<Thread>, after: Option<Spot>, size: nat, key: SortKey,
          direction: Direction, rest: seq<Thread>)
    requires Sorted(ordered, key, direction) && UniqueIds(ordered) && size > 0
    requires var slice := Cut(ordered, ResumeAt(ordered, after, key, direction), size, key);
             rest == if slice.last.None? then [] else ordered[ResumeAt(ordered, slice.last, key, direction)..]
    ensures var from := ResumeAt(ordered, after, key, direction);
            Cut(ordered, from, size, key).threads + rest == ordered[from..]
  {
    var from := ResumeAt(ordered, after, key, direction);
    CutSpans(ordered, from, size, key);
    if from + size < |ordered| {
      CutResumes(ordered, after, size, key, direction);
      JoinSlices(ordered, from, from + size);
    }
  }

  lemma {:induction false} UnchangingWalkTiles(snapshots: seq<seq<Row>>, rows: seq<Row>, params: Params,
          after: Option<Spot>, lower: string -> string, chunks: seq<seq<Thread>>)
    requires UniqueIds(Ordered(rows, params, lower)) && AllEqual(snapshots, rows) && Walks(snapshots, params, after, lower, chunks)
    ensures Flatten(chunks) == Ordered(rows, params, lower)[ResumePoint(rows, params, after, lower)..]
    decreases |chunks|
  {
    assert snapshots[0] == rows;
    var last := SliceOf(rows, params, after, lower).last;
    if last.None? {
      assert Flatten(chunks[1..]) == [];
    } else {
      UnchangingWalkTiles(snapshots[1..], rows, params, last, lower, chunks[1..]);
    }
    SortIsOrderedPermutation(Listed(rows, params, lower), params.key, params.direction);
    CutTiles(Ordered(rows, params, lower), after, PageSize(params.limit), params.key, params.direction, Flatten(chunks[1..]));
  }

  // --- Following the printed cursors to the end ---

  /** These pages answer the request and then each `next`, over whatever rows exist at each call. */
  predicate Follows(snapshots: seq<seq<Row>>, params: Params, lower: string -> string, pages: seq<Page>) {
    && |snapshots| == |pages| > 0
    && List(snapshots[0], params, lower) == Success(pages[0])
    && if pages[0].next.None? then |pages| == 1 else Follows(snapshots[1..], params.(cursor := pages[0].next), lower, pages[1..])
  }

  function Chunks(pages: seq<Page>): (chunks: seq<seq<Thread>>) {
    if pages == [] then [] else [pages[0].threads] + Chunks(pages[1..])
  }

  lemma {:induction false} CursorDoesNotFilter(rows: seq<Row>, params: Params, cursor: Option<string>, lower: string -> string)
    ensures Listed(rows, params.(cursor := cursor), lower) == Listed(rows, params, lower)
  {
    if rows != [] { CursorDoesNotFilter(rows[1..], params, cursor, lower); }
  }

  /** A printed cursor is accepted, and means the spot it was printed for, unless the id is empty. */
  lemma {:induction false} NextIsAccepted(last: Spot, params: Params)
    ensures var next := Next(Some(last), params);
            && (Accepts(next.value, params) <==> last.id != "")
            && (last.id != "" ==> After(params.(cursor := next)) == Some(last))
  {
    DecodeOfEncode(Cursor(params.key, params.direction, last));
  }

  lemma {:induction false} CursorDoesNotSlice(rows: seq<Row>, params: Params, cursor: Option<string>,
          after: Option<Spot>, lower: string -> string)
    ensures SliceOf(rows, params.(cursor := cursor), after, lower) == SliceOf(rows, params, after, lower)
    ensures Ordered(rows, params.(cursor := cursor), lower) == Ordered(rows, params, lower)
  {
    CursorDoesNotFilter(rows, params, cursor, lower);
  }

  lemma {:induction false} WalkIgnoresCursor(snapshots: seq<seq<Row>>, params: Params, cursor: Option<string>,
          after: Option<Spot>, lower: string -> string, chunks: seq<seq<Thread>>)
    ensures Walks(snapshots, params.(cursor := cursor), after, lower, chunks) <==> Walks(snapshots, params, after, lower, chunks)
    decreases |chunks|
  {
    if |snapshots| == |chunks| > 0 {
      CursorDoesNotSlice(snapshots[0], params, cursor, after, lower);
      WalkIgnoresCursor(snapshots[1..], params, cursor, SliceOf(snapshots[0], params, after, lower).last, lower, chunks[1..]);
    }
  }

  /** Following printed cursors is walking positions. */
  lemma {:induction false} FollowingIsWalking(snapshots: seq<seq<Row>>, params: Params, lower: string -> string,
          pages: seq<Page>)
    requires Follows(snapshots, params, lower, pages)
    ensures params.cursor.Some? ==> Accepts(params.cursor.value, params)
    ensures Walks(snapshots, params, After(params), lower, Chunks(pages))
    decreases |pages|
  {
    var last := SliceOf(snapshots[0], params, After(params), lower).last;
    ChunksStart(pages);
    if last.Some? {
      FollowingIsWalking(snapshots[1..], params.(cursor := Next(last, params)), lower, pages[1..]);
      NextIsAccepted(last.value, params);
      WalkIgnoresCursor(snapshots[1..], params, Next(last, params), last, lower, Chunks(pages[1..]));
    }
  }

  lemma {:induction false} ChunksStart(pages: seq<Page>)
    requires pages != []
    ensures Chunks(pages)[0] == pages[0].threads && Chunks(pages)[1..] == Chunks(pages[1..]) && |Chunks(pages)| == 1 + |Chunks(pages[1..])|
    ensures |Chunks(pages)| == |pages|
    decreases |pages|
  {
    if |pages| > 1 { ChunksStart(pages[1..]); }
  }

  /** Every thread that stays listed under one sort value is returned exactly once, whatever else changes between pages. */
  lemma {:induction false} StableThreadsAppearOnce(snapshots: seq<seq<Row>>, params: Params,
          lower: string -> string, pages: seq<Page>, spot: Spot)
    requires params.cursor.None? && Follows(snapshots, params, lower, pages)
    requires forall n :: 0 <= n < |snapshots| ==> Stable(snapshots[n], params, lower, spot)
    ensures Appearances(Chunks(pages), spot.id) == 1
  {
    FollowingIsWalking(snapshots, params, lower, pages);
    WalkMeetsStableThreadsOnce(snapshots, params, None, lower, Chunks(pages), spot);
  }

  /** Over unchanging rows with distinct ids the pages are the sorted list, cut up in order. */
  lemma {:induction false} UnchangingPagesTile(snapshots: seq<seq<Row>>, rows: seq<Row>, params: Params,
          lower: string -> string, pages: seq<Page>)
    requires params.cursor.None? && UniqueIds(Ordered(rows, params, lower))
    requires AllEqual(snapshots, rows) && Follows(snapshots, params, lower, pages)
    ensures Flatten(Chunks(pages)) == Ordered(rows, params, lower)
  {
    FollowingIsWalking(snapshots, params, lower, pages);
    UnchangingWalkTiles(snapshots, rows, params, None, lower, Chunks(pages));
  }

  /** Over unchanging rows with distinct, non-empty ids, following the cursors does end. */
  lemma {:induction false} FollowingEnds(rows: seq<Row>, params: Params, lower: string -> string)
    returns (snapshots: seq<seq<Row>>, pages: seq<Page>)
    requires params.cursor.Some? ==> Accepts(params.cursor.value, params)
    requires UniqueIds(Ordered(rows, params, lower))
    requires forall i :: 0 <= i < |Ordered(rows, params, lower)| ==> Ordered(rows, params, lower)[i].id != ""
    ensures AllEqual(snapshots, rows) && Follows(snapshots, params, lower, pages)
    decreases |Ordered(rows, params, lower)| - ResumePoint(rows, params, After(params), lower)
  {
    var slice := SliceOf(rows, params, After(params), lower);
    var page := List(rows, params, lower).page;
    if slice.last.None? {
      snapshots, pages := [rows], [page];
    } else {
      var onward := params.(cursor := page.next);
      NextResumePoint(rows, params, After(params), lower);
      CutSpans(Ordered(rows, params, lower), ResumePoint(rows, params, After(params), lower), PageSize(params.limit), params.key);
      NextIsAccepted(slice.last.value, params);
      CursorDoesNotSlice(rows, params, page.next, slice.last, lower);
      var laterRows, later := FollowingEnds(rows, onward, lower);
      snapshots, pages := [rows] + laterRows, [page] + later;
      assert snapshots[1..] == laterRows && pages[1..] == later;
    }
  }

  /** The text spells a position in this request's own order. */
  predicate Spells(text: string, spot: Spot, value: string, params: Params) {
    && text == "v1:" + Tail(Cursor(params.key, params.direction, spot), value)
    && ParseValue(value) == Some(spot.value) && ':' !in value && spot.id != ""
  }

  /** A request is refused exactly when it carries a cursor that spells no position in its own order. */
  lemma {:induction false} RefusedExactlyOnForeignCursors(rows: seq<Row>, params: Params, lower: string -> string)
    ensures List(rows, params, lower).Failure? <==>
            params.cursor.Some? && forall spot, value :: !Spells(params.cursor.value, spot, value, params)
  {
    if params.cursor.Some? {
      if Accepts(params.cursor.value, params) {
        var value := DecodedIsSpelling(params.cursor.value);
        assert Spells(params.cursor.value, Decode(params.cursor.value).value.spot, value, params);
      }
      forall spot, value | Spells(params.cursor.value, spot, value, params) ensures Accepts(params.cursor.value, params) {
        DecodeOfSpelling(Cursor(params.key, params.direction, spot), value);
      }
    }
  }

  // --- What a request asks for, spelled out ---

  /** Text `a` comes before `b`: behind what they share, `a` ends or goes on with the smaller character. */
  predicate Precedes(a: string, b: string) {
    exists k :: 0 <= k <= |a| && k <= |b| && a[..k] == b[..k] && SmallerAt(a, b, k)
  }

  predicate SmallerAt(a: string, b: string, k: nat)
    requires k <= |a| && k <= |b|
  {
    if k == |a| then k < |b| else k < |b| && a[k] < b[k]
  }

  lemma {:induction false} TextBeforeIs(a: string, b: string)
    ensures TextBefore(a, b) <==> Precedes(a, b)
  {
    if a == "" || b == "" || a[0] != b[0] {
      if TextBefore(a, b) { assert a[..0] == b[..0] && SmallerAt(a, b, 0); }
      if k :| 0 <= k <= |a| && k <= |b| && a[..k] == b[..k] && SmallerAt(a, b, k) {
        if k > 0 { SameFirst(a, b, k); }
      }
    } else {
      TextBeforeIs(a[1..], b[1..]);
      SharedHead(a, b);
    }
  }

  lemma {:induction false} SameFirst(a: string, b: string, k: nat)
    requires 0 < k <= |a| && k <= |b| && a[..k] == b[..k]
    ensures a[0] == b[0]
  {
    assert a[..k][0] == b[..k][0];
  }

  lemma {:induction false} SharedHead(a: string, b: string)
    requires a != "" && b != "" && a[0] == b[0]
    ensures Precedes(a, b) <==> Precedes(a[1..], b[1..])
  {
    if k :| 0 <= k <= |a| && k <= |b| && a[..k] == b[..k] && SmallerAt(a, b, k) {
      assert k > 0;
      assert a[1..][..k - 1] == a[..k][1..] && b[1..][..k - 1] == b[..k][1..];
      assert SmallerAt(a[1..], b[1..], k - 1);
    }
    if k :| 0 <= k <= |a[1..]| && k <= |b[1..]| && a[1..][..k] == b[1..][..k] && SmallerAt(a[1..], b[1..], k) {
      assert a[..k + 1] == [a[0]] + a[1..][..k] && b[..k + 1] == [b[0]] + b[1..][..k];
      assert SmallerAt(a, b, k + 1);
    }
  }

  /** The time a thread is sorted by: without activity of its own it is as recent as its last update. */
  function TimeOf(thread: Thread, key: SortKey): (time: i64) {
    if key == CreatedAt then thread.createdAt
    else if key == UpdatedAt || thread.recencyAt.None? then thread.updatedAt
    else thread.recencyAt.value
  }

  /** Earlier times come first going up and last going down; equal times follow the ids in the same sense. */
  predicate InOrder(a: Thread, b: Thread, key: SortKey, direction: Direction) {
    if direction == Asc then TimeOf(a, key) < TimeOf(b, key) || (TimeOf(a, key) == TimeOf(b, key) && (a.id == b.id || Precedes(a.id, b.id)))
    else TimeOf(b, key) < TimeOf(a, key) || (TimeOf(a, key) == TimeOf(b, key) && (a.id == b.id || Precedes(b.id, a.id)))
  }

  /** Every page is in the asked order. */
  lemma {:induction false} PageIsInOrder(rows: seq<Row>, params: Params, lower: string -> string, i: nat, j: nat)
    requires List(rows, params, lower).Success? && i < j < |List(rows, params, lower).page.threads|
    ensures var page := List(rows, params, lower).page.threads; InOrder(page[i], page[j], params.key, params.direction)
  {
    SortIsOrderedPermutation(Listed(rows, params, lower), params.key, params.direction);
    CutIsInOrder(Ordered(rows, params, lower), ResumePoint(rows, params, After(params), lower), PageSize(params.limit),
                 params.key, params.direction, i, j);
  }

  lemma {:induction false} CutIsInOrder(ordered: seq<Thread>, from: nat, size: nat, key: SortKey,
          direction: Direction, i: nat, j: nat)
    requires Sorted(ordered, key, direction) && from <= |ordered| && size > 0 && i < j < |Cut(ordered, from, size, key).threads|
    ensures var threads := Cut(ordered, from, size, key).threads; InOrder(threads[i], threads[j], key, direction)
  {
    CutSpans(ordered, from, size, key);
    SortedPairwise(ordered, key, direction, from + i, from + j);
    NotBeforeIs(ordered[from + i], ordered[from + j], key, direction);
  }

  lemma {:induction false} NotBeforeIs(a: Thread, b: Thread, key: SortKey, direction: Direction)
    requires !Before(SpotOf(b, key), SpotOf(a, key), direction)
    ensures InOrder(a, b, key, direction)
  {
    TextBeforeIs(a.id, b.id);
    TextBeforeIs(b.id, a.id);
    TextOrderIsTotal(a.id, b.id);
  }

  /** What a request wants of a row. */
  ghost predicate Wanted(row: Row, params: Params, lower: string -> string) {
    && row.thread.archived == params.archived
    && (row.shell ==> params.archived)
    && (params.cwd == None || params.cwd == Some(row.thread.cwd))
    && (params.searchTerm.Some? ==> Mentions(lower(row.searchText), lower(params.searchTerm.value)))
    && (params.window.Some? ==> Within(TimeOf(row.thread, params.key), params.window.value))
  }

  ghost predicate Mentions(text: string, term: string) {
    exists at: nat :: MentionsAt(text, term, at)
  }

  predicate MentionsAt(text: string, term: string, at: nat) {
    at + |term| <= |text| && text[at..at + |term|] == term
  }

  predicate Within(time: i64, window: Window) {
    && (window.lower.Some? ==> window.lower.value < time || (window.lowerInclusive && window.lower.value == time))
    && (window.upper.Some? ==> time < window.upper.value || (window.upperInclusive && time == window.upper.value))
  }

  lemma {:induction false} ContainsIs(text: string, term: string)
    requires term != ""
    ensures Contains(text, term) <==> Mentions(text, term)
  {
    if |term| > |text| { return; }
    if text[..|term|] == term { assert MentionsAt(text, term, 0); return; }
    ContainsIs(text[1..], term);
    forall at: nat ensures MentionsAt(text[1..], term, at) <==> MentionsAt(text, term, at + 1) {
      if at + 1 + |term| <= |text| { assert text[1..][at..at + |term|] == text[at + 1..at + 1 + |term|]; }
    }
    if at: nat :| MentionsAt(text, term, at) {
      assert at > 0;
      assert MentionsAt(text[1..], term, at - 1);
    }
    if at: nat :| MentionsAt(text[1..], term, at) { assert MentionsAt(text, term, at + 1); }
  }

  lemma {:induction false} MatchesIs(row: Row, params: Params, lower: string -> string)
    ensures Matches(row, params, lower) <==> Wanted(row, params, lower)
  {
    if params.searchTerm.Some? {
      var text, term := lower(row.searchText), lower(params.searchTerm.value);
      if term == "" { assert MentionsAt(text, term, 0); } else { ContainsIs(text, term); }
    }
  }

  /** The listing before it is sorted: exactly the wanted rows, each once, in the order of the rows; `at` says where they stood. */
  lemma {:induction false} ListedRows(rows: seq<Row>, params: Params, lower: string -> string) returns (at: seq<nat>)
    ensures StoodAt(rows, Listed(rows, params, lower), at)
    ensures forall n :: 0 <= n < |rows| ==> (n in at <==> Wanted(rows[n], params, lower))
  {
    if rows == [] { return []; }
    MatchesIs(rows[0], params, lower);
    var rest := ListedRows(rows[1..], params, lower);
    var later := Later(rest);
    LaterStood(rows, Listed(rows[1..], params, lower), rest);
    if Matches(rows[0], params, lower) {
      at := [0] + later;
      FirstStood(rows, Listed(rows[1..], params, lower), later);
      assert [] + Listed(rows[1..], params, lower) == Listed(rows[1..], params, lower);
    } else {
      at := later;
      assert [] + Listed(rows[1..], params, lower) == Listed(rows[1..], params, lower);
    }
    forall n | 0 <= n < |rows| ensures n in at <==> Wanted(rows[n], params, lower) {
      if n > 0 { assert rows[n] == rows[1..][n - 1]; }
    }
  }

  /** These threads stood at these places of the rows. */
  ghost predicate StoodAt(rows: seq<Row>, threads: seq<Thread>, at: seq<nat>) {
    && |at| == |threads|
    && (forall i :: 0 <= i < |at| ==> at[i] < |rows| && threads[i] == rows[at[i]].thread)
    && (forall i, j :: 0 <= i < j < |at| ==> at[i] < at[j])
  }

  function Later(at: seq<nat>): (later: seq<nat>)
    ensures |later| == |at| && forall i :: 0 <= i < |at| ==> later[i] == at[i] + 1
  {
    seq(|at|, i requires 0 <= i < |at| => at[i] + 1)
  }

  lemma {:induction false} LaterStood(rows: seq<Row>, threads: seq<Thread>, at: seq<nat>)
    requires rows != [] && StoodAt(rows[1..], threads, at)
    ensures StoodAt(rows, threads, Later(at)) && 0 !in Later(at)
    ensures forall n :: 0 < n < |rows| ==> (n in Later(at) <==> n - 1 in at)
  {
    forall n | 0 < n < |rows| ensures n in Later(at) <==> n - 1 in at {
      if n - 1 in at {
        var i :| 0 <= i < |at| && at[i] == n - 1;
        assert Later(at)[i] == n;
      }
    }
  }

  lemma {:induction false} FirstStood(rows: seq<Row>, threads: seq<Thread>, at: seq<nat>)
    requires rows != [] && StoodAt(rows, threads, at) && forall i :: 0 <= i < |at| ==> at[i] > 0
    ensures StoodAt(rows, [rows[0].thread] + threads, [0] + at)
  {
  }

  /** How long a page may be: what was asked for, but between 1 and 500. */
  function Clamped(limit: nat): (size: nat) {
    if limit < 1 then 1 else if limit > 500 then 500 else limit
  }

  /** The first page is as long as it may be, and has a successor exactly if it does not hold everything. */
  lemma {:induction false} FirstPageIsFull(rows: seq<Row>, params: Params, lower: string -> string)
    requires params.cursor.None?
    ensures var (all, r) := (|Listed(rows, params, lower)|, List(rows, params, lower));
            && r.Success?
            && |r.page.threads| == (if Clamped(params.limit) < all then Clamped(params.limit) else all)
            && (r.page.next.Some? <==> |r.page.threads| < all)
  {
    var ordered, from := Ordered(rows, params, lower), ResumePoint(rows, params, None, lower);
    SortIsOrderedPermutation(Listed(rows, params, lower), params.key, params.direction);
    assert |ordered| == |multiset(ordered)| == |multiset(Listed(rows, params, lower))|;
    CutSpans(ordered, from, PageSize(params.limit), params.key);
  }
}
