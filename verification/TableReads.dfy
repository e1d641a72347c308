/**
 The range reads of store.rs over one file's turn rows, newest first or oldest first, and what a
 read returns when the rows of a range are known to be a given list.
 */
module TableReads {
  import opened Wrappers
  import opened Transcript
  import opened LogicalTurns
  import opened Store
  import opened Coverage
  import opened ColdScan

  function KeysBelow(turns: map<nat, Turn>, before: Option<nat>): (keys: set<nat>) {
    set x | x in turns && (before.None? || x < before.value)
  }

  /** `turns_desc`: the newest `limit` turns that start before an optional offset. */
  function TurnsDesc(turns: map<nat, Turn>, before: Option<nat>, limit: nat): (page: seq<Turn>)
    decreases limit
  {
    var keys := KeysBelow(turns, before);
    if limit == 0 || keys == {} then []
    else
      var newest := MaxKey(keys);
      [turns[newest]] + TurnsDesc(turns, Some(newest), limit - 1)
  }

  /** `turn_by_id`: through the id index. */
  function TurnById(ft: FileTables, id: string): (turn: Option<Turn>) {
    if id in ft.turnsById && ft.turnsById[id] in ft.turns then Some(ft.turns[ft.turnsById[id]]) else None
  }

  /** `has_removed_turns`: a rollback removed a turn that started in `from..before`. */
  predicate HasRemovedTurns(removed: set<nat>, from: nat, before: nat) {
    from < before && exists x :: x in removed && from <= x < before
  }

  /** The rows that start in `from..before` are the turns of a descending list. */
  ghost predicate Lists(turns: map<nat, Turn>, from: nat, before: Option<nat>, list: seq<Turn>) {
    && Descending(list)
    && (forall i :: 0 <= i < |list| ==> Listed(turns, from, before, list[i]))
    && (forall x :: RowIn(turns, from, before, x) ==> turns[x] in list)
  }

  ghost predicate RowIn(turns: map<nat, Turn>, from: nat, before: Option<nat>, x: nat) {
    x in turns && from <= x && (before.None? || x < before.value)
  }

  ghost predicate Listed(turns: map<nat, Turn>, from: nat, before: Option<nat>, t: Turn) {
    t.start in turns && turns[t.start] == t && from <= t.start && (before.None? || t.start < before.value)
  }

  function Retain(page: seq<Turn>, from: nat): (kept: seq<Turn>) {
    if page == [] then []
    else (if page[0].start >= from then [page[0]] else []) + Retain(page[1..], from)
  }

  lemma {:induction false} AllBelow(turns: map<nat, Turn>, from: nat, before: Option<nat>, limit: nat)
    requires forall x :: x in turns ==> turns[x].start == x
    requires before.Some? && before.value <= from
    ensures Retain(TurnsDesc(turns, before, limit), from) == []
    decreases limit
  {
    var keys := KeysBelow(turns, before);
    if limit != 0 && keys != {} {
      var newest := MaxKey(keys);
      AllBelow(turns, from, Some(newest), limit - 1);
      assert ([turns[newest]] + TurnsDesc(turns, Some(newest), limit - 1))[1..] == TurnsDesc(turns, Some(newest), limit - 1);
    }
  }

  lemma {:induction false} NothingListed(turns: map<nat, Turn>, from: nat, before: Option<nat>, list: seq<Turn>)
    requires Lists(turns, from, before, list)
    requires forall x :: x in turns && (before.None? || x < before.value) ==> x < from
    ensures list == []
  {
    assert list == [] || Listed(turns, from, before, list[0]);
  }

  lemma {:induction false} NewestKey(turns: map<nat, Turn>, before: Option<nat>)
    ensures var keys := KeysBelow(turns, before);
            if keys == {} then forall x :: x in turns ==> !(before.None? || x < before.value)
            else
              var newest := MaxKey(keys);
              && newest in turns && (before.None? || newest < before.value)
              && forall x :: x in turns && (before.None? || x < before.value) ==> x <= newest
  {
    var keys := KeysBelow(turns, before);
    assert forall x :: x in keys <==> x in turns && (before.None? || x < before.value);
  }

  lemma {:induction false} RetainCons(t: Turn, rest: seq<Turn>, from: nat)
    ensures Retain([t] + rest, from) == (if t.start >= from then [t] else []) + Retain(rest, from)
  {
    assert ([t] + rest)[1..] == rest;
  }

  lemma {:induction false} FirstCons(list: seq<Turn>, limit: nat)
    requires limit > 0 && list != []
    ensures First(list, limit) == [list[0]] + First(list[1..], limit - 1)
  {
  }

  /** A descending read, kept to the rows from `from` on, is the head of the list of those rows. */
  lemma {:induction false} DescReads(turns: map<nat, Turn>, from: nat, before: Option<nat>, limit: nat, list: seq<Turn>)
    requires forall x :: x in turns ==> turns[x].start == x
    requires Lists(turns, from, before, list)
    ensures Retain(TurnsDesc(turns, before, limit), from) == First(list, limit)
    decreases limit
  {
    if limit == 0 { return; }
    var keys := KeysBelow(turns, before);
    NewestKey(turns, before);
    if keys == {} {
      NothingListed(turns, from, before, list);
    } else {
      var newest := MaxKey(keys);
      if newest < from {
        AllBelow(turns, from, Some(newest), limit - 1);
      } else {
        HeadIsNewest(turns, from, before, list, newest);
        DescReads(turns, from, Some(newest), limit - 1, list[1..]);
      }
      DescStep(turns, from, before, limit, list, newest, TurnsDesc(turns, Some(newest), limit - 1));
    }
  }

  lemma {:induction false} DescStep(turns: map<nat, Turn>, from: nat, before: Option<nat>, limit: nat, list: seq<Turn>,
          newest: nat, rest: seq<Turn>)
    requires forall x :: x in turns ==> turns[x].start == x
    requires limit > 0 && Lists(turns, from, before, list)
    requires newest in turns && (before.None? || newest < before.value)
    requires forall x :: x in turns && (before.None? || x < before.value) ==> x <= newest
    requires newest < from ==> Retain(rest, from) == []
    requires newest >= from && list != [] ==> Retain(rest, from) == First(list[1..], limit - 1)
    ensures Retain([turns[newest]] + rest, from) == First(list, limit)
  {
    RetainCons(turns[newest], rest, from);
    if newest < from {
      NothingListed(turns, from, before, list);
    } else {
      HeadIsNewest(turns, from, before, list, newest);
      FirstCons(list, limit);
    }
  }

  lemma {:induction false} HeadIsNewest(turns: map<nat, Turn>, from: nat, before: Option<nat>, list: seq<Turn>, newest: nat)
    requires forall x :: x in turns ==> turns[x].start == x
    requires Lists(turns, from, before, list)
    requires newest in turns && from <= newest && (before.None? || newest < before.value)
    requires forall x :: x in turns && (before.None? || x < before.value) ==> x <= newest
    ensures list != [] && list[0] == turns[newest] && Lists(turns, from, Some(newest), list[1..])
  {
    assert RowIn(turns, from, before, newest);
    var k :| 0 <= k < |list| && list[k] == turns[newest];
    assert Listed(turns, from, before, list[0]);
    assert k == 0;
    var rest := list[1..];
    forall i | 0 <= i < |rest| ensures Listed(turns, from, Some(newest), rest[i]) {
      assert Listed(turns, from, before, list[i + 1]) && list[0].start > list[i + 1].start;
    }
    forall x | RowIn(turns, from, Some(newest), x) ensures turns[x] in rest {
      assert RowIn(turns, from, before, x);
      var i :| 0 <= i < |list| && list[i] == turns[x];
      assert rest[i - 1] == turns[x];
    }
  }
}
