/** The outage_events table. Ids are SQLite AUTOINCREMENT keys and rows are never deleted, so row k has id k + 1. */
module OutageTable {
  import opened Common
  import opened Sorting

  datatype OutageEvent = OutageEvent(target: int, startedAt: int, endedAt: Option<int>)

  /** The event is running at millisecond t. */
  predicate Covers(e: OutageEvent, t: int) {
    e.startedAt <= t && (e.endedAt.None? || t < e.endedAt.value)
  }

  ghost predicate DownAt(rows: seq<OutageEvent>, target: int, t: int) {
    exists i :: 0 <= i < |rows| && rows[i].target == target && Covers(rows[i], t)
  }

  /** No two events of one target run at the same millisecond. */
  ghost predicate Disjoint(rows: seq<OutageEvent>, target: int) {
    forall i, j, t :: 0 <= i < j < |rows| && rows[i].target == rows[j].target == target ==>
      !(Covers(rows[i], t) && Covers(rows[j], t))
  }

  /** A recovery lies between any two events of one target: none starts at the instant another one ends. */
  ghost predicate Separated(rows: seq<OutageEvent>, target: int) {
    forall i, j :: 0 <= i < |rows| && 0 <= j < |rows| && rows[i].target == rows[j].target == target ==>
      rows[i].startedAt < rows[j].startedAt ==> rows[i].endedAt != Some(rows[j].startedAt)
  }

  /** The WHERE clause of the range query; a target of zero or less means every target. */
  function Listed(from: int, to: int, target: int): OutageEvent -> bool {
    (e: OutageEvent) => e.startedAt < to && (e.endedAt.None? || e.endedAt.value > from) && (target > 0 ==> e.target == target)
  }

  function NewestFirst(): OutageEvent -> int {
    (e: OutageEvent) => -e.startedAt
  }

  function ListOutages(rows: seq<OutageEvent>, from: int, to: int, target: int): seq<OutageEvent> {
    Sort(Filter(rows, Listed(from, to, target)), NewestFirst())
  }

  /** Events of a target that run at t. */
  function RunningAt(target: int, t: int): OutageEvent -> bool {
    (e: OutageEvent) => e.target == target && Covers(e, t)
  }

  /** Events of a target that run at t and, inside the window that opens at from, already ran just before. */
  function CarriedInto(target: int, from: int, t: int): OutageEvent -> bool {
    (e: OutageEvent) => e.target == target && Covers(e, t) && e.startedAt < t && from < t
  }

  /** The range query loses none of the events that run inside the range. */
  lemma ListedCounts(rows: seq<OutageEvent>, from: int, to: int, target: int, t: int)
    requires target > 0 && from <= t < to
    ensures Count(ListOutages(rows, from, to, target), RunningAt(target, t)) == Count(rows, RunningAt(target, t))
    ensures Count(ListOutages(rows, from, to, target), CarriedInto(target, from, t)) == Count(rows, CarriedInto(target, from, t))
  {
    var listed := Filter(rows, Listed(from, to, target));
    CountSort(listed, NewestFirst(), RunningAt(target, t));
    CountSort(listed, NewestFirst(), CarriedInto(target, from, t));
    CountFilter(rows, Listed(from, to, target), RunningAt(target, t));
    CountFilter(rows, Listed(from, to, target), CarriedInto(target, from, t));
  }

  lemma DownAtIsCount(rows: seq<OutageEvent>, target: int, t: int)
    ensures DownAt(rows, target, t) <==> Count(rows, RunningAt(target, t)) >= 1
    ensures Disjoint(rows, target) ==> Count(rows, RunningAt(target, t)) <= 1
  {
    CountWitness(rows, RunningAt(target, t));
  }

  lemma SameEvent(rows: seq<OutageEvent>, target: int, i: nat, j: nat, t: int)
    requires i < |rows| && j < |rows| && rows[i].target == rows[j].target == target
    requires Disjoint(rows, target) && Covers(rows[i], t) && Covers(rows[j], t)
    ensures i == j
  {
  }

  // ----- the table itself -----

  /** Ids of the rows that have not ended, in table order. */
  function OpenIds(rows: seq<OutageEvent>): seq<int> {
    if |rows| == 0 then []
    else if rows[|rows| - 1].endedAt.None? then OpenIds(rows[..|rows| - 1]) + [|rows|]
    else OpenIds(rows[..|rows| - 1])
  }

  ghost predicate Distinct(ids: seq<int>) {
    forall i, j :: 0 <= i < j < |ids| ==> ids[i] != ids[j]
  }

  lemma {:induction false} OpenIdsAreTheOpenRows(rows: seq<OutageEvent>)
    ensures Distinct(OpenIds(rows))
    ensures forall id :: id in OpenIds(rows) <==> 1 <= id <= |rows| && rows[id - 1].endedAt.None?
  {
    if |rows| > 0 {
      var front := OpenIds(rows[..|rows| - 1]);
      OpenIdsAreTheOpenRows(rows[..|rows| - 1]);
      forall i | 0 <= i < |front| ensures front[i] < |rows| {
        assert front[i] in front;
      }
    }
  }

  lemma {:induction false} InsertDistinct(ids: seq<int>, x: int, key: int -> int)
    requires Distinct(ids) && x !in ids
    ensures Distinct(Insert(ids, x, key))
  {
    if |ids| == 0 || key(ids[|ids| - 1]) <= key(x) {
    } else {
      InsertDistinct(ids[..|ids| - 1], x, key);
      InsertMembers(ids[..|ids| - 1], x, key);
      var front := Insert(ids[..|ids| - 1], x, key);
      forall i | 0 <= i < |front| ensures front[i] != ids[|ids| - 1] {
        assert front[i] in front;
      }
    }
  }

  lemma {:induction false} SortDistinct(ids: seq<int>, key: int -> int)
    requires Distinct(ids)
    ensures Distinct(Sort(ids, key))
  {
    if |ids| > 0 {
      SortDistinct(ids[..|ids| - 1], key);
      SortKeepsMembers(ids[..|ids| - 1], key);
      InsertDistinct(Sort(ids[..|ids| - 1], key), ids[|ids| - 1], key);
    }
  }

  ghost predicate InTable(rows: seq<OutageEvent>, ids: seq<int>) {
    forall i :: 0 <= i < |ids| ==> 1 <= ids[i] <= |rows|
  }

  /** The ids of the open rows, each once, in some order. */
  ghost predicate IsScan(rows: seq<OutageEvent>, scan: seq<int>) {
    && Distinct(scan) && InTable(rows, scan)
    && forall id :: id in scan <==> 1 <= id <= |rows| && rows[id - 1].endedAt.None?
  }

  function Ended(rows: seq<OutageEvent>, id: int, endedAt: int): (r: seq<OutageEvent>)
    ensures |r| == |rows|
  {
    if 1 <= id <= |rows| then rows[id - 1 := rows[id - 1].(endedAt := Some(endedAt))] else rows
  }

  /** Every operation may fail; whether it does is the caller's `works` argument. */
  class Store {
    var rows: seq<OutageEvent>

    constructor ()
      ensures rows == []
    {
      rows := [];
    }

    method OpenOutage(target: int, startedAt: int, works: bool) returns (id: Option<int>)
      modifies this
      ensures works ==> id == Some(|rows|) && rows == old(rows) + [OutageEvent(target, startedAt, None)]
      ensures !works ==> id == None && rows == old(rows)
    {
      if !works {
        return None;
      }
      rows := rows + [OutageEvent(target, startedAt, None)];
      return Some(|rows|);
    }

    method CloseOutage(id: int, endedAt: int, works: bool)
      modifies this
      ensures rows == if works then Ended(old(rows), id, endedAt) else old(rows)
    {
      if works {
        rows := Ended(rows, id, endedAt);
      }
    }

    /** The query has no ORDER BY: `order` stands for whatever order the rows come in. */
    method OpenOutages(order: int -> int) returns (scan: seq<int>)
      ensures IsScan(rows, scan)
    {
      OpenIdsAreTheOpenRows(rows);
      SortDistinct(OpenIds(rows), order);
      SortKeepsMembers(OpenIds(rows), order);
      scan := Sort(OpenIds(rows), order);
      assert forall i :: 0 <= i < |scan| ==> scan[i] in scan;
    }
  }
}
