/** The ping scheduler: one loop per enabled target, with deadlines on a fixed grid however long each ping takes. */
module PingSchedule {
  import opened Common

  // ----- deadlines -----

  /** Grid point number k. */
  function Grid(origin: int, interval: int, k: int): int { origin + k * interval }

  /** The number of the first grid point after both point k and the clock reading. */
  function NextSlot(origin: int, interval: int, k: int, now: int): int
    requires interval > 0
  {
    Max(k + 1, (now - origin) / interval + 1)
  }

  lemma GridAfter(origin: int, interval: int, now: int, j: int)
    requires interval > 0
    ensures Grid(origin, interval, j) > now <==> j >= (now - origin) / interval + 1
  {
    var q := (now - origin) / interval;
    assert now - origin == q * interval + (now - origin) % interval;
    if j >= q + 1 {
      Multiply(q + 1, j, interval);
    } else {
      Multiply(j, q, interval);
    }
  }

  /** Slots after k that are not skipped: exactly those from NextSlot on are still in the future. */
  lemma SkippedAreMissed(origin: int, interval: int, k: int, now: int, j: int)
    requires interval > 0 && k < j
    ensures j < NextSlot(origin, interval, k, now) <==> Grid(origin, interval, j) <= now
  {
    GridAfter(origin, interval, now, j);
  }

  /** The slot of ping number i, given the clock readings after the pings before it. */
  function SlotAt(origin: int, interval: int, readings: seq<int>, i: nat): int
    requires interval > 0 && i <= |readings|
  {
    if i == 0 then 0 else NextSlot(origin, interval, SlotAt(origin, interval, readings, i - 1), readings[i - 1])
  }

  lemma {:induction false} SlotsIncrease(origin: int, interval: int, readings: seq<int>, i: nat, j: nat)
    requires interval > 0 && i < j <= |readings|
    ensures SlotAt(origin, interval, readings, i) < SlotAt(origin, interval, readings, j)
  {
    if i < j - 1 {
      SlotsIncrease(origin, interval, readings, i, j - 1);
    }
  }

  ghost predicate OnTime(origin: int, interval: int, readings: seq<int>, n: nat)
    requires n <= |readings|
  {
    forall i :: 0 <= i < n ==> readings[i] < Grid(origin, interval, i + 1)
  }

  /** The schedule does not drift: ping n falls on slot n if and only if every ping before it ended before the next slot. */
  lemma {:induction false} NoDrift(origin: int, interval: int, readings: seq<int>, n: nat)
    requires interval > 0 && n <= |readings|
    ensures n <= SlotAt(origin, interval, readings, n)
    ensures SlotAt(origin, interval, readings, n) == n <==> OnTime(origin, interval, readings, n)
  {
    if n > 0 {
      NoDrift(origin, interval, readings, n - 1);
      SkippedAreMissed(origin, interval, n - 1, readings[n - 1], n);
      if SlotAt(origin, interval, readings, n - 1) == n - 1 {
        assert OnTime(origin, interval, readings, n) <==> readings[n - 1] < Grid(origin, interval, n);
      }
    }
  }

  /** Skipping whole intervals from the next grid point on. */
  lemma AdvanceOnGrid(origin: int, interval: int, k: int, now: int, missed: int)
    requires interval > 0 && Grid(origin, interval, k + 1) <= now
    requires missed == TruncDiv(now - Grid(origin, interval, k + 1), interval) + 1
    ensures Grid(origin, interval, k + 1) + missed * interval == Grid(origin, interval, NextSlot(origin, interval, k, now))
  {
    TruncDivBounds(now - Grid(origin, interval, k + 1), interval);
    var j := k + 1 + missed;
    assert Grid(origin, interval, j) == Grid(origin, interval, k + 1) + missed * interval;
    assert Grid(origin, interval, j - 1) == Grid(origin, interval, j) - interval;
    SkippedAreMissed(origin, interval, k, now, j);
    SkippedAreMissed(origin, interval, k, now, j - 1);
  }

  lemma NextOnGrid(origin: int, interval: int, k: int, now: int)
    requires interval > 0 && Grid(origin, interval, k + 1) > now
    ensures NextSlot(origin, interval, k, now) == k + 1
  {
    SkippedAreMissed(origin, interval, k, now, k + 1);
  }

  /**
   The next deadline is a whole number of intervals after the last one and after the clock, and one interval earlier it
   would not be after both.
   */
  ghost predicate IsNextDeadline(deadline: int, interval: int, now: int, next: int) {
    (exists n :: n >= 1 && next == deadline + n * interval) && next > now && (next - interval <= deadline || next - interval <= now)
  }

  lemma NextIsEarliest(origin: int, interval: int, k: int, now: int)
    requires interval > 0
    ensures IsNextDeadline(Grid(origin, interval, k), interval, now, Grid(origin, interval, NextSlot(origin, interval, k, now)))
  {
    var j := NextSlot(origin, interval, k, now);
    GridAfter(origin, interval, now, j);
    GridAfter(origin, interval, now, j - 1);
    StepsOnGrid(origin, interval, k, j);
    StepsOnGrid(origin, interval, k, j - 1);
    StepsOnGrid(origin, interval, j - 1, j);
    assert j - k >= 1;
  }

  lemma StepsOnGrid(origin: int, interval: int, k: int, j: int)
    ensures Grid(origin, interval, j) == Grid(origin, interval, k) + (j - k) * interval
  {
    assert (j - k) * interval == j * interval - k * interval;
  }

  /** Advances the deadline by one interval, or past all slots that were missed. */
  method Advance(deadline: int, interval: int, now: int, ghost origin: int, ghost k: int) returns (next: int)
    requires interval > 0 && deadline == Grid(origin, interval, k)
    ensures next == Grid(origin, interval, NextSlot(origin, interval, k, now))
    ensures IsNextDeadline(deadline, interval, now, next)
  {
    NextIsEarliest(origin, interval, k, now);
    next := deadline + interval;
    assert next == Grid(origin, interval, k + 1);
    var wait := next - now;
    if wait > 0 {
      NextOnGrid(origin, interval, k, now);
    } else {
      var missed := TruncDiv(-wait, interval) + 1;
      AdvanceOnGrid(origin, interval, k, now, missed);
      next := next + missed * interval;
    }
  }

  function Deadlines(origin: int, interval: int, readings: seq<int>, n: nat): seq<int>
    requires interval > 0 && n <= |readings|
  {
    if n == 0 then [origin]
    else Deadlines(origin, interval, readings, n - 1) + [Grid(origin, interval, SlotAt(origin, interval, readings, n))]
  }

  /** Deadlines strictly increase, so no slot is pinged twice. */
  lemma {:induction false} DeadlinesIncrease(origin: int, interval: int, readings: seq<int>, n: nat)
    requires interval > 0 && n <= |readings|
    ensures var ds := Deadlines(origin, interval, readings, n);
      && |ds| == n + 1 && ds[n] == Grid(origin, interval, SlotAt(origin, interval, readings, n))
      && forall i :: 0 <= i < n ==> ds[i] < ds[i + 1]
  {
    if n > 0 {
      DeadlinesIncrease(origin, interval, readings, n - 1);
      SlotsIncrease(origin, interval, readings, n - 1, n);
      GridIncreases(origin, interval, SlotAt(origin, interval, readings, n - 1), SlotAt(origin, interval, readings, n));
    }
  }

  lemma GridIncreases(origin: int, interval: int, j: int, k: int)
    requires interval > 0 && j < k
    ensures Grid(origin, interval, j) < Grid(origin, interval, k)
  {
    assert Grid(origin, interval, k) - Grid(origin, interval, j) == (k - j) * interval;
  }

  /** The deadlines of a loop that is cancelled after as many pings as there are clock readings. */
  method PingLoop(origin: int, interval: int, readings: seq<int>) returns (deadlines: seq<int>)
    requires interval > 0
    ensures deadlines == Deadlines(origin, interval, readings, |readings|)
    ensures |deadlines| == |readings| + 1 && deadlines[0] == origin
    ensures forall i :: 0 <= i < |readings| ==> IsNextDeadline(deadlines[i], interval, readings[i], deadlines[i + 1])
  {
    var next := origin;
    deadlines := [next];
    for i := 0 to |readings|
      invariant deadlines == Deadlines(origin, interval, readings, i)
      invariant next == Grid(origin, interval, SlotAt(origin, interval, readings, i))
      invariant |deadlines| == i + 1 && deadlines[0] == origin && deadlines[i] == next
      invariant forall j :: 0 <= j < i ==> IsNextDeadline(deadlines[j], interval, readings[j], deadlines[j + 1])
    {
      next := Advance(next, interval, readings[i], origin, SlotAt(origin, interval, readings, i));
      deadlines := deadlines + [next];
    }
  }

  // ----- starting and stopping loops -----

  datatype TargetId = TargetId(n: int)

  datatype Spec = Spec(host: string, probe: string, intervalMs: int)

  datatype Target = Target(id: TargetId, enabled: bool, spec: Spec)

  /** The spec of every enabled target. */
  function Want(targets: seq<Target>): map<TargetId, Spec> {
    if |targets| == 0 then map[]
    else
      var t := targets[|targets| - 1];
      var before := Want(targets[..|targets| - 1]);
      if t.enabled then before[t.id := t.spec] else before
  }

  /** Target number i is the last enabled one with its id. */
  ghost predicate LastEnabled(targets: seq<Target>, i: int) {
    && 0 <= i < |targets| && targets[i].enabled
    && forall j :: i < j < |targets| && targets[j].enabled ==> targets[j].id != targets[i].id
  }

  /** An enabled target has the id. */
  ghost predicate IsEnabled(targets: seq<Target>, id: TargetId) {
    exists i :: 0 <= i < |targets| && targets[i].enabled && targets[i].id == id
  }

  /** An id is wanted exactly if an enabled target has it. */
  lemma {:induction false} WantedIsEnabled(targets: seq<Target>, id: TargetId)
    ensures id in Want(targets) <==> IsEnabled(targets, id)
  {
    if |targets| > 0 {
      var front, last := targets[..|targets| - 1], targets[|targets| - 1];
      WantedIsEnabled(front, id);
      if IsEnabled(front, id) {
        var i :| 0 <= i < |front| && front[i].enabled && front[i].id == id;
        assert targets[i].enabled && targets[i].id == id;
      }
    }
  }

  /** It is wanted with the spec of the last such target. */
  lemma {:induction false} LastEnabledWins(targets: seq<Target>, i: int)
    requires LastEnabled(targets, i)
    ensures targets[i].id in Want(targets) && Want(targets)[targets[i].id] == targets[i].spec
  {
    if i < |targets| - 1 {
      LastEnabledWins(targets[..|targets| - 1], i);
    }
  }

  datatype Loop = Loop(id: TargetId, spec: Spec)

  /** Loops are numbered in the order they are started. A loop pings with the spec it was started with. */
  class Manager {
    var running: map<TargetId, int>
    var specs: map<TargetId, Spec>
    var started: int
    ghost var alive: map<int, Loop>

    /** The live loops are exactly the running ones, one for each id, and specs records how each was started. */
    ghost predicate Valid()
      reads this
    {
      && running.Keys == specs.Keys
      && (forall id :: id in running ==> running[id] < started && running[id] in alive)
      && (forall id :: id in running ==> alive[running[id]] == Loop(id, specs[id]))
      && (forall l :: l in alive ==> alive[l].id in running && running[alive[l].id] == l)
    }

    constructor ()
      ensures Valid() && running == map[]
    {
      running, specs, started, alive := map[], map[], 0, map[];
    }

    /** Cancels one loop. */
    method Stop(id: TargetId)
      requires Valid() && id in running
      modifies this`running, this`specs, this`alive
      ensures Valid() && running == old(running) - {id} && specs == old(specs) - {id}
    {
      alive := alive - {running[id]};
      running := running - {id};
      specs := specs - {id};
    }

    method Start(id: TargetId, spec: Spec)
      requires Valid() && id !in running
      modifies this
      ensures Valid() && started == old(started) + 1
      ensures running == old(running)[id := old(started)] && specs == old(specs)[id := spec]
    {
      alive := alive[started := Loop(id, spec)];
      running := running[id := started];
      specs := specs[id := spec];
      started := started + 1;
    }

    /** Stops the loops whose target is gone, disabled or changed. */
    method StopUnwanted(want: map<TargetId, Spec>)
      requires Valid()
      modifies this`running, this`specs, this`alive
      ensures Valid()
      ensures Kept(old(running), old(specs), want, running, specs)
    {
      var todo := running.Keys;
      while todo != {}
        invariant Valid()
        invariant forall id :: id in running <==> id in old(running) && (id in todo || (id in want && old(specs)[id] == want[id]))
        invariant forall id :: id in running ==> running[id] == old(running)[id] && specs[id] == old(specs)[id]
        invariant todo <= old(running).Keys
        decreases |todo|
      {
        var id := Pick(todo);
        todo := todo - {id};
        if !(id in want && specs[id] == want[id]) {
          Stop(id);
        }
      }
    }

    /** Starts a loop for every target that has none. */
    method StartWanted(want: map<TargetId, Spec>)
      requires Valid() && forall id :: id in specs ==> id in want && specs[id] == want[id]
      modifies this
      ensures Valid() && specs == want
      ensures old(started) <= started && Extended(old(running), old(started), running)
    {
      var todo := want.Keys;
      while todo != {}
        invariant Valid() && old(started) <= started && todo <= want.Keys
        invariant forall id :: id in specs ==> id in want && specs[id] == want[id]
        invariant forall id :: id in want ==> id in todo || id in specs
        invariant Extended(old(running), old(started), running)
        decreases |todo|
      {
        var id := Pick(todo);
        todo := todo - {id};
        if id !in running {
          Start(id, want[id]);
        }
      }
      assert specs.Keys == want.Keys;
    }

    /**
     Brings the loops in line with the targets. Afterwards exactly the enabled targets have a loop, with their current
     spec. A loop is kept if its spec did not change; every other loop is new.
     */
    method Reconcile(targets: seq<Target>)
      requires Valid()
      modifies this
      ensures Valid() && specs == Want(targets)
      ensures forall id :: id in running <==> IsEnabled(targets, id)
      ensures forall i :: LastEnabled(targets, i) ==> targets[i].id in specs && specs[targets[i].id] == targets[i].spec
      ensures Reconciled(old(running), old(specs), old(started), running, specs)
    {
      var want := Wanted(targets);
      StopUnwanted(want);
      StartWanted(want);
      forall id: TargetId ensures id in want <==> IsEnabled(targets, id) {
        WantedIsEnabled(targets, id);
      }
      forall i | LastEnabled(targets, i) ensures targets[i].id in want && want[targets[i].id] == targets[i].spec {
        LastEnabledWins(targets, i);
      }
    }
  }

  /** What is left of the loops: those whose spec is still wanted, unchanged. */
  ghost predicate Kept(before: map<TargetId, int>, beforeSpecs: map<TargetId, Spec>, want: map<TargetId, Spec>,
                       after: map<TargetId, int>, afterSpecs: map<TargetId, Spec>)
    requires before.Keys == beforeSpecs.Keys && after.Keys == afterSpecs.Keys
  {
    && (forall id :: id in after <==> id in before && id in want && beforeSpecs[id] == want[id])
    && (forall id :: id in after ==> after[id] == before[id] && afterSpecs[id] == beforeSpecs[id])
  }

  /** The loops that were there are still there, and the others were started since. */
  ghost predicate Extended(before: map<TargetId, int>, started: int, after: map<TargetId, int>) {
    && (forall id :: id in before ==> id in after && after[id] == before[id])
    && (forall id :: id in after && id !in before ==> started <= after[id])
  }

  ghost predicate Reconciled(before: map<TargetId, int>, beforeSpecs: map<TargetId, Spec>, started: int,
                             after: map<TargetId, int>, afterSpecs: map<TargetId, Spec>)
    requires before.Keys == beforeSpecs.Keys && after.Keys == afterSpecs.Keys
  {
    forall id :: id in after ==>
      if id in before && beforeSpecs[id] == afterSpecs[id] then after[id] == before[id] else started <= after[id]
  }

  method Wanted(targets: seq<Target>) returns (want: map<TargetId, Spec>)
    ensures want == Want(targets)
  {
    want := map[];
    for i := 0 to |targets|
      invariant want == Want(targets[..i])
    {
      assert targets[..i + 1][..i] == targets[..i];
      if targets[i].enabled {
        want := want[targets[i].id := targets[i].spec];
      }
    }
    assert targets[..|targets|] == targets;
  }
}
