/**
 The hub of the live dashboard: every broadcast frame is queued for every subscribed client, and a client whose buffer
 is full is evicted instead of blocking the hub.
 */
module EventHub {
  import opened Common

  const BUFFER_SIZE := 64

  type Frame = string

  // ----- what the hub does, over whole runs -----

  /** One client: how many broadcasts there were when it joined, what has been written to it, and what is queued. */
  datatype View = View(start: nat, written: seq<Frame>, queue: seq<Frame>, subscribed: bool, done: bool)

  datatype Board = Board(broadcasts: seq<Frame>, views: seq<View>)

  /** An event that cannot be encoded has no frame. Clients are numbered in the order in which they join. */
  datatype Step = Join | Publish(encoded: Option<Frame>) | Turn(client: nat, writes: bool) | Disconnect(client: nat)

  function Offered(v: View, frame: Frame): View {
    if !v.subscribed then v
    else if |v.queue| < BUFFER_SIZE then v.(queue := v.queue + [frame])
    else v.(subscribed := false)
  }

  /** The serve loop returns. */
  function Left(v: View): View {
    v.(subscribed := false, done := true)
  }

  /**
   One turn of the serve loop. A closed channel still hands out what is queued; once it is empty, or when writing to
   the connection fails, the loop returns. On an open and empty channel it waits.
   */
  function Turned(v: View, writes: bool): View {
    if |v.queue| > 0 then
      var rest := v.(queue := v.queue[1..]);
      if writes then rest.(written := v.written + [v.queue[0]]) else Left(rest)
    else if !v.subscribed then Left(v)
    else v
  }

  function OfferedAll(views: seq<View>, frame: Frame): (r: seq<View>)
    ensures |r| == |views| && forall k :: 0 <= k < |r| ==> r[k] == Offered(views[k], frame)
  {
    if |views| == 0 then [] else OfferedAll(views[..|views| - 1], frame) + [Offered(views[|views| - 1], frame)]
  }

  function Next(b: Board, step: Step): Board {
    match step
    case Join => b.(views := b.views + [View(|b.broadcasts|, [], [], true, false)])
    case Publish(encoded) =>
      if encoded.None? then b else Board(b.broadcasts + [encoded.value], OfferedAll(b.views, encoded.value))
    case Turn(k, writes) =>
      if k < |b.views| && !b.views[k].done then b.(views := b.views[k := Turned(b.views[k], writes)]) else b
    case Disconnect(k) =>
      if k < |b.views| && !b.views[k].done then b.(views := b.views[k := Left(b.views[k])]) else b
  }

  function After(steps: seq<Step>): Board {
    if |steps| == 0 then Board([], []) else Next(After(steps[..|steps| - 1]), steps[|steps| - 1])
  }

  /** The frames are consecutive broadcasts, beginning with the first one since start. */
  ghost predicate Follows(broadcasts: seq<Frame>, start: nat, frames: seq<Frame>) {
    start + |frames| <= |broadcasts| && frames == broadcasts[start..start + |frames|]
  }

  /** All broadcasts since start. */
  ghost predicate FollowsToTheEnd(broadcasts: seq<Frame>, start: nat, frames: seq<Frame>) {
    Follows(broadcasts, start, frames) && start + |frames| == |broadcasts|
  }

  lemma FollowsGrowing(broadcasts: seq<Frame>, start: nat, frames: seq<Frame>, frame: Frame)
    requires Follows(broadcasts, start, frames)
    ensures Follows(broadcasts + [frame], start, frames)
  {
    assert (broadcasts + [frame])[start..start + |frames|] == broadcasts[start..start + |frames|];
  }

  lemma FollowsNext(broadcasts: seq<Frame>, start: nat, frames: seq<Frame>, frame: Frame)
    requires FollowsToTheEnd(broadcasts, start, frames)
    ensures FollowsToTheEnd(broadcasts + [frame], start, frames + [frame])
  {
    assert (broadcasts + [frame])[start..] == broadcasts[start..] + [frame];
  }

  lemma FollowsPrefix(broadcasts: seq<Frame>, start: nat, frames: seq<Frame>, more: seq<Frame>)
    requires Follows(broadcasts, start, frames + more)
    ensures Follows(broadcasts, start, frames)
  {
    assert frames == (frames + more)[..|frames|];
  }

  /**
   Nothing is lost, repeated or reordered: what was written to a client and what is still queued are consecutive
   broadcasts since it joined, and all of them while it is subscribed.
   */
  ghost predicate GapFree(broadcasts: seq<Frame>, v: View) {
    && |v.queue| <= BUFFER_SIZE && (v.done ==> !v.subscribed)
    && Follows(broadcasts, v.start, v.written)
    && (!v.done ==> Follows(broadcasts, v.start, v.written + v.queue))
    && (v.subscribed ==> FollowsToTheEnd(broadcasts, v.start, v.written + v.queue))
  }

  /** A broadcast keeps the history of a client gap-free, whether it has room, is evicted or has left. */
  lemma OfferKeepsGapFree(broadcasts: seq<Frame>, v: View, frame: Frame)
    requires GapFree(broadcasts, v)
    ensures GapFree(broadcasts + [frame], Offered(v, frame))
  {
    FollowsGrowing(broadcasts, v.start, v.written, frame);
    if !v.done {
      FollowsGrowing(broadcasts, v.start, v.written + v.queue, frame);
    }
    if v.subscribed {
      FollowsNext(broadcasts, v.start, v.written + v.queue, frame);
      assert v.written + (v.queue + [frame]) == v.written + v.queue + [frame];
    }
  }

  lemma TurnKeepsGapFree(broadcasts: seq<Frame>, v: View, writes: bool)
    requires GapFree(broadcasts, v) && !v.done
    ensures GapFree(broadcasts, Turned(v, writes))
  {
    if |v.queue| > 0 {
      assert v.written + [v.queue[0]] + v.queue[1..] == v.written + v.queue;
      FollowsPrefix(broadcasts, v.start, v.written + [v.queue[0]], v.queue[1..]);
    }
  }

  /** After every run each client's history is gap-free. */
  lemma {:induction false} RunIsGapFree(steps: seq<Step>, k: nat)
    requires k < |After(steps).views|
    ensures GapFree(After(steps).broadcasts, After(steps).views[k])
  {
    if |steps| > 0 {
      var b, step := After(steps[..|steps| - 1]), steps[|steps| - 1];
      if k < |b.views| {
        RunIsGapFree(steps[..|steps| - 1], k);
        match step
        case Join =>
        case Publish(encoded) =>
          if encoded.Some? {
            OfferKeepsGapFree(b.broadcasts, b.views[k], encoded.value);
          }
        case Turn(_, writes) =>
          if !b.views[k].done {
            TurnKeepsGapFree(b.broadcasts, b.views[k], writes);
          }
        case Disconnect(_) =>
      }
    }
  }

  /** The step before a client is found evicted evicts it from a full buffer, or it was evicted before. */
  lemma EvictedStep(b: Board, step: Step, k: nat)
    requires k < |Next(b, step).views| && !Next(b, step).views[k].subscribed && !Next(b, step).views[k].done
    ensures k < |b.views|
    ensures var v, v' := b.views[k], Next(b, step).views[k];
      && !v.done && v'.start == v.start && v'.written + v'.queue == v.written + v.queue
      && (v.subscribed ==> step.Publish? && step.encoded.Some? && |v.queue| >= BUFFER_SIZE)
  {
    var v := b.views[k];
    if step.Turn? && step.client == k && !v.done && |v.queue| > 0 {
      assert v.written + [v.queue[0]] + v.queue[1..] == v.written + v.queue;
    }
  }

  /**
   A client whose serve loop is running loses its subscription only at a broadcast that finds its buffer full. It has
   been written, or still has queued, exactly the broadcasts between its joining and that one.
   */
  lemma {:induction false} EvictedOnlyWhenFull(steps: seq<Step>, k: nat) returns (j: nat)
    requires k < |After(steps).views| && !After(steps).views[k].subscribed && !After(steps).views[k].done
    ensures j < |steps| && steps[j].Publish? && steps[j].encoded.Some?
    ensures var before, now := After(steps[..j]), After(steps).views[k];
      && k < |before.views| && before.views[k].subscribed && |before.views[k].queue| == 64
      && FollowsToTheEnd(before.broadcasts, now.start, now.written + now.queue)
  {
    var front, step := steps[..|steps| - 1], steps[|steps| - 1];
    EvictedStep(After(front), step, k);
    if After(front).views[k].subscribed {
      j := |steps| - 1;
      RunIsGapFree(front, k);
    } else {
      j := EvictedOnlyWhenFull(front, k);
      assert front[..j] == steps[..j];
    }
  }

  /** The frames of all events that could be encoded, in order. */
  function Published(steps: seq<Step>): seq<Frame> {
    if |steps| == 0 then []
    else
      var before, step := Published(steps[..|steps| - 1]), steps[|steps| - 1];
      if step.Publish? && step.encoded.Some? then before + [step.encoded.value] else before
  }

  /** The numbers of the steps at which clients joined. */
  function Joins(steps: seq<Step>): seq<nat> {
    if |steps| == 0 then []
    else
      var before := Joins(steps[..|steps| - 1]);
      if steps[|steps| - 1].Join? then before + [|steps| - 1] else before
  }

  /** Every event that can be encoded is broadcast, and there is a client for everyone who joined. */
  lemma {:induction false} EverythingIsBroadcast(steps: seq<Step>)
    ensures After(steps).broadcasts == Published(steps) && |After(steps).views| == |Joins(steps)|
  {
    if |steps| > 0 {
      EverythingIsBroadcast(steps[..|steps| - 1]);
    }
  }

  lemma StartStays(b: Board, step: Step, k: nat)
    requires k < |b.views|
    ensures k < |Next(b, step).views| && Next(b, step).views[k].start == b.views[k].start
  {
  }

  /** A client's history starts with the first broadcast after it joined. */
  lemma {:induction false} HistoryStartsAtJoin(steps: seq<Step>, k: nat)
    requires k < |Joins(steps)|
    ensures k < |After(steps).views| && Joins(steps)[k] < |steps|
    ensures After(steps).views[k].start == |Published(steps[..Joins(steps)[k]])|
  {
    var front := steps[..|steps| - 1];
    EverythingIsBroadcast(steps);
    EverythingIsBroadcast(front);
    if k < |Joins(front)| {
      HistoryStartsAtJoin(front, k);
      StartStays(After(front), steps[|steps| - 1], k);
      assert front[..Joins(front)[k]] == steps[..Joins(front)[k]];
    }
  }

  /**
   A turn of a serve loop that is running. If frames are queued it takes the oldest one, and appends it to what was
   written unless the connection fails, which ends the loop. On an empty queue it ends the loop of an evicted client and
   does nothing for any other. No other client is affected.
   */
  lemma TurnMeans(b: Board, k: nat, writes: bool)
    requires k < |b.views| && !b.views[k].done
    ensures var v, b' := b.views[k], Next(b, Turn(k, writes));
      && b'.broadcasts == b.broadcasts && |b'.views| == |b.views|
      && (forall i :: 0 <= i < |b.views| && i != k ==> b'.views[i] == b.views[i])
      && b'.views[k] ==
        if |v.queue| > 0 && writes then View(v.start, v.written + [v.queue[0]], v.queue[1..], v.subscribed, false)
        else if |v.queue| > 0 then View(v.start, v.written, v.queue[1..], false, true)
        else View(v.start, v.written, [], v.subscribed, !v.subscribed)
  {
  }

  /** The client stays and its connection works. */
  ghost predicate Reachable(steps: seq<Step>, k: nat) {
    forall i :: 0 <= i < |steps| ==> steps[i] != Disconnect(k) && steps[i] != Turn(k, false)
  }

  /** How often its serve loop gets a turn. */
  function Turns(steps: seq<Step>, k: nat): nat {
    if |steps| == 0 then 0
    else Turns(steps[..|steps| - 1], k) + if steps[|steps| - 1] == Turn(k, true) then 1 else 0
  }

  /** The later view has the earlier one's frames, and so many more of them are written, or all. */
  ghost predicate Delivers(v: View, later: View, turns: nat) {
    && v.written + v.queue <= later.written + later.queue
    && |later.written| >= |v.written| + Min(turns, |v.queue|)
    && (later.done ==> later.queue == [])
  }

  lemma DeliversStep(v: View, b: Board, k: nat, step: Step, turns: nat)
    requires k < |b.views| && Delivers(v, b.views[k], turns) && step != Disconnect(k) && step != Turn(k, false)
    requires b.views[k].done ==> !b.views[k].subscribed
    ensures Delivers(v, Next(b, step).views[k], turns + if step == Turn(k, true) then 1 else 0)
  {
    var w := b.views[k];
    match step
    case Join =>
    case Publish(encoded) =>
      if encoded.Some? && w.subscribed && |w.queue| < BUFFER_SIZE {
        assert w.written + (w.queue + [encoded.value]) == w.written + w.queue + [encoded.value];
      }
    case Turn(c, writes) =>
      if c == k && !w.done && |w.queue| > 0 {
        assert w.written + [w.queue[0]] + w.queue[1..] == w.written + w.queue;
      }
    case Disconnect(_) =>
  }

  /**
   Whatever else happens meanwhile, after as many turns as frames were queued for a reachable client all of them are
   written, in order; after fewer turns, as many as there were turns.
   */
  lemma {:induction false} QueuedFramesAreWritten(steps: seq<Step>, more: seq<Step>, k: nat)
    requires k < |After(steps).views| && !After(steps).views[k].done && Reachable(more, k)
    ensures k < |After(steps + more).views|
    ensures Delivers(After(steps).views[k], After(steps + more).views[k], Turns(more, k))
    ensures var v := After(steps).views[k];
      v.written + v.queue[..Min(Turns(more, k), |v.queue|)] <= After(steps + more).views[k].written
  {
    if |more| == 0 {
      assert steps + more == steps;
    } else {
      var front, step := more[..|more| - 1], more[|more| - 1];
      assert (steps + more)[..|steps + more| - 1] == steps + front;
      QueuedFramesAreWritten(steps, front, k);
      RunIsGapFree(steps + front, k);
      DeliversStep(After(steps).views[k], After(steps + front), k, step, Turns(front, k));
    }
    WrittenPrefix(After(steps).views[k], After(steps + more).views[k], Turns(more, k));
  }

  lemma WrittenPrefix(v: View, later: View, turns: nat)
    requires Delivers(v, later, turns)
    ensures v.written + v.queue[..Min(turns, |v.queue|)] <= later.written
  {
    var m := |v.written| + Min(turns, |v.queue|);
    assert (v.written + v.queue)[..m] == v.written + v.queue[..Min(turns, |v.queue|)];
    assert (later.written + later.queue)[..m] == later.written[..m];
    assert forall i :: 0 <= i < m ==> (v.written + v.queue)[i] == (later.written + later.queue)[i];
  }

  // ----- the hub -----

  /** A client and its channel: closing it twice and sending on it once it is closed would both panic. */
  class Client {
    var queue: seq<Frame>
    var closed: bool
    /** What has been written to the connection, and whether the serve loop has returned. */
    var written: seq<Frame>
    var done: bool

    constructor ()
      ensures queue == [] && !closed && !done && written == []
    {
      queue, closed, done, written := [], false, false, [];
    }

    ghost predicate Shows(v: View)
      reads this
    {
      queue == v.queue && closed == !v.subscribed && written == v.written && done == v.done
    }

    /** Queues a frame unless the buffer is full. */
    method TrySend(frame: Frame) returns (ok: bool)
      requires !closed
      modifies this`queue
      ensures ok == (|old(queue)| < BUFFER_SIZE)
      ensures queue == if ok then old(queue) + [frame] else old(queue)
    {
      ok := |queue| < BUFFER_SIZE;
      if ok {
        queue := queue + [frame];
      }
    }

    method Close()
      requires !closed
      modifies this`closed
      ensures closed
    {
      closed := true;
    }
  }

  class Hub {
    var clients: set<Client>
    ghost var members: seq<Client>
    ghost var board: Board

    /** The clients are the subscribed members, each of which shows what the board says of it. */
    ghost predicate Valid()
      reads this, members
    {
      && |members| == |board.views|
      && (forall k :: 0 <= k < |members| ==> members[k].Shows(board.views[k]))
      && (forall k, l :: 0 <= k < l < |members| ==> members[k] != members[l])
      && (forall k :: 0 <= k < |members| ==> (members[k] in clients <==> board.views[k].subscribed))
      && (forall c :: c in clients ==> c in members)
    }

    constructor ()
      ensures Valid() && board == After([]) && members == []
    {
      clients, members, board := {}, [], Board([], []);
    }

    method Subscribe() returns (c: Client)
      requires Valid()
      modifies this
      ensures Valid() && fresh(c) && members == old(members) + [c]
      ensures board == Next(old(board), Join)
      ensures clients == old(clients) + {c} && c.queue == [] && c.written == [] && !c.closed && !c.done
    {
      c := new Client();
      clients := clients + {c};
      members := members + [c];
      board := Next(board, Join);
    }

    /** Offers the frame to one subscribed client, which is evicted if its buffer is full. */
    method Offer(c: Client, frame: Frame)
      requires c in clients && !c.closed
      modifies this`clients, c`queue, c`closed
      ensures var room := |old(c.queue)| < BUFFER_SIZE;
        && clients == (if room then old(clients) else old(clients) - {c})
        && c.queue == (if room then old(c.queue) + [frame] else old(c.queue))
        && c.closed == !room
    {
      var ok := c.TrySend(frame);
      if !ok {
        clients := clients - {c};
        c.Close();
      }
    }

    /** Offers the frame to every subscribed client. */
    method OfferAll(frame: Frame)
      requires forall c :: c in clients ==> !c.closed
      modifies this`clients, clients`queue, clients`closed
      ensures forall c :: c in clients <==> c in old(clients) && |old(c.queue)| < BUFFER_SIZE
      ensures forall c :: c in old(clients) ==> c.closed == (c !in clients)
      ensures forall c :: c in old(clients) ==> c.queue == if c in clients then old(c.queue) + [frame] else old(c.queue)
    {
      ghost var all := clients;
      var todo := clients;
      while todo != {}
        invariant todo <= clients <= all
        invariant forall c :: c in todo ==> c.queue == old(c.queue) && !c.closed
        invariant forall c :: c in all - todo ==> (c in clients <==> |old(c.queue)| < BUFFER_SIZE)
        invariant forall c :: c in all - todo ==> c.closed == (c !in clients)
        invariant forall c :: c in all - todo ==> c.queue == if c in clients then old(c.queue) + [frame] else old(c.queue)
        decreases |todo|
      {
        var c := Pick(todo);
        todo := todo - {c};
        Offer(c, frame);
      }
    }

    /** Queues an event for every client; an event that cannot be encoded is dropped. */
    method Broadcast(encoded: Option<Frame>)
      requires Valid()
      modifies this, clients`queue, clients`closed
      ensures Valid() && members == old(members)
      ensures board == Next(old(board), Publish(encoded))
      ensures encoded.None? ==> clients == old(clients)
      ensures encoded.None? ==> forall c :: c in old(clients) ==> c.queue == old(c.queue) && c.closed == old(c.closed)
      ensures encoded.Some? ==> forall c :: c in clients <==> c in old(clients) && |old(c.queue)| < 64
      ensures encoded.Some? ==> forall c :: c in old(clients) ==>
        && c.closed == (c !in clients)
        && c.queue == if c in clients then old(c.queue) + [encoded.value] else old(c.queue)
    {
      if encoded.None? {
        return;
      }
      forall c | c in clients ensures !c.closed {
        var k :| 0 <= k < |members| && members[k] == c;
      }
      OfferAll(encoded.value);
      board := Next(board, Publish(encoded));
    }

    /** The serve loop of a client returns: it unsubscribes unless it was evicted before. */
    method Leave(c: Client, ghost k: nat)
      requires Valid() && k < |members| && c == members[k] && !c.done
      modifies this`clients, this`board, c`closed, c`done
      ensures Valid() && board == Next(old(board), Disconnect(k))
      ensures clients == old(clients) - {c} && c.closed && c.done
    {
      if c in clients {
        clients := clients - {c};
        c.Close();
      }
      c.done := true;
      board := Next(board, Disconnect(k));
    }

    /** One turn of the serve loop of a client. */
    method Deliver(c: Client, ghost k: nat, writes: bool)
      requires Valid() && k < |members| && c == members[k] && !c.done
      modifies this`clients, this`board, c
      ensures Valid() && board == Next(old(board), Turn(k, writes))
      ensures |old(c.queue)| > 0 ==> c.queue == old(c.queue)[1..]
      ensures |old(c.queue)| > 0 ==> c.written == if writes then old(c.written) + [old(c.queue)[0]] else old(c.written)
      ensures |old(c.queue)| > 0 && writes ==> !c.done && c.closed == old(c.closed) && clients == old(clients)
      ensures |old(c.queue)| > 0 && !writes ==> c.done && c.closed && clients == old(clients) - {c}
      ensures |old(c.queue)| == 0 ==> c.queue == [] && c.written == old(c.written) && clients == old(clients)
      ensures |old(c.queue)| == 0 ==> c.closed == c.done == old(c.closed)
    {
      ghost var after := Next(board, Turn(k, writes));
      if |c.queue| > 0 {
        var frame := c.queue[0];
        c.queue := c.queue[1..];
        board := board.(views := board.views[k := board.views[k].(queue := c.queue)]);
        if writes {
          c.written := c.written + [frame];
          board := after;
        } else {
          Leave(c, k);
        }
      } else if c.closed {
        Leave(c, k);
      }
      assert board.views == after.views;
    }
  }

  method Perform(h: Hub, joined: seq<Client>, step: Step) returns (now: seq<Client>)
    requires h.Valid() && h.members == joined
    modifies h, h.members
    ensures h.Valid() && h.members == now && fresh(set c | c in now && c !in joined)
    ensures h.board == Next(old(h.board), step)
  {
    now := joined;
    match step
    case Join =>
      var c := h.Subscribe();
      now := joined + [c];
    case Publish(encoded) => h.Broadcast(encoded);
    case Turn(k, writes) =>
      if k < |joined| && !joined[k].done {
        h.Deliver(joined[k], k, writes);
      }
    case Disconnect(k) =>
      if k < |joined| && !joined[k].done {
        h.Leave(joined[k], k);
      }
  }

  /** The hub does what its steps prescribe, so every client of it sees a gap-free history. */
  method RunHub(steps: seq<Step>) returns (h: Hub, joined: seq<Client>)
    ensures fresh(h) && fresh(set c | c in joined) && h.Valid() && h.members == joined
    ensures h.board == After(steps) && h.board.broadcasts == Published(steps) && |joined| == |Joins(steps)|
    ensures forall k :: 0 <= k < |joined| ==> joined[k].Shows(h.board.views[k]) && GapFree(h.board.broadcasts, h.board.views[k])
  {
    if |steps| == 0 {
      h := new Hub();
      joined := [];
    } else {
      h, joined := RunHub(steps[..|steps| - 1]);
      joined := Perform(h, joined, steps[|steps| - 1]);
    }
    EverythingIsBroadcast(steps);
    forall k | 0 <= k < |joined| ensures GapFree(h.board.broadcasts, h.board.views[k]) {
      RunIsGapFree(steps, k);
    }
  }
}
