/** The server-sent-events broker: one bounded queue per subscriber that drops its oldest event when full. */
module Broker {
  import opened Payloads

  /** A queue, and what became of the events put in it. `lost` counts dropped events, `taken` are those the
      subscriber has consumed. */
  datatype Mailbox<T> = Mailbox(queue: seq<T>, taken: seq<T>, lost: nat)

  /** `asyncio.Queue(maxsize)`: unbounded when `maxsize` is not positive. */
  predicate Full<T>(queue: seq<T>, maxsize: int) {
    maxsize > 0 && |queue| >= maxsize
  }

  /** The queue after an event arrives. */
  function Push<T>(queue: seq<T>, event: T, maxsize: int): seq<T> {
    if Full(queue, maxsize) then queue[1..] + [event] else queue + [event]
  }

  class SSEBroker {
    var subscribers: map<nat, seq<Json>>
    const maxsize: int

    constructor (maxsize: int)
      ensures subscribers == map[] && this.maxsize == maxsize
    {
      this.maxsize := maxsize;
      subscribers := map[];
    }

    method Subscribe(id: nat)
      modifies this
      ensures subscribers == old(subscribers)[id := []]
    {
      subscribers := subscribers[id := []];
    }

    method Unsubscribe(id: nat)
      modifies this
      ensures subscribers == old(subscribers) - {id}
    {
      subscribers := subscribers - {id};
    }

    method PutDroppingOldest(id: nat, event: Json)
      requires id in subscribers
      modifies this
      ensures subscribers == old(subscribers)[id := Push(old(subscribers)[id], event, maxsize)]
      ensures var was := old(subscribers)[id];
              subscribers[id] == (if maxsize <= 0 || |was| < maxsize then was else was[1..]) + [event]
    {
      var queue := subscribers[id];
      if maxsize > 0 && |queue| >= maxsize {
        queue := queue[1..];
      }
      subscribers := subscribers[id := queue + [event]];
    }

    /** Every subscriber gets the event, in whatever order the snapshot lists them. */
    method Broadcast(event: Json)
      modifies this
      ensures subscribers.Keys == old(subscribers).Keys
      ensures forall id :: id in subscribers ==> subscribers[id] == Push(old(subscribers)[id], event, maxsize)
    {
      ghost var was := subscribers;
      var todo := subscribers.Keys;
      while todo != {}
        invariant todo <= was.Keys == subscribers.Keys
        invariant forall id :: id in todo ==> subscribers[id] == was[id]
        invariant forall id :: id in was && id !in todo ==> subscribers[id] == Push(was[id], event, maxsize)
        decreases |todo|
      {
        var id :| id in todo;
        PutDroppingOldest(id, event);
        todo := todo - {id};
      }
    }
  }

  // ---- One subscriber's queue over a whole run ----

  datatype Step<T> = Put(event: T) | Take

  function Next<T>(m: Mailbox<T>, s: Step<T>, maxsize: int): Mailbox<T> {
    match s
    case Put(event) =>
      Mailbox(Push(m.queue, event, maxsize), m.taken, m.lost + (if Full(m.queue, maxsize) then 1 else 0))
    case Take => if m.queue == [] then m else Mailbox(m.queue[1..], m.taken + [m.queue[0]], m.lost)
  }

  function Run<T>(m: Mailbox<T>, steps: seq<Step<T>>, maxsize: int): Mailbox<T>
    decreases |steps|
  {
    if steps == [] then m else Run(Next(m, steps[0], maxsize), steps[1..], maxsize)
  }

  /** The events broadcast during the steps. */
  function Events<T>(steps: seq<Step<T>>): seq<T> {
    if steps == [] then []
    else (if steps[0].Put? then [steps[0].event] else []) + Events(steps[1..])
  }

  /** Where the consumed events stand in the history: increasing positions. */
  ghost predicate Picks<T>(taken: seq<T>, history: seq<T>, at: seq<nat>, below: nat) {
    && |at| == |taken| && below <= |history|
    && (forall i :: 0 <= i < |at| ==> at[i] < below && taken[i] == history[at[i]])
    && (forall i, j :: 0 <= i < j < |at| ==> at[i] < at[j])
  }

  ghost predicate Selected<T>(taken: seq<T>, history: seq<T>, below: nat) {
    exists at :: Picks(taken, history, at, below)
  }

  /** The queue is a suffix of the history and within bounds, what was consumed is an in-order selection of
      what came before, and no event is unaccounted for. */
  ghost predicate Accounted<T>(m: Mailbox<T>, history: seq<T>, maxsize: int) {
    && |m.taken| + m.lost + |m.queue| == |history|
    && (maxsize > 0 ==> |m.queue| <= maxsize)
    && m.queue == history[|history| - |m.queue|..]
    && Selected(m.taken, history, |history| - |m.queue|)
    && (m.lost == 0 ==> m.taken == history[..|m.taken|])
  }

  lemma PutKeeps<T>(m: Mailbox<T>, event: T, history: seq<T>, maxsize: int)
    requires Accounted(m, history, maxsize)
    ensures Accounted(Next(m, Put(event), maxsize), history + [event], maxsize)
  {
    var t, all := Next(m, Put(event), maxsize), history + [event];
    var at :| Picks(m.taken, history, at, |history| - |m.queue|);
    assert Picks(t.taken, all, at, |all| - |t.queue|);
    assert t.queue == all[|all| - |t.queue|..];
    assert m.lost == 0 ==> all[..|m.taken|] == history[..|m.taken|];
  }

  lemma TakeKeeps<T>(m: Mailbox<T>, history: seq<T>, maxsize: int)
    requires Accounted(m, history, maxsize)
    ensures Accounted(Next(m, Take, maxsize), history, maxsize)
  {
    if m.queue != [] {
      var t := Next(m, Take, maxsize);
      var at :| Picks(m.taken, history, at, |history| - |m.queue|);
      var here: nat := |history| - |m.queue|;
      assert m.queue[0] == history[here];
      assert Picks(t.taken, history, at + [here], here + 1);
      assert t.queue == history[|history| - |t.queue|..];
      if m.lost == 0 {
        assert here == |m.taken|;
        assert t.taken == history[..|m.taken| + 1];
      }
    }
  }

  lemma EventsNext<T>(history: seq<T>, steps: seq<Step<T>>)
    requires steps != []
    ensures history + Events(steps) ==
            (if steps[0].Put? then history + [steps[0].event] else history) + Events(steps[1..])
  {
    if steps[0].Put? {
      assert Events(steps) == [steps[0].event] + Events(steps[1..]);
    } else {
      assert Events(steps) == [] + Events(steps[1..]);
    }
  }

  lemma {:induction false} RunKeeps<T>(m: Mailbox<T>, history: seq<T>, steps: seq<Step<T>>, maxsize: int)
    requires Accounted(m, history, maxsize)
    ensures Accounted(Run(m, steps, maxsize), history + Events(steps), maxsize)
    decreases |steps|
  {
    if steps == [] {
      assert history + [] == history;
    } else {
      var s := steps[0];
      EventsNext(history, steps);
      if s.Put? {
        PutKeeps(m, s.event, history, maxsize);
        RunKeeps(Next(m, s, maxsize), history + [s.event], steps[1..], maxsize);
      } else {
        TakeKeeps(m, history, maxsize);
        RunKeeps(Next(m, s, maxsize), history, steps[1..], maxsize);
      }
    }
  }

  /** Over every interleaving of broadcasts and reads since its subscription. */
  lemma QueueAccounted<T>(steps: seq<Step<T>>, maxsize: int)
    ensures Accounted(Run(Mailbox([], [], 0), steps, maxsize), Events(steps), maxsize)
  {
    var at: seq<nat> := [];
    assert Picks<T>([], [], at, 0);
    RunKeeps<T>(Mailbox([], [], 0), [], steps, maxsize);
    assert [] + Events(steps) == Events(steps);
  }

  /** Room for the next event at every put: no bound, or fewer than `maxsize` queued. */
  predicate AlwaysRoom<T>(m: Mailbox<T>, steps: seq<Step<T>>, maxsize: int)
    decreases |steps|
  {
    steps == [] ||
    ((steps[0].Put? ==> maxsize <= 0 || |m.queue| < maxsize) && AlwaysRoom(Next(m, steps[0], maxsize), steps[1..], maxsize))
  }

  lemma {:induction false} LostExactlyWithoutRoom<T>(m: Mailbox<T>, steps: seq<Step<T>>, maxsize: int)
    ensures Run(m, steps, maxsize).lost >= m.lost
    ensures Run(m, steps, maxsize).lost == m.lost <==> AlwaysRoom(m, steps, maxsize)
    decreases |steps|
  {
    if steps != [] {
      LostExactlyWithoutRoom(Next(m, steps[0], maxsize), steps[1..], maxsize);
    }
  }

  /** Consumed followed by queued is the whole history if and only if there was room at every put. */
  lemma NothingLostExactly<T>(steps: seq<Step<T>>, maxsize: int)
    ensures var m := Run(Mailbox([], [], 0), steps, maxsize);
            && (m.lost == 0 <==> m.taken + m.queue == Events(steps))
            && (AlwaysRoom(Mailbox([], [], 0), steps, maxsize) <==> m.taken + m.queue == Events(steps))
  {
    LostExactlyWithoutRoom<T>(Mailbox([], [], 0), steps, maxsize);
    QueueAccounted(steps, maxsize);
    var m, history := Run(Mailbox([], [], 0), steps, maxsize), Events(steps);
    if m.lost == 0 {
      assert history == history[..|m.taken|] + history[|m.taken|..];
    }
  }
}
