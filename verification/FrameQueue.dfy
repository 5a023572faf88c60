/** Frame ingress sharded by node (backend/core/frame_queue.py), with the one worker
    per shard that backend/main.py starts.

    `State` is the queue with its workers as a value and `Step` one atomic action of a
    producer, a worker or a drain; `ShardedFrameQueue` is the class itself, whose
    methods are proved to be exactly those steps on the heap. */
module FrameQueue {
  import opened Wrappers

  datatype Item = Item(node: string, frame: string)

  /** One `asyncio.Queue`: what waits in it, and what it still counts as unfinished. */
  datatype Shard = Shard(items: seq<Item>, unfinished: int)

  /** The shards, the worker of each (`inFlight[s]` is the frame it is processing), and
      the history the ordering claim is about: frames accepted, taken by anybody,
      taken by a worker, and finished by one. `owed[s]` counts frames drained from
      shard `s` that have not been marked done. */
  datatype State = State(
    maxsize: int,
    shards: seq<Shard>,
    lastGet: Option<nat>,
    inFlight: seq<Option<Item>>,
    accepted: seq<Item>,
    taken: seq<Item>,
    handled: seq<Item>,
    finished: seq<Item>,
    owed: seq<nat>
  )

  datatype Event = Put(item: Item) | Take(shard: nat) | Finish(shard: nat) | Drain | DrainDone

  type Hash = string -> nat

  /** How many shards a queue asked for `shards` of them gets. */
  function ShardCount(shards: int): nat {
    if shards < 1 then 1 else shards
  }

  /** `shard_for`: crc32 modulo the number of shards, as a function of the node alone. */
  function Route(crc: Hash, shards: nat): (route: Hash)
    requires shards > 0
    ensures Routes(route, shards)
  {
    node => crc(node) % shards
  }

  /** A checksum that is a shard's number is that shard. */
  lemma SmallChecksumsAreShards(crc: Hash, shards: nat, node: string)
    requires crc(node) < shards
    ensures Route(crc, shards)(node) == crc(node)
  {
    assert crc(node) % shards == crc(node);
  }

  ghost predicate Routes(route: Hash, shards: nat) {
    forall node :: route(node) < shards
  }

  /** Frames waiting in every shard; frames in flight are not counted. */
  function Backlog(shards: seq<Shard>): nat {
    if shards == [] then 0 else Backlog(shards[..|shards| - 1]) + |shards[|shards| - 1].items|
  }

  predicate Full(maxsize: int, backlog: nat) {
    maxsize > 0 && backlog >= maxsize
  }

  function FirstNonEmpty(shards: seq<Shard>, from: nat): (index: Option<nat>)
    requires from <= |shards|
    ensures index.Some? ==> from <= index.value < |shards| && shards[index.value].items != []
    ensures index.Some? ==> forall s :: from <= s < index.value ==> shards[s].items == []
    ensures index.None? ==> forall s :: from <= s < |shards| ==> shards[s].items == []
    decreases |shards| - from
  {
    if from == |shards| then None
    else if shards[from].items != [] then Some(from)
    else FirstNonEmpty(shards, from + 1)
  }

  function Init(maxsize: int, shards: int): State {
    var n := ShardCount(shards);
    State(maxsize, seq(n, _ => Shard([], 0)), None, seq(n, _ => None), [], [], [], [], seq(n, _ => 0))
  }

  predicate Shaped(st: State) {
    && |st.shards| > 0
    && |st.inFlight| == |st.shards|
    && |st.owed| == |st.shards|
    && (st.lastGet.Some? ==> st.lastGet.value < |st.shards|)
  }

  /** Take the oldest frame of shard `s`. */
  function Popped(st: State, s: nat): State
    requires Shaped(st) && s < |st.shards| && st.shards[s].items != []
  {
    var shard := st.shards[s];
    st.(shards := st.shards[s := shard.(items := shard.items[1..])], taken := st.taken + [shard.items[0]])
  }

  function MarkDone(st: State, s: nat): State
    requires Shaped(st) && s < |st.shards|
  {
    st.(shards := st.shards[s := st.shards[s].(unfinished := st.shards[s].unfinished - 1)])
  }

  /** One atomic action. A refused put, a drain of an empty queue, and a worker that has
      nothing to take or nothing to finish all change nothing. */
  function Step(route: Hash, st: State, e: Event): State
    requires Shaped(st) && Routes(route, |st.shards|)
  {
    match e
    case Put(item) =>
      if Full(st.maxsize, Backlog(st.shards)) then st
      else
        var s := route(item.node);
        var shard := st.shards[s];
        st.(shards := st.shards[s := Shard(shard.items + [item], shard.unfinished + 1)],
            accepted := st.accepted + [item])
    case Take(s) =>
      if s < |st.shards| && st.inFlight[s].None? && st.shards[s].items != [] then
        var item := st.shards[s].items[0];
        Popped(st, s).(inFlight := st.inFlight[s := Some(item)], handled := st.handled + [item])
      else st
    case Finish(s) =>
      if s < |st.shards| && st.inFlight[s].Some? then
        MarkDone(st, s).(inFlight := st.inFlight[s := None], finished := st.finished + [st.inFlight[s].value])
      else st
    case Drain =>
      (match FirstNonEmpty(st.shards, 0)
       case None => st
       case Some(s) => Popped(st, s).(lastGet := Some(s), owed := st.owed[s := st.owed[s] + 1]))
    case DrainDone =>
      (match st.lastGet
       case None => st
       case Some(s) =>
         MarkDone(st, s).(lastGet := None, owed := st.owed[s := if st.owed[s] > 0 then st.owed[s] - 1 else 0]))
  }

  function Run(route: Hash, st: State, events: seq<Event>): (r: State)
    requires Shaped(st) && Routes(route, |st.shards|)
    ensures Shaped(r) && |r.shards| == |st.shards|
    decreases |events|
  {
    if events == [] then st
    else Step(route, Run(route, st, events[..|events| - 1]), events[|events| - 1])
  }

  // ── one node's frames, wherever they are ──────────────────────────────────

  function ByNode(items: seq<Item>, node: string): seq<Item> {
    if items == [] then []
    else
      var last := items[|items| - 1];
      ByNode(items[..|items| - 1], node) + if last.node == node then [last] else []
  }

  /** The node's frames waiting in any shard, shard by shard. */
  function Queued(shards: seq<Shard>, node: string): seq<Item> {
    if shards == [] then []
    else Queued(shards[..|shards| - 1], node) + ByNode(shards[|shards| - 1].items, node)
  }

  /** The node's frames being processed by any worker, shard by shard. */
  function InFlight(inFlight: seq<Option<Item>>, node: string): seq<Item> {
    if inFlight == [] then []
    else InFlight(inFlight[..|inFlight| - 1], node) + Holding(inFlight[|inFlight| - 1], node)
  }

  function Holding(slot: Option<Item>, node: string): seq<Item> {
    if slot.Some? && slot.value.node == node then [slot.value] else []
  }

  lemma {:induction false} ByNodeConcat(a: seq<Item>, b: seq<Item>, node: string)
    ensures ByNode(a + b, node) == ByNode(a, node) + ByNode(b, node)
  {
    if b == [] {
      assert a + b == a;
    } else {
      assert (a + b)[..|a + b| - 1] == a + b[..|b| - 1];
      ByNodeConcat(a, b[..|b| - 1], node);
    }
  }

  lemma {:induction false} ByNodeAbsent(items: seq<Item>, node: string)
    requires forall i :: 0 <= i < |items| ==> items[i].node != node
    ensures ByNode(items, node) == []
  {
    if items != [] { ByNodeAbsent(items[..|items| - 1], node); }
  }

  /** When a node's frames are only ever in its own shard, gathering them from every
      shard is reading that one. */
  lemma {:induction false} QueuedInOwnShard(shards: seq<Shard>, node: string, own: nat)
    requires forall s, i :: 0 <= s < |shards| && s != own && 0 <= i < |shards[s].items| ==>
                              shards[s].items[i].node != node
    ensures Queued(shards, node) == if own < |shards| then ByNode(shards[own].items, node) else []
  {
    if shards != [] {
      var k := |shards| - 1;
      QueuedInOwnShard(shards[..k], node, own);
      if own != k { ByNodeAbsent(shards[k].items, node); }
    }
  }

  lemma {:induction false} InFlightInOwnShard(slots: seq<Option<Item>>, node: string, own: nat)
    requires forall s :: 0 <= s < |slots| && s != own && slots[s].Some? ==> slots[s].value.node != node
    ensures InFlight(slots, node) == if own < |slots| then Holding(slots[own], node) else []
  {
    if slots != [] { InFlightInOwnShard(slots[..|slots| - 1], node, own); }
  }

  lemma {:induction false} BacklogUpdate(shards: seq<Shard>, s: nat, shard: Shard)
    requires s < |shards|
    ensures Backlog(shards[s := shard]) == Backlog(shards) - |shards[s].items| + |shard.items|
  {
    var k := |shards| - 1;
    if s == k {
      assert shards[s := shard][..k] == shards[..k];
    } else {
      assert shards[s := shard][..k] == shards[..k][s := shard];
      BacklogUpdate(shards[..k], s, shard);
    }
  }

  // ── what every step keeps ─────────────────────────────────────────────────

  /** Every waiting frame and every frame in flight is in its node's own shard. */
  predicate Routed(route: Hash, st: State)
    requires Shaped(st) && Routes(route, |st.shards|)
  {
    var n := |st.shards|;
    && (forall s, i :: 0 <= s < n && 0 <= i < |st.shards[s].items| ==>
                         route(st.shards[s].items[i].node) == s)
    && (forall s :: 0 <= s < n && st.inFlight[s].Some? ==> route(st.inFlight[s].value.node) == s)
  }

  predicate NodeOrder(route: Hash, st: State, node: string)
    requires Shaped(st) && Routes(route, |st.shards|)
  {
    var own := route(node);
    && ByNode(st.accepted, node) == ByNode(st.taken, node) + ByNode(st.shards[own].items, node)
    && ByNode(st.handled, node) == ByNode(st.finished, node) + Holding(st.inFlight[own], node)
  }

  /** `unfinished` is what waits, what is in flight and what was drained unmarked. */
  predicate Counted(st: State)
    requires Shaped(st)
  {
    && (forall s :: 0 <= s < |st.shards| ==>
                      st.shards[s].unfinished == |st.shards[s].items| + |InFlightAt(st, s)| + st.owed[s])
    && (st.lastGet.Some? ==> st.owed[st.lastGet.value] > 0)
    && (st.maxsize > 0 ==> Backlog(st.shards) <= st.maxsize)
  }

  function InFlightAt(st: State, s: nat): seq<Item>
    requires Shaped(st) && s < |st.shards|
  {
    if st.inFlight[s].Some? then [st.inFlight[s].value] else []
  }

  lemma StepKeepsRouting(route: Hash, st: State, e: Event)
    requires Shaped(st) && Routes(route, |st.shards|) && Routed(route, st)
    ensures Shaped(Step(route, st, e)) && Routed(route, Step(route, st, e))
  {
  }

  /** Only shard `s` changes, by as much as the counts beside it do. */
  lemma OneShardKeepsCounts(st: State, r: State, s: nat)
    requires Shaped(st) && Shaped(r) && Counted(st) && s < |st.shards|
    requires |r.shards| == |st.shards| && r.shards == st.shards[s := r.shards[s]] && r.maxsize == st.maxsize
    requires r.shards[s].unfinished == |r.shards[s].items| + |InFlightAt(r, s)| + r.owed[s]
    requires forall t :: 0 <= t < |st.shards| && t != s ==> r.inFlight[t] == st.inFlight[t] && r.owed[t] == st.owed[t]
    requires r.lastGet.Some? ==> r.owed[r.lastGet.value] > 0
    requires |r.shards[s].items| <= |st.shards[s].items| || (st.maxsize > 0 ==> Backlog(r.shards) <= st.maxsize)
    ensures Counted(r)
  {
    BacklogUpdate(st.shards, s, r.shards[s]);
  }

  lemma PutKeepsCounts(route: Hash, st: State, item: Item)
    requires Shaped(st) && Routes(route, |st.shards|) && Counted(st)
    ensures Counted(Step(route, st, Put(item)))
  {
    if !Full(st.maxsize, Backlog(st.shards)) {
      var s, r := route(item.node), Step(route, st, Put(item));
      BacklogUpdate(st.shards, s, r.shards[s]);
      OneShardKeepsCounts(st, r, s);
    }
  }

  lemma DrainKeepsCounts(route: Hash, st: State, e: Event)
    requires Shaped(st) && Routes(route, |st.shards|) && Counted(st) && (e.Drain? || e.DrainDone?)
    ensures Counted(Step(route, st, e))
  {
    var index := if e.Drain? then FirstNonEmpty(st.shards, 0) else st.lastGet;
    if index.Some? { OneShardKeepsCounts(st, Step(route, st, e), index.value); }
  }

  lemma WorkKeepsCounts(route: Hash, st: State, e: Event)
    requires Shaped(st) && Routes(route, |st.shards|) && Counted(st) && (e.Take? || e.Finish?)
    ensures Counted(Step(route, st, e))
  {
    if e.shard < |st.shards| && Step(route, st, e) != st { OneShardKeepsCounts(st, Step(route, st, e), e.shard); }
  }

  lemma StepKeepsCounts(route: Hash, st: State, e: Event)
    requires Shaped(st) && Routes(route, |st.shards|) && Counted(st)
    ensures Counted(Step(route, st, e))
  {
    match e
    case Put(item) => PutKeepsCounts(route, st, item);
    case Take(_) => WorkKeepsCounts(route, st, e);
    case Finish(_) => WorkKeepsCounts(route, st, e);
    case _ => DrainKeepsCounts(route, st, e);
  }

  lemma MovesHead(taken: seq<Item>, items: seq<Item>, node: string)
    requires items != []
    ensures ByNode(taken + [items[0]], node) + ByNode(items[1..], node) == ByNode(taken, node) + ByNode(items, node)
  {
    ByNodeConcat(taken, [items[0]], node);
    ByNodeConcat([items[0]], items[1..], node);
    assert items == [items[0]] + items[1..];
  }

  lemma Appends(items: seq<Item>, item: Item, node: string)
    ensures ByNode(items + [item], node) == ByNode(items, node) + Holding(Some(item), node)
  {
    ByNodeConcat(items, [item], node);
  }

  lemma PopKeepsOrder(route: Hash, st: State, s: nat, node: string)
    requires Shaped(st) && Routes(route, |st.shards|) && s < |st.shards| && st.shards[s].items != []
    requires route(st.shards[s].items[0].node) == s && NodeOrder(route, st, node)
    ensures NodeOrder(route, Popped(st, s), node)
  {
    var items := st.shards[s].items;
    if route(node) == s {
      MovesHead(st.taken, items, node);
    } else {
      Appends(st.taken, items[0], node);
    }
  }

  lemma NothingAdded(items: seq<Item>)
    ensures items + [] == items
  {
  }

  lemma TakeKeepsOrder(route: Hash, st: State, s: nat, node: string)
    requires Shaped(st) && Routes(route, |st.shards|) && s < |st.shards| && st.shards[s].items != []
    requires route(st.shards[s].items[0].node) == s && NodeOrder(route, st, node) && st.inFlight[s].None?
    ensures NodeOrder(route, Step(route, st, Take(s)), node)
  {
    var own, item, r := route(node), st.shards[s].items[0], Step(route, st, Take(s));
    PopKeepsOrder(route, st, s, node);
    assert r.accepted == st.accepted && r.taken == Popped(st, s).taken && r.shards == Popped(st, s).shards;
    Appends(st.handled, item, node);
    if s == own {
      NothingAdded(ByNode(st.finished, node));
    } else {
      NothingAdded(ByNode(st.handled, node));
    }
  }

  lemma PutQueuesLast(route: Hash, st: State, item: Item, node: string)
    requires Shaped(st) && Routes(route, |st.shards|) && !Full(st.maxsize, Backlog(st.shards))
    ensures var own := route(node);
            ByNode(Step(route, st, Put(item)).shards[own].items, node)
            == ByNode(st.shards[own].items, node) + Holding(Some(item), node)
  {
    var items := st.shards[route(node)].items;
    if route(item.node) == route(node) {
      Appends(items, item, node);
    } else {
      assert ByNode(items, node) + [] == ByNode(items, node);
    }
  }

  lemma Regroup(all: seq<Item>, taken: seq<Item>, queued: seq<Item>, added: seq<Item>)
    requires all == taken + queued
    ensures all + added == taken + (queued + added)
  {
  }

  lemma PutKeepsOrder(route: Hash, st: State, item: Item, node: string)
    requires Shaped(st) && Routes(route, |st.shards|) && NodeOrder(route, st, node)
    ensures NodeOrder(route, Step(route, st, Put(item)), node)
  {
    if !Full(st.maxsize, Backlog(st.shards)) {
      Appends(st.accepted, item, node);
      PutQueuesLast(route, st, item, node);
      Regroup(ByNode(st.accepted, node), ByNode(st.taken, node), ByNode(st.shards[route(node)].items, node),
              Holding(Some(item), node));
    }
  }

  lemma FinishKeepsOrder(route: Hash, st: State, s: nat, node: string)
    requires Shaped(st) && Routes(route, |st.shards|) && NodeOrder(route, st, node)
    requires s < |st.shards| && st.inFlight[s].Some? ==> route(st.inFlight[s].value.node) == s
    ensures NodeOrder(route, Step(route, st, Finish(s)), node)
  {
    if s < |st.shards| && st.inFlight[s].Some? {
      var own, item, r := route(node), st.inFlight[s].value, Step(route, st, Finish(s));
      var done, held := ByNode(st.finished, node), Holding(Some(item), node);
      Appends(st.finished, item, node);
      assert r.shards[own].items == st.shards[own].items;
      if s == own {
        assert (done + held) + [] == done + held;
      } else {
        assert held == [] && done + [] == done;
      }
    }
  }

  lemma StepKeepsNodeOrder(route: Hash, st: State, e: Event, node: string)
    requires Shaped(st) && Routes(route, |st.shards|) && Routed(route, st) && NodeOrder(route, st, node)
    ensures NodeOrder(route, Step(route, st, e), node)
  {
    var r := Step(route, st, e);
    if r == st { return; }
    match e
    case Put(item) => PutKeepsOrder(route, st, item, node);
    case Take(s) =>
      TakeKeepsOrder(route, st, s, node);
    case Finish(s) =>
      FinishKeepsOrder(route, st, s, node);
    case Drain =>
      var s := FirstNonEmpty(st.shards, 0).value;
      PopKeepsOrder(route, st, s, node);
      assert r.taken == Popped(st, s).taken && r.shards == Popped(st, s).shards;
    case DrainDone =>
      assert r.accepted == st.accepted && r.taken == st.taken;
  }

  ghost predicate Inv(route: Hash, st: State) {
    && Shaped(st) && Routes(route, |st.shards|) && Routed(route, st) && Counted(st)
    && forall node :: NodeOrder(route, st, node)
  }

  lemma {:induction false} BacklogOfEmpty(n: nat)
    ensures Backlog(seq(n, _ => Shard([], 0))) == 0
  {
    if n > 0 {
      assert seq(n, _ => Shard([], 0))[..n - 1] == seq(n - 1, _ => Shard([], 0));
      BacklogOfEmpty(n - 1);
    }
  }

  lemma {:induction false} RunKeepsInv(route: Hash, maxsize: int, shards: int, events: seq<Event>)
    requires Routes(route, ShardCount(shards))
    ensures Shaped(Init(maxsize, shards)) && Inv(route, Run(route, Init(maxsize, shards), events))
  {
    var init := Init(maxsize, shards);
    if events == [] {
      BacklogOfEmpty(|init.shards|);
    } else {
      var rest := events[..|events| - 1];
      RunKeepsInv(route, maxsize, shards, rest);
      var st := Run(route, init, rest);
      var last := events[|events| - 1];
      var r := Step(route, st, last);
      StepKeepsRouting(route, st, last);
      StepKeepsCounts(route, st, last);
      forall node ensures NodeOrder(route, r, node) {
        assert NodeOrder(route, st, node);
        StepKeepsNodeOrder(route, st, last, node);
      }
    }
  }

  lemma {:induction false} WithoutDrainsAllTakingIsWorkers(route: Hash, st: State, events: seq<Event>)
    requires Shaped(st) && Routes(route, |st.shards|) && st.taken == st.handled
    requires forall i :: 0 <= i < |events| ==> !events[i].Drain?
    ensures Run(route, st, events).taken == Run(route, st, events).handled
  {
    if events != [] { WithoutDrainsAllTakingIsWorkers(route, st, events[..|events| - 1]); }
  }

  // ── the claims ────────────────────────────────────────────────────────────

  /** Over every interleaving of producers and the one-per-shard workers, a node's
      accepted frames are those finished, then the one in flight, then those waiting,
      in the order they were put; and never two of them are in flight at once,
      whichever workers one looks at. */
  lemma PerNodeOrder(route: Hash, maxsize: int, shards: int, events: seq<Event>, node: string)
    requires Routes(route, ShardCount(shards))
    requires forall i :: 0 <= i < |events| ==> !events[i].Drain?
    ensures var st := Run(route, Init(maxsize, shards), events);
            && ByNode(st.accepted, node)
               == ByNode(st.finished, node) + InFlight(st.inFlight, node) + Queued(st.shards, node)
            && |InFlight(st.inFlight, node)| <= 1
            && (maxsize > 0 ==> Backlog(st.shards) <= maxsize)
  {
    var init := Init(maxsize, shards);
    var st := Run(route, init, events);
    RunKeepsInv(route, maxsize, shards, events);
    WithoutDrainsAllTakingIsWorkers(route, init, events);
    var own := route(node);
    assert NodeOrder(route, st, node);
    QueuedInOwnShard(st.shards, node, own);
    InFlightInOwnShard(st.inFlight, node, own);
    WaitingIsUntaken(route, maxsize, shards, events);
  }

  /** Drains mixed in: frames still leave each node's queue oldest first, and marking a
      drained frame done never underflows a shard's count, which is what would make
      `asyncio.Queue.task_done` raise. */
  lemma DrainsKeepOrderAndCounts(route: Hash, maxsize: int, shards: int, events: seq<Event>, node: string)
    requires Routes(route, ShardCount(shards))
    ensures var st := Run(route, Init(maxsize, shards), events);
            && ByNode(st.accepted, node) == ByNode(st.taken, node) + Queued(st.shards, node)
            && (forall s :: 0 <= s < |st.shards| && (st.lastGet == Some(s) || st.inFlight[s].Some?) ==>
                              st.shards[s].unfinished > 0)
  {
    var st := Run(route, Init(maxsize, shards), events);
    RunKeepsInv(route, maxsize, shards, events);
    assert NodeOrder(route, st, node);
    QueuedInOwnShard(st.shards, node, route(node));
  }

  // ── how much is let in ────────────────────────────────────────────────────

  /** What waits is what was accepted and not yet taken. */
  lemma {:induction false} WaitingIsUntaken(route: Hash, maxsize: int, shards: int, events: seq<Event>)
    requires Routes(route, ShardCount(shards))
    ensures var st := Run(route, Init(maxsize, shards), events);
            Backlog(st.shards) + |st.taken| == |st.accepted| && st.maxsize == maxsize
  {
    var init := Init(maxsize, shards);
    if events == [] {
      BacklogOfEmpty(|init.shards|);
    } else {
      WaitingIsUntaken(route, maxsize, shards, events[..|events| - 1]);
      StepKeepsUntaken(route, Run(route, init, events[..|events| - 1]), events[|events| - 1]);
    }
  }

  lemma StepKeepsUntaken(route: Hash, st: State, e: Event)
    requires Shaped(st) && Routes(route, |st.shards|) && Backlog(st.shards) + |st.taken| == |st.accepted|
    ensures var r := Step(route, st, e); Backlog(r.shards) + |r.taken| == |r.accepted| && r.maxsize == st.maxsize
  {
    var r := Step(route, st, e);
    if r == st { return; }
    var s := match e
      case Put(item) => route(item.node)
      case Take(s) => s
      case Finish(s) => s
      case Drain => FirstNonEmpty(st.shards, 0).value
      case DrainDone => st.lastGet.value;
    BacklogUpdate(st.shards, s, r.shards[s]);
  }

  /** After any run, a frame put is accepted exactly when the budget is unlimited or fewer frames
      than it allows are waiting; it then waits last in its node's shard, and a refused one changes
      nothing. */
  lemma AcceptedExactlyWithRoom(route: Hash, maxsize: int, shards: int, events: seq<Event>, item: Item)
    requires Routes(route, ShardCount(shards))
    ensures var st, r := Run(route, Init(maxsize, shards), events), Run(route, Init(maxsize, shards), events + [Put(item)]);
            var own := route(item.node);
            if maxsize <= 0 || |st.accepted| - |st.taken| < maxsize then
              && r.accepted == st.accepted + [item] && r.taken == st.taken
              && r.shards[own].items == st.shards[own].items + [item]
              && forall s :: 0 <= s < |st.shards| && s != own ==> r.shards[s] == st.shards[s]
            else r == st
  {
    WaitingIsUntaken(route, maxsize, shards, events);
    assert (events + [Put(item)])[..|events|] == events;
  }

  function Puts(items: seq<Item>): seq<Event> {
    seq(|items|, i requires 0 <= i < |items| => Put(items[i]))
  }

  lemma PutsOneMore(items: seq<Item>, last: Item)
    ensures Puts(items + [last]) == Puts(items) + [Put(last)]
  {
  }

  /** What a budget of `maxsize` lets in of frames that nobody takes. */
  function LetIn(maxsize: int, items: seq<Item>): seq<Item> {
    if 0 < maxsize < |items| then items[..maxsize] else items
  }

  lemma LetInOneMore(maxsize: int, items: seq<Item>, last: Item)
    ensures LetIn(maxsize, items + [last])
         == LetIn(maxsize, items) + if maxsize <= 0 || |LetIn(maxsize, items)| < maxsize then [last] else []
  {
  }

  lemma PutAccepts(route: Hash, maxsize: int, shards: int, events: seq<Event>, item: Item)
    requires Routes(route, ShardCount(shards)) && Run(route, Init(maxsize, shards), events).taken == []
    ensures var st, r := Run(route, Init(maxsize, shards), events), Run(route, Init(maxsize, shards), events + [Put(item)]);
            && r.taken == []
            && r.accepted == st.accepted + if maxsize <= 0 || |st.accepted| < maxsize then [item] else []
  {
    AcceptedExactlyWithRoom(route, maxsize, shards, events, item);
  }

  /** The budget is used up exactly: of the frames put on a new queue and not taken, the first
      `maxsize` are accepted and the others refused; without a budget all are accepted. */
  lemma {:induction false} BudgetIsUsedUp(route: Hash, maxsize: int, shards: int, items: seq<Item>)
    requires Routes(route, ShardCount(shards))
    ensures var st := Run(route, Init(maxsize, shards), Puts(items));
            st.taken == [] && st.accepted == if 0 < maxsize < |items| then items[..maxsize] else items
  {
    if items != [] {
      var before, last := items[..|items| - 1], items[|items| - 1];
      BudgetIsUsedUp(route, maxsize, shards, before);
      PutAccepts(route, maxsize, shards, Puts(before), last);
      PutsOneMore(before, last);
      LetInOneMore(maxsize, before, last);
      assert items == before + [last];
    }
  }

  // ── the same backpressure as one queue ────────────────────────────────────

  /** One `asyncio.Queue(maxsize)` replaying the same history: puts are offered to it, and
      it gives up its oldest frame whenever the sharded queue gave one up. */
  function Single(route: Hash, st: State, events: seq<Event>): seq<Item>
    requires Shaped(st) && Routes(route, |st.shards|)
  {
    if events == [] then []
    else
      var before := events[..|events| - 1];
      SingleStep(route, Run(route, st, before), Single(route, st, before), events[|events| - 1])
  }

  function SingleStep(route: Hash, sharded: State, items: seq<Item>, e: Event): seq<Item>
    requires Shaped(sharded) && Routes(route, |sharded.shards|)
  {
    match e
    case Put(item) => if sharded.maxsize <= 0 || |items| < sharded.maxsize then items + [item] else items
    case _ => if |Step(route, sharded, e).taken| > |sharded.taken| && items != [] then items[1..] else items
  }

  /** The sharded queue and the single one step alike. */
  lemma StepsAlike(route: Hash, st: State, items: seq<Item>, e: Event)
    requires Shaped(st) && Routes(route, |st.shards|) && |items| == Backlog(st.shards)
    requires |st.shards| == 1 ==> st.shards[0].items == items
    ensures var r, after := Step(route, st, e), SingleStep(route, st, items, e);
            |after| == Backlog(r.shards) && (|st.shards| == 1 ==> r.shards[0].items == after)
  {
    var r := Step(route, st, e);
    if r == st { return; }
    var s := match e
      case Put(item) => route(item.node)
      case Take(s) => s
      case Finish(s) => s
      case Drain => FirstNonEmpty(st.shards, 0).value
      case DrainDone => st.lastGet.value;
    BacklogUpdate(st.shards, s, r.shards[s]);
  }

  /** Whether each put was accepted, as its producer saw it. */
  function Verdicts(route: Hash, st: State, events: seq<Event>): seq<bool>
    requires Shaped(st) && Routes(route, |st.shards|)
  {
    if events == [] then []
    else
      var before := events[..|events| - 1];
      var verdicts := Verdicts(route, st, before);
      if events[|events| - 1].Put? then verdicts + [!Full(st.maxsize, Backlog(Run(route, st, before).shards))]
      else verdicts
  }

  function SingleVerdicts(route: Hash, st: State, events: seq<Event>): seq<bool>
    requires Shaped(st) && Routes(route, |st.shards|)
  {
    if events == [] then []
    else
      var before := events[..|events| - 1];
      var verdicts := SingleVerdicts(route, st, before);
      if events[|events| - 1].Put? then verdicts + [st.maxsize <= 0 || |Single(route, st, before)| < st.maxsize]
      else verdicts
  }

  /** Sharding changes no producer's answer: whatever the interleaving, every put is
      accepted or refused exactly as one queue of the same `maxsize` would, and with
      one shard the queue is that queue, frame for frame. */
  lemma {:induction false} SameBackpressureAsOneQueue(
      route: Hash, maxsize: int, shards: int, events: seq<Event>)
    requires Routes(route, ShardCount(shards))
    ensures var init := Init(maxsize, shards);
            var st := Run(route, init, events);
            && Verdicts(route, init, events) == SingleVerdicts(route, init, events)
            && |Single(route, init, events)| == Backlog(st.shards)
            && (shards <= 1 ==> st.shards[0].items == Single(route, init, events))
  {
    var init := Init(maxsize, shards);
    if events == [] {
      BacklogOfEmpty(|init.shards|);
    } else {
      var before := events[..|events| - 1];
      SameBackpressureAsOneQueue(route, maxsize, shards, before);
      WaitingIsUntaken(route, maxsize, shards, before);
      StepsAlike(route, Run(route, init, before), Single(route, init, before), events[|events| - 1]);
    }
  }

  // ── the class ─────────────────────────────────────────────────────────────

  /** One shard: an unbounded `asyncio.Queue`. */
  class AsyncQueue {
    var items: seq<Item>
    var unfinished: int

    constructor ()
      ensures items == [] && unfinished == 0
    {
      items, unfinished := [], 0;
    }

    method PutNowait(item: Item)
      modifies this
      ensures items == old(items) + [item] && unfinished == old(unfinished) + 1
    {
      items, unfinished := items + [item], unfinished + 1;
    }

    /** The oldest frame, or None where the original raises QueueEmpty. */
    method GetNowait() returns (item: Option<Item>)
      modifies this
      ensures unfinished == old(unfinished)
      ensures old(items) == [] ==> item.None? && items == []
      ensures old(items) != [] ==> item == Some(old(items)[0]) && items == old(items)[1..]
    {
      if items == [] { return None; }
      item := Some(items[0]);
      items := items[1..];
    }

    /** False where the original raises ValueError: more marks than frames. */
    method TaskDone() returns (ok: bool)
      modifies this
      ensures items == old(items) && ok == (old(unfinished) > 0)
      ensures unfinished == if ok then old(unfinished) - 1 else old(unfinished)
    {
      ok := unfinished > 0;
      if ok { unfinished := unfinished - 1; }
    }
  }

  lemma StepKeepsInv(route: Hash, st: State, e: Event)
    requires Inv(route, st)
    ensures Inv(route, Step(route, st, e))
  {
    var r := Step(route, st, e);
    StepKeepsRouting(route, st, e);
    StepKeepsCounts(route, st, e);
    forall node ensures NodeOrder(route, r, node) {
      assert NodeOrder(route, st, node);
      StepKeepsNodeOrder(route, st, e, node);
    }
  }

  lemma OneMore(route: Hash, init: State, history: seq<Event>, e: Event)
    requires Shaped(init) && Routes(route, |init.shards|)
    ensures Run(route, init, history + [e]) == Step(route, Run(route, init, history), e)
  {
    assert (history + [e])[..|history|] == history;
  }

  class ShardedFrameQueue {
    const route: Hash
    const maxsize: int
    const shards: seq<AsyncQueue>
    var lastGet: Option<nat>
    ghost const requested: int
    // The queue, its workers and every action on it so far, as the step system sees them.
    ghost var state: State
    ghost var history: seq<Event>

    /** The state is what its history makes of a new queue. */
    ghost predicate Traced()
      reads this
    {
      && Routes(route, ShardCount(requested)) && Inv(route, state)
      && state == Run(route, Init(maxsize, requested), history)
    }

    /** The fields and shards are the state's. */
    ghost predicate Wired()
      reads this, shards
    {
      && (forall i, j :: 0 <= i < j < |shards| ==> shards[i] != shards[j])
      && state.maxsize == maxsize
      && state.lastGet == lastGet
      && |state.shards| == |shards|
      && (forall s :: 0 <= s < |shards| ==> state.shards[s] == Shard(shards[s].items, shards[s].unfinished))
    }

    ghost predicate Valid()
      reads this, shards
    {
      Traced() && Wired()
    }

    constructor (crc: Hash, maxsize: int, shardCount: int)
      ensures Valid() && fresh(shards) && |shards| == if shardCount < 1 then 1 else shardCount
      ensures route == Route(crc, ShardCount(shardCount))
      ensures this.maxsize == maxsize && requested == shardCount && state == Init(maxsize, shardCount) && history == []
    {
      var n := ShardCount(shardCount);
      var made: seq<AsyncQueue> := [];
      while |made| < n
        invariant |made| <= n
        invariant forall i :: 0 <= i < |made| ==> fresh(made[i]) && made[i].items == [] && made[i].unfinished == 0
        invariant forall i, j :: 0 <= i < j < |made| ==> made[i] != made[j]
      {
        var q := new AsyncQueue();
        made := made + [q];
      }
      this.route, this.maxsize, this.shards, this.lastGet := Route(crc, n), maxsize, made, None;
      this.requested, this.state, this.history := shardCount, Init(maxsize, shardCount), [];
      new;
      RunKeepsInv(route, maxsize, shardCount, []);
    }

    function Qsize(upTo: nat := |shards|): (n: nat)
      requires Valid() && upTo <= |shards|
      reads this, shards
      ensures n == Backlog(state.shards[..upTo])
    {
      if upTo == 0 then 0
      else
        assert state.shards[..upTo][..upTo - 1] == state.shards[..upTo - 1];
        Qsize(upTo - 1) + |shards[upTo - 1].items|
    }

    predicate IsFull()
      requires Valid()
      reads this, shards
      ensures IsFull() <==> maxsize > 0 && |state.accepted| - |state.taken| >= maxsize
      ensures IsFull() == Full(maxsize, Backlog(state.shards))
    {
      assert state.shards[..|shards|] == state.shards;
      WaitingIsUntaken(route, maxsize, requested, history);
      maxsize > 0 && Qsize() >= maxsize
    }

    /** One more action in the history. */
    ghost method Note(e: Event)
      requires Traced()
      modifies this`state, this`history
      ensures Traced() && Shaped(old(state)) && Routes(route, |old(state).shards|)
      ensures state == Step(route, old(state), e) && history == old(history) + [e]
    {
      StepKeepsInv(route, state, e);
      OneMore(route, Init(maxsize, requested), history, e);
      state, history := Step(route, state, e), history + [e];
    }

    /** Whatever this queue has been through, drains apart: each node's frames are in put order
        and at most one of them is in flight. */
    lemma KeepsOrder(node: string)
      requires Valid() && forall i :: 0 <= i < |history| ==> !history[i].Drain?
      ensures ByNode(state.accepted, node)
           == ByNode(state.finished, node) + InFlight(state.inFlight, node) + Queued(state.shards, node)
      ensures |InFlight(state.inFlight, node)| <= 1 && (maxsize > 0 ==> Backlog(state.shards) <= maxsize)
    {
      PerNodeOrder(route, maxsize, requested, history, node);
    }

    /** False where the original raises QueueFull. */
    method PutNowait(item: Item) returns (accepted: bool)
      requires Valid()
      modifies this, shards
      ensures Valid() && state == Step(route, old(state), Put(item)) && history == old(history) + [Put(item)]
      ensures accepted <==> maxsize <= 0 || |old(state).accepted| - |old(state).taken| < maxsize
      ensures state.accepted == if accepted then old(state).accepted + [item] else old(state).accepted
    {
      accepted := !IsFull();
      Note(Put(item));
      if !accepted { return; }
      var s := route(item.node);
      shards[s].PutNowait(item);
    }

    /** The first shard with a frame waiting, or their number. */
    method FindWaiting() returns (index: nat)
      requires Valid()
      ensures index <= |shards|
      ensures FirstNonEmpty(state.shards, 0) == if index < |shards| then Some(index) else None
    {
      index := 0;
      while index < |shards|
        invariant index <= |shards|
        invariant FirstNonEmpty(state.shards, 0) == FirstNonEmpty(state.shards, index)
      {
        if shards[index].items != [] { return; }
        index := index + 1;
      }
    }

    /** Only the drain paths use this; None where the original raises QueueEmpty. */
    method GetNowait() returns (item: Option<Item>)
      requires Valid()
      modifies this, shards
      ensures Valid() && state == Step(route, old(state), Drain) && history == old(history) + [Drain]
      ensures item.None? <==> forall s :: 0 <= s < |shards| ==> old(state).shards[s].items == []
      ensures item.Some? ==> state.taken == old(state).taken + [item.value]
      ensures item.Some? ==> lastGet.Some? && lastGet.value < |shards|
                             && old(state).shards[lastGet.value].items == [item.value] + shards[lastGet.value].items
                             && forall s :: 0 <= s < lastGet.value ==> old(state).shards[s].items == []
    {
      var index := FindWaiting();
      Note(Drain);
      if index == |shards| { return None; }
      lastGet := Some(index);
      item := shards[index].GetNowait();
    }

    /** Marks the frame of the last `GetNowait` done; it never raises. */
    method TaskDone() returns (ok: bool)
      requires Valid()
      modifies this, shards
      ensures Valid() && state == Step(route, old(state), DrainDone) && history == old(history) + [DrainDone]
      ensures ok && lastGet.None?
      ensures forall s :: 0 <= s < |shards| ==>
                shards[s].unfinished == old(shards[s].unfinished) - if old(lastGet) == Some(s) then 1 else 0
    {
      ok := true;
      Note(DrainDone);
      if lastGet.Some? {
        var s := lastGet.value;
        lastGet := None;
        ok := shards[s].TaskDone();
      }
    }

    /** A frame worker taking from the shard it owns; None while it would be waiting. */
    method WorkerTake(s: nat) returns (item: Option<Item>)
      requires Valid() && s < |shards| && state.inFlight[s].None?
      modifies this, shards
      ensures Valid() && state == Step(route, old(state), Take(s)) && history == old(history) + [Take(s)]
      ensures item == state.inFlight[s]
      ensures item == if old(shards[s].items) == [] then None else Some(old(shards[s].items)[0])
      ensures shards[s].items == if old(shards[s].items) == [] then [] else old(shards[s].items)[1..]
    {
      Note(Take(s));
      item := shards[s].GetNowait();
    }

    /** The same worker marking its frame done; `task_done` never raises here either. */
    method WorkerFinish(s: nat) returns (ok: bool)
      requires Valid() && s < |shards| && state.inFlight[s].Some?
      modifies this, shards
      ensures Valid() && state == Step(route, old(state), Finish(s)) && history == old(history) + [Finish(s)]
      ensures ok && shards[s].unfinished == old(shards[s].unfinished) - 1
      ensures state.inFlight[s].None? && state.finished == old(state).finished + [old(state).inFlight[s].value]
    {
      Note(Finish(s));
      ok := shards[s].TaskDone();
    }
  }
}
