/**
  DNS over HTTPS as a step system: a socket loop with a bounded channel of replies for each listening address, any
  number of spawned queries, the program's own lookups, and one cache that all of them share. Every await is a
  point where other steps may come in between.
 */
module DnsListener {
  import opened Wrappers
  import opened DohQuery

  /** The capacity of each channel of replies. */
  const CAPACITY: nat := 1024

  type Address = nat

  /** Who asks: a client of one of the listeners, or `HostName::dns_resolve`. */
  datatype Source = Client(listener: nat, from: Address) | Resolver

  datatype Query = Query(bytes: Bytes, source: Source)

  /** Where the body of a reply came from: the task's own exchange with upstream, or the cache. */
  datatype Origin = Fetched | FromCache(since: nat, used: nat)

  datatype Reply = Reply(task: nat, bytes: Bytes, to: Address, origin: Origin)

  /** A reply that left through the socket of a listener. */
  datatype Delivery = Delivery(listener: nat, reply: Reply)

  /** The stages of one query. Only the program's own are returned. */
  datatype Task =
    | Started
    | Asking(key: Bytes, id: Bytes)
    | Storing(key: Bytes, id: Bytes, body: Bytes)
    | Sending(bytes: Bytes, origin: Origin)
    | Queued
    | Sent
    | Lost
    | Returned(bytes: Bytes, origin: Origin)
    | Dropped

  /** A body that upstream returned to a task for a key. */
  datatype Exchange = Exchange(task: nat, key: Bytes, body: Bytes, at: nat)

  datatype Net = Net(
    now: nat,
    received: seq<Query>,
    tasks: seq<Task>,
    cache: Cache,
    exchanges: seq<Exchange>,
    queues: seq<seq<Reply>>,
    sent: seq<Delivery>)

  /** Nothing received yet, and an empty channel for each listener. */
  function Idle(listeners: nat): Net {
    Net(0, [], [], map[], [], seq(listeners, _ => []), [])
  }

  datatype Event =
    | Receive(listener: nat, query: Bytes, from: Address)
    | Resolve(question: Bytes)
    | Look(task: nat)
    | Refuse(task: nat)
    | Respond(task: nat, frames: seq<Frame>)
    | Store(task: nat)
    | Finish(task: nat)
    | Deliver(listener: nat, ok: bool)
    | Forget(key: Bytes)
    | Tick(seconds: nat)

  /** What the cache lookup makes of a spawned query. */
  function Looked(n: Net, query: Bytes): Task {
    match Begin(n.cache, query, n.now)
    case Failed => Dropped
    case Answered(bytes) => Sending(bytes, FromCache(n.cache[Normalised(query)].since, n.now))
    case Ask(key, id) => Asking(key, id)
  }

  /** One step of one task, if the task is at that stage. */
  function TaskStep(n: Net, i: nat, e: Event): Net
    requires i < |n.tasks| == |n.received|
  {
    var task := n.tasks[i];
    match e
    case Look(_) =>
      if task.Started? then n.(tasks := n.tasks[i := Looked(n, n.received[i].bytes)]) else n
    case Refuse(_) =>
      if task.Asking? then n.(tasks := n.tasks[i := Dropped]) else n
    case Respond(_, frames) =>
      if !task.Asking? then n
      else (match BodyOf(frames)
            case Err => n.(tasks := n.tasks[i := Dropped])
            case Ok(body) =>
              n.(tasks := n.tasks[i := Storing(task.key, task.id, body)],
                 exchanges := n.exchanges + [Exchange(i, task.key, body, n.now)]))
    case Store(_) =>
      if !task.Storing? || |task.id| != 2 then n
      else
        var stored := n.(cache := n.cache[task.key := Entry(task.body, n.now)]);
        (match WithId(task.id, task.body)
         case Err => stored.(tasks := n.tasks[i := Dropped])
         case Ok(bytes) => stored.(tasks := n.tasks[i := Sending(bytes, Fetched)]))
    case Finish(_) => if task.Sending? then Finished(n, i, task.bytes, task.origin) else n
    case _ => n
  }

  /** A reply waits for room in its listener's channel; the program's own lookups just get their answer. */
  function Finished(n: Net, i: nat, bytes: Bytes, origin: Origin): Net
    requires i < |n.tasks| == |n.received|
  {
    match n.received[i].source
    case Resolver => n.(tasks := n.tasks[i := Returned(bytes, origin)])
    case Client(k, from) =>
      if k >= |n.queues| || |n.queues[k]| >= CAPACITY then n
      else n.(tasks := n.tasks[i := Queued],
              queues := n.queues[k := n.queues[k] + [Reply(i, bytes, from, origin)]])
  }

  function Delivered(n: Net, k: nat, ok: bool): Net {
    if k >= |n.queues| || n.queues[k] == [] || n.queues[k][0].task >= |n.tasks| then n
    else
      var reply := n.queues[k][0];
      n.(tasks := n.tasks[reply.task := if ok then Sent else Lost],
         queues := n.queues[k := n.queues[k][1..]],
         sent := if ok then n.sent + [Delivery(k, reply)] else n.sent)
  }

  function Asked(n: Net, query: Query): Net {
    n.(received := n.received + [query], tasks := n.tasks + [Started])
  }

  function Step(n: Net, e: Event): Net {
    match e
    case Receive(k, query, from) => if k < |n.queues| then Asked(n, Query(query, Client(k, from))) else n
    case Resolve(question) => Asked(n, Query(FIXED_ID + question, Resolver))
    case Deliver(k, ok) => Delivered(n, k, ok)
    case Forget(key) => n.(cache := n.cache - {key})
    case Tick(seconds) => n.(now := n.now + seconds)
    case _ => if e.task < |n.tasks| == |n.received| then TaskStep(n, e.task, e) else n
  }

  /** Any interleaving of any number of queries. */
  function Run(listeners: nat, events: seq<Event>): Net {
    if events == [] then Idle(listeners)
    else Step(Run(listeners, events[..|events| - 1]), events[|events| - 1])
  }

  // ---------------------------------------------------------------------------
  // The invariant
  // ---------------------------------------------------------------------------

  /** The exchange backs a reply of task `i` to `query`: the query's ID, and the rest of a body that is not too old. */
  predicate Backs(x: Exchange, query: Bytes, i: nat, bytes: Bytes, origin: Origin) {
    && |query| >= 2 && x.key == Normalised(query)
    && |x.body| >= 2 && bytes == IdOf(query) + x.body[2..]
    && match origin
       case Fetched => x.task == i
       case FromCache(since, used) => x.at <= since <= used <= since + TTL
  }

  ghost predicate Backed(xs: seq<Exchange>, query: Bytes, i: nat, bytes: Bytes, origin: Origin) {
    exists k :: 0 <= k < |xs| && Backs(xs[k], query, i, bytes, origin)
  }

  /** The reply goes back through the listener that received its query to the sender of it, and is backed. */
  ghost predicate Justified(n: Net, k: nat, r: Reply) {
    && r.task < |n.received|
    && n.received[r.task].source == Client(k, r.to)
    && Backed(n.exchanges, n.received[r.task].bytes, r.task, r.bytes, r.origin)
  }

  /** The entry is the unpatched body of an earlier exchange for its key, and its key carries the fixed ID. */
  ghost predicate EntryHolds(xs: seq<Exchange>, now: nat, key: Bytes, entry: Entry) {
    && |key| >= 2 && key[..2] == FIXED_ID
    && entry.since <= now
    && exists k :: 0 <= k < |xs| && xs[k].key == key && xs[k].body == entry.body && xs[k].at <= entry.since
  }

  predicate Keyed(query: Bytes, key: Bytes, id: Bytes) {
    |query| >= 2 && key == Normalised(query) && id == IdOf(query)
  }

  ghost predicate TaskHolds(xs: seq<Exchange>, now: nat, query: Bytes, i: nat, task: Task) {
    match task
    case Asking(key, id) => Keyed(query, key, id)
    case Storing(key, id, body) =>
      && Keyed(query, key, id)
      && exists k :: 0 <= k < |xs| && xs[k].task == i && xs[k].key == key && xs[k].body == body && xs[k].at <= now
    case Sending(bytes, origin) => Backed(xs, query, i, bytes, origin)
    case Returned(bytes, origin) => Backed(xs, query, i, bytes, origin)
    case _ => true
  }

  /** Each reply is justified and belongs to a task of its own, which waits. */
  ghost predicate QueueHolds(n: Net, k: nat)
    requires k < |n.queues|
  {
    var queue := n.queues[k];
    && |queue| <= CAPACITY
    && (forall j :: 0 <= j < |queue| ==>
          Justified(n, k, queue[j]) && queue[j].task < |n.tasks| && n.tasks[queue[j].task] == Queued)
    && (forall i, j :: 0 <= i < j < |queue| ==> queue[i].task != queue[j].task)
  }

  ghost predicate QueuesHold(n: Net) {
    forall k :: 0 <= k < |n.queues| ==> QueueHolds(n, k)
  }

  /** The same for the replies that were sent. */
  ghost predicate SentHold(n: Net) {
    && (forall j :: 0 <= j < |n.sent| ==>
          && Justified(n, n.sent[j].listener, n.sent[j].reply)
          && n.sent[j].reply.task < |n.tasks| && n.tasks[n.sent[j].reply.task] == Sent)
    && (forall i, j :: 0 <= i < j < |n.sent| ==> n.sent[i].reply.task != n.sent[j].reply.task)
  }

  ghost predicate TasksHold(n: Net) {
    && |n.tasks| == |n.received|
    && forall i :: 0 <= i < |n.tasks| ==> TaskHolds(n.exchanges, n.now, n.received[i].bytes, i, n.tasks[i])
  }

  ghost predicate CacheHolds(n: Net) {
    forall key :: key in n.cache ==> EntryHolds(n.exchanges, n.now, key, n.cache[key])
  }

  ghost predicate Holds(n: Net) {
    TasksHold(n) && CacheHolds(n) && QueuesHold(n) && SentHold(n)
  }
}
