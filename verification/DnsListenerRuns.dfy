/** What holds over every interleaving of the DNS listeners' steps. */
module DnsListenerRuns {
  import opened Wrappers
  import opened DohQuery
  import opened DnsListener

  /** Backing survives more exchanges. */
  lemma BackedGrows(xs: seq<Exchange>, more: seq<Exchange>, query: Bytes, i: nat, bytes: Bytes, origin: Origin)
    requires Backed(xs, query, i, bytes, origin)
    ensures Backed(xs + more, query, i, bytes, origin)
  {
    var k :| 0 <= k < |xs| && Backs(xs[k], query, i, bytes, origin);
    assert (xs + more)[k] == xs[k];
  }

  lemma TaskGrows(xs: seq<Exchange>, more: seq<Exchange>, now: nat, later: nat, query: Bytes, i: nat, task: Task)
    requires TaskHolds(xs, now, query, i, task) && now <= later
    ensures TaskHolds(xs + more, later, query, i, task)
  {
    match task
    case Storing(key, id, body) =>
      var k :| 0 <= k < |xs| && xs[k].task == i && xs[k].key == key && xs[k].body == body && xs[k].at <= now;
      assert (xs + more)[k] == xs[k];
    case Sending(bytes, origin) =>
      BackedGrows(xs, more, query, i, bytes, origin);
    case Returned(bytes, origin) =>
      BackedGrows(xs, more, query, i, bytes, origin);
    case _ =>
  }

  lemma EntryGrows(xs: seq<Exchange>, more: seq<Exchange>, now: nat, later: nat, key: Bytes, entry: Entry)
    requires EntryHolds(xs, now, key, entry) && now <= later
    ensures EntryHolds(xs + more, later, key, entry)
  {
    var k :| 0 <= k < |xs| && xs[k].key == key && xs[k].body == entry.body && xs[k].at <= entry.since;
    assert (xs + more)[k] == xs[k];
  }

  /** Replies stay what they are while queries and exchanges are only added and the tasks of replies do not move. */
  lemma RepliesStay(n: Net, m: Net)
    requires QueuesHold(n) && SentHold(n) && m.queues == n.queues && m.sent == n.sent
    requires |n.tasks| <= |m.tasks| && |n.received| <= |m.received|
    requires forall i :: 0 <= i < |n.tasks| && (n.tasks[i] == Queued || n.tasks[i] == Sent) ==> m.tasks[i] == n.tasks[i]
    requires forall k, r :: Justified(n, k, r) ==> Justified(m, k, r)
    ensures QueuesHold(m) && SentHold(m)
  {
    forall k | 0 <= k < |m.queues| ensures QueueHolds(m, k) {
      assert QueueHolds(n, k);
    }
  }

  /** Time passing, exchanges added and datagrams received leave the invariant alone. */
  lemma NetGrows(n: Net, more: seq<Exchange>, later: nat)
    requires Holds(n) && n.now <= later
    ensures Holds(n.(exchanges := n.exchanges + more, now := later))
  {
    var m := n.(exchanges := n.exchanges + more, now := later);
    forall i | 0 <= i < |n.tasks|
      ensures TaskHolds(m.exchanges, m.now, m.received[i].bytes, i, m.tasks[i])
    {
      TaskGrows(n.exchanges, more, n.now, later, n.received[i].bytes, i, n.tasks[i]);
    }
    forall key | key in n.cache ensures EntryHolds(m.exchanges, m.now, key, m.cache[key]) {
      EntryGrows(n.exchanges, more, n.now, later, key, n.cache[key]);
    }
    forall k: nat, r: Reply | Justified(n, k, r) ensures Justified(m, k, r) {
      BackedGrows(n.exchanges, more, n.received[r.task].bytes, r.task, r.bytes, r.origin);
    }
    RepliesStay(n, m);
  }

  /** A task that is in no reply may move to any stage that holds for it and is in no reply either. */
  lemma TaskMoves(n: Net, i: nat, task: Task)
    requires Holds(n) && i < |n.tasks|
    requires n.tasks[i] != Queued && n.tasks[i] != Sent
    requires TaskHolds(n.exchanges, n.now, n.received[i].bytes, i, task)
    ensures Holds(n.(tasks := n.tasks[i := task]))
  {
    var m := n.(tasks := n.tasks[i := task]);
    assert forall k, r :: Justified(n, k, r) ==> Justified(m, k, r);
    RepliesStay(n, m);
  }

  lemma LookedHolds(n: Net, i: nat)
    requires Holds(n) && i < |n.tasks|
    ensures TaskHolds(n.exchanges, n.now, n.received[i].bytes, i, Looked(n, n.received[i].bytes))
  {
    var query := n.received[i].bytes;
    var task := Looked(n, query);
    if task.Sending? {
      var key := Normalised(query);
      var entry := n.cache[key];
      assert EntryHolds(n.exchanges, n.now, key, entry);
      var k :| 0 <= k < |n.exchanges| && n.exchanges[k].key == key && n.exchanges[k].body == entry.body
               && n.exchanges[k].at <= entry.since;
      assert Backs(n.exchanges[k], query, i, task.bytes, task.origin);
    }
  }

  lemma RespondKeeps(n: Net, i: nat, frames: seq<Frame>)
    requires Holds(n) && i < |n.tasks|
    ensures Holds(TaskStep(n, i, Respond(i, frames)))
  {
    var task := n.tasks[i];
    if task.Asking? {
      match BodyOf(frames)
      case Err => TaskMoves(n, i, Dropped);
      case Ok(body) =>
        var x := Exchange(i, task.key, body, n.now);
        NetGrows(n, [x], n.now);
        var m := n.(exchanges := n.exchanges + [x]);
        assert m == n.(exchanges := n.exchanges + [x], now := n.now);
        assert m.exchanges[|n.exchanges|] == x;
        assert TaskHolds(m.exchanges, m.now, m.received[i].bytes, i, task);
        TaskMoves(m, i, Storing(task.key, task.id, body));
    }
  }

  /** The body of an exchange may be cached under its key. */
  lemma CachingKeeps(n: Net, k: nat)
    requires Holds(n) && k < |n.exchanges|
    requires n.exchanges[k].at <= n.now && FIXED_ID <= n.exchanges[k].key
    ensures Holds(n.(cache := n.cache[n.exchanges[k].key := Entry(n.exchanges[k].body, n.now)]))
  {
    var key, body := n.exchanges[k].key, n.exchanges[k].body;
    var m := n.(cache := n.cache[key := Entry(body, n.now)]);
    assert EntryHolds(m.exchanges, m.now, key, m.cache[key]);
    assert forall other :: other in m.cache && other != key ==> other in n.cache && m.cache[other] == n.cache[other];
    assert forall l, r :: Justified(n, l, r) ==> Justified(m, l, r);
    RepliesStay(n, m);
  }

  lemma StoreKeeps(n: Net, i: nat)
    requires Holds(n) && i < |n.tasks|
    ensures Holds(TaskStep(n, i, Store(i)))
  {
    var task := n.tasks[i];
    if task.Storing? {
      var query := n.received[i].bytes;
      assert TaskHolds(n.exchanges, n.now, query, i, task);
      var Storing(key, id, body) := task;
      var k :| 0 <= k < |n.exchanges| && n.exchanges[k].task == i && n.exchanges[k].key == key
               && n.exchanges[k].body == body && n.exchanges[k].at <= n.now;
      CachingKeeps(n, k);
      var m := n.(cache := n.cache[key := Entry(body, n.now)]);
      if |body| >= 2 {
        assert Backs(m.exchanges[k], query, i, id + body[2..], Fetched);
        TaskMoves(m, i, Sending(id + body[2..], Fetched));
      } else {
        TaskMoves(m, i, Dropped);
      }
    }
  }

  lemma FinishKeeps(n: Net, i: nat, bytes: Bytes, origin: Origin)
    requires Holds(n) && i < |n.tasks| && n.tasks[i] == Sending(bytes, origin)
    ensures Holds(Finished(n, i, bytes, origin))
  {
    assert TaskHolds(n.exchanges, n.now, n.received[i].bytes, i, n.tasks[i]);
    match n.received[i].source
    case Resolver => TaskMoves(n, i, Returned(bytes, origin));
    case Client(k, from) =>
      if k < |n.queues| && |n.queues[k]| < CAPACITY {
        EnqueueKeeps(n, i, k, Reply(i, bytes, from, origin));
      }
  }

  /** A justified reply of a task that is in no queue may wait at the end of one that has room. */
  lemma EnqueueKeeps(n: Net, i: nat, k: nat, r: Reply)
    requires Holds(n) && i < |n.tasks| && n.tasks[i].Sending?
    requires k < |n.queues| && |n.queues[k]| < CAPACITY && Justified(n, k, r) && r.task == i
    ensures Holds(n.(tasks := n.tasks[i := Queued], queues := n.queues[k := n.queues[k] + [r]]))
  {
    var m := n.(tasks := n.tasks[i := Queued], queues := n.queues[k := n.queues[k] + [r]]);
    assert forall l, s :: Justified(n, l, s) ==> Justified(m, l, s);
    assert TasksHold(m) && CacheHolds(m) && SentHold(m);
    forall l | 0 <= l < |m.queues| ensures QueueHolds(m, l) {
      assert QueueHolds(n, l);
    }
  }

  /** The first reply of a queue is in no other queue. */
  lemma HeadIsAlone(n: Net, k: nat, l: nat, j: nat)
    requires Holds(n) && k < |n.queues| && l < |n.queues| && n.queues[k] != [] && j < |n.queues[l]|
    requires k != l || j != 0
    ensures n.queues[l][j].task != n.queues[k][0].task
  {
    assert QueueHolds(n, k) && QueueHolds(n, l);
  }

  lemma DeliverKeepsQueue(n: Net, k: nat, ok: bool, l: nat)
    requires Holds(n) && k < |n.queues| && n.queues[k] != [] && l < |n.queues|
    ensures QueueHolds(Delivered(n, k, ok), l)
  {
    var m := Delivered(n, k, ok);
    assert QueueHolds(n, k) && QueueHolds(n, l);
    assert forall r :: Justified(n, l, r) ==> Justified(m, l, r);
    forall j | 0 <= j < |n.queues[l]| && (k != l || j != 0)
      ensures n.queues[l][j].task != n.queues[k][0].task
    {
      HeadIsAlone(n, k, l, j);
    }
  }

  lemma DeliverKeeps(n: Net, k: nat, ok: bool)
    requires Holds(n)
    ensures Holds(Delivered(n, k, ok))
  {
    if k < |n.queues| && n.queues[k] != [] {
      assert QueueHolds(n, k);
      var m := Delivered(n, k, ok);
      assert forall l, s :: Justified(n, l, s) ==> Justified(m, l, s);
      forall l | 0 <= l < |m.queues| ensures QueueHolds(m, l) {
        DeliverKeepsQueue(n, k, ok, l);
      }
    }
  }

  lemma AskedKeeps(n: Net, query: Query)
    requires Holds(n)
    ensures Holds(Asked(n, query))
  {
    var m := Asked(n, query);
    assert forall k, r :: Justified(n, k, r) ==> Justified(m, k, r);
    RepliesStay(n, m);
  }

  lemma ForgetKeeps(n: Net, key: Bytes)
    requires Holds(n)
    ensures Holds(Step(n, Forget(key)))
  {
    var m := Step(n, Forget(key));
    assert forall k, r :: Justified(n, k, r) ==> Justified(m, k, r);
    RepliesStay(n, m);
  }

  lemma StepKeeps(n: Net, e: Event)
    requires Holds(n)
    ensures Holds(Step(n, e))
  {
    match e
    case Receive(k, query, from) => AskedKeeps(n, Query(query, Client(k, from)));
    case Resolve(question) => AskedKeeps(n, Query(FIXED_ID + question, Resolver));
    case Deliver(k, ok) => DeliverKeeps(n, k, ok);
    case Forget(key) => ForgetKeeps(n, key);
    case Tick(seconds) =>
      NetGrows(n, [], n.now + seconds);
      assert n.exchanges + [] == n.exchanges;
    case Look(i) =>
      if i < |n.tasks| && n.tasks[i].Started? {
        LookedHolds(n, i);
        TaskMoves(n, i, Looked(n, n.received[i].bytes));
      }
    case Refuse(i) =>
      if i < |n.tasks| && n.tasks[i].Asking? {
        TaskMoves(n, i, Dropped);
      }
    case Respond(i, frames) => if i < |n.tasks| { RespondKeeps(n, i, frames); }
    case Store(i) => if i < |n.tasks| { StoreKeeps(n, i); }
    case Finish(i) =>
      if i < |n.tasks| && n.tasks[i].Sending? {
        FinishKeeps(n, i, n.tasks[i].bytes, n.tasks[i].origin);
      }
  }

  lemma {:induction false} EveryRunHolds(listeners: nat, events: seq<Event>)
    ensures Holds(Run(listeners, events))
  {
    if events != [] {
      EveryRunHolds(listeners, events[..|events| - 1]);
      StepKeeps(Run(listeners, events[..|events| - 1]), events[|events| - 1]);
    }
  }
}
