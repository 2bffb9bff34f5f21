/** What the invariant of the DNS listeners means for their clients. */
module DnsTheorems {
  import opened Wrappers
  import opened DohQuery
  import opened DnsListener
  import opened DnsListenerRuns

  /**
    Every datagram sent answers a query of its own, through the listener that received it and to the address it came
    from. It carries that query's ID and the rest of a body that upstream returned for the normalised query: to this
    task, or to an earlier one and no longer ago than the cache allows. No channel is ever over its capacity.
   */
  lemma EveryReplyIsAnAnswer(listeners: nat, events: seq<Event>)
    ensures var n := Run(listeners, events);
            && (forall k :: 0 <= k < |n.queues| ==> |n.queues[k]| <= 1024)
            && (forall j :: 0 <= j < |n.sent| ==> Justified(n, n.sent[j].listener, n.sent[j].reply))
            && (forall i, j :: 0 <= i < j < |n.sent| ==> n.sent[i].reply.task != n.sent[j].reply.task)
  {
    EveryRunHolds(listeners, events);
    var n := Run(listeners, events);
    assert forall k :: 0 <= k < |n.queues| ==> QueueHolds(n, k);
  }

  /** An answer to `query`, put the other way round: its ID, its tail, and how old its body is. */
  ghost predicate Answers(n: Net, i: nat, bytes: Bytes, origin: Origin, x: Exchange)
    requires i < |n.received|
  {
    var query := n.received[i].bytes;
    && |query| >= 2 && |bytes| == |x.body| >= 2
    && bytes[..2] == query[..2] && bytes[2..] == x.body[2..]
    && x in n.exchanges && x.key == [0xab, 0xcd] + query[2..]
    && if origin.Fetched? then x.task == i else x.at <= origin.since <= origin.used <= origin.since + 3600
  }

  lemma BackedAnswers(n: Net, i: nat, bytes: Bytes, origin: Origin) returns (x: Exchange)
    requires i < |n.received| && Backed(n.exchanges, n.received[i].bytes, i, bytes, origin)
    ensures Answers(n, i, bytes, origin, x)
  {
    var k :| 0 <= k < |n.exchanges| && Backs(n.exchanges[k], n.received[i].bytes, i, bytes, origin);
    x := n.exchanges[k];
  }

  /** What is in a datagram that was sent. */
  lemma ReplyContents(listeners: nat, events: seq<Event>, j: nat) returns (x: Exchange)
    requires j < |Run(listeners, events).sent|
    ensures var n := Run(listeners, events);
            var r := n.sent[j].reply;
            && r.task < |n.received| && n.received[r.task].source == Client(n.sent[j].listener, r.to)
            && Answers(n, r.task, r.bytes, r.origin, x)
  {
    EveryRunHolds(listeners, events);
    var n := Run(listeners, events);
    var r := n.sent[j].reply;
    assert Justified(n, n.sent[j].listener, r);
    x := BackedAnswers(n, r.task, r.bytes, r.origin);
  }

  /** What the program's own lookups get: the same answers, with the fixed ID. */
  lemma ResolverContents(listeners: nat, events: seq<Event>, i: nat) returns (x: Exchange)
    requires i < |Run(listeners, events).tasks| && Run(listeners, events).tasks[i].Returned?
    ensures var n := Run(listeners, events);
            && i < |n.received| && n.received[i].source == Resolver
            && Answers(n, i, n.tasks[i].bytes, n.tasks[i].origin, x)
            && n.tasks[i].bytes == [0xab, 0xcd] + x.body[2..]
  {
    EveryRunHolds(listeners, events);
    EveryResolverHolds(listeners, events);
    var n := Run(listeners, events);
    assert ResolverHolds(n, i);
    x := BackedAnswers(n, i, n.tasks[i].bytes, n.tasks[i].origin);
    assert n.tasks[i].bytes == n.tasks[i].bytes[..2] + n.tasks[i].bytes[2..];
  }

  /** The program's own queries carry the fixed ID, and only they are returned. */
  ghost predicate ResolverHolds(n: Net, i: nat)
    requires i < |n.tasks| == |n.received|
  {
    && (n.tasks[i].Returned? ==> n.received[i].source == Resolver)
    && (n.received[i].source == Resolver ==> FIXED_ID <= n.received[i].bytes)
  }

  lemma {:induction false} EveryResolverHolds(listeners: nat, events: seq<Event>)
    ensures var n := Run(listeners, events);
            |n.tasks| == |n.received| && forall i :: 0 <= i < |n.tasks| ==> ResolverHolds(n, i)
  {
    if events != [] {
      var n := Run(listeners, events[..|events| - 1]);
      EveryResolverHolds(listeners, events[..|events| - 1]);
      var m := Run(listeners, events);
      forall i | 0 <= i < |m.tasks| ensures ResolverHolds(m, i) {
        assert i < |n.tasks| ==> ResolverHolds(n, i);
      }
    }
  }

  /** In every reachable cache, whatever key is looked up, the body found is one upstream returned for that key. */
  lemma CacheAgreesWithUpstream(listeners: nat, events: seq<Event>, key: Bytes)
    requires key in Run(listeners, events).cache
    ensures [0xab, 0xcd] <= key
    ensures exists x :: x in Run(listeners, events).exchanges
                        && x.key == key && x.body == Run(listeners, events).cache[key].body
  {
    EveryRunHolds(listeners, events);
    var n := Run(listeners, events);
    assert EntryHolds(n.exchanges, n.now, key, n.cache[key]);
    var k :| 0 <= k < |n.exchanges| && n.exchanges[k].key == key && n.exchanges[k].body == n.cache[key].body
             && n.exchanges[k].at <= n.cache[key].since;
    assert n.exchanges[k] in n.exchanges;
  }

  // ---------------------------------------------------------------------------
  // Conservation
  // ---------------------------------------------------------------------------

  datatype Stage = InFlight | InQueue | Replied | Undelivered | Handed | Abandoned

  function StageOf(task: Task): Stage {
    match task
    case Queued => InQueue
    case Sent => Replied
    case Lost => Undelivered
    case Returned(_, _) => Handed
    case Dropped => Abandoned
    case _ => InFlight
  }

  function Tally(tasks: seq<Task>, stage: Stage): nat {
    if tasks == [] then 0
    else Tally(tasks[..|tasks| - 1], stage) + if StageOf(tasks[|tasks| - 1]) == stage then 1 else 0
  }

  lemma {:induction false} TallyMove(tasks: seq<Task>, i: nat, task: Task, stage: Stage)
    requires i < |tasks|
    ensures Tally(tasks[i := task], stage)
         == Tally(tasks, stage) - (if StageOf(tasks[i]) == stage then 1 else 0)
            + (if StageOf(task) == stage then 1 else 0)
  {
    var last := |tasks| - 1;
    if i == last {
      assert tasks[i := task][..last] == tasks[..last];
    } else {
      assert tasks[i := task][..last] == tasks[..last][i := task];
      TallyMove(tasks[..last], i, task, stage);
    }
  }

  lemma {:induction false} TallyTotal(tasks: seq<Task>)
    ensures |tasks| == Tally(tasks, InFlight) + Tally(tasks, InQueue) + Tally(tasks, Replied)
                     + Tally(tasks, Undelivered) + Tally(tasks, Handed) + Tally(tasks, Abandoned)
  {
    if tasks != [] {
      TallyTotal(tasks[..|tasks| - 1]);
    }
  }

  /** The replies that wait in all the channels. */
  function Waiting(queues: seq<seq<Reply>>): nat {
    if queues == [] then 0 else Waiting(queues[..|queues| - 1]) + |queues[|queues| - 1]|
  }

  lemma {:induction false} WaitingMove(queues: seq<seq<Reply>>, k: nat, queue: seq<Reply>)
    requires k < |queues|
    ensures Waiting(queues[k := queue]) == Waiting(queues) - |queues[k]| + |queue|
  {
    var last := |queues| - 1;
    if k == last {
      assert queues[k := queue][..last] == queues[..last];
    } else {
      assert queues[k := queue][..last] == queues[..last][k := queue];
      WaitingMove(queues[..last], k, queue);
    }
  }

  lemma {:induction false} NoneWaiting(queues: seq<seq<Reply>>)
    requires forall k :: 0 <= k < |queues| ==> queues[k] == []
    ensures Waiting(queues) == 0
  {
    if queues != [] {
      NoneWaiting(queues[..|queues| - 1]);
    }
  }

  ghost predicate Tallied(n: Net) {
    Waiting(n.queues) == Tally(n.tasks, InQueue) && |n.sent| == Tally(n.tasks, Replied)
  }

  /** Before it is finished, a task moves through stages of its own and leaves the channels alone. */
  lemma TaskStepIsPrivate(n: Net, i: nat, e: Event)
    requires i < |n.tasks| == |n.received| && !e.Finish?
    ensures var m := TaskStep(n, i, e);
            && m.queues == n.queues && m.sent == n.sent
            && (m.tasks == n.tasks
                || (m.tasks == n.tasks[i := m.tasks[i]]
                    && StageOf(n.tasks[i]) == InFlight && StageOf(m.tasks[i]) in {InFlight, Abandoned}))
  {
  }

  lemma PrivateMoveTallies(n: Net, m: Net, i: nat, task: Task)
    requires Tallied(n) && m.queues == n.queues && m.sent == n.sent
    requires i < |n.tasks| && m.tasks == n.tasks[i := task]
    requires StageOf(n.tasks[i]) == InFlight && StageOf(task) in {InFlight, Abandoned}
    ensures Tallied(m)
  {
    TallyMove(n.tasks, i, task, InQueue);
    TallyMove(n.tasks, i, task, Replied);
  }

  lemma TaskStepTallies(n: Net, i: nat, e: Event)
    requires Holds(n) && Tallied(n) && i < |n.tasks|
    ensures Tallied(TaskStep(n, i, e))
  {
    if !e.Finish? {
      TaskStepIsPrivate(n, i, e);
      var m := TaskStep(n, i, e);
      if m.tasks != n.tasks {
        PrivateMoveTallies(n, m, i, m.tasks[i]);
      }
    } else if n.tasks[i].Sending? {
      FinishTallies(n, i, n.tasks[i].bytes, n.tasks[i].origin);
    }
  }

  lemma FinishTallies(n: Net, i: nat, bytes: Bytes, origin: Origin)
    requires Holds(n) && Tallied(n) && i < |n.tasks| && n.tasks[i].Sending?
    ensures Tallied(Finished(n, i, bytes, origin))
  {
    var m := Finished(n, i, bytes, origin);
    if m != n {
      TallyMove(n.tasks, i, m.tasks[i], InQueue);
      TallyMove(n.tasks, i, m.tasks[i], Replied);
      var source := n.received[i].source;
      if source.Client? {
        WaitingMove(n.queues, source.listener, m.queues[source.listener]);
      }
    }
  }

  lemma DeliverTallies(n: Net, k: nat, ok: bool)
    requires Holds(n) && Tallied(n)
    ensures Tallied(Delivered(n, k, ok))
  {
    if k < |n.queues| && n.queues[k] != [] {
      assert QueueHolds(n, k);
      var i, task := n.queues[k][0].task, if ok then Sent else Lost;
      assert n.tasks[i] == Queued;
      WaitingMove(n.queues, k, n.queues[k][1..]);
      TallyMove(n.tasks, i, task, InQueue);
      TallyMove(n.tasks, i, task, Replied);
    }
  }

  lemma StepTallies(n: Net, e: Event)
    requires Holds(n) && Tallied(n)
    ensures Tallied(Step(n, e))
  {
    match e
    case Receive(_, _, _) =>
      assert (n.tasks + [Started])[..|n.tasks|] == n.tasks;
    case Resolve(_) =>
      assert (n.tasks + [Started])[..|n.tasks|] == n.tasks;
    case Deliver(k, ok) => DeliverTallies(n, k, ok);
    case Forget(_) =>
    case Tick(_) =>
    case _ => if e.task < |n.tasks| { TaskStepTallies(n, e.task, e); }
  }

  lemma {:induction false} EveryRunTallies(listeners: nat, events: seq<Event>)
    ensures Tallied(Run(listeners, events))
  {
    if events == [] {
      NoneWaiting(Idle(listeners).queues);
    } else {
      var before := events[..|events| - 1];
      EveryRunTallies(listeners, before);
      EveryRunHolds(listeners, before);
      StepTallies(Run(listeners, before), events[|events| - 1]);
    }
  }

  /**
    All queries, those of the clients and the program's own, are in flight, in a channel, sent, lost on a socket,
    handed to the program, or dropped, and nothing else.
   */
  lemma QueriesAreConserved(listeners: nat, events: seq<Event>)
    ensures var n := Run(listeners, events);
            |n.received| == Tally(n.tasks, InFlight) + Waiting(n.queues) + |n.sent|
                          + Tally(n.tasks, Undelivered) + Tally(n.tasks, Handed) + Tally(n.tasks, Abandoned)
  {
    EveryRunTallies(listeners, events);
    EveryRunHolds(listeners, events);
    TallyTotal(Run(listeners, events).tasks);
  }

  // ---------------------------------------------------------------------------
  // Short bodies
  // ---------------------------------------------------------------------------

  /** A lookup fails exactly for a query without an ID, and when the cache holds a body without one. */
  lemma BeginFailsIff(cache: Cache, query: Bytes, now: nat)
    ensures Begin(cache, query, now).Failed? <==>
            |query| < 2 || (var hit := Cached(cache, Normalised(query), now); hit.Some? && |hit.value.body| < 2)
  {
  }

  /**
    In every run, the lookup of a query with an ID fails exactly when a live entry holds a body without one; upstream
    has then returned such a body for the same key.
   */
  lemma LookupFailsIff(listeners: nat, events: seq<Event>, i: nat)
    requires i < |Run(listeners, events).tasks| && Run(listeners, events).tasks[i].Started?
    requires i < |Run(listeners, events).received| && |Run(listeners, events).received[i].bytes| >= 2
    ensures var n := Run(listeners, events);
            var key := Normalised(n.received[i].bytes);
            var hit := Cached(n.cache, key, n.now);
            && (Step(n, Look(i)).tasks[i] == Dropped <==> hit.Some? && |hit.value.body| < 2)
            && (Step(n, Look(i)).tasks[i] == Dropped ==> exists x :: x in n.exchanges && x.key == key && |x.body| < 2)
  {
    EveryRunHolds(listeners, events);
    var n := Run(listeners, events);
    var query := n.received[i].bytes;
    BeginFailsIff(n.cache, query, n.now);
    assert Step(n, Look(i)).tasks[i] == Looked(n, query);
    if Cached(n.cache, Normalised(query), n.now).Some? {
      CacheAgreesWithUpstream(listeners, events, Normalised(query));
    }
  }

  lemma RunOfFour(listeners: nat, a: Event, b: Event, c: Event, d: Event)
    ensures Run(listeners, [a, b, c, d]) == Step(Step(Step(Step(Idle(listeners), a), b), c), d)
  {
    assert [a, b, c, d][..3] == [a, b, c] && [a, b, c][..2] == [a, b] && [a, b][..1] == [a] && [a][..0] == [];
    assert Run(listeners, [a]) == Step(Run(listeners, []), a);
    assert Run(listeners, [a, b]) == Step(Run(listeners, [a]), b);
    assert Run(listeners, [a, b, c]) == Step(Run(listeners, [a, b]), c);
  }

  /** A body without an ID is cached all the same, and then fails every later query for its key, whoever asks. */
  lemma ShortBodyIsCached(listeners: nat, query: Bytes, from: Address, other: Bytes)
    requires listeners > 0
    requires |query| >= 2 && |other| >= 2 && other[2..] == query[2..]
    ensures var n := Run(listeners, [Receive(0, query, from), Look(0), Respond(0, []), Store(0)]);
            && n.tasks == [Dropped]
            && Normalised(query) in n.cache && n.cache[Normalised(query)].body == []
            && Begin(n.cache, other, n.now).Failed?
  {
    RunOfFour(listeners, Receive(0, query, from), Look(0), Respond(0, []), Store(0));
    var key, id := Normalised(query), IdOf(query);
    var n1 := Step(Idle(listeners), Receive(0, query, from));
    assert n1.tasks == [Started] && n1.received == [Query(query, Client(0, from))];
    var n2 := Step(n1, Look(0));
    assert n2.tasks == [Asking(key, id)];
    var n3 := Step(n2, Respond(0, []));
    assert n3.tasks == [Storing(key, id, [])];
  }
}
