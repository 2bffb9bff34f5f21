/** That clients of the DNS listeners do get their answers, from upstream or from the cache, and in which order. */
module DnsAnswers {
  import opened Wrappers
  import opened DohQuery
  import opened DnsListener
  import opened DnsTheorems

  // ---------------------------------------------------------------------------
  // The body
  // ---------------------------------------------------------------------------

  /** All the pieces of all the data frames, front to back. */
  function PiecesOf(frames: seq<Frame>): seq<Piece> {
    if frames == [] then []
    else (if frames[0].Data? then frames[0].pieces else []) + PiecesOf(frames[1..])
  }

  function Concatenated(pieces: seq<Piece>): Bytes {
    if pieces == [] then [] else pieces[0] + Concatenated(pieces[1..])
  }

  lemma {:induction false} ConcatenatedAppend(a: seq<Piece>, b: seq<Piece>)
    ensures Concatenated(a + b) == Concatenated(a) + Concatenated(b)
  {
    if a == [] {
      assert a + b == b;
    } else {
      assert (a + b)[1..] == a[1..] + b;
      ConcatenatedAppend(a[1..], b);
    }
  }

  lemma {:induction false} JoinedIsConcatenated(pieces: seq<Piece>)
    ensures Joined(pieces) == Concatenated(pieces)
  {
    if pieces != [] {
      var front, last := pieces[..|pieces| - 1], pieces[|pieces| - 1];
      JoinedIsConcatenated(front);
      ConcatenatedAppend(front, [last]);
      assert front + [last] == pieces;
      assert Concatenated([last]) == last;
    }
  }

  lemma {:induction false} PiecesSnoc(frames: seq<Frame>, last: Frame)
    ensures PiecesOf(frames + [last]) == PiecesOf(frames) + if last.Data? then last.pieces else []
  {
    var all := frames + [last];
    if frames == [] {
      assert all[1..] == [];
    } else {
      assert all[1..] == frames[1..] + [last];
      PiecesSnoc(frames[1..], last);
    }
  }

  /** The body is all the data that came, in order, unless the stream broke anywhere. */
  lemma {:induction false} BodyIsAllTheData(frames: seq<Frame>)
    ensures BodyOf(frames) == if Broken in frames then Err else Ok(Concatenated(PiecesOf(frames)))
  {
    if frames != [] {
      var before, last := frames[..|frames| - 1], frames[|frames| - 1];
      assert frames == before + [last];
      BodyIsAllTheData(before);
      PiecesSnoc(before, last);
      if last.Data? {
        JoinedIsConcatenated(last.pieces);
        ConcatenatedAppend(PiecesOf(before), last.pieces);
      } else {
        assert PiecesOf(before) + [] == PiecesOf(before);
      }
    }
  }

  // ---------------------------------------------------------------------------
  // From the query to the reply
  // ---------------------------------------------------------------------------

  /** A query through listener `k`, looked up at once. */
  function AskedAndLooked(n: Net, k: nat, query: Bytes, from: Address): Net {
    Step(Step(n, Receive(k, query, from)), Look(|n.tasks|))
  }

  /** Without a live entry upstream is asked, with the ID ab cd. */
  lemma MissAsksUpstream(n: Net, k: nat, query: Bytes, from: Address)
    requires |n.tasks| == |n.received| && k < |n.queues| && |query| >= 2
    requires var key := [0xab, 0xcd] + query[2..]; key !in n.cache || n.cache[key].since + 3600 < n.now
    ensures AskedAndLooked(n, k, query, from)
         == n.(received := n.received + [Query(query, Client(k, from))],
               tasks := n.tasks + [Asking([0xab, 0xcd] + query[2..], query[..2])])
  {
    var m := Step(n, Receive(k, query, from));
    assert m.tasks[|n.tasks|] == Started && m.received[|n.tasks|].bytes == query;
  }

  /** With a live entry its body is the answer, and upstream is not asked. */
  lemma HitIsAnswered(n: Net, k: nat, query: Bytes, from: Address)
    requires |n.tasks| == |n.received| && k < |n.queues| && |n.queues[k]| < 1024 && |query| >= 2
    requires var key := [0xab, 0xcd] + query[2..];
             key in n.cache && n.now <= n.cache[key].since + 3600 && |n.cache[key].body| >= 2
    ensures var i := |n.tasks|;
            var m := Step(AskedAndLooked(n, k, query, from), Finish(i));
            var entry := n.cache[[0xab, 0xcd] + query[2..]];
            && m.queues == n.queues[k := n.queues[k] +
                 [Reply(i, query[..2] + entry.body[2..], from, FromCache(entry.since, n.now))]]
            && m.exchanges == n.exchanges && m.cache == n.cache
  {
    var i := |n.tasks|;
    var n1 := Step(n, Receive(k, query, from));
    assert n1.tasks[i] == Started && n1.received[i] == Query(query, Client(k, from));
    var entry := n.cache[[0xab, 0xcd] + query[2..]];
    var n2 := Step(n1, Look(i));
    assert n2.tasks[i] == Sending(query[..2] + entry.body[2..], FromCache(entry.since, n.now));
  }

  /** A response from upstream answers the query that asked for it, and is live from then on. */
  lemma ResponseIsAnswered(n: Net, i: nat, k: nat, query: Bytes, from: Address, frames: seq<Frame>, body: Bytes)
    requires i < |n.tasks| == |n.received| && n.received[i] == Query(query, Client(k, from))
    requires |query| >= 2 && n.tasks[i] == Asking([0xab, 0xcd] + query[2..], query[..2])
    requires k < |n.queues| && |n.queues[k]| < 1024
    requires Broken !in frames && body == Concatenated(PiecesOf(frames)) && |body| >= 2
    ensures var m := Step(Step(Step(n, Respond(i, frames)), Store(i)), Finish(i));
            && m.queues == n.queues[k := n.queues[k] + [Reply(i, query[..2] + body[2..], from, Fetched)]]
            && m.cache == n.cache[[0xab, 0xcd] + query[2..] := Entry(body, n.now)]
  {
    BodyIsAllTheData(frames);
    var n1 := Step(n, Respond(i, frames));
    assert n1.tasks[i] == Storing([0xab, 0xcd] + query[2..], query[..2], body);
    var n2 := Step(n1, Store(i));
    assert n2.tasks[i] == Sending(query[..2] + body[2..], Fetched);
  }

  /** A lookup of the program itself is handed its answer at once. */
  lemma ResolverIsAnswered(n: Net, i: nat)
    requires i < |n.tasks| == |n.received| && n.received[i].source == Resolver && n.tasks[i].Sending?
    ensures Step(n, Finish(i)) == n.(tasks := n.tasks[i := Returned(n.tasks[i].bytes, n.tasks[i].origin)])
  {
  }

  /** An entry that has been forgotten, or is more than 3600 seconds old, makes the next query go to upstream again. */
  lemma EntriesGoAway(n: Net, k: nat, query: Bytes, from: Address, seconds: nat)
    requires Holds(n) && k < |n.queues| && |query| >= 2 && seconds > 3600
    ensures var key := [0xab, 0xcd] + query[2..];
            && AskedAndLooked(Step(n, Forget(key)), k, query, from).tasks == n.tasks + [Asking(key, query[..2])]
            && AskedAndLooked(Step(n, Tick(seconds)), k, query, from).tasks == n.tasks + [Asking(key, query[..2])]
  {
    var key := [0xab, 0xcd] + query[2..];
    if key in n.cache {
      assert EntryHolds(n.exchanges, n.now, key, n.cache[key]);
    }
    MissAsksUpstream(Step(n, Forget(key)), k, query, from);
    MissAsksUpstream(Step(n, Tick(seconds)), k, query, from);
  }

  // ---------------------------------------------------------------------------
  // Order
  // ---------------------------------------------------------------------------

  /** What left through the socket of a listener, in order. */
  function Through(sent: seq<Delivery>, k: nat): seq<Reply> {
    if sent == [] then []
    else
      var last := sent[|sent| - 1];
      Through(sent[..|sent| - 1], k) + if last.listener == k then [last.reply] else []
  }

  lemma ThroughSnoc(sent: seq<Delivery>, d: Delivery, k: nat)
    ensures Through(sent + [d], k) == Through(sent, k) + if d.listener == k then [d.reply] else []
  {
    assert (sent + [d])[..|sent|] == sent;
  }

  /** The replies of a listener, sent ones first. */
  function Line(n: Net, k: nat): seq<Reply>
    requires k < |n.queues|
  {
    Through(n.sent, k) + n.queues[k]
  }

  lemma DeliveryKeepsOrder(n: Net, l: nat, k: nat)
    requires Holds(n) && k < |n.queues| && l < |n.queues| && n.queues[l] != []
    ensures k < |Delivered(n, l, true).queues| && Line(Delivered(n, l, true), k) == Line(n, k)
  {
    assert QueueHolds(n, l);
    var head, rest := n.queues[l][0], n.queues[l][1..];
    ThroughSnoc(n.sent, Delivery(l, head), k);
    if l == k {
      assert Through(n.sent, k) + [head] + rest == Through(n.sent, k) + n.queues[k];
    } else {
      assert Through(n.sent, k) + [] == Through(n.sent, k);
    }
  }

  lemma FinishKeepsOrder(n: Net, i: nat, bytes: Bytes, origin: Origin, k: nat)
    requires i < |n.tasks| == |n.received| && k < |n.queues|
    ensures var m := Finished(n, i, bytes, origin); k < |m.queues| && Line(n, k) <= Line(m, k)
  {
  }

  /** Unless a datagram is lost on the socket, a step only adds to the end of each listener's line. */
  lemma StepKeepsOrder(n: Net, e: Event, k: nat)
    requires Holds(n) && k < |n.queues| && !(e.Deliver? && !e.ok)
    ensures k < |Step(n, e).queues| && Line(n, k) <= Line(Step(n, e), k)
  {
    match e
    case Deliver(l, _) =>
      if l < |n.queues| && n.queues[l] != [] {
        DeliveryKeepsOrder(n, l, k);
      }
    case Finish(i) =>
      if i < |n.tasks| && n.tasks[i].Sending? {
        FinishKeepsOrder(n, i, n.tasks[i].bytes, n.tasks[i].origin, k);
      }
    case Receive(_, _, _) =>
    case Resolve(_) =>
    case Forget(_) =>
    case Tick(_) =>
    case _ =>
      if e.task < |n.tasks| {
        TaskStepIsPrivate(n, e.task, e);
      }
  }

  /** A delivery takes the first reply that waits, and nobody else's. */
  lemma DeliveryTakesTheFirst(n: Net, k: nat)
    requires Holds(n) && k < |n.queues| && n.queues[k] != []
    ensures var m := Step(n, Deliver(k, true));
            && m.sent == n.sent + [Delivery(k, n.queues[k][0])]
            && m.queues == n.queues[k := n.queues[k][1..]]
  {
    assert QueueHolds(n, k);
  }
}
