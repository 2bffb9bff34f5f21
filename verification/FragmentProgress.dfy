/** Exactly when the loops of the fragment layer end, and two runs that lose or repeat bytes. */
module FragmentProgress {
  import opened Wrappers
  import opened FragmentSpec
  import opened FragmentInvariant
  import opened FragmentRuns
  import opened FragmentTheorems

  /** The first `n` answers are there, and each lets something through. */
  ghost predicate Willing(answers: seq<Answer>, n: nat) {
    n <= |answers| && forall i :: 0 <= i < n ==> answers[i].Ready? && answers[i].count >= 1
  }

  lemma WillingStep(answers: seq<Answer>, n: nat)
    requires n > 0 && Willing(answers, n)
    ensures answers != [] && answers[0].Ready? && answers[0].count >= 1
    ensures Willing(answers[1..], n - 1)
  {
  }

  lemma DripUnfolds(todo: Bytes, w: Wire)
    requires todo != [] && Willing(w.answers, 2)
    ensures NextAnswer(w, 0) == Ready(0) && NextAnswer(AfterFlush(w), 1) == Ready(1)
    ensures var w2 := AfterWrite(AfterFlush(w), ChunkLoop, todo[..1]);
            w2.answers == w.answers[1..][1..] && Drip(todo, w) == Drip(todo[1..], w2)
  {
  }

  /** With a willing inner stream the chunk loop ends, after exactly one flush and one write for each byte. */
  lemma {:induction false} DripCompletes(todo: Bytes, w: Wire)
    requires Willing(w.answers, 2 * |todo|)
    ensures var d := Drip(todo, w);
            && d.answer == Ready(0) && d.todo == []
            && d.wire.answers == w.answers[2 * |todo|..]
            && |d.wire.log| == |w.log| + 2 * |todo|
    decreases |todo|
  {
    if todo != [] {
      WillingStep(w.answers, 2 * |todo|);
      WillingStep(w.answers[1..], 2 * |todo| - 1);
      DripUnfolds(todo, w);
      var w2 := AfterWrite(AfterFlush(w), ChunkLoop, todo[..1]);
      DripCompletes(todo[1..], w2);
      assert w.answers[1..][1..][2 * |todo| - 2..] == w.answers[2 * |todo|..];
    }
  }

  /** What the chunk loop needs for `n` bytes: in turn, a flush that is ready and a write that takes something. */
  ghost predicate Alternating(answers: seq<Answer>, n: nat) {
    && 2 * n <= |answers|
    && (forall i :: 0 <= i < 2 * n ==> answers[i].Ready?)
    && (forall i :: 0 <= i < 2 * n && i % 2 == 1 ==> answers[i].count >= 1)
  }

  lemma AlternatingStep(answers: seq<Answer>, n: nat)
    requires n >= 1 && |answers| >= 2 && answers[0].Ready? && answers[1].Ready? && answers[1].count >= 1
    ensures Alternating(answers, n) <==> Alternating(answers[2..], n - 1)
  {
    if Alternating(answers[2..], n - 1) {
      forall i | 0 <= i < 2 * n ensures answers[i].Ready? && (i % 2 == 1 ==> answers[i].count >= 1) {
        assert i < 2 || answers[i] == answers[2..][i - 2];
      }
    }
  }

  /** The chunk loop ends exactly when each byte gets a flush that is ready and a write that takes it. */
  lemma {:induction false} DripEndsIff(todo: Bytes, w: Wire)
    ensures Drip(todo, w).answer.Ready? <==> Alternating(w.answers, |todo|)
    decreases |todo|
  {
    if todo != [] && DripOne(todo, w).answer.Ready? {
      var one := DripOne(todo, w);
      assert one.wire.answers == w.answers[2..];
      DripEndsIff(one.todo, one.wire);
      AlternatingStep(w.answers, |todo|);
    }
  }

  /** Whatever the inner stream answers, the chunk loop makes at most two calls for each byte. */
  lemma {:induction false} DripIsBounded(todo: Bytes, w: Wire)
    ensures |Drip(todo, w).wire.log| <= |w.log| + 2 * |todo|
    ensures |Drip(todo, w).todo| <= |todo| && Drip(todo, w).todo == todo[|todo| - |Drip(todo, w).todo|..]
    decreases |todo|
  {
    if todo != [] {
      var w1 := AfterFlush(w);
      if NextAnswer(w, 0).Ready? && NextAnswer(w1, 1).Ready? && NextAnswer(w1, 1).count != 0 {
        DripIsBounded(todo[1..], AfterWrite(w1, ChunkLoop, todo[..1]));
      }
    }
  }

  /** How far these answers move the count of a raw loop that offers `len` bytes each time. */
  function Taken(answers: seq<Answer>, len: nat): nat {
    if answers == [] then 0
    else
      var first := if !answers[0].Ready? then 0 else if answers[0].count > len then len else answers[0].count;
      first + Taken(answers[1..], len)
  }

  /** The first `n` answers are all ready, and bring the count from `ptr` to `len`. */
  ghost predicate Enough(answers: seq<Answer>, n: nat, ptr: nat, len: nat) {
    && n <= |answers|
    && (forall i :: 0 <= i < n ==> answers[i].Ready?)
    && len <= ptr + Taken(answers[..n], len)
  }

  lemma EnoughStep(answers: seq<Answer>, n: nat, ptr: nat, len: nat)
    requires 1 <= n <= |answers| && answers[0].Ready?
    ensures Enough(answers, n, ptr, len) <==> Enough(answers[1..], n - 1, ptr + Taken(answers[..1], len), len)
  {
    var rest := answers[1..];
    assert answers[..n][1..] == rest[..n - 1] && answers[..1][1..] == [];
    assert Taken(answers[..n], len) == Taken(answers[..1], len) + Taken(rest[..n - 1], len);
    if Enough(rest, n - 1, ptr + Taken(answers[..1], len), len) {
      forall i | 0 <= i < n ensures answers[i].Ready? {
        assert i == 0 || answers[i] == rest[i - 1];
      }
    }
  }

  /** The raw loop ends exactly when some of the answers, all ready and taken in order, bring its count to the end. */
  lemma {:induction false} DrainEndsIff(buf: Bytes, ptr: nat, w: Wire)
    ensures Drain(buf, ptr, w).answer.Ready? <==> exists n: nat :: Enough(w.answers, n, ptr, |buf|)
    decreases |w.answers|
  {
    if |buf| <= ptr {
      assert Enough(w.answers, 0, ptr, |buf|);
    } else if NextAnswer(w, |buf|).Ready? {
      var ptr', w' := ptr + NextAnswer(w, |buf|).count, AfterWrite(w, RawLoop, buf);
      DrainUnfolds(buf, ptr, w, ptr', w');
      DrainEndsIff(buf, ptr', w');
      assert w.answers[..1][1..] == [] && ptr' == ptr + Taken(w.answers[..1], |buf|);
      if n: nat :| Enough(w'.answers, n, ptr', |buf|) {
        EnoughStep(w.answers, n + 1, ptr, |buf|);
      }
      if n: nat :| Enough(w.answers, n, ptr, |buf|) {
        EnoughStep(w.answers, n, ptr, |buf|);
      }
    }
  }

  lemma {:induction false} WillingTakes(answers: seq<Answer>, len: nat)
    requires Willing(answers, |answers|) && len > 0
    ensures Taken(answers, len) >= |answers|
  {
    if answers != [] {
      WillingTakes(answers[1..], len);
    }
  }

  /** A stream that takes at least one byte each time ends the raw loop. */
  lemma WillingDrainEnds(buf: Bytes, ptr: nat, w: Wire)
    requires ptr <= |buf| && Willing(w.answers, |buf| - ptr)
    ensures Drain(buf, ptr, w).answer.Ready?
  {
    var n := |buf| - ptr;
    if n > 0 {
      WillingTakes(w.answers[..n], |buf|);
    }
    assert Enough(w.answers, n, ptr, |buf|);
    DrainEndsIff(buf, ptr, w);
  }

  /** Writes of nothing never do: the raw loop takes every answer and stays where it is. */
  lemma {:induction false} DrainSpinsOnZeroWrites(buf: Bytes, ptr: nat, w: Wire)
    requires ptr < |buf|
    requires forall i :: 0 <= i < |w.answers| ==> w.answers[i] == Ready(0)
    ensures var d := Drain(buf, ptr, w);
            && d.answer == Pending && d.ptr == ptr
            && d.wire.answers == [] && |d.wire.log| == |w.log| + |w.answers| + 1
    decreases |w.answers|
  {
    if w.answers != [] {
      DrainSpinsOnZeroWrites(buf, ptr, AfterWrite(w, RawLoop, buf));
    }
  }

  /** A raw write that takes everything, and the flush after it. */
  lemma GenerousDrain(buf: Bytes, start: nat, w: Wire)
    requires start < |buf| && Willing(w.answers, 2) && w.answers[0].count >= |buf|
    requires Disciplined(w.log)
    ensures var p := FlushRaw(buf, start, w);
            && p.answer.Ready? && p.phase.Transparent?
            && LedgerOf(p.wire.log).counts == LedgerOf(w.log).counts + [|buf|]
  {
    var w1 := AfterWrite(w, RawLoop, buf);
    DrainUnfolds(buf, start, w, start + |buf|, w1);
    Appended(w.log, Write(RawLoop, buf, Ready(|buf|)));
    Appended(w1.log, Flush(Ready(0)));
  }

  /** An inner stream that takes everything it is offered lets one flush through to the end. */
  lemma GenerousFlushEndsTransparent(s: Sys)
    requires Sound(s) && s.phase.Fragmenting?
    requires Willing(s.wire.answers, 2 * |s.phase.todo| + 2)
    requires s.wire.answers[2 * |s.phase.todo|].count >= |s.phase.buf|
    ensures PolledFlush(s).answer.Ready? && PolledFlush(s).sys.phase.Transparent? && WholeWrites(PolledFlush(s).sys)
  {
    var Fragmenting(buf, todo) := s.phase;
    DripCompletes(todo, s.wire);
    DripKeeps(s);
    var w := Drip(todo, s.wire).wire;
    assert w.answers[0] == s.wire.answers[2 * |todo|] && w.answers[1] == s.wire.answers[2 * |todo| + 1];
    if Start(buf) < |buf| {
      GenerousDrain(buf, Start(buf), w);
    } else {
      Appended(w.log, Flush(NextAnswer(w, 0)));
    }
  }

  function Short(buf: Bytes, ptr: nat): nat {
    if ptr < |buf| then |buf| - ptr else 0
  }

  /** The most calls that a willing inner stream is asked to answer before the last flush. */
  function Unsent(phase: Phase): nat {
    match phase
    case Fragmenting(buf, todo) => 2 * |todo| + Short(buf, Start(buf))
    case Draining(buf, ptr) => Short(buf, ptr)
    case _ => 0
  }

  lemma {:induction false} WillingFlushRawEnds(buf: Bytes, ptr: nat, w: Wire)
    requires Willing(w.answers, Short(buf, ptr) + 1)
    ensures FlushRaw(buf, ptr, w).answer.Ready?
    decreases |w.answers|
  {
    if ptr < |buf| {
      WillingStep(w.answers, Short(buf, ptr) + 1);
      var ptr', w' := ptr + NextAnswer(w, |buf|).count, AfterWrite(w, RawLoop, buf);
      DrainUnfolds(buf, ptr, w, ptr', w');
      WillingFlushRawEnds(buf, ptr', w');
    }
  }

  /** With an inner stream that takes at least one byte each time, a flush gets through to the end from any state. */
  lemma WillingFlushEnds(s: Sys)
    requires Sound(s) && IsSending(s.phase)
    requires Willing(s.wire.answers, Unsent(s.phase) + 1)
    ensures PolledFlush(s).answer.Ready? && PolledFlush(s).sys.phase.Transparent?
  {
    FlushKeeps(s);
    match s.phase
    case Fragmenting(buf, todo) =>
      DripCompletes(todo, s.wire);
      WillingFlushRawEnds(buf, Start(buf), Drip(todo, s.wire).wire);
    case Draining(buf, ptr) =>
      WillingFlushRawEnds(buf, ptr, s.wire);
  }

  lemma RunOfTwo(s: Sys, first: Op, second: Op)
    ensures Run(s, [first, second]) == Poll(Poll(s, first).sys, second).sys
  {
    assert [first, second][..1] == [first];
    assert Run(s, [first]) == Poll(Run(s, []), first).sys;
  }

  lemma FirstWrite(data: Bytes, answers: seq<Answer>)
    requires Classify(data) != Undecided
    ensures Poll(Init(answers), PollWrite(data)).sys == Sys(Gather([], data), false, Wire(answers, []), data, data)
    ensures Sound(Poll(Init(answers), PollWrite(data)).sys)
    ensures Gather([], data) == if Classify(data) == Hello then Fragmenting(data, Split(data)) else Draining(data, 0)
  {
    assert [] + data == data;
    PollKeeps(Init(answers), PollWrite(data));
  }

  lemma StraddledFlushRepeats(s: Sys)
    requires s.phase.Fragmenting? && Sound(s) && Straddled(s.held)
    requires Willing(s.wire.answers, 2 * |s.phase.todo| + 2)
    requires s.wire.answers[2 * |s.phase.todo|].count >= |s.phase.buf|
    ensures var t := PolledFlush(s).sys;
            t.phase.Transparent? && t.accepted == s.accepted && Emitted(t) == Split(s.held) + s.accepted
  {
    GenerousFlushEndsTransparent(s);
    FlushKeeps(s);
    var t := PolledFlush(s).sys;
    WholeWritesSent(t.held, t.accepted, LedgerOf(t.wire.log));
  }

  lemma StraddledWriteIsHeld(data: Bytes, answers: seq<Answer>)
    requires Straddled(data)
    ensures Poll(Init(answers), PollWrite(data)).sys
         == Sys(Fragmenting(data, Split(data)), false, Wire(answers, []), data, data)
    ensures Sound(Sys(Fragmenting(data, Split(data)), false, Wire(answers, []), data, data))
  {
    FirstWrite(data, answers);
  }

  /** If the first write reaches beyond its ClientHello record, all of it is sent again after the split record. */
  lemma StraddlingWriteIsRepeated(data: Bytes, answers: seq<Answer>)
    requires Straddled(data)
    requires Willing(answers, 2 * |Split(data)| + 2) && answers[2 * |Split(data)|].count >= |data|
    ensures var s := Run(Init(answers), [PollWrite(data), PollFlush]);
            s.phase.Transparent? && s.accepted == data && Emitted(s) == Split(data) + data
  {
    var held := Sys(Fragmenting(data, Split(data)), false, Wire(answers, []), data, data);
    StraddledWriteIsHeld(data, answers);
    StraddledFlushRepeats(held);
    assert Run(Init(answers), [PollWrite(data), PollFlush]) == PolledFlush(held).sys by {
      RunOfTwo(Init(answers), PollWrite(data), PollFlush);
    }
  }

  /** Bytes that do not start a handshake record, and an inner stream that takes them one at a time. */
  lemma ShortRawWritesRepeatTheFirstByte()
    ensures var s := Run(Init([Ready(1), Ready(1), Ready(0)]), [PollWrite([1, 2]), PollFlush]);
            s.phase.Transparent? && s.accepted == [1, 2] && Emitted(s) == [1, 1]
  {
    var w := Wire([Ready(1), Ready(1), Ready(0)], []);
    RunOfTwo(Init(w.answers), PollWrite([1, 2]), PollFlush);
    FirstWrite([1, 2], w.answers);
    OneByteAtATime(w);
  }

  lemma OneByteAtATime(w: Wire)
    requires w == Wire([Ready(1), Ready(1), Ready(0)], [])
    ensures FlushRaw([1, 2], 0, w).phase.Transparent?
    ensures LedgerOf(FlushRaw([1, 2], 0, w).wire.log).emitted == [1, 1]
  {
    var w1 := AfterWrite(w, RawLoop, [1, 2]);
    var w2 := AfterWrite(w1, RawLoop, [1, 2]);
    assert w1.answers == [Ready(1), Ready(0)] && w2.answers == [Ready(0)];
    DrainUnfolds([1, 2], 0, w, 1, w1);
    DrainUnfolds([1, 2], 1, w1, 2, w2);
    Appended(w.log, Write(RawLoop, [1, 2], Ready(1)));
    Appended(w1.log, Write(RawLoop, [1, 2], Ready(1)));
    Appended(w2.log, Flush(Ready(0)));
  }
}
