/** What holds over every run of the fragment layer, for every script of inner answers. */
module FragmentRuns {
  import opened Wrappers
  import opened FragmentSpec
  import opened FragmentInvariant

  /** One more call posts one more line to the ledger. */
  lemma Appended(log: seq<Call>, c: Call)
    requires Disciplined(log) && FlushedBefore(log + [c], |log|)
    ensures Disciplined(log + [c]) && LedgerOf(log + [c]) == Posted(LedgerOf(log), c)
  {
    assert (log + [c])[..|log|] == log;
    forall i | 0 <= i < |log| ensures FlushedBefore(log + [c], i) {
      assert FlushedBefore(log, i);
    }
  }

  /** A call that is not a write moves nothing. */
  lemma Quiet(s: Sys, c: Call, answers: seq<Answer>)
    requires Sound(s) && !c.Write?
    ensures Sound(s.(wire := Wire(answers, s.wire.log + [c])))
  {
    Appended(s.wire.log, c);
  }

  lemma PrefixesSnoc(buf: Bytes, counts: seq<nat>, n: nat)
    ensures Prefixes(buf, counts + [n]) == Prefixes(buf, counts) + Prefix(buf, n)
    ensures Sum(counts + [n]) == Sum(counts) + n
  {
    assert (counts + [n])[..|counts|] == counts;
  }

  lemma ChunkWriteFits(buf: Bytes, todo: Bytes, l: Ledger, l': Ledger)
    requires todo != [] && Fits(Fragmenting(buf, todo), l, buf, buf)
    requires l' == l.(emitted := l.emitted + todo[..1], chunked := l.chunked + todo[..1])
    ensures Fits(Fragmenting(buf, todo[1..]), l', buf, buf)
  {
    assert l.chunked + todo[..1] + todo[1..] == l.chunked + todo;
  }

  lemma CountedSnoc(len: nat, start: nat, counts: seq<nat>, n: nat)
    requires Counted(len, start, counts) && start + Sum(counts) < len && n <= len
    ensures Counted(len, start, counts + [n])
  {
    assert (counts + [n])[..|counts|] == counts;
  }

  lemma Regroup(a: Bytes, b: Bytes, c: Bytes)
    ensures a + b + [] + c == a + (b + c) + []
  {
  }

  lemma DrainFits(buf: Bytes, ptr: nat, n: nat, l: Ledger, l': Ledger)
    requires ptr < |buf| && n <= |buf| && Fits(Draining(buf, ptr), l, buf, buf)
    requires l' == l.(emitted := l.emitted + buf[..n], drained := l.drained + buf[..n], counts := l.counts + [n])
    ensures Fits(Draining(buf, ptr + n), l', buf, buf)
  {
    PrefixesSnoc(buf, l.counts, n);
    CountedSnoc(|buf|, Start(buf), l.counts, n);
    Regroup(Head(buf), Prefixes(buf, l.counts), buf[..n]);
  }

  lemma PassFits(l: Ledger, l': Ledger, accepted: Bytes, held: Bytes, sent: Bytes)
    requires Fits(Transparent, l, accepted, held)
    requires l' == l.(emitted := l.emitted + sent, passed := l.passed + sent)
    ensures Fits(Transparent, l', accepted + sent, held)
  {
    assert l.emitted + sent == Head(held) + Prefixes(held, l.counts) + (l.passed + sent);
    assert (accepted + sent)[|held|..] == accepted[|held|..] + sent;
  }

  // ---------------------------------------------------------------------------
  // Every poll keeps the invariant
  // ---------------------------------------------------------------------------

  lemma {:induction false} DripKeeps(s: Sys)
    requires Sound(s) && s.phase.Fragmenting?
    ensures var d := Drip(s.phase.todo, s.wire);
            && Sound(s.(phase := Fragmenting(s.phase.buf, d.todo), wire := d.wire))
            && (d.answer.Ready? ==> d.todo == [])
    decreases |s.phase.todo|
  {
    var Fragmenting(buf, todo) := s.phase;
    if todo != [] {
      var w, w1 := s.wire, AfterFlush(s.wire);
      Appended(w.log, Flush(NextAnswer(w, 0)));
      if NextAnswer(w, 0).Ready? {
        var written, w2 := NextAnswer(w1, 1), AfterWrite(w1, ChunkLoop, todo[..1]);
        Appended(w1.log, Write(ChunkLoop, todo[..1], written));
        if written.Ready? && written.count != 0 {
          ChunkWriteFits(buf, todo, LedgerOf(w1.log), LedgerOf(w2.log));
          DripKeeps(s.(phase := Fragmenting(buf, todo[1..]), wire := w2));
        } else if written.Ready? {
          NothingSent(LedgerOf(w1.log), todo[..1]);
        }
      }
    }
  }

  lemma NothingSent(l: Ledger, data: Bytes)
    ensures Posted(l, Write(ChunkLoop, data, Ready(0))) == l
  {
    assert l.emitted + data[..0] == l.emitted && l.chunked + data[..0] == l.chunked;
  }

  /** One write of the raw loop. */
  lemma RawWriteKeeps(buf: Bytes, ptr: nat, w: Wire)
    requires Holds(Draining(buf, ptr), w, buf, buf) && ptr < |buf|
    ensures var answer := NextAnswer(w, |buf|);
            Holds(Draining(buf, ptr + if answer.Ready? then answer.count else 0), AfterWrite(w, RawLoop, buf), buf, buf)
  {
    var answer, w1 := NextAnswer(w, |buf|), AfterWrite(w, RawLoop, buf);
    Appended(w.log, Write(RawLoop, buf, answer));
    if answer.Ready? {
      DrainFits(buf, ptr, answer.count, LedgerOf(w.log), LedgerOf(w1.log));
    }
  }

  lemma DrainUnfolds(buf: Bytes, ptr: nat, w: Wire, ptr': nat, w': Wire)
    requires ptr < |buf| && NextAnswer(w, |buf|).Ready?
    requires ptr' == ptr + NextAnswer(w, |buf|).count && w' == AfterWrite(w, RawLoop, buf)
    ensures Drain(buf, ptr, w) == Drain(buf, ptr', w') && |w'.answers| < |w.answers|
  {
  }

  lemma {:induction false} DrainKeeps(buf: Bytes, ptr: nat, w: Wire)
    requires Holds(Draining(buf, ptr), w, buf, buf)
    ensures Holds(Draining(buf, Drain(buf, ptr, w).ptr), Drain(buf, ptr, w).wire, buf, buf)
    decreases |w.answers|
  {
    if ptr < |buf| {
      RawWriteKeeps(buf, ptr, w);
      var answer := NextAnswer(w, |buf|);
      if answer.Ready? {
        var ptr', w' := ptr + answer.count, AfterWrite(w, RawLoop, buf);
        DrainUnfolds(buf, ptr, w, ptr', w');
        DrainKeeps(buf, ptr', w');
      }
    }
  }

  lemma {:induction false} DrainReachesTheEnd(buf: Bytes, ptr: nat, w: Wire)
    ensures Drain(buf, ptr, w).answer.Ready? ==> |buf| <= Drain(buf, ptr, w).ptr
    decreases |w.answers|
  {
    if ptr < |buf| && NextAnswer(w, |buf|).Ready? {
      DrainReachesTheEnd(buf, ptr + NextAnswer(w, |buf|).count, AfterWrite(w, RawLoop, buf));
    }
  }

  lemma FlushRawKeeps(s: Sys)
    requires Sound(s) && s.phase.Draining?
    ensures var p := FlushRaw(s.phase.buf, s.phase.ptr, s.wire);
            && Sound(s.(phase := p.phase, wire := p.wire))
            && (p.answer.Ready? ==> p.phase.Transparent?)
  {
    DrainKeeps(s.phase.buf, s.phase.ptr, s.wire);
    DrainReachesTheEnd(s.phase.buf, s.phase.ptr, s.wire);
    var d := Drain(s.phase.buf, s.phase.ptr, s.wire);
    if d.answer.Ready? {
      Quiet(s.(phase := Transparent, wire := d.wire), Flush(NextAnswer(d.wire, 0)), AfterFlush(d.wire).answers);
    }
  }

  lemma FlushKeeps(s: Sys)
    requires Sound(s)
    ensures Sound(PolledFlush(s).sys)
    ensures IsSending(s.phase) && PolledFlush(s).answer.Ready? ==> PolledFlush(s).sys.phase.Transparent?
  {
    match s.phase
    case Fragmenting(buf, todo) =>
      DripKeeps(s);
      var d := Drip(todo, s.wire);
      if d.answer.Ready? {
        FlushRawKeeps(s.(phase := Draining(buf, Start(buf)), wire := d.wire));
      }
    case Draining(buf, ptr) =>
      FlushRawKeeps(s);
    case _ =>
      Quiet(s, Flush(NextAnswer(s.wire, 0)), AfterFlush(s.wire).answers);
  }

  lemma PassedWriteKeeps(s: Sys, data: Bytes)
    requires Sound(s) && s.phase.Transparent?
    ensures Sound(PassedWrite(s, data).sys)
  {
    var answer := NextAnswer(s.wire, |data|);
    Appended(s.wire.log, Write(PassThrough, data, answer));
    if answer.Ready? {
      PassFits(LedgerOf(s.wire.log), LedgerOf(AfterWrite(s.wire, PassThrough, data).log),
               s.accepted, s.held, data[..answer.count]);
    } else {
      assert s.accepted + [] == s.accepted;
    }
  }

  lemma WriteKeeps(s: Sys, data: Bytes)
    requires Sound(s)
    ensures Sound(PolledWrite(s, data).sys)
  {
    if s.phase.Transparent? {
      PassedWriteKeeps(s, data);
    } else if !s.phase.Gathering? {
      FlushKeeps(s);
      if PolledFlush(s).answer.Ready? {
        PassedWriteKeeps(PolledFlush(s).sys, data);
      }
    }
  }

  lemma ReadKeeps(s: Sys, expired: bool, room: nat)
    requires Sound(s)
    ensures Sound(PolledRead(s, expired, room).sys)
  {
    var t := Timed(s, expired);
    TimedKeeps(s, expired);
    FlushKeeps(t);
    var f := if IsSending(t.phase) then PolledFlush(t).sys else t;
    var call := Read(NextAnswer(f.wire, room));
    Quiet(f, call, Logged(f.wire, call).answers);
  }

  lemma TimedKeeps(s: Sys, expired: bool)
    requires Sound(s)
    ensures Sound(Timed(s, expired))
  {
  }

  lemma PollKeeps(s: Sys, op: Op)
    requires Sound(s)
    ensures Sound(Poll(s, op).sys)
  {
    match op
    case PollRead(expired, room) => ReadKeeps(s, expired, room);
    case PollWrite(data) => WriteKeeps(s, data);
    case PollFlush => FlushKeeps(s);
    case PollShutdown =>
      var call := Shutdown(NextAnswer(s.wire, 0));
      Quiet(s, call, Logged(s.wire, call).answers);
  }

  /** The invariant holds after every sequence of polls, whatever the inner stream and the timer answer. */
  lemma {:induction false} EveryRunIsSound(answers: seq<Answer>, ops: seq<Op>)
    ensures Sound(Run(Init(answers), ops))
  {
    if ops != [] {
      EveryRunIsSound(answers, ops[..|ops| - 1]);
      PollKeeps(Run(Init(answers), ops[..|ops| - 1]), ops[|ops| - 1]);
    }
  }
}
