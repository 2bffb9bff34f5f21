/** What a shutdown of the fragment layer loses: everything that is still held, in every state but the last. */
module FragmentShutdown {
  import opened Wrappers
  import opened TlsRecord
  import opened FragmentSpec
  import opened FragmentInvariant
  import opened FragmentRuns
  import opened FragmentTheorems

  // ---------------------------------------------------------------------------
  // Between polls there is always something left to send
  // ---------------------------------------------------------------------------

  /** A layer that is kept waiting with held bytes has some of them left to send, if there were any. */
  predicate Unfinished(phase: Phase) {
    match phase
    case Fragmenting(buf, todo) => todo != [] || (|buf| >= 5 && RecordLen(buf) == 5)
    case Draining(buf, ptr) => ptr < |buf| || buf == []
    case _ => true
  }

  lemma {:induction false} DripStopsEarly(todo: Bytes, w: Wire)
    ensures !Drip(todo, w).answer.Ready? ==> Drip(todo, w).todo != []
    decreases |todo|
  {
    if todo != [] && DripOne(todo, w).answer.Ready? {
      DripStopsEarly(DripOne(todo, w).todo, DripOne(todo, w).wire);
    }
  }

  lemma {:induction false} DrainStopsEarly(buf: Bytes, ptr: nat, w: Wire)
    ensures !Drain(buf, ptr, w).answer.Ready? ==> Drain(buf, ptr, w).ptr < |buf|
    decreases |w.answers|
  {
    if ptr < |buf| && NextAnswer(w, |buf|).Ready? {
      DrainStopsEarly(buf, ptr + NextAnswer(w, |buf|).count, AfterWrite(w, RawLoop, buf));
    }
  }

  lemma FlushStopsEarly(phase: Phase, w: Wire)
    ensures Unfinished(FlushPhase(phase, w).phase)
  {
    match phase
    case Fragmenting(buf, todo) =>
      DripStopsEarly(todo, w);
      DrainStopsEarly(buf, Start(buf), Drip(todo, w).wire);
    case Draining(buf, ptr) =>
      DrainStopsEarly(buf, ptr, w);
    case _ =>
  }

  lemma PollLeavesUnfinished(s: Sys, op: Op)
    requires Unfinished(s.phase)
    ensures Unfinished(Poll(s, op).sys.phase)
  {
    match op
    case PollRead(expired, _) => FlushStopsEarly(Timed(s, expired).phase, s.wire);
    case PollWrite(data) =>
      FlushStopsEarly(s.phase, s.wire);
      if s.phase.Gathering? && Classify(s.phase.buf + data) == Hello {
        HelloIsUnsent(s.phase.buf + data);
      }
    case PollFlush => FlushStopsEarly(s.phase, s.wire);
    case PollShutdown =>
  }

  lemma HelloIsUnsent(buf: Bytes)
    requires Classify(buf) == Hello
    ensures Split(buf) == [] <==> RecordLen(buf) == 5
  {
    FragmentedLength(buf[..3], buf[5..RecordLen(buf)]);
  }

  lemma {:induction false} EveryRunIsUnfinished(answers: seq<Answer>, ops: seq<Op>)
    ensures Unfinished(Run(Init(answers), ops).phase)
  {
    if ops != [] {
      EveryRunIsUnfinished(answers, ops[..|ops| - 1]);
      PollLeavesUnfinished(Run(Init(answers), ops[..|ops| - 1]), ops[|ops| - 1]);
    }
  }

  // ---------------------------------------------------------------------------
  // The loss
  // ---------------------------------------------------------------------------

  lemma {:induction false} PrefixesLength(buf: Bytes, counts: seq<nat>)
    requires forall i :: 0 <= i < |counts| ==> counts[i] <= |buf|
    ensures |Prefixes(buf, counts)| == Sum(counts)
  {
    if counts != [] {
      PrefixesLength(buf, counts[..|counts| - 1]);
    }
  }

  lemma FragmentingIsShort(buf: Bytes, todo: Bytes, sent: Bytes)
    requires Classify(buf) == Hello && sent + todo == Split(buf) && Unfinished(Fragmenting(buf, todo))
    ensures |sent| < |Translate(buf)|
  {
    HelloIsUnsent(buf);
    assert |sent| + |todo| == |Split(buf)|;
  }

  lemma DrainingIsShort(buf: Bytes, counts: seq<nat>)
    requires Counted(|buf|, Start(buf), counts) && Start(buf) + Sum(counts) < |buf|
    ensures |Head(buf) + Prefixes(buf, counts)| < |Translate(buf)|
  {
    PrefixesLength(buf, counts);
    if Classify(buf) == Hello {
      HelloIsUnsent(buf);
    }
  }

  /** In every reachable state but the last, less was sent than should have been, unless the client sent nothing. */
  lemma SentIsShort(s: Sys)
    requires Reachable(s) && !s.phase.Transparent?
    ensures if s.accepted == [] then Emitted(s) == [] == Translate(s.accepted)
            else |Emitted(s)| < |Translate(s.accepted)|
  {
    var answers: seq<Answer>, ops: seq<Op> :| s == Run(Init(answers), ops);
    EveryRunIsUnfinished(answers, ops);
    EmissionLaw(s);
    ReachableIsSound(s);
    match s.phase
    case Gathering(_) =>
    case Fragmenting(buf, todo) =>
      FragmentingIsShort(buf, todo, Emitted(s));
    case Draining(buf, ptr) =>
      if buf == [] {
        PrefixesLength(buf, LedgerOf(s.wire.log).counts);
        NothingFromNothing(LedgerOf(s.wire.log).counts);
      } else {
        DrainingIsShort(buf, LedgerOf(s.wire.log).counts);
      }
  }

  lemma {:induction false} NothingFromNothing(counts: seq<nat>)
    ensures Prefixes([], counts) == []
  {
    if counts != [] {
      NothingFromNothing(counts[..|counts| - 1]);
    }
  }

  /**
    A shutdown in any state but the last sends what should be sent exactly when the client has sent nothing:
    bytes that wait for a verdict, the unsent part of a split record and undrained bytes are all dropped.
   */
  lemma ShutdownIsCompleteIff(s: Sys)
    requires Reachable(s) && !s.phase.Transparent?
    ensures var t := PolledShutdown(s).sys;
            && t.wire.log[|t.wire.log| - 1].Shutdown?
            && (Emitted(t) == Translate(t.accepted) <==> t.accepted == [])
  {
    SentIsShort(s);
    ShutdownSendsNothing(s);
  }

  lemma ShutdownSendsNothing(s: Sys)
    requires Reachable(s)
    ensures var t := PolledShutdown(s).sys;
            Emitted(t) == Emitted(s) && t.accepted == s.accepted && t.wire.log[|t.wire.log| - 1].Shutdown?
  {
    EveryRunIsDisciplined(s);
    Appended(s.wire.log, Shutdown(NextAnswer(s.wire, 0)));
  }

  /** In particular, bytes that wait for a verdict are not sent. */
  lemma ShutdownDropsHeldBytes(s: Sys)
    requires Reachable(s) && s.phase.Gathering? && s.phase.buf != []
    ensures var t := PolledShutdown(s).sys;
            Emitted(t) == [] && t.accepted == s.phase.buf && Emitted(t) != Translate(t.accepted)
  {
    EmissionLaw(s);
    ShutdownSendsNothing(s);
    ShutdownIsCompleteIff(s);
  }
}
