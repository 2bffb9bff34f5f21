/** Which runs deliver the client's stream, and why its slicing into writes does not matter. */
module FragmentDelivery {
  import opened Wrappers
  import opened TlsRecord
  import opened FragmentSpec
  import opened FragmentInvariant
  import opened FragmentRuns
  import opened FragmentTheorems

  // ---------------------------------------------------------------------------
  // A run is faithful exactly when the held bytes stop at the end of the record
  // ---------------------------------------------------------------------------

  lemma MeaningOfSplit(s: Bytes, tail: Bytes)
    requires Classify(s) == Hello
    ensures MeaningOf(Split(s) + tail)
         == Meaning(Octets(s[..3], s[5..RecordLen(s)]) + MeaningOf(tail).content, MeaningOf(tail).rest)
  {
    FragmentedParses(s[..3], s[5..RecordLen(s)], tail);
    OneByteRecordsContent(s[..3], s[5..RecordLen(s)], Parse(tail).records);
  }

  /** The two sides of the theorem below, for a ClientHello record. */
  lemma HelloFaithfulIff(held: Bytes, accepted: Bytes, sent: Bytes)
    requires held <= accepted && Classify(held) == Hello
    requires sent == Split(held) + if RecordLen(held) < |held| then accepted else accepted[|held|..]
    ensures MeaningOf(sent) == MeaningOf(accepted) <==> !Straddled(held)
    ensures !Straddled(held) ==> sent == Translate(accepted)
  {
    VerdictIsStable(held, accepted);
    if Straddled(held) {
      MeaningOfSplit(held, accepted);
    } else if RecordLen(held) == 5 {
      assert sent == [] + accepted == accepted;
    } else {
      FragmentingKeepsMeaning(accepted);
    }
  }

  /**
    Once transparent, and if no raw write was cut short, the layer has sent a stream with the meaning of the
    acknowledged bytes exactly when the bytes it held did not reach beyond the record it split.
   */
  lemma FaithfulIff(s: Sys)
    requires Reachable(s) && s.phase.Transparent? && WholeWrites(s)
    ensures MeaningOf(Emitted(s)) == MeaningOf(s.accepted) <==> !Straddled(s.held)
  {
    WholeWritesEmission(s);
    if Classify(s.held) == Hello {
      HelloFaithfulIff(s.held, s.accepted, Emitted(s));
    }
  }

  /**
    If moreover the verdict was reached before the timer gave up, the sent bytes are the
    translation of the acknowledged bytes, under exactly the same condition.
   */
  lemma TranslatedIff(s: Sys)
    requires Reachable(s) && s.phase.Transparent? && WholeWrites(s)
    ensures Classify(s.held) != Undecided ==> (Emitted(s) == Translate(s.accepted) <==> !Straddled(s.held))
  {
    WholeWritesEmission(s);
    if Classify(s.held) != Undecided {
      VerdictIsStable(s.held, s.accepted);
    }
    TranslateKeepsMeaning(s.accepted);
    if Classify(s.held) == Hello {
      HelloFaithfulIff(s.held, s.accepted, Emitted(s));
    }
  }

  // ---------------------------------------------------------------------------
  // Runs grow
  // ---------------------------------------------------------------------------

  /** Waiting for the header, waiting for the message, fragmenting, draining, transparent. */
  function Rank(phase: Phase): nat {
    match phase
    case Gathering(buf) => if |buf| < 6 then 0 else 1
    case Fragmenting(_, _) => 2
    case Draining(_, _) => 3
    case Transparent => 4
  }

  /**
    What any number of polls may change: the rank never falls, acknowledged bytes are only added to, and
    the held bytes are fixed once gathering has stopped.
   */
  ghost predicate Grows(s: Sys, t: Sys) {
    && Rank(s.phase) <= Rank(t.phase)
    && s.accepted <= t.accepted
    && (!s.phase.Gathering? ==> t.held == s.held)
  }

  /** The held bytes are all the acknowledged bytes at the moment gathering stops. */
  ghost predicate HoldsAll(s: Sys, t: Sys) {
    s.phase.Gathering? && !t.phase.Gathering? ==> t.held == t.accepted
  }

  lemma FlushGrows(s: Sys)
    requires Sound(s)
    ensures var t := PolledFlush(s).sys;
            && Grows(s, t) && t.accepted == s.accepted && t.held == s.held
            && (t.phase.Gathering? <==> s.phase.Gathering?)
  {
  }

  lemma TimedGrows(s: Sys, expired: bool)
    requires Sound(s)
    ensures var t := Timed(s, expired);
            Grows(s, t) && HoldsAll(s, t) && t.accepted == s.accepted && (t.timer <==> t.phase.Gathering?)
  {
  }

  /** A read acknowledges nothing, and leaves a timer exactly when the layer still waits. */
  lemma ReadGrows(s: Sys, expired: bool, room: nat)
    requires Sound(s)
    ensures var t := PolledRead(s, expired, room).sys;
            Grows(s, t) && HoldsAll(s, t) && t.accepted == s.accepted && (t.timer <==> t.phase.Gathering?)
  {
    TimedGrows(s, expired);
    TimedKeeps(s, expired);
    FlushGrows(Timed(s, expired));
  }

  lemma PassedWriteGrows(s: Sys, data: Bytes)
    requires s.phase.Transparent?
    ensures Grows(s, PassedWrite(s, data).sys) && PassedWrite(s, data).sys.phase.Transparent?
  {
  }

  lemma GatheredWriteGrows(s: Sys, data: Bytes)
    requires Sound(s) && s.phase.Gathering?
    ensures Grows(s, GatheredWrite(s, data).sys) && HoldsAll(s, GatheredWrite(s, data).sys)
  {
  }

  /** A write acknowledges nothing while held bytes are still being sent. */
  lemma WriteGrows(s: Sys, data: Bytes)
    requires Sound(s)
    ensures var t := PolledWrite(s, data).sys;
            Grows(s, t) && HoldsAll(s, t) && (IsSending(s.phase) && IsSending(t.phase) ==> t.accepted == s.accepted)
  {
    if s.phase.Gathering? {
      GatheredWriteGrows(s, data);
    } else if s.phase.Transparent? {
      PassedWriteGrows(s, data);
    } else {
      FlushGrows(s);
      FlushKeeps(s);
      if PolledFlush(s).answer.Ready? {
        PassedWriteGrows(PolledFlush(s).sys, data);
      }
    }
  }

  lemma PollGrows(s: Sys, op: Op)
    requires Sound(s)
    ensures Grows(s, Poll(s, op).sys) && HoldsAll(s, Poll(s, op).sys)
  {
    match op
    case PollRead(expired, room) => ReadGrows(s, expired, room);
    case PollWrite(data) => WriteGrows(s, data);
    case PollFlush => FlushGrows(s);
    case PollShutdown =>
  }

  /** More polls only let a layer grow. */
  lemma {:induction false} RunGrows(s: Sys, ops: seq<Op>)
    requires Sound(s)
    ensures Sound(Run(s, ops)) && Grows(s, Run(s, ops))
  {
    if ops != [] {
      var before := ops[..|ops| - 1];
      RunGrows(s, before);
      PollKeeps(Run(s, before), ops[|ops| - 1]);
      PollGrows(Run(s, before), ops[|ops| - 1]);
    }
  }

  lemma {:induction false} RunAppend(s: Sys, first: seq<Op>, second: seq<Op>)
    ensures Run(s, first + second) == Run(Run(s, first), second)
  {
    var ops := first + second;
    if second == [] {
      assert ops == first;
    } else {
      assert ops[..|ops| - 1] == first + second[..|second| - 1];
      RunAppend(s, first, second[..|second| - 1]);
    }
  }

  lemma RunsGrow(answers: seq<Answer>, ops: seq<Op>, i: nat)
    requires i <= |ops|
    ensures Grows(Run(Init(answers), ops[..i]), Run(Init(answers), ops))
  {
    EveryRunIsSound(answers, ops[..i]);
    RunGrows(Run(Init(answers), ops[..i]), ops[i..]);
    RunAppend(Init(answers), ops[..i], ops[i..]);
    assert ops[..i] + ops[i..] == ops;
  }

  // ---------------------------------------------------------------------------
  // Slicing
  // ---------------------------------------------------------------------------

  /** At some point of the run, exactly `n` bytes had been acknowledged. */
  ghost predicate CutAt(answers: seq<Answer>, ops: seq<Op>, n: nat) {
    exists i :: 0 <= i <= |ops| && |Run(Init(answers), ops[..i]).accepted| == n
  }

  /** The bytes that were held were once all the bytes acknowledged. */
  lemma {:induction false} HeldIsACut(answers: seq<Answer>, ops: seq<Op>)
    requires !Run(Init(answers), ops).phase.Gathering?
    ensures CutAt(answers, ops, |Run(Init(answers), ops).held|)
  {
    var before := ops[..|ops| - 1];
    var s := Run(Init(answers), before);
    EveryRunIsSound(answers, before);
    PollGrows(s, ops[|ops| - 1]);
    if s.phase.Gathering? {
      assert ops[..|ops|] == ops;
    } else {
      HeldIsACut(answers, before);
      var i :| 0 <= i <= |before| && |Run(Init(answers), before[..i]).accepted| == |s.held|;
      assert before[..i] == ops[..i];
    }
  }

  lemma HeldWithinAccepted(s: Sys)
    requires Sound(s)
    ensures if s.phase.Gathering? then Classify(s.accepted) == Undecided else s.held <= s.accepted
  {
  }

  lemma CompleteRecordIsDecided(held: Bytes, cut: Bytes, all: Bytes)
    requires held <= all && cut <= all && Classify(held) == Hello && |cut| == RecordLen(held)
    requires RecordLen(held) > 5
    ensures Classify(cut) == Hello
  {
    assert forall i :: 0 <= i < |cut| ==> cut[i] == all[i] == held[i];
  }

  /** A write that ended at the end of the record leaves no more than the record to be held. */
  lemma CutEndsHeld(answers: seq<Answer>, ops: seq<Op>, i: nat)
    requires var s := Run(Init(answers), ops);
             !s.phase.Gathering? && Classify(s.held) == Hello && RecordLen(s.held) > 5
    requires i <= |ops|
    requires |Run(Init(answers), ops[..i]).accepted| == RecordLen(Run(Init(answers), ops).held)
    ensures |Run(Init(answers), ops).held| <= RecordLen(Run(Init(answers), ops).held)
  {
    var s, t := Run(Init(answers), ops), Run(Init(answers), ops[..i]);
    RunsGrow(answers, ops, i);
    EveryRunIsSound(answers, ops[..i]);
    EveryRunIsSound(answers, ops);
    HeldWithinAccepted(s);
    HeldWithinAccepted(t);
    CompleteRecordIsDecided(s.held, t.accepted, s.accepted);
  }

  /** A run holds no more than its record exactly when some write ended where the record ends. */
  lemma StraddlesIffNoCut(answers: seq<Answer>, ops: seq<Op>)
    requires var s := Run(Init(answers), ops);
             !s.phase.Gathering? && Classify(s.held) == Hello && RecordLen(s.held) > 5
    ensures var s := Run(Init(answers), ops);
            Straddled(s.held) <==> !CutAt(answers, ops, RecordLen(s.held))
  {
    var s := Run(Init(answers), ops);
    HeldIsACut(answers, ops);
    if CutAt(answers, ops, RecordLen(s.held)) {
      var i :| 0 <= i <= |ops| && |Run(Init(answers), ops[..i]).accepted| == RecordLen(s.held);
      CutEndsHeld(answers, ops, i);
    }
  }

  predicate NeverExpires(ops: seq<Op>) {
    forall i :: 0 <= i < |ops| && ops[i].PollRead? ==> !ops[i].expired
  }

  /** Unless the timer fires, gathering ends only with a verdict. */
  lemma {:induction false} DecidedUnlessExpired(answers: seq<Answer>, ops: seq<Op>)
    requires NeverExpires(ops)
    ensures var s := Run(Init(answers), ops); s.phase.Gathering? || Classify(s.held) != Undecided
  {
    if ops != [] {
      var before := ops[..|ops| - 1];
      DecidedUnlessExpired(answers, before);
      EveryRunIsSound(answers, before);
      PollGrows(Run(Init(answers), before), ops[|ops| - 1]);
    }
  }

  /** The record to be split, if the stream starts with one, ends where one of the client's writes ends. */
  ghost predicate RecordIsCut(answers: seq<Answer>, ops: seq<Op>) {
    var stream := Run(Init(answers), ops).accepted;
    Classify(stream) == Hello && RecordLen(stream) > 5 ==> CutAt(answers, ops, RecordLen(stream))
  }

  /** The run is over, the timer did not fire, no write straddled the record, and no raw write was cut short. */
  ghost predicate Clean(answers: seq<Answer>, ops: seq<Op>) {
    && Run(Init(answers), ops).phase.Transparent?
    && WholeWrites(Run(Init(answers), ops))
    && NeverExpires(ops)
    && RecordIsCut(answers, ops)
  }

  lemma CleanRunTranslates(answers: seq<Answer>, ops: seq<Op>)
    requires Clean(answers, ops)
    ensures Emitted(Run(Init(answers), ops)) == Translate(Run(Init(answers), ops).accepted)
  {
    var s := Run(Init(answers), ops);
    DecidedUnlessExpired(answers, ops);
    EveryRunIsSound(answers, ops);
    HeldWithinAccepted(s);
    VerdictIsStable(s.held, s.accepted);
    if Classify(s.held) == Hello && RecordLen(s.held) > 5 {
      StraddlesIffNoCut(answers, ops);
    }
    TranslatedIff(s);
  }

  /** However a client cuts its stream into writes, reads and flushes, the same bytes reach the server. */
  lemma SlicingDoesNotMatter(answers: seq<Answer>, ops: seq<Op>, answers': seq<Answer>, ops': seq<Op>)
    requires Clean(answers, ops) && Clean(answers', ops')
    requires Run(Init(answers), ops).accepted == Run(Init(answers'), ops').accepted
    ensures Emitted(Run(Init(answers), ops)) == Emitted(Run(Init(answers'), ops'))
  {
    CleanRunTranslates(answers, ops);
    CleanRunTranslates(answers', ops');
  }
}
