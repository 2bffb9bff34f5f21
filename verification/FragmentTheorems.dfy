/** What the invariant of the fragment layer means for the bytes on the wire. */
module FragmentTheorems {
  import opened Wrappers
  import opened TlsRecord
  import opened FragmentSpec
  import opened FragmentInvariant
  import opened FragmentRuns

  // ---------------------------------------------------------------------------
  // The emission law
  // ---------------------------------------------------------------------------

  /** A state that some run ends in. */
  ghost predicate Reachable(s: Sys) {
    exists answers: seq<Answer>, ops: seq<Op> :: s == Run(Init(answers), ops)
  }

  lemma ReachableIsSound(s: Sys)
    requires Reachable(s)
    ensures Sound(s)
  {
    var answers: seq<Answer>, ops: seq<Op> :| s == Run(Init(answers), ops);
    EveryRunIsSound(answers, ops);
  }

  /**
    After any run: nothing was sent while the layer was waiting; while it fragments, exactly the sent part of the
    one-byte records; and once it is transparent, the one-byte records (if there are any), a prefix of
    the held bytes for each raw write, and then precisely the bytes acknowledged later, in order.
   */
  lemma EmissionLaw(s: Sys)
    requires Reachable(s)
    ensures var counts := LedgerOf(s.wire.log).counts;
            match s.phase
            case Gathering(buf) => Emitted(s) == [] && s.accepted == buf
            case Fragmenting(buf, todo) => Emitted(s) + todo == Head(buf) && s.accepted == buf
            case Draining(buf, _) => Emitted(s) == Head(buf) + Prefixes(buf, counts) && s.accepted == buf
            case Transparent =>
              && s.held <= s.accepted
              && Emitted(s) == Head(s.held) + Prefixes(s.held, counts) + s.accepted[|s.held|..]
  {
    ReachableIsSound(s);
    if s.phase.Draining? {
      var sent := Head(s.phase.buf) + Prefixes(s.phase.buf, LedgerOf(s.wire.log).counts);
      assert sent + [] == sent;
    }
  }

  /** After any run, each one-byte write of the chunk loop came directly after a successful flush. */
  lemma EveryRunIsDisciplined(s: Sys)
    requires Reachable(s)
    ensures Disciplined(s.wire.log)
  {
    ReachableIsSound(s);
  }

  // ---------------------------------------------------------------------------
  // The raw loop
  // ---------------------------------------------------------------------------

  /** The counts of a raw loop over `len` bytes that started to count at `start` and has ended. */
  ghost predicate Ended(len: nat, start: nat, counts: seq<nat>) {
    Counted(len, start, counts) && len <= start + Sum(counts)
  }

  /** Each write either moved nothing or took everything it was offered. */
  ghost predicate Whole(len: nat, counts: seq<nat>) {
    forall i :: 0 <= i < |counts| ==> counts[i] == 0 || counts[i] == len
  }

  lemma {:induction false} IdleCounts(buf: Bytes, counts: seq<nat>)
    requires Whole(|buf|, counts) && Sum(counts) < |buf|
    ensures Prefixes(buf, counts) == []
  {
    if counts != [] {
      assert Whole(|buf|, counts[..|counts| - 1]);
      IdleCounts(buf, counts[..|counts| - 1]);
    }
  }

  /** A raw loop with whole writes sends nothing if there was nothing to count to, and else the whole buffer once. */
  lemma WholeDrain(buf: Bytes, start: nat, counts: seq<nat>)
    requires Ended(|buf|, start, counts) && Whole(|buf|, counts)
    ensures Prefixes(buf, counts) == if start < |buf| then buf else []
  {
    if counts != [] {
      assert Whole(|buf|, counts[..|counts| - 1]);
      IdleCounts(buf, counts[..|counts| - 1]);
      assert buf[..|buf|] == buf;
    }
  }

  function Nonzero(counts: seq<nat>): nat {
    if counts == [] then 0 else Nonzero(counts[..|counts| - 1]) + if counts[|counts| - 1] == 0 then 0 else 1
  }

  lemma {:induction false} AtMostOneNonzero(counts: seq<nat>, k: nat)
    requires Nonzero(counts) <= 1 && k < |counts|
    ensures counts[k] == 0 || counts[k] == Sum(counts)
    ensures Nonzero(counts) == 0 ==> counts[k] == 0
  {
    var n := |counts| - 1;
    if k < n {
      AtMostOneNonzero(counts[..n], k);
    } else {
      NoneNonzero(counts[..n]);
    }
  }

  lemma {:induction false} NoneNonzero(counts: seq<nat>)
    ensures Nonzero(counts) == 0 ==> Sum(counts) == 0
  {
    if counts != [] {
      NoneNonzero(counts[..|counts| - 1]);
    }
  }

  /** The bytes 1, 0, 0, ...: every prefix but the empty one holds the 1 exactly once. */
  function Marked(len: nat): Bytes
    requires len > 0
  {
    seq(len, i requires 0 <= i < len => if i == 0 then 1 else 0)
  }

  lemma OneMark(len: nat, n: nat)
    requires 0 < len
    ensures multiset(Prefix(Marked(len), n))[1] == if n == 0 then 0 else 1
  {
    var p := Prefix(Marked(len), n);
    if n != 0 {
      assert p == [1] + p[1..];
      assert 1 !in p[1..];
      assert multiset(p) == multiset([1]) + multiset(p[1..]);
    }
  }

  lemma {:induction false} Marks(len: nat, counts: seq<nat>)
    requires 0 < len
    ensures multiset(Prefixes(Marked(len), counts))[1] == Nonzero(counts)
  {
    if counts != [] {
      Marks(len, counts[..|counts| - 1]);
      OneMark(len, counts[|counts| - 1]);
    }
  }

  /** The raw loop sends every buffer unchanged exactly when no write is cut short. */
  lemma RawLoopFaithfulIff(len: nat, counts: seq<nat>)
    requires Ended(len, 0, counts)
    ensures (forall buf: Bytes :: |buf| == len ==> Prefixes(buf, counts) == buf) <==> Whole(len, counts)
  {
    if Whole(len, counts) {
      forall buf: Bytes | |buf| == len ensures Prefixes(buf, counts) == buf {
        WholeDrain(buf, 0, counts);
      }
    } else {
      var buf := Marked(len);
      Marks(len, counts);
      OneMark(len, len);
      if Nonzero(counts) <= 1 {
        var k :| 0 <= k < |counts| && counts[k] != 0 && counts[k] != len;
        AtMostOneNonzero(counts, k);
        assert false;
      }
      assert buf[..len] == buf;
      assert Prefixes(buf, counts) != buf;
    }
  }

  // ---------------------------------------------------------------------------
  // What should reach the server, and when it does
  // ---------------------------------------------------------------------------

  /** The stream with its first record split, if that is a ClientHello record with a payload. */
  function Translate(s: Bytes): Bytes {
    if Classify(s) == Hello && RecordLen(s) > 5 then Split(s) + s[RecordLen(s)..] else s
  }

  /** The translation means the same to a receiver of records. */
  lemma TranslateKeepsMeaning(s: Bytes)
    ensures MeaningOf(Translate(s)) == MeaningOf(s)
  {
    if Classify(s) == Hello {
      FragmentingKeepsMeaning(s);
    }
  }

  /** The held bytes reach beyond the record that is to be split. */
  predicate Straddled(held: Bytes) {
    Classify(held) == Hello && 5 < RecordLen(held) < |held|
  }

  /** Every raw write that moved anything took the whole of the held bytes. */
  ghost predicate WholeWrites(s: Sys) {
    Whole(|s.held|, LedgerOf(s.wire.log).counts)
  }

  lemma VerdictIsStable(held: Bytes, s: Bytes)
    requires held <= s && Classify(held) != Undecided
    ensures Classify(s) == Classify(held)
    ensures Classify(s) == Hello ==> RecordLen(s) == RecordLen(held) && Split(s) == Split(held)
  {
    if Classify(held) == Hello {
      assert s[..3] == held[..3] && s[5..RecordLen(held)] == held[5..RecordLen(held)];
    }
  }

  /** With whole writes, what a transparent layer has sent. */
  lemma WholeWritesEmission(s: Sys)
    requires Reachable(s) && s.phase.Transparent? && WholeWrites(s)
    ensures s.held <= s.accepted
    ensures Classify(s.held) != Hello ==> Emitted(s) == s.accepted
    ensures Emitted(s) == Head(s.held) + if Start(s.held) < |s.held| then s.accepted else s.accepted[|s.held|..]
  {
    ReachableIsSound(s);
    WholeWritesSent(s.held, s.accepted, LedgerOf(s.wire.log));
  }

  lemma Rejoin(head: Bytes, held: Bytes, accepted: Bytes)
    requires held <= accepted
    ensures head + held + accepted[|held|..] == head + accepted
    ensures head + [] + accepted[|held|..] == head + accepted[|held|..]
    ensures [] + accepted == accepted
  {
    assert accepted == held + accepted[|held|..];
  }

  lemma WholeWritesSent(held: Bytes, accepted: Bytes, l: Ledger)
    requires Fits(Transparent, l, accepted, held) && Whole(|held|, l.counts)
    ensures l.emitted == Head(held) + if Start(held) < |held| then accepted else accepted[|held|..]
    ensures Classify(held) != Hello ==> l.emitted == accepted
  {
    WholeDrain(held, Start(held), l.counts);
    Rejoin(Head(held), held, accepted);
  }
}
