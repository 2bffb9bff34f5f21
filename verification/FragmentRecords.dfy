/** The fragment layer's law in terms of the records that are sent and received (section 5.1 of RFC 8446). */
module FragmentRecords {
  import opened Wrappers
  import opened TlsRecord
  import opened FragmentSpec
  import opened FragmentInvariant
  import opened FragmentRuns
  import opened FragmentProgress
  import opened FragmentTheorems
  import opened FragmentDelivery

  /** The verdict, byte by byte: type 22 is a handshake, and message 1 is a ClientHello. */
  lemma VerdictIff(buf: Bytes)
    ensures Classify(buf) == Raw <==> (|buf| >= 1 && buf[0] != 22) || (|buf| >= 6 && buf[5] != 1)
    ensures Classify(buf) == Hello <==>
              |buf| >= 6 && buf[0] == 22 && buf[5] == 1 && |buf| >= 256 * buf[3] as int + buf[4] as int + 5
  {
  }

  /** The stream starts with the record `r`, which holds the start of a ClientHello. */
  predicate StartsWithHello(s: Bytes, r: Record, tail: Bytes) {
    && Printable(r) && s == RecordBytes(r) + tail
    && r.base[0] == 22 && r.fragment != [] && r.fragment[0] == 1
  }

  /** The records that carry the bytes of `r` one by one. */
  predicate OneByOne(r: Record, records: seq<Record>) {
    && |records| == |r.fragment|
    && forall k :: 0 <= k < |records| ==> records[k] == Record(r.base, [r.fragment[k]])
  }

  lemma HelloIsSplit(s: Bytes, r: Record, tail: Bytes, records: seq<Record>)
    requires StartsWithHello(s, r, tail) && OneByOne(r, records)
    ensures |r.base| == 3 && AllPrintable(records) && Translate(s) == StreamOf(records) + tail
  {
    HeaderOfPrinted(r, tail);
    FragmentedIsStream(r.base, r.fragment, records);
    var n := |r.fragment| + 5;
    assert s[..3] == r.base && s[5..n] == r.fragment && s[n..] == tail;
    assert s[0] == r.base[0] && s[5] == r.fragment[0];
  }

  lemma OthersAreKept(s: Bytes)
    requires forall r, tail :: !StartsWithHello(s, r, tail)
    ensures Translate(s) == s
  {
    if Classify(s) == Hello && RecordLen(s) > 5 {
      FirstRecordPrinted(s);
      assert StartsWithHello(s, Record(s[..3], s[5..RecordLen(s)]), s[RecordLen(s)..]);
    }
  }

  /**
    What should be sent for a stream: if it starts with a ClientHello record, a record for each of its bytes, and then
    the rest of the stream as it is; and otherwise just the stream.
   */
  ghost predicate SplitAsDue(s: Bytes, sent: Bytes) {
    && (forall r, tail, records :: StartsWithHello(s, r, tail) && OneByOne(r, records) ==>
          AllPrintable(records) && sent == StreamOf(records) + tail)
    && ((forall r, tail :: !StartsWithHello(s, r, tail)) ==> sent == s)
  }

  lemma TranslationIsDue(s: Bytes)
    ensures SplitAsDue(s, Translate(s))
  {
    forall r, tail, records | StartsWithHello(s, r, tail) && OneByOne(r, records)
      ensures AllPrintable(records) && Translate(s) == StreamOf(records) + tail
    {
      HelloIsSplit(s, r, tail, records);
    }
    if forall r, tail :: !StartsWithHello(s, r, tail) {
      OthersAreKept(s);
    }
  }

  /** A clean run sends what is due for its stream. */
  lemma CleanRunSplitsHello(answers: seq<Answer>, ops: seq<Op>)
    requires Clean(answers, ops)
    ensures SplitAsDue(Run(Init(answers), ops).accepted, Emitted(Run(Init(answers), ops)))
  {
    CleanRunTranslates(answers, ops);
    TranslationIsDue(Run(Init(answers), ops).accepted);
  }

  lemma HeldExactly(s: Sys)
    requires Sound(s) && s.phase.Transparent? && s.held == s.accepted
    requires Classify(s.held) == Hello && RecordLen(s.held) == |s.held|
    ensures Emitted(s) == Split(s.held)
  {
    var sent := Split(s.held);
    assert LedgerOf(s.wire.log).counts == [];
    assert sent + [] + [] == sent;
  }

  lemma ExactFlush(data: Bytes, answers: seq<Answer>)
    requires Classify(data) == Hello && RecordLen(data) == |data|
    requires Willing(answers, 2 * |Split(data)| + 1)
    ensures var t := PolledFlush(Sys(Fragmenting(data, Split(data)), false, Wire(answers, []), data, data)).sys;
            t.phase.Transparent? && t.accepted == data && Emitted(t) == Split(data)
  {
    var s := Sys(Fragmenting(data, Split(data)), false, Wire(answers, []), data, data);
    FirstWrite(data, answers);
    WillingFlushEnds(s);
    FlushKeeps(s);
    HeldExactly(PolledFlush(s).sys);
  }

  /** A first write of exactly one ClientHello record, and one flush over a willing stream: the record is sent split. */
  lemma ExactWriteIsSplit(r: Record, answers: seq<Answer>, records: seq<Record>)
    requires Printable(r) && StartsWithHello(RecordBytes(r), r, []) && OneByOne(r, records)
    requires Willing(answers, 12 * |r.fragment| + 1)
    ensures var t := Run(Init(answers), [PollWrite(RecordBytes(r)), PollFlush]);
            && t.phase.Transparent? && t.accepted == RecordBytes(r)
            && AllPrintable(records) && Emitted(t) == StreamOf(records)
  {
    var data := RecordBytes(r);
    assert data + [] == data;
    HeaderOfPrinted(r, []);
    VerdictIff(data);
    assert data[..3] == r.base && data[5..|data|] == r.fragment;
    FragmentedIsStream(r.base, r.fragment, records);
    FragmentedLength(r.base, r.fragment);
    ExactFlush(data, answers);
    FirstWrite(data, answers);
    RunOfTwo(Init(answers), PollWrite(data), PollFlush);
  }
}
