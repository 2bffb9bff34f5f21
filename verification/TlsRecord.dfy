/**
  TLS records: the header the fragment layer reads, the one-byte records it writes,
  and a reference reader for a stream of records (section 5.1 of RFC 8446).
 */
module TlsRecord {
  import opened Wrappers

  const HANDSHAKE: Byte := 0x16
  const CLIENT_HELLO: Byte := 0x01

  /** The type and version bytes of a record, and the length of the record with its five header bytes. */
  datatype Header = Header(base: Bytes, len: nat)

  /** `Header::new`: fails when fewer than five bytes are there. The length is announced most significant byte first. */
  function HeaderOf(bytes: Bytes): (r: Option<Header>)
    ensures r.Some? <==> |bytes| >= 5
    ensures r.Some? ==> r.value.base == bytes[..3] && 5 <= r.value.len <= 65540
    ensures r.Some? ==> (r.value.len - 5) / 256 == bytes[3] && (r.value.len - 5) % 256 == bytes[4]
  {
    if |bytes| < 5 then None
    else
      var hi: int, lo: int := bytes[3], bytes[4];
      Some(Header(bytes[..3], hi * 256 + lo + 5))
  }

  /** The length of the first record of a stream, header included. */
  function RecordLen(bytes: Bytes): nat
    requires |bytes| >= 5
  {
    HeaderOf(bytes).value.len
  }

  /** A record with type and version `base` that carries the single byte `b`. */
  function OneByteRecord(base: Bytes, b: Byte): Bytes {
    base + [0, 1] + [b]
  }

  /** `payload` as one record per byte. */
  function Fragmented(base: Bytes, payload: Bytes): Bytes {
    if payload == [] then [] else OneByteRecord(base, payload[0]) + Fragmented(base, payload[1..])
  }

  // ---------------------------------------------------------------------------
  // The reference reader
  // ---------------------------------------------------------------------------

  datatype Record = Record(base: Bytes, fragment: Bytes)

  /** The complete records at the front of a stream, and the bytes after them. */
  datatype Parsed = Parsed(records: seq<Record>, rest: Bytes)

  function Parse(s: Bytes): Parsed {
    if |s| < 5 || |s| < RecordLen(s) then
      Parsed([], s)
    else
      var n := RecordLen(s);
      var tail := Parse(s[n..]);
      Parsed([Record(s[..3], s[5..n])] + tail.records, tail.rest)
  }

  // ---------------------------------------------------------------------------
  // Records as they are written (section 5.1 of RFC 8446)
  // ---------------------------------------------------------------------------

  /** Type and version are three bytes, and the length of the fragment fits two. */
  predicate Printable(r: Record) {
    |r.base| == 3 && |r.fragment| <= 65535
  }

  function RecordBytes(r: Record): Bytes
    requires Printable(r)
  {
    r.base + [|r.fragment| / 256, |r.fragment| % 256] + r.fragment
  }

  predicate AllPrintable(records: seq<Record>) {
    forall i :: 0 <= i < |records| ==> Printable(records[i])
  }

  function StreamOf(records: seq<Record>): Bytes
    requires AllPrintable(records)
  {
    if records == [] then [] else RecordBytes(records[0]) + StreamOf(records[1..])
  }

  /** The header of a record that is followed by anything. */
  lemma HeaderOfPrinted(r: Record, tail: Bytes)
    requires Printable(r)
    ensures HeaderOf(RecordBytes(r) + tail) == Some(Header(r.base, |r.fragment| + 5))
  {
    var s := RecordBytes(r) + tail;
    assert s[..3] == r.base && s[3] == |r.fragment| / 256 && s[4] == |r.fragment| % 256;
  }

  lemma ParsePrintedRecord(r: Record, tail: Bytes)
    requires Printable(r)
    ensures Parse(RecordBytes(r) + tail) == Parsed([r] + Parse(tail).records, Parse(tail).rest)
  {
    HeaderOfPrinted(r, tail);
    var s, n := RecordBytes(r) + tail, |r.fragment| + 5;
    assert s[..3] == r.base && s[5..n] == r.fragment && s[n..] == tail;
  }

  lemma StreamCons(r: Record, more: seq<Record>, tail: Bytes)
    requires Printable(r) && AllPrintable(more)
    ensures AllPrintable([r] + more)
    ensures StreamOf([r] + more) + tail == RecordBytes(r) + (StreamOf(more) + tail)
  {
    assert ([r] + more)[1..] == more;
    assert StreamOf([r] + more) == RecordBytes(r) + StreamOf(more);
  }

  /** Written records are read back, whatever follows them. */
  lemma {:induction false} ParsePrinted(records: seq<Record>, tail: Bytes)
    requires AllPrintable(records)
    ensures Parse(StreamOf(records) + tail) == Parsed(records + Parse(tail).records, Parse(tail).rest)
  {
    var after := Parse(tail).records;
    if records == [] {
      assert StreamOf(records) + tail == tail;
      assert records + after == after;
    } else {
      var r, more := records[0], records[1..];
      calc {
        Parse(StreamOf(records) + tail);
        { assert records == [r] + more; StreamCons(r, more, tail); }
        Parse(RecordBytes(r) + (StreamOf(more) + tail));
        { ParsePrintedRecord(r, StreamOf(more) + tail); }
        Parsed([r] + Parse(StreamOf(more) + tail).records, Parse(StreamOf(more) + tail).rest);
        { ParsePrinted(more, tail); }
        Parsed([r] + (more + after), Parse(tail).rest);
        { assert [r] + (more + after) == records + after; }
        Parsed(records + after, Parse(tail).rest);
      }
    }
  }

  lemma FirstRecordPrinted(s: Bytes)
    requires |s| >= 5 && |s| >= RecordLen(s)
    ensures var r := Record(s[..3], s[5..RecordLen(s)]);
            Printable(r) && RecordBytes(r) + s[RecordLen(s)..] == s
  {
    var n := RecordLen(s);
    assert s == s[..3] + [s[3], s[4]] + s[5..n] + s[n..];
  }

  /** Reading loses nothing: the records and the rest are the stream. */
  lemma {:induction false} PrintParsed(s: Bytes)
    ensures AllPrintable(Parse(s).records)
    ensures StreamOf(Parse(s).records) + Parse(s).rest == s
    decreases |s|
  {
    if |s| >= 5 && |s| >= RecordLen(s) {
      var n := RecordLen(s);
      FirstRecordPrinted(s);
      PrintParsed(s[n..]);
      StreamCons(Record(s[..3], s[5..n]), Parse(s[n..]).records, Parse(s[n..]).rest);
    }
  }

  /** One byte of content together with the type and version of the record that carried it. */
  datatype Octet = Octet(base: Bytes, value: Byte)

  function Octets(base: Bytes, fragment: Bytes): seq<Octet> {
    seq(|fragment|, i requires 0 <= i < |fragment| => Octet(base, fragment[i]))
  }

  function Content(records: seq<Record>): seq<Octet> {
    if records == [] then [] else Octets(records[0].base, records[0].fragment) + Content(records[1..])
  }

  /** What a receiver that ignores record boundaries learns from a stream. */
  datatype Meaning = Meaning(content: seq<Octet>, rest: Bytes)

  function MeaningOf(s: Bytes): Meaning {
    Meaning(Content(Parse(s).records), Parse(s).rest)
  }

  // ---------------------------------------------------------------------------
  // Fragmenting keeps the meaning
  // ---------------------------------------------------------------------------

  lemma {:induction false} FragmentedLength(base: Bytes, payload: Bytes)
    requires |base| == 3
    ensures |Fragmented(base, payload)| == 6 * |payload|
  {
    if payload != [] {
      FragmentedLength(base, payload[1..]);
    }
  }

  /** What the layer writes are the records with one byte each. */
  lemma {:induction false} FragmentedIsStream(base: Bytes, payload: Bytes, records: seq<Record>)
    requires |base| == 3 && |records| == |payload|
    requires forall k :: 0 <= k < |payload| ==> records[k] == Record(base, [payload[k]])
    ensures AllPrintable(records) && Fragmented(base, payload) == StreamOf(records)
  {
    if payload != [] {
      FragmentedIsStream(base, payload[1..], records[1..]);
    }
  }

  lemma FragmentedStep(base: Bytes, payload: Bytes, tail: Bytes)
    requires payload != []
    ensures Fragmented(base, payload) + tail
         == OneByteRecord(base, payload[0]) + (Fragmented(base, payload[1..]) + tail)
  {
  }

  lemma ParseOneByteRecord(base: Bytes, b: Byte, tail: Bytes)
    requires |base| == 3
    ensures Parse(OneByteRecord(base, b) + tail)
         == Parsed([Record(base, [b])] + Parse(tail).records, Parse(tail).rest)
  {
    var s := OneByteRecord(base, b) + tail;
    assert s[..3] == base && s[3] == 0 && s[4] == 1 && s[5..6] == [b] && s[6..] == tail;
  }

  function OneByteRecords(base: Bytes, payload: Bytes): seq<Record> {
    if payload == [] then [] else [Record(base, payload[..1])] + OneByteRecords(base, payload[1..])
  }

  lemma {:induction false} OneByteRecordsAt(base: Bytes, payload: Bytes, k: nat)
    requires k < |payload|
    ensures |OneByteRecords(base, payload)| == |payload|
    ensures OneByteRecords(base, payload)[k] == Record(base, [payload[k]])
  {
    if |payload| > 1 {
      OneByteRecordsAt(base, payload[1..], if k == 0 then 0 else k - 1);
    }
  }

  /** The fragmented stream is exactly one complete record per byte, in order, and then whatever follows. */
  lemma {:induction false} FragmentedParses(base: Bytes, payload: Bytes, tail: Bytes)
    requires |base| == 3
    ensures Parse(Fragmented(base, payload) + tail)
         == Parsed(OneByteRecords(base, payload) + Parse(tail).records, Parse(tail).rest)
  {
    var after := Parse(tail).records;
    if payload == [] {
      assert Fragmented(base, payload) + tail == tail;
      assert OneByteRecords(base, payload) + after == after;
    } else {
      var more := Fragmented(base, payload[1..]) + tail;
      var one, ones := [Record(base, payload[..1])], OneByteRecords(base, payload[1..]);
      calc {
        Parse(Fragmented(base, payload) + tail);
        { FragmentedStep(base, payload, tail); }
        Parse(OneByteRecord(base, payload[0]) + more);
        { ParseOneByteRecord(base, payload[0], more); assert payload[..1] == [payload[0]]; }
        Parsed(one + Parse(more).records, Parse(more).rest);
        { FragmentedParses(base, payload[1..], tail); }
        Parsed(one + (ones + after), Parse(tail).rest);
        { assert one + (ones + after) == one + ones + after; }
        Parsed(OneByteRecords(base, payload) + after, Parse(tail).rest);
      }
    }
  }

  lemma ContentCons(record: Record, more: seq<Record>)
    ensures Content([record] + more) == Octets(record.base, record.fragment) + Content(more)
  {
    assert ([record] + more)[1..] == more;
  }

  lemma OctetsCons(base: Bytes, payload: Bytes, after: seq<Octet>)
    requires payload != []
    ensures Octets(base, payload) + after == Octets(base, payload[..1]) + (Octets(base, payload[1..]) + after)
  {
  }

  lemma {:induction false} OneByteRecordsContent(base: Bytes, payload: Bytes, more: seq<Record>)
    ensures Content(OneByteRecords(base, payload) + more) == Octets(base, payload) + Content(more)
  {
    if payload == [] {
      assert OneByteRecords(base, payload) + more == more;
    } else {
      var first, ones := Record(base, payload[..1]), OneByteRecords(base, payload[1..]);
      assert OneByteRecords(base, payload) + more == [first] + (ones + more);
      ContentCons(first, ones + more);
      OneByteRecordsContent(base, payload[1..], more);
      OctetsCons(base, payload, Content(more));
    }
  }

  /** Replacing the first record of a stream by one-byte records does not change what a receiver reads. */
  lemma FragmentingKeepsMeaning(s: Bytes)
    requires |s| >= 5 && |s| >= RecordLen(s)
    ensures MeaningOf(Fragmented(s[..3], s[5..RecordLen(s)]) + s[RecordLen(s)..]) == MeaningOf(s)
  {
    var n := RecordLen(s);
    FragmentedParses(s[..3], s[5..n], s[n..]);
    OneByteRecordsContent(s[..3], s[5..n], Parse(s[n..]).records);
    assert Parse(s).records[1..] == Parse(s[n..]).records;
  }
}
