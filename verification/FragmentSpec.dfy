/**
  What the fragment layer does, without its buffers and chunks: the client's first bytes are held
  until their verdict is known, and are then dripped out as one-byte records or drained as they are.
  The class in `FragmentLayer` is proved to do exactly this.
 */
module FragmentSpec {
  import opened Wrappers
  import opened TlsRecord

  // ---------------------------------------------------------------------------
  // The inner stream: a script of answers, and a log of the calls made on it
  // ---------------------------------------------------------------------------

  /** The answer to one poll. `Ready` carries the number of bytes moved, 0 for a flush. */
  datatype Answer = Pending | Failed | Ready(count: nat)

  /** The place that issues a write: the chunk loop, the raw loop, or `poll_write` once transparent. */
  datatype Site = ChunkLoop | RawLoop | PassThrough

  datatype Call =
    | Write(site: Site, data: Bytes, answer: Answer)
    | Flush(answer: Answer)
    | Read(answer: Answer)
    | Shutdown(answer: Answer)

  /** The inner stream answers from `answers` in order and is pending when they run out. */
  datatype Wire = Wire(answers: seq<Answer>, log: seq<Call>)

  /** The next answer to a call that can move at most `room` bytes. */
  function NextAnswer(w: Wire, room: nat): (r: Answer)
    ensures r.Ready? ==> w.answers != [] && r.count <= room
  {
    if w.answers == [] then Pending
    else if w.answers[0].Ready? && w.answers[0].count > room then Ready(room)
    else w.answers[0]
  }

  function Logged(w: Wire, call: Call): Wire {
    Wire(if w.answers == [] then [] else w.answers[1..], w.log + [call])
  }

  function AfterWrite(w: Wire, site: Site, data: Bytes): Wire {
    Logged(w, Write(site, data, NextAnswer(w, |data|)))
  }

  function AfterFlush(w: Wire): Wire {
    Logged(w, Flush(NextAnswer(w, 0)))
  }

  // ---------------------------------------------------------------------------
  // The verdict on the bytes held so far
  // ---------------------------------------------------------------------------

  datatype Verdict = Undecided | Raw | Hello

  /** Whether the bytes begin with a complete handshake record whose first message is a ClientHello. */
  function Classify(buf: Bytes): Verdict {
    if buf != [] && buf[0] != HANDSHAKE then Raw
    else if |buf| < 6 then Undecided
    else if buf[5] != CLIENT_HELLO then Raw
    else if |buf| < RecordLen(buf) then Undecided
    else Hello
  }

  /** The first record of `buf` as one-byte records. */
  function Split(buf: Bytes): Bytes
    requires |buf| >= 5 && |buf| >= RecordLen(buf)
  {
    Fragmented(buf[..3], buf[5..RecordLen(buf)])
  }

  /** What the chunk loop sends for the held bytes `buf`. */
  function Head(buf: Bytes): Bytes {
    if Classify(buf) == Hello then Split(buf) else []
  }

  /** Where the raw loop starts to count. */
  function Start(buf: Bytes): nat {
    if Classify(buf) == Hello then RecordLen(buf) else 0
  }

  // ---------------------------------------------------------------------------
  // Polling
  // ---------------------------------------------------------------------------

  datatype Phase =
    | Gathering(buf: Bytes)
    | Fragmenting(buf: Bytes, todo: Bytes)
    | Draining(buf: Bytes, ptr: nat)
    | Transparent

  datatype Dripped = Dripped(answer: Answer, todo: Bytes, wire: Wire)

  /** One byte of `todo`: a flush, then a write. A write of nothing is an error. */
  function DripOne(todo: Bytes, w: Wire): (d: Dripped)
    requires todo != []
    ensures d.answer.Ready? ==> d.todo == todo[1..]
  {
    var flushed, w1 := NextAnswer(w, 0), AfterFlush(w);
    if !flushed.Ready? then Dripped(flushed, todo, w1)
    else
      var written, w2 := NextAnswer(w1, 1), AfterWrite(w1, ChunkLoop, todo[..1]);
      if !written.Ready? then Dripped(written, todo, w2)
      else if written.count == 0 then Dripped(Failed, todo, w2)
      else Dripped(written, todo[1..], w2)
  }

  /** Sends `todo` a byte at a time, with a flush before each byte. */
  function Drip(todo: Bytes, w: Wire): Dripped
    decreases |todo|
  {
    if todo == [] then Dripped(Ready(0), todo, w)
    else
      var one := DripOne(todo, w);
      if one.answer.Ready? then Drip(one.todo, one.wire) else one
  }

  datatype Drained = Drained(answer: Answer, ptr: nat, wire: Wire)

  /** Offers the whole of `buf` again and again until the counts reach its length. */
  function Drain(buf: Bytes, ptr: nat, w: Wire): Drained
    decreases |w.answers|
  {
    if |buf| <= ptr then Drained(Ready(0), ptr, w)
    else
      var written, w1 := NextAnswer(w, |buf|), AfterWrite(w, RawLoop, buf);
      if !written.Ready? then Drained(written, ptr, w1) else Drain(buf, ptr + written.count, w1)
  }

  datatype Polled = Polled(answer: Answer, phase: Phase, wire: Wire)

  function FlushInner(phase: Phase, w: Wire): Polled {
    Polled(NextAnswer(w, 0), phase, AfterFlush(w))
  }

  function FlushRaw(buf: Bytes, ptr: nat, w: Wire): Polled {
    var d := Drain(buf, ptr, w);
    if !d.answer.Ready? then Polled(d.answer, Draining(buf, d.ptr), d.wire)
    else FlushInner(Transparent, d.wire)
  }

  function FlushPhase(phase: Phase, w: Wire): Polled {
    match phase
    case Fragmenting(buf, todo) =>
      var d := Drip(todo, w);
      if !d.answer.Ready? then Polled(d.answer, Fragmenting(buf, d.todo), d.wire)
      else FlushRaw(buf, Start(buf), d.wire)
    case Draining(buf, ptr) => FlushRaw(buf, ptr, w)
    case _ => FlushInner(phase, w)
  }

  /**
    The layer, the inner stream under it, the client bytes acknowledged so far, and the bytes that
    were held when the layer stopped gathering.
   */
  datatype Sys = Sys(phase: Phase, timer: bool, wire: Wire, accepted: Bytes, held: Bytes)

  function Init(answers: seq<Answer>): Sys {
    Sys(Gathering([]), false, Wire(answers, []), [], [])
  }

  predicate IsSending(phase: Phase) {
    phase.Fragmenting? || phase.Draining?
  }

  datatype Outcome = Outcome(answer: Answer, sys: Sys)

  function PolledFlush(s: Sys): Outcome {
    var p := FlushPhase(s.phase, s.wire);
    Outcome(p.answer, s.(phase := p.phase, wire := p.wire))
  }

  /** What the held bytes become once `data` has been added to them. */
  function Gather(buf: Bytes, data: Bytes): Phase {
    match Classify(buf + data)
    case Undecided => Gathering(buf + data)
    case Raw => Draining(buf + data, 0)
    case Hello => Fragmenting(buf + data, Split(buf + data))
  }

  function GatheredWrite(s: Sys, data: Bytes): Outcome
    requires s.phase.Gathering?
  {
    var phase := Gather(s.phase.buf, data);
    Outcome(Ready(|data|),
            s.(phase := phase, accepted := s.accepted + data,
               held := if phase.Gathering? then s.held else s.phase.buf + data))
  }

  function PassedWrite(s: Sys, data: Bytes): Outcome {
    var answer := NextAnswer(s.wire, |data|);
    Outcome(answer,
            s.(wire := AfterWrite(s.wire, PassThrough, data),
               accepted := s.accepted + if answer.Ready? then data[..answer.count] else []))
  }

  function PolledWrite(s: Sys, data: Bytes): Outcome {
    if s.phase.Gathering? then GatheredWrite(s, data)
    else if s.phase.Transparent? then PassedWrite(s, data)
    else
      var f := PolledFlush(s);
      if f.answer.Ready? then PassedWrite(f.sys, data) else f
  }

  /** Arms or clears the timer; when it has expired, gives up waiting. */
  function Timed(s: Sys, expired: bool): Sys {
    match s.phase
    case Gathering(buf) =>
      if expired then s.(phase := Draining(buf, 0), timer := false, held := buf) else s.(timer := true)
    case _ => s.(timer := false)
  }

  function PolledRead(s: Sys, expired: bool, room: nat): Outcome {
    var t := Timed(s, expired);
    var f := if IsSending(t.phase) then PolledFlush(t) else Outcome(Ready(0), t);
    if f.answer.Failed? then f
    else
      var answer := NextAnswer(f.sys.wire, room);
      Outcome(answer, f.sys.(wire := Logged(f.sys.wire, Read(answer))))
  }

  function PolledShutdown(s: Sys): Outcome {
    var answer := NextAnswer(s.wire, 0);
    Outcome(answer, s.(wire := Logged(s.wire, Shutdown(answer))))
  }

  // ---------------------------------------------------------------------------
  // Runs
  // ---------------------------------------------------------------------------

  /** One poll of the layer by its user; `expired` is what the timer answers if it is polled. */
  datatype Op = PollRead(expired: bool, room: nat) | PollWrite(data: Bytes) | PollFlush | PollShutdown

  function Poll(s: Sys, op: Op): Outcome {
    match op
    case PollRead(expired, room) => PolledRead(s, expired, room)
    case PollWrite(data) => PolledWrite(s, data)
    case PollFlush => PolledFlush(s)
    case PollShutdown => PolledShutdown(s)
  }

  /** Any sequence of polls, whatever each of them answered. */
  function Run(s: Sys, ops: seq<Op>): Sys {
    if ops == [] then s else Poll(Run(s, ops[..|ops| - 1]), ops[|ops| - 1]).sys
  }

  // ---------------------------------------------------------------------------
  // What reaches the inner stream, read off the log alone
  // ---------------------------------------------------------------------------

  /**
    What a log says was sent: every byte in order, the bytes sent by each site, and the counts
    with which the raw loop's writes were answered.
   */
  datatype Ledger = Ledger(emitted: Bytes, chunked: Bytes, drained: Bytes, counts: seq<nat>, passed: Bytes)

  function Posted(l: Ledger, call: Call): Ledger {
    if call.Write? && call.answer.Ready? && call.answer.count <= |call.data| then
      var sent := call.data[..call.answer.count];
      match call.site
      case ChunkLoop => l.(emitted := l.emitted + sent, chunked := l.chunked + sent)
      case RawLoop => l.(emitted := l.emitted + sent, drained := l.drained + sent, counts := l.counts + [|sent|])
      case PassThrough => l.(emitted := l.emitted + sent, passed := l.passed + sent)
    else l
  }

  function LedgerOf(log: seq<Call>): Ledger {
    if log == [] then Ledger([], [], [], [], []) else Posted(LedgerOf(log[..|log| - 1]), log[|log| - 1])
  }

  /** Everything that the layer has sent. */
  function Emitted(s: Sys): Bytes {
    LedgerOf(s.wire.log).emitted
  }

  /** A chunk-loop write offers one byte and comes directly after a successful flush. */
  predicate FlushedBefore(log: seq<Call>, i: nat)
    requires i < |log|
  {
    log[i].Write? && log[i].site == ChunkLoop ==>
      |log[i].data| == 1 && i > 0 && log[i - 1].Flush? && log[i - 1].answer.Ready?
  }

  predicate Disciplined(log: seq<Call>) {
    forall i :: 0 <= i < |log| ==> FlushedBefore(log, i)
  }

  function Sum(counts: seq<nat>): nat {
    if counts == [] then 0 else Sum(counts[..|counts| - 1]) + counts[|counts| - 1]
  }

  function Prefix(buf: Bytes, n: nat): Bytes {
    if n <= |buf| then buf[..n] else buf
  }

  /** One prefix of `buf` for each count. */
  function Prefixes(buf: Bytes, counts: seq<nat>): Bytes {
    if counts == [] then [] else Prefixes(buf, counts[..|counts| - 1]) + Prefix(buf, counts[|counts| - 1])
  }
}
