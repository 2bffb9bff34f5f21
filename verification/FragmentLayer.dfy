/** The fragment layer with its buffers, chunks and loops, proved to do what `FragmentSpec` says. */
module FragmentLayer {
  import opened Wrappers
  import opened TlsRecord
  import opened FragmentSpec

  /** The stream under the layer. Its answers are arbitrary; the log is what the specification speaks of. */
  class InnerStream {
    var answers: seq<Answer>
    ghost var log: seq<Call>

    ghost function View(): Wire
      reads this
    {
      Wire(answers, log)
    }

    constructor (answers: seq<Answer>)
      ensures View() == Wire(answers, [])
    {
      this.answers := answers;
      log := [];
    }

    method Answered(room: nat) returns (answer: Answer)
      modifies this
      ensures answer == old(NextAnswer(View(), room)) && log == old(log)
      ensures answers == if old(answers) == [] then [] else old(answers)[1..]
    {
      if answers == [] {
        return Pending;
      }
      answer := answers[0];
      if answer.Ready? && answer.count > room {
        answer := Ready(room);
      }
      answers := answers[1..];
    }

    method PollWrite(ghost site: Site, data: Bytes) returns (answer: Answer)
      modifies this
      ensures answer == old(NextAnswer(View(), |data|)) && View() == old(AfterWrite(View(), site, data))
    {
      answer := Answered(|data|);
      log := log + [Write(site, data, answer)];
    }

    method PollFlush() returns (answer: Answer)
      modifies this
      ensures answer == old(NextAnswer(View(), 0)) && View() == old(AfterFlush(View()))
    {
      answer := Answered(0);
      log := log + [Flush(answer)];
    }

    method PollRead(room: nat) returns (answer: Answer)
      modifies this
      ensures answer == old(NextAnswer(View(), room)) && View() == old(Logged(View(), Read(answer)))
    {
      answer := Answered(room);
      log := log + [Read(answer)];
    }

    method PollShutdown() returns (answer: Answer)
      modifies this
      ensures answer == old(NextAnswer(View(), 0)) && View() == old(Logged(View(), Shutdown(answer)))
    {
      answer := Answered(0);
      log := log + [Shutdown(answer)];
    }
  }

  datatype Buffer = Buffer(inner: Bytes, ptr: nat)

  datatype State =
    | WaitingHeader(buf: Buffer)
    | WaitingMessage(buf: Buffer, header: Header)
    | SendingMessage(buf: Buffer, header: Header, chunk: Option<Buffer>)
    | SendingRawBuffer(buf: Buffer)
    | SendingData
  {
    predicate IsWaiting() {
      WaitingHeader? || WaitingMessage?
    }

    predicate IsSendingBuffer() {
      SendingMessage? || SendingRawBuffer?
    }
  }

  /** `header` and `chunk` agree with the buffer: a chunk that is still needed is the record for the next byte. */
  ghost predicate ChunkFits(buf: Buffer, header: Header, chunk: Option<Buffer>) {
    && |header.base| == 3
    && 5 <= buf.ptr <= header.len <= |buf.inner|
    && (chunk.Some? && buf.ptr < header.len ==>
          chunk.value.inner == OneByteRecord(header.base, buf.inner[buf.ptr]) && chunk.value.ptr <= 6)
  }

  ghost predicate ValidState(state: State) {
    match state
    case WaitingHeader(buf) => buf.ptr == 0 && |buf.inner| < 6 && Classify(buf.inner) == Undecided
    case WaitingMessage(buf, header) =>
      && buf.ptr == 5 && |buf.inner| >= 6 && Classify(buf.inner) == Undecided
      && Some(header) == HeaderOf(buf.inner)
    case SendingMessage(buf, header, chunk) =>
      && Classify(buf.inner) == Hello && Some(header) == HeaderOf(buf.inner)
      && ChunkFits(buf, header, chunk)
    case _ => true
  }

  /** The bytes that the chunk loop has still to write. */
  ghost function Todo(buf: Buffer, header: Header, chunk: Option<Buffer>): Bytes
    requires ChunkFits(buf, header, chunk)
  {
    if buf.ptr == header.len then []
    else if chunk.None? then Fragmented(header.base, buf.inner[buf.ptr..header.len])
    else chunk.value.inner[chunk.value.ptr..] + Fragmented(header.base, buf.inner[buf.ptr + 1..header.len])
  }

  ghost function PhaseOf(state: State): Phase
    requires ValidState(state)
  {
    match state
    case WaitingHeader(buf) => Gathering(buf.inner)
    case WaitingMessage(buf, _) => Gathering(buf.inner)
    case SendingMessage(buf, header, chunk) => Fragmenting(buf.inner, Todo(buf, header, chunk))
    case SendingRawBuffer(buf) => Draining(buf.inner, buf.ptr)
    case SendingData => Transparent
  }

  lemma ChunkWrite(buf: Buffer, header: Header, chunk: Buffer)
    requires ChunkFits(buf, header, Some(chunk)) && buf.ptr < header.len && chunk.ptr < 6
    ensures var todo := Todo(buf, header, Some(chunk));
            && todo != [] && todo[..1] == chunk.inner[chunk.ptr..chunk.ptr + 1]
            && todo[1..] == Todo(buf, header, Some(chunk.(ptr := chunk.ptr + 1)))
  {
  }

  lemma NextChunk(buf: Buffer, header: Header)
    requires ChunkFits(buf, header, None)
    ensures var chunk := Some(NextRecord(buf, header));
            ChunkFits(buf, header, chunk) && Todo(buf, header, chunk) == Todo(buf, header, None)
  {
    if buf.ptr < header.len {
      var payload := buf.inner[buf.ptr..header.len];
      assert payload[0] == buf.inner[buf.ptr] && payload[1..] == buf.inner[buf.ptr + 1..header.len];
      var record := NextRecord(buf, header).inner;
      assert record[0..] == record;
    }
  }

  /** The record for the next byte of the message, or an empty record at its end. */
  function NextRecord(buf: Buffer, header: Header): (chunk: Buffer)
    requires |header.base| == 3 && buf.ptr <= header.len <= |buf.inner|
    ensures chunk.ptr == 0
    ensures buf.ptr < header.len ==> chunk.inner == OneByteRecord(header.base, buf.inner[buf.ptr])
  {
    var end := if buf.ptr + 1 > header.len then header.len else buf.ptr + 1;
    var msg := buf.inner[buf.ptr..end];
    Buffer(header.base + [|msg| / 256, |msg| % 256] + msg, 0)
  }

  lemma ChunkDone(buf: Buffer, header: Header, chunk: Buffer)
    requires ChunkFits(buf, header, Some(chunk)) && buf.ptr < header.len && chunk.ptr == 6
    ensures Todo(buf, header, Some(chunk)) == Todo(buf.(ptr := buf.ptr + 1), header, None)
  {
    assert chunk.inner[chunk.ptr..] == [];
    assert [] + Fragmented(header.base, buf.inner[buf.ptr + 1..header.len])
        == Fragmented(header.base, buf.inner[buf.ptr + 1..header.len]);
    assert buf.ptr + 1 == header.len ==> buf.inner[buf.ptr + 1..header.len] == [];
  }

  /** More bytes do not change a header that is already there. */
  lemma HeaderStays(buf: Bytes, more: Bytes)
    requires |buf| >= 5
    ensures HeaderOf(buf + more) == HeaderOf(buf)
  {
    assert (buf + more)[..3] == buf[..3];
  }

  class FragmentLayer {
    const inner: InnerStream
    var state: State
    var timer: bool
    ghost var accepted: Bytes
    ghost var held: Bytes

    ghost predicate Valid()
      reads this
    {
      ValidState(state)
    }

    ghost function View(): Sys
      requires Valid()
      reads this, inner
    {
      Sys(PhaseOf(state), timer, inner.View(), accepted, held)
    }

    constructor (stream: InnerStream)
      ensures inner == stream && Valid()
      ensures View() == Sys(Gathering([]), false, stream.View(), [], [])
    {
      inner := stream;
      state := WaitingHeader(Buffer([], 0));
      timer := false;
      accepted, held := [], [];
    }

    /** Stops waiting and hands the buffer over as it is. */
    method TryIntoRawSend() returns (handedOver: bool)
      requires Valid()
      modifies this`state
      ensures handedOver == old(state.IsWaiting())
      ensures state == if handedOver then SendingRawBuffer(Buffer(old(state.buf.inner), 0)) else old(state)
    {
      if !state.IsWaiting() {
        return false;
      }
      state := SendingRawBuffer(state.buf.(ptr := 0));
      return true;
    }

    /** The body of the inner loop of the chunk loop: a flush and a write of one byte of the chunk. */
    method SendByte() returns (answer: Answer)
      requires Valid() && state.SendingMessage? && state.chunk.Some?
      requires state.buf.ptr < state.header.len && state.chunk.value.ptr < 6
      modifies this`state, inner
      ensures Valid() && state.SendingMessage? && state.chunk.Some?
      ensures state.buf == old(state.buf) && state.header == old(state.header)
      ensures Dripped(answer, PhaseOf(state).todo, inner.View()) == old(DripOne(PhaseOf(state).todo, inner.View()))
      ensures answer.Ready? ==> state.chunk.value.ptr == old(state.chunk.value.ptr) + 1
    {
      var chunk := state.chunk.value;
      ChunkWrite(state.buf, state.header, chunk);
      answer := inner.PollFlush();
      if answer.Ready? {
        answer := inner.PollWrite(ChunkLoop, chunk.inner[chunk.ptr..chunk.ptr + 1]);
        if answer == Ready(0) {
          answer := Failed;
        } else if answer.Ready? {
          state := SendingMessage(state.buf, state.header, Some(Buffer(chunk.inner, chunk.ptr + answer.count)));
        }
      }
    }

    /** The inner loop of the chunk loop. */
    method SendChunk() returns (answer: Answer)
      requires Valid() && state.SendingMessage? && state.chunk.Some? && state.buf.ptr < state.header.len
      modifies this`state, inner
      ensures Valid() && state.SendingMessage? && state.chunk.Some?
      ensures state.buf == old(state.buf) && state.header == old(state.header)
      ensures answer.Ready? ==> state.chunk.value.ptr == 6
      ensures old(Drip(PhaseOf(state).todo, inner.View()))
           == if answer.Ready? then Drip(PhaseOf(state).todo, inner.View())
              else Dripped(answer, PhaseOf(state).todo, inner.View())
    {
      ghost var d := Drip(PhaseOf(state).todo, inner.View());
      while |state.chunk.value.inner| > state.chunk.value.ptr
        invariant Valid() && state.SendingMessage? && state.chunk.Some?
        invariant state.buf == old(state.buf) && state.header == old(state.header)
        invariant Drip(PhaseOf(state).todo, inner.View()) == d
        decreases 6 - state.chunk.value.ptr
      {
        ChunkWrite(state.buf, state.header, state.chunk.value);
        answer := SendByte();
        if !answer.Ready? {
          return;
        }
      }
      answer := Ready(0);
    }

    /** Steps over the byte whose chunk has been sent, if there was one, and builds the chunk for the next byte. */
    method BuildChunk()
      requires Valid() && state.SendingMessage? && state.buf.ptr < state.header.len
      requires state.chunk.Some? ==> state.chunk.value.ptr == 6
      modifies this`state
      ensures Valid() && state.SendingMessage? && state.chunk.Some?
      ensures state.buf.inner == old(state.buf.inner) && state.header == old(state.header)
      ensures state.buf.ptr == old(state.buf.ptr) + if old(state.chunk.None?) then 0 else 1
      ensures PhaseOf(state).todo == old(PhaseOf(state).todo)
    {
      if state.chunk.Some? {
        ChunkDone(state.buf, state.header, state.chunk.value);
        var consumed := |state.chunk.value.inner| - (|state.header.base| + 2);
        state := SendingMessage(Buffer(state.buf.inner, state.buf.ptr + consumed), state.header, None);
      }
      NextChunk(state.buf, state.header);
      state := SendingMessage(state.buf, state.header, Some(NextRecord(state.buf, state.header)));
    }

    /** The chunk loop of `poll_flush`. */
    method SendChunks() returns (answer: Answer)
      requires Valid() && state.SendingMessage?
      modifies this`state, inner
      ensures Valid() && state.SendingMessage?
      ensures state.buf.inner == old(state.buf.inner) && state.header == old(state.header)
      ensures Dripped(answer, PhaseOf(state).todo, inner.View()) == old(Drip(PhaseOf(state).todo, inner.View()))
      ensures answer.Ready? ==> state.buf.ptr == state.header.len
    {
      ghost var d := Drip(PhaseOf(state).todo, inner.View());
      var header := state.header;
      while header.len > state.buf.ptr
        invariant Valid() && state.SendingMessage?
        invariant state.buf.inner == old(state.buf.inner) && state.header == header
        invariant Drip(PhaseOf(state).todo, inner.View()) == d
        decreases header.len - state.buf.ptr, state.chunk.None?
      {
        if state.chunk.Some? {
          answer := SendChunk();
          if !answer.Ready? {
            return;
          }
        }
        BuildChunk();
      }
      answer := Ready(0);
    }

    /** The raw loop of `poll_flush`: every write offers the buffer from its start. */
    method SendRaw() returns (answer: Answer)
      requires Valid() && state.SendingRawBuffer?
      modifies this`state, inner
      ensures Valid()
      ensures var d := old(Drain(state.buf.inner, state.buf.ptr, inner.View()));
              && answer == d.answer && inner.View() == d.wire
              && state == if answer.Ready? then SendingData else SendingRawBuffer(Buffer(old(state.buf.inner), d.ptr))
    {
      ghost var d := Drain(state.buf.inner, state.buf.ptr, inner.View());
      while |state.buf.inner| > state.buf.ptr
        invariant state.SendingRawBuffer? && state.buf.inner == old(state.buf.inner)
        invariant Drain(state.buf.inner, state.buf.ptr, inner.View()) == d
        decreases |inner.answers|
      {
        answer := inner.PollWrite(RawLoop, state.buf.inner);
        if !answer.Ready? {
          return;
        }
        state := SendingRawBuffer(Buffer(state.buf.inner, state.buf.ptr + answer.count));
      }
      state := SendingData;
      answer := Ready(0);
    }

    method PollFlush() returns (answer: Answer)
      requires Valid()
      modifies this`state, inner
      ensures Valid()
      ensures Outcome(answer, View()) == old(PolledFlush(View()))
    {
      if state.SendingMessage? {
        answer := SendChunks();
        if !answer.Ready? {
          return;
        }
        state := SendingRawBuffer(state.buf);
      }
      if state.SendingRawBuffer? {
        answer := SendRaw();
        if !answer.Ready? {
          return;
        }
      }
      answer := inner.PollFlush();
    }

    /** The two waiting stages of `poll_write`: the header is read first, and then the rest of its record. */
    method Hold(data: Bytes)
      requires Valid() && state.IsWaiting()
      modifies this`state
      ensures Valid() && !state.SendingData? && state.buf.inner == old(state.buf.inner) + data
      ensures PhaseOf(state) == Gather(old(state.buf.inner), data)
    {
      var rest := data;
      if state.WaitingHeader? {
        var buf := state.buf.inner + rest;
        rest := [];
        state := WaitingHeader(Buffer(buf, 0));
        if buf != [] && buf[0] != HANDSHAKE {
          state := SendingRawBuffer(Buffer(buf, 0));
        } else if |buf| >= 6 {
          if buf[5] != CLIENT_HELLO {
            state := SendingRawBuffer(Buffer(buf, 0));
          } else {
            state := WaitingMessage(Buffer(buf, 5), HeaderOf(buf).value);
          }
        }
      }

      if state.WaitingMessage? {
        var buf := state.buf.inner + rest;
        HeaderStays(state.buf.inner, rest);
        state := WaitingMessage(Buffer(buf, 5), state.header);
        if |buf| >= state.header.len {
          state := SendingMessage(state.buf, state.header, None);
        }
      }
    }

    method PollWrite(data: Bytes) returns (answer: Answer)
      requires Valid()
      modifies this, inner
      ensures Valid()
      ensures Outcome(answer, View()) == old(PolledWrite(View(), data))
    {
      if state.IsSendingBuffer() {
        answer := PollFlush();
        if !answer.Ready? {
          return;
        }
      }

      if state.SendingData? {
        answer := inner.PollWrite(PassThrough, data);
        accepted := accepted + if answer.Ready? then data[..answer.count] else [];
        return;
      }

      accepted := accepted + data;
      Hold(data);
      if !state.IsWaiting() {
        held := state.buf.inner;
      }
      answer := Ready(|data|);
    }

    method PollRead(expired: bool, room: nat) returns (answer: Answer)
      requires Valid()
      modifies this, inner
      ensures Valid()
      ensures Outcome(answer, View()) == old(PolledRead(View(), expired, room))
    {
      if state.IsWaiting() {
        timer := true;
        if expired {
          timer := false;
          var _ := TryIntoRawSend();
          held := state.buf.inner;
        }
      } else {
        timer := false;
      }

      if state.IsSendingBuffer() {
        answer := PollFlush();
        if answer.Failed? {
          return;
        }
      }
      answer := inner.PollRead(room);
    }

    method PollShutdown() returns (answer: Answer)
      requires Valid()
      modifies inner
      ensures Valid()
      ensures Outcome(answer, View()) == old(PolledShutdown(View()))
    {
      answer := inner.PollShutdown();
    }
  }

  /** Any user of a new layer, polling it in any order, is at each point where `Run` says it is. */
  method Drive(stream: InnerStream, ops: seq<Op>) returns (layer: FragmentLayer)
    requires stream.log == []
    modifies stream
    ensures layer.Valid() && layer.inner == stream
    ensures layer.View() == Run(Init(old(stream.answers)), ops)
  {
    layer := new FragmentLayer(stream);
    ghost var start := layer.View();
    for i := 0 to |ops|
      invariant layer.Valid() && layer.inner == stream && fresh(layer)
      invariant layer.View() == Run(start, ops[..i])
    {
      assert ops[..i + 1][..i] == ops[..i];
      match ops[i] {
        case PollRead(expired, room) => var _ := layer.PollRead(expired, room);
        case PollWrite(data) => var _ := layer.PollWrite(data);
        case PollFlush => var _ := layer.PollFlush();
        case PollShutdown => var _ := layer.PollShutdown();
      }
    }
    assert ops[..|ops|] == ops;
  }
}
