/** What the polls of the fragment layer answer, and what each answer means for the inner stream. */
module FragmentAnswers {
  import opened Wrappers
  import opened FragmentSpec

  /** The last call on the inner stream. */
  function LastCall(w: Wire): Option<Call> {
    if w.log == [] then None else Some(w.log[|w.log| - 1])
  }

  /** A write answers with the number of bytes it acknowledges; while the layer gathers, with all of them. */
  lemma WriteAcknowledges(s: Sys, data: Bytes)
    ensures var o := PolledWrite(s, data);
            && (o.answer.Ready? ==> o.answer.count <= |data| && o.sys.accepted == s.accepted + data[..o.answer.count])
            && (!o.answer.Ready? ==> o.sys.accepted == s.accepted)
            && (s.phase.Gathering? ==> o.answer == Ready(|data|) && o.sys.wire == s.wire)
  {
    if s.phase.Gathering? {
      assert data[..|data|] == data;
    } else {
      assert s.accepted + [] == s.accepted;
    }
  }

  /** In the last state a write is one write of the same bytes, and has its answer. */
  lemma TransparentWritePassesThrough(s: Sys, data: Bytes)
    requires s.phase.Transparent?
    ensures var o := PolledWrite(s, data);
            && o.answer == NextAnswer(s.wire, |data|)
            && o.sys.wire.log == s.wire.log + [Write(PassThrough, data, o.answer)]
  {
  }

  /** Once gathering has stopped, a write that succeeds is a write of the same bytes to the inner stream. */
  lemma WriteReachesInner(s: Sys, data: Bytes)
    requires !s.phase.Gathering?
    ensures var o := PolledWrite(s, data);
            o.answer.Ready? ==> LastCall(o.sys.wire) == Some(Write(PassThrough, data, o.answer))
  {
  }

  /** A flush succeeds only if its last call was a flush of the inner stream, and that succeeded. */
  lemma FlushReachesInner(s: Sys)
    ensures var o := PolledFlush(s);
            o.answer.Ready? ==> LastCall(o.sys.wire) == Some(Flush(o.answer))
  {
  }

  /**
    A read ends with a read of the inner stream and has its answer, even if held bytes could not be sent yet; the
    one thing that keeps it from there is a flush of held bytes that fails.
   */
  lemma ReadReachesInner(s: Sys, expired: bool, room: nat)
    ensures var o := PolledRead(s, expired, room);
            var t := Timed(s, expired);
            || LastCall(o.sys.wire) == Some(Read(o.answer))
            || (IsSending(t.phase) && o == PolledFlush(t) && o.answer.Failed?)
    ensures var t := Timed(s, expired);
            IsSending(t.phase) ==> PolledRead(s, expired, room).sys.phase == PolledFlush(t).sys.phase
  {
  }

  /** While the layer gathers, an expired timer ends that, with all the bytes held; otherwise nothing is given up. */
  lemma TimerEndsGathering(s: Sys, expired: bool, room: nat)
    requires s.phase.Gathering?
    ensures var t := PolledRead(s, expired, room).sys;
            && (expired ==> !t.phase.Gathering? && !t.phase.Fragmenting? && t.held == s.phase.buf && !t.timer)
            && (!expired ==> t.phase == s.phase && t.timer)
  {
  }

  /** The chunk loop takes a write of nothing for an error, and leaves the byte unsent. */
  lemma ZeroWriteFails(todo: Bytes, w: Wire, n: nat)
    requires todo != [] && [Ready(n), Ready(0)] <= w.answers
    ensures Drip(todo, w).answer.Failed? && Drip(todo, w).todo == todo
  {
    var w1 := AfterFlush(w);
    assert w.answers[0] == [Ready(n), Ready(0)][0] && w.answers[1] == [Ready(n), Ready(0)][1];
    assert w1.answers[0] == Ready(0);
  }

  /** A flush that stops early has the answer of the inner call that stopped it, unless that was a write of nothing. */
  lemma {:induction false} DripPassesAnswersOn(todo: Bytes, w: Wire)
    ensures var d := Drip(todo, w);
            !d.answer.Ready? ==>
              LastCall(d.wire) == Some(Flush(d.answer))
              || (LastCall(d.wire).Some? && LastCall(d.wire).value.Write?
                  && (LastCall(d.wire).value.answer == d.answer
                      || (d.answer.Failed? && LastCall(d.wire).value.answer == Ready(0))))
    decreases |todo|
  {
    if todo != [] && DripOne(todo, w).answer.Ready? {
      DripPassesAnswersOn(DripOne(todo, w).todo, DripOne(todo, w).wire);
    }
  }

  /** A shutdown is one shutdown of the inner stream, and has its answer. */
  lemma ShutdownPassesThrough(s: Sys)
    ensures var o := PolledShutdown(s);
            && o.answer == NextAnswer(s.wire, 0)
            && o.sys.wire.log == s.wire.log + [Shutdown(o.answer)]
            && o.sys.phase == s.phase && o.sys.accepted == s.accepted
  {
  }
}
