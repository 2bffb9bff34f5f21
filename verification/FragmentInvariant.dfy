/** The invariant of the fragment layer. */
module FragmentInvariant {
  import opened Wrappers
  import opened FragmentSpec

  /** The ledger once `buf` has been handed to the raw loop and the bytes `later` have been passed through. */
  ghost function Books(buf: Bytes, counts: seq<nat>, later: Bytes): Ledger {
    Ledger(Head(buf) + Prefixes(buf, counts) + later, Head(buf), Prefixes(buf, counts), counts, later)
  }

  /**
    The counts of a raw loop over `len` bytes that starts to count at `start`: each is at most `len`,
    and a write is made only while the count is short of `len`.
   */
  ghost predicate Counted(len: nat, start: nat, counts: seq<nat>) {
    && (forall i :: 0 <= i < |counts| ==> counts[i] <= len)
    && (counts != [] ==> start + Sum(counts[..|counts| - 1]) < len)
  }

  /** How the phase, the ledger and the acknowledged bytes fit together. */
  ghost predicate Fits(phase: Phase, l: Ledger, accepted: Bytes, held: Bytes) {
    match phase
    case Gathering(buf) =>
      && accepted == buf && Classify(buf) == Undecided
      && l == Ledger([], [], [], [], [])
    case Fragmenting(buf, todo) =>
      && accepted == held == buf && Classify(buf) == Hello
      && l.chunked + todo == Split(buf) && l == Ledger(l.chunked, l.chunked, [], [], [])
    case Draining(buf, ptr) =>
      && accepted == held == buf
      && l == Books(buf, l.counts, [])
      && ptr == Start(buf) + Sum(l.counts) && Counted(|buf|, Start(buf), l.counts)
    case Transparent =>
      && held <= accepted
      && l == Books(held, l.counts, accepted[|held|..])
      && |held| <= Start(held) + Sum(l.counts) && Counted(|held|, Start(held), l.counts)
  }

  ghost predicate Holds(phase: Phase, w: Wire, accepted: Bytes, held: Bytes) {
    Disciplined(w.log) && Fits(phase, LedgerOf(w.log), accepted, held)
  }

  ghost predicate Sound(s: Sys) {
    Holds(s.phase, s.wire, s.accepted, s.held)
  }
}
