/** The time stamps of the live view: how they relate to the camera's. */
module LiveStamps {
  import opened Machine
  import opened LiveSlot

  /** The offset is set by the first frame after kcStart stamped below 2^63, which gets stamp 0. */
  lemma FirstStamp(c: Clock, pts: U64)
    requires c.ptsOffset < 0
    ensures Stamp(c, pts) == 0
    ensures NextOffset(c.ptsOffset, pts) >= 0 <==> pts < 0x8000_0000_0000_0000
    ensures pts < 0x8000_0000_0000_0000 ==> NextOffset(c.ptsOffset, pts) == pts
  {
  }

  lemma {:induction false} OffsetStays(s: State, es: seq<Event>, maxLatency: U32)
    requires s.live.clock.ptsOffset >= 0 && Runs(s, es, maxLatency) && Start !in es
    ensures Final(s, es, maxLatency).live.clock.ptsOffset == s.live.clock.ptsOffset
    decreases es
  {
    if es != [] {
      OffsetStays(Step(s, es[0], maxLatency), es[1..], maxLatency);
    }
  }

  lemma SameSpan(offset: int, p: int, q: int)
    ensures ToU64(ToU64(q - offset) - ToU64(p - offset)) == ToU64(q - p)
  {
    assert (q - offset) - (p - offset) == q - p;
  }

  /** From then on, until the next kcStart, stamps differ as the camera's do. */
  lemma StampsKeepSpans(s: State, es: seq<Event>, p: U64, q: U64, maxLatency: U32)
    requires s.live.clock.ptsOffset >= 0 && Runs(s, es, maxLatency) && Start !in es
    ensures ToU64(Stamp(Final(s, es, maxLatency).live.clock, q) - Stamp(s.live.clock, p)) == ToU64(q - p)
  {
    var offset := s.live.clock.ptsOffset;
    OffsetStays(s, es, maxLatency);
    SameSpan(offset, p, q);
    assert Stamp(s.live.clock, p) == ToU64(p - offset);
    assert Stamp(Final(s, es, maxLatency).live.clock, q) == ToU64(q - offset);
  }
}
