/**
 * TCP tracking of a flow and its reverse flow: each flow keeps bits for what it has seen and
 * cached copies of some bits of its reverse flow. A first flow may see segments before its
 * reverse flow exists and is linked to it.
 */
module Tcp {
  import opened Words

  datatype Bits = Bits(
    syn: bool, synR: bool, fin: bool, finR: bool, established: bool, establishedR: bool,
    halfClosed: bool, rst: bool, dead: bool, seqNo: nat)

  /** A segment; `length` is its payload length modulo 2^32. */
  datatype Segment = Segment(syn: bool, fin: bool, rst: bool, ack: bool, seqNo: nat, ackNo: nat, length: nat)

  function Clean(): Bits
  {
    Bits(false, false, false, false, false, false, false, false, false, 0)
  }

  // ----- what a segment does to the flow it belongs to and to the reverse flow

  datatype Pair = Pair(flow: Bits, reverse: Bits)

  /** The flow's own number: of the SYN, or of the FIN itself, which comes after the payload. */
  function Numbered(f: Bits, s: Segment): nat
  {
    if s.syn then s.seqNo else if s.fin then Add(s.seqNo, s.length) else f.seqNo
  }

  /** The segment acknowledges the connection request of the reverse flow, in its SYN or later. */
  predicate Establishes(f: Bits, r: Bits, s: Segment)
  {
    && s.ack
    && ((s.syn && f.synR && s.ackNo == Add(r.seqNo, 1))
        || (!f.establishedR && (f.synR || f.finR) && !Closes(f, r, s) && s.ackNo != r.seqNo))
  }

  /** The segment acknowledges the FIN of the reverse flow. */
  predicate Closes(f: Bits, r: Bits, s: Segment)
  {
    s.ack && f.finR && s.ackNo == Add(r.seqNo, 1)
  }

  function Digested(p: Pair, s: Segment): Pair
  {
    var f, r := p.flow, p.reverse;
    if s.rst then Reset(f, r)
    else
      var est, half := Establishes(f, r, s), Closes(f, r, s);
      var fin, dead := s.fin && !s.syn, half && f.halfClosed;
      Pair(Bits(f.syn || s.syn, f.synR, f.fin || fin, f.finR, f.established, f.establishedR || est,
                f.halfClosed, f.rst, f.dead || dead, Numbered(f, s)),
           Bits(r.syn, r.synR || s.syn, r.fin, r.finR || fin, r.established || est, r.establishedR,
                r.halfClosed || half, r.rst, r.dead || dead, r.seqNo))
  }

  /** A RST closes both. */
  function Reset(f: Bits, r: Bits): Pair
  {
    Pair(f.(rst := true, dead := true), r.(rst := true, dead := true))
  }

  /** A flow without a reverse flow. */
  function Alone(f: Bits, s: Segment): Bits
  {
    if s.rst then f.(rst := true, dead := true)
    else
      Bits(f.syn || s.syn, f.synR, f.fin || (s.fin && !s.syn), f.finR, f.established, f.establishedR,
           f.halfClosed, f.rst, f.dead, Numbered(f, s))
  }

  /** The bits of a flow with those it takes over from the flow it is linked to. */
  function Linked(f: Bits, r: Bits): Bits
  {
    f.(synR := f.synR || r.syn, rst := f.rst || r.rst, dead := f.dead || r.dead, finR := f.finR || r.fin,
       established := f.established || r.established, establishedR := f.establishedR || r.established)
  }

  class Flow {
    var bits: Bits

    constructor ()
      ensures bits == Clean()
    {
      bits := Clean();
    }

    /** A flow, in general a new one, copies what its reverse flow has seen. */
    method Link(other: Flow)
      requires other != this
      modifies this
      ensures bits == Linked(old(bits), other.bits)
    {
      var r := other.bits;
      if r.syn { bits := bits.(synR := true); }
      if r.rst { bits := bits.(rst := true); }
      if r.dead { bits := bits.(dead := true); }
      if r.fin { bits := bits.(finR := true); }
      if r.established { bits := bits.(established := true, establishedR := true); }
    }

    method DigestAlone(s: Segment)
      modifies this
      ensures bits == Alone(old(bits), s)
    {
      if s.rst {
        bits := bits.(rst := true);
        bits := bits.(dead := true);
      } else if s.syn {
        bits := bits.(seqNo := s.seqNo);
        bits := bits.(syn := true);
      } else if s.fin {
        bits := bits.(seqNo := Add(s.seqNo, s.length));
        bits := bits.(fin := true);
      }
    }

    /** One segment on a linked flow, bit by bit. */
    method Digest(r: Flow, s: Segment)
      requires r != this
      modifies this, r
      ensures Pair(bits, r.bits) == Digested(Pair(old(bits), old(r.bits)), s)
    {
      if s.rst {
        bits := bits.(rst := true);
        r.bits := r.bits.(rst := true);
        bits := bits.(dead := true);
        r.bits := r.bits.(dead := true);
        return;
      }
      Composed(Pair(bits, r.bits), s);
      DigestFlags(r, s);
      DigestAck(r, s);
    }

    method DigestFlags(r: Flow, s: Segment)
      requires r != this && !s.rst
      modifies this, r
      ensures Pair(bits, r.bits) == Flagged(Pair(old(bits), old(r.bits)), s)
    {
      if s.syn {
        bits := bits.(seqNo := s.seqNo);
        bits := bits.(syn := true);
        r.bits := r.bits.(synR := true);
        if bits.synR && s.ack && s.ackNo == Add(r.bits.seqNo, 1) {
          r.bits := r.bits.(established := true);
          bits := bits.(establishedR := true);
        }
      } else if s.fin {
        bits := bits.(seqNo := Add(s.seqNo, s.length));
        bits := bits.(fin := true);
        r.bits := r.bits.(finR := true);
      }
    }

    method DigestAck(r: Flow, s: Segment)
      requires r != this
      modifies this, r
      ensures Pair(bits, r.bits) == Acknowledged(Pair(old(bits), old(r.bits)), s)
    {
      if (bits.finR || (!bits.establishedR && bits.synR)) && s.ack {
        if s.ackNo == Add(r.bits.seqNo, 1) && bits.finR {
          r.bits := r.bits.(halfClosed := true);
          if bits.halfClosed {
            bits := bits.(dead := true);
            r.bits := r.bits.(dead := true);
          }
        } else if s.ackNo != r.bits.seqNo {
          if !bits.establishedR {
            r.bits := r.bits.(established := true);
            bits := bits.(establishedR := true);
          }
        }
      }
    }
  }

  /** The SYN or FIN part of a segment. */
  function Flagged(p: Pair, s: Segment): Pair
  {
    var f, r := p.flow, p.reverse;
    if s.syn then
      var est := f.synR && s.ack && s.ackNo == Add(r.seqNo, 1);
      Pair(f.(syn := true, seqNo := s.seqNo, establishedR := f.establishedR || est),
           r.(synR := true, established := r.established || est))
    else if s.fin then Pair(f.(fin := true, seqNo := Add(s.seqNo, s.length)), r.(finR := true))
    else p
  }

  /** The acknowledgement part of a segment. */
  function Acknowledged(p: Pair, s: Segment): Pair
  {
    var f, r := p.flow, p.reverse;
    var half := Closes(f, r, s);
    var est := s.ack && !f.establishedR && (f.synR || f.finR) && !half && s.ackNo != r.seqNo;
    var dead := half && f.halfClosed;
    Pair(Bits(f.syn, f.synR, f.fin, f.finR, f.established, f.establishedR || est, f.halfClosed, f.rst, f.dead || dead,
              f.seqNo),
         Bits(r.syn, r.synR, r.fin, r.finR, r.established || est, r.establishedR, r.halfClosed || half, r.rst,
              r.dead || dead, r.seqNo))
  }

  lemma Composed(p: Pair, s: Segment)
    requires !s.rst
    ensures Acknowledged(Flagged(p, s), s) == Digested(p, s)
  {
  }

  /** What `f` has cached of `r` is right. */
  predicate Cached(f: Bits, r: Bits)
  {
    f.synR == r.syn && f.finR == r.fin && f.establishedR == r.established
  }

  // ----- the same told from the history of segments

  datatype Side = First | Second

  function Other(d: Side): Side
  {
    if d.First? then Second else First
  }

  datatype Event = Event(side: Side, s: Segment)

  /** Some segment in this direction was a SYN and no RST. */
  predicate SynSeen(h: seq<Event>, d: Side)
  {
    exists i :: 0 <= i < |h| && h[i].side == d && !h[i].s.rst && h[i].s.syn
  }

  predicate FinSeen(h: seq<Event>, d: Side)
  {
    exists i :: 0 <= i < |h| && h[i].side == d && !h[i].s.rst && !h[i].s.syn && h[i].s.fin
  }

  predicate RstSeen(h: seq<Event>)
  {
    exists i :: 0 <= i < |h| && h[i].s.rst
  }

  /** The sequence number of the last SYN, or of the last FIN itself, in a direction. */
  function LastSeq(h: seq<Event>, d: Side): nat
  {
    if h == [] then 0
    else
      var e := h[|h| - 1];
      if e.side == d && !e.s.rst && e.s.syn then e.s.seqNo
      else if e.side == d && !e.s.rst && e.s.fin then Add(e.s.seqNo, e.s.length)
      else LastSeq(h[..|h| - 1], d)
  }

  /** At some point the other side acknowledged the FIN that was then the last thing numbered in this direction. */
  predicate FinAcked(h: seq<Event>, d: Side)
  {
    exists i {:trigger h[i]} :: 0 <= i < |h| && AcksFin(h[..i], h[i], d)
  }

  predicate AcksFin(h: seq<Event>, e: Event, d: Side)
  {
    e.side == Other(d) && !e.s.rst && e.s.ack && FinSeen(h, d) && e.s.ackNo == Add(LastSeq(h, d), 1)
  }

  /** At some point the other side sent an acknowledgement that completes the connection. */
  predicate Completed(h: seq<Event>, d: Side)
  {
    exists i {:trigger h[i]} :: 0 <= i < |h| && Completes(h[..i], h[i], d)
  }

  /**
   * The segment answers the SYN of this direction with a SYN of its own, or it acknowledges something other than
   * what was last numbered in this direction, which must be a SYN or FIN, and does not acknowledge a FIN.
   */
  predicate Completes(h: seq<Event>, e: Event, d: Side)
  {
    && e.side == Other(d) && !e.s.rst && e.s.ack
    && ((e.s.syn && SynSeen(h, d) && e.s.ackNo == Add(LastSeq(h, d), 1))
        || ((SynSeen(h, d) || FinSeen(h, d)) && !AcksFin(h, e, d) && e.s.ackNo != LastSeq(h, d)))
  }

  // ----- runs

  datatype State = State(first: Bits, second: Bits)

  /** Segments of the first flow before the second exists, then segments of both. */
  function Before(h: seq<Event>): Bits
  {
    if h == [] then Clean() else Alone(Before(h[..|h| - 1]), h[|h| - 1].s)
  }

  function Run(alone: seq<Event>, h: seq<Event>): State
  {
    if h == [] then State(Before(alone), Linked(Clean(), Before(alone)))
    else Next(Run(alone, h[..|h| - 1]), h[|h| - 1])
  }

  function Next(t: State, e: Event): State
  {
    if e.side.First? then
      var p := Digested(Pair(t.first, t.second), e.s);
      State(p.flow, p.reverse)
    else
      var p := Digested(Pair(t.second, t.first), e.s);
      State(p.reverse, p.flow)
  }

  // ----- the bits are what the history says

  ghost predicate Tells(h: seq<Event>, d: Side, b: Bits)
  {
    && b.syn == SynSeen(h, d) && b.fin == FinSeen(h, d) && b.rst == RstSeen(h) && b.seqNo == LastSeq(h, d)
    && b.halfClosed == FinAcked(h, d)
  }

  /** The flow is established exactly if the history completes the connection. */
  ghost predicate TellsOpen(h: seq<Event>, d: Side, b: Bits)
  {
    b.established == Completed(h, d)
  }

  /** The two flows agree about each other, and are dead together exactly when they should be. */
  ghost predicate Matched(t: State)
  {
    && Cached(t.first, t.second) && Cached(t.second, t.first)
    && t.first.dead == t.second.dead == (t.first.rst || (t.first.halfClosed && t.second.halfClosed))
  }

  lemma SynStep(h: seq<Event>, e: Event, d: Side)
    ensures SynSeen(h + [e], d) == (SynSeen(h, d) || (e.side == d && !e.s.rst && e.s.syn))
    ensures FinSeen(h + [e], d) == (FinSeen(h, d) || (e.side == d && !e.s.rst && !e.s.syn && e.s.fin))
    ensures RstSeen(h + [e]) == (RstSeen(h) || e.s.rst)
  {
    var g := h + [e];
    assert g[|h|] == e && forall i :: 0 <= i < |h| ==> g[i] == h[i];
  }

  lemma AckStep(h: seq<Event>, e: Event, d: Side)
    ensures FinAcked(h + [e], d) == (FinAcked(h, d) || AcksFin(h, e, d))
    ensures LastSeq(h + [e], d) ==
      if e.side == d && !e.s.rst && e.s.syn then e.s.seqNo
      else if e.side == d && !e.s.rst && e.s.fin then Add(e.s.seqNo, e.s.length)
      else LastSeq(h, d)
  {
    var g := h + [e];
    assert g[..|h|] == h && g[|h|] == e;
    if FinAcked(h, d) {
      var i :| 0 <= i < |h| && AcksFin(h[..i], h[i], d);
      assert g[i] == h[i] && g[..i] == h[..i];
    }
    if FinAcked(g, d) {
      var i :| 0 <= i < |g| && AcksFin(g[..i], g[i], d);
      if i < |h| { assert h[i] == g[i] && h[..i] == g[..i]; }
    }
  }

  lemma CompleteStep(h: seq<Event>, e: Event, d: Side)
    ensures Completed(h + [e], d) == (Completed(h, d) || Completes(h, e, d))
  {
    var g := h + [e];
    assert g[..|h|] == h && g[|h|] == e;
    if Completed(h, d) {
      var i :| 0 <= i < |h| && Completes(h[..i], h[i], d);
      assert g[i] == h[i] && g[..i] == h[..i];
    }
    if Completed(g, d) {
      var i :| 0 <= i < |g| && Completes(g[..i], g[i], d);
      if i < |h| { assert h[i] == g[i] && h[..i] == g[..i]; }
    }
  }

  ghost predicate Told(h: seq<Event>, t: State)
  {
    && Tells(h, First, t.first) && Tells(h, Second, t.second) && Matched(t)
    && TellsOpen(h, First, t.first) && TellsOpen(h, Second, t.second)
  }

  lemma DigestCached(f: Bits, r: Bits, s: Segment)
    requires Cached(f, r) && Cached(r, f)
    ensures var p := Digested(Pair(f, r), s); Cached(p.flow, p.reverse) && Cached(p.reverse, p.flow)
  {
  }

  lemma DigestDead(f: Bits, r: Bits, s: Segment)
    requires f.dead == r.dead == (f.rst || (f.halfClosed && r.halfClosed)) && f.rst == r.rst
    ensures var p := Digested(Pair(f, r), s);
            p.flow.dead == p.reverse.dead == (p.flow.rst || (p.flow.halfClosed && p.reverse.halfClosed))
            && p.flow.rst == p.reverse.rst
  {
  }

  lemma DigestMatched(f: Bits, r: Bits, s: Segment)
    requires Matched(State(f, r)) && f.rst == r.rst
    ensures var p := Digested(Pair(f, r), s); Matched(State(p.flow, p.reverse)) && Matched(State(p.reverse, p.flow))
  {
    DigestCached(f, r, s);
    DigestDead(f, r, s);
  }

  lemma DigestTellsOwn(h: seq<Event>, d: Side, f: Bits, r: Bits, s: Segment)
    requires Tells(h, d, f)
    ensures Tells(h + [Event(d, s)], d, Digested(Pair(f, r), s).flow)
  {
    SynStep(h, Event(d, s), d);
    AckStep(h, Event(d, s), d);
  }

  lemma DigestTellsReverse(h: seq<Event>, d: Side, f: Bits, r: Bits, s: Segment)
    requires Tells(h, Other(d), r) && Cached(f, r)
    ensures Tells(h + [Event(d, s)], Other(d), Digested(Pair(f, r), s).reverse)
  {
    SynStep(h, Event(d, s), Other(d));
    AckStep(h, Event(d, s), Other(d));
  }

  lemma DigestTellsOpen(h: seq<Event>, d: Side, f: Bits, r: Bits, s: Segment)
    requires Tells(h, Other(d), r) && Cached(f, r) && TellsOpen(h, d, f) && TellsOpen(h, Other(d), r)
    ensures var p, g := Digested(Pair(f, r), s), h + [Event(d, s)];
            TellsOpen(g, d, p.flow) && TellsOpen(g, Other(d), p.reverse)
  {
    OpenStep(h, d, f, r, s);
    OpenBits(h, d, f, r, s);
  }

  lemma OpenBits(h: seq<Event>, d: Side, f: Bits, r: Bits, s: Segment)
    requires TellsOpen(h, d, f) && TellsOpen(h, Other(d), r) && !Completes(h, Event(d, s), d)
    requires !s.rst && Establishes(f, r, s) ==> Completes(h, Event(d, s), Other(d))
    requires Completes(h, Event(d, s), Other(d)) ==> !s.rst && (r.established || Establishes(f, r, s))
    ensures var p, g := Digested(Pair(f, r), s), h + [Event(d, s)];
            TellsOpen(g, d, p.flow) && TellsOpen(g, Other(d), p.reverse)
  {
    CompleteStep(h, Event(d, s), d);
    CompleteStep(h, Event(d, s), Other(d));
    DigestEstablished(f, r, s);
  }

  lemma DigestEstablished(f: Bits, r: Bits, s: Segment)
    ensures var p := Digested(Pair(f, r), s);
            && p.flow.established == f.established
            && p.reverse.established == (r.established || (!s.rst && Establishes(f, r, s)))
  {
    var est := Establishes(f, r, s);
    if s.rst {
      assert Digested(Pair(f, r), s) == Reset(f, r);
    } else {
      assert Digested(Pair(f, r), s).reverse.established == (r.established || est);
    }
  }

  /** In an open connection it does not matter what completes it. */
  lemma OpenStep(h: seq<Event>, d: Side, f: Bits, r: Bits, s: Segment)
    requires Tells(h, Other(d), r) && Cached(f, r)
    ensures !s.rst && Establishes(f, r, s) ==> Completes(h, Event(d, s), Other(d))
    ensures Completes(h, Event(d, s), Other(d)) ==> !s.rst && (r.established || Establishes(f, r, s))
    ensures !Completes(h, Event(d, s), d)
  {
  }

  /** The bits of both flows, seen from the side of a segment, and what they say about each other. */
  ghost predicate ToldFrom(h: seq<Event>, d: Side, f: Bits, r: Bits)
  {
    && Tells(h, d, f) && Tells(h, Other(d), r) && Matched(State(f, r))
    && TellsOpen(h, d, f) && TellsOpen(h, Other(d), r)
  }

  lemma StepToldFrom(h: seq<Event>, d: Side, f: Bits, r: Bits, s: Segment)
    requires ToldFrom(h, d, f, r)
    ensures var p := Digested(Pair(f, r), s); ToldFrom(h + [Event(d, s)], d, p.flow, p.reverse)
  {
    DigestMatched(f, r, s);
    DigestTellsOwn(h, d, f, r, s);
    DigestTellsReverse(h, d, f, r, s);
    DigestTellsOpen(h, d, f, r, s);
  }

  lemma StepTold(h: seq<Event>, t: State, e: Event)
    requires Told(h, t)
    ensures Told(h + [e], Next(t, e))
  {
    assert e == Event(e.side, e.s);
    ToldSides(h, t);
    if e.side.First? {
      StepToldFrom(h, First, t.first, t.second, e.s);
    } else {
      StepToldFrom(h, Second, t.second, t.first, e.s);
    }
    ToldSides(h + [e], Next(t, e));
  }

  lemma ToldSides(h: seq<Event>, t: State)
    ensures Told(h, t) <==> ToldFrom(h, First, t.first, t.second)
    ensures Told(h, t) <==> ToldFrom(h, Second, t.second, t.first)
  {
  }

  /** Before the second flow exists, segments only come from the first. */
  predicate OneSided(h: seq<Event>)
  {
    forall i {:trigger h[i]} :: 0 <= i < |h| ==> h[i].side.First?
  }

  lemma {:induction false} BeforeTold(h: seq<Event>)
    requires OneSided(h)
    ensures Told(h, State(Before(h), Linked(Clean(), Before(h)))) && !Before(h).established
  {
    if h == [] {
    } else {
      var g, e := h[..|h| - 1], h[|h| - 1];
      BeforeTold(g);
      assert h == g + [e] && e.side.First?;
      SynStep(g, e, First);
      SynStep(g, e, Second);
      AckStep(g, e, First);
      AckStep(g, e, Second);
      CompleteStep(g, e, First);
      CompleteStep(g, e, Second);
    }
  }

  /**
   * For every run, linked from the start or later: the bits of both flows are what the history of
   * segments says, each cached bit is the other flow's own, and the flows are dead, both, exactly
   * when a RST was seen or each side's FIN was acknowledged.
   */
  lemma {:induction false} RunTold(alone: seq<Event>, h: seq<Event>)
    requires OneSided(alone)
    ensures Told(alone + h, Run(alone, h))
  {
    if h == [] {
      BeforeTold(alone);
      assert alone + h == alone;
    } else {
      var g, e := h[..|h| - 1], h[|h| - 1];
      RunTold(alone, g);
      StepTold(alone + g, Run(alone, g), e);
      assert alone + h == alone + g + [e];
    }
  }

  /** A flow is half closed only if its FIN was seen. */
  lemma HalfClosedHasFin(alone: seq<Event>, h: seq<Event>)
    requires OneSided(alone)
    ensures Run(alone, h).first.halfClosed ==> Run(alone, h).first.fin
    ensures Run(alone, h).second.halfClosed ==> Run(alone, h).second.fin
  {
    RunTold(alone, h);
    FinAckedSeen(alone + h, First);
    FinAckedSeen(alone + h, Second);
  }

  lemma FinAckedSeen(h: seq<Event>, d: Side)
    ensures FinAcked(h, d) ==> FinSeen(h, d)
  {
  }

  // ----- the handshake

  /** A SYN, its answer, and the acknowledgement of the answer. */
  ghost predicate Handshake(h: seq<Event>)
  {
    && |h| >= 3
    && h[0].side == First && h[0].s.syn && !h[0].s.rst
    && h[1].side == Second && h[1].s.syn && !h[1].s.rst && h[1].s.ack && h[1].s.ackNo == Add(h[0].s.seqNo, 1)
    && h[2].side == First && !h[2].s.syn && !h[2].s.rst && h[2].s.ack && h[2].s.ackNo == Add(h[1].s.seqNo, 1)
  }

  /** Both flows of a connection that starts with a handshake are established, whatever comes after it. */
  lemma HandshakeEstablishes(alone: seq<Event>, h: seq<Event>)
    requires OneSided(alone) && Handshake(alone + h)
    ensures var t := Run(alone, h); t.first.established && t.second.established
  {
    var g := alone + h;
    RunTold(alone, h);
    assert g[..1][0] == g[0] && g[..1][..0] == [] && g[..2][0] == g[0] && g[..2][1] == g[1] && g[..2][..1] == g[..1];
    assert Completes(g[..1], g[1], First);
    assert Completes(g[..2], g[2], Second);
  }
}
