/** Any interleaving of the two clocks and the slave, and why every handshake ends. */
module DmiMoves {
  import opened DmiTransport

  /** What may happen between two active JTAG clock edges: a system clock edge; the slave changes its
      outputs, which counts if it keeps the handshake; the slave answers the request it sees, or drops
      its acknowledge when there is none; a JTAG clock edge with no active state. */
  datatype Move = Sys | Answer(s: Slave) | Respond(din: Bits) | Pause(sel: bool)

  function IdlePins(sel: bool): Pins { Pins(sel, false, false, false, false) }

  function Response(w: Widths, d: Dtm, s: Slave, din: Bits): Slave {
    Slave(d.req1, if |din| == w.dbits && !(s.ack && d.req1) then din else s.din)
  }

  function Apply(w: Widths, d: Dtm, s: Slave, m: Move): (Dtm, Slave)
    requires Sized(w, d)
  {
    match m
    case Sys => (SysStep(d), s)
    case Answer(s') => (d, if SlaveOk(w, d, s, s') then s' else s)
    case Respond(din) => (d, Response(w, d, s, din))
    case Pause(sel) => (TckStep(w, d, IdlePins(sel), s), s)
  }

  function Play(w: Widths, d: Dtm, s: Slave, ms: seq<Move>): (r: (Dtm, Slave))
    requires Sized(w, d)
    ensures Sized(w, r.0)
    decreases |ms|
  {
    if ms == [] then (d, s)
    else
      var r := Play(w, d, s, ms[..|ms| - 1]);
      Apply(w, r.0, r.1, Last(ms))
  }

  /** Transport and slave data widths, and the single wavefront. */
  ghost predicate RingWave(w: Widths, d: Dtm, s: Slave) { Sized(w, d) && |s.din| == w.dbits && Wave(d, s.ack) }

  /** A move keeps the wavefront, never sets the handshake back, and leaves a quiet ring quiet. */
  lemma ApplyWave(w: Widths, d: Dtm, s: Slave, m: Move)
    requires RingWave(w, d, s)
    ensures var r := Apply(w, d, s, m);
      && RingWave(w, r.0, r.1) && Left(r.0, r.1.ack) <= Left(d, s.ack)
      && (Quiet(d, s.ack) ==> Quiet(r.0, r.1.ack))
  {
    match m
    case Sys => WaveSys(d, s.ack);
    case Answer(s') => if SlaveOk(w, d, s, s') { WaveSlave(d, s.ack, s'.ack); }
    case Respond(din) => WaveSlave(d, s.ack, d.req1);
    case Pause(sel) => WaveTck(w, d, IdlePins(sel), s);
  }

  ghost predicate SameFlags(d: Dtm, ack: bool, d': Dtm, ack': bool) {
    && d.jtagReq == d'.jtagReq && d.req0 == d'.req0 && d.req1 == d'.req1
    && ack == ack' && d.ack0 == d'.ack0 && d.ack1 == d'.ack1
  }

  /** With a single wavefront the moves left tell the six flags. */
  lemma LeftTellsFlags(d: Dtm, ack: bool, d': Dtm, ack': bool)
    requires Wave(d, ack) && Wave(d', ack') && Left(d, ack) == Left(d', ack')
    ensures SameFlags(d, ack, d', ack')
  {}

  lemma LeftBound(d: Dtm, ack: bool)
    requires Wave(d, ack)
    ensures Left(d, ack) <= 11 && (Left(d, ack) == 0 <==> Quiet(d, ack))
  {}

  lemma LeftByFlags(d: Dtm, ack: bool, d': Dtm, ack': bool)
    requires SameFlags(d, ack, d', ack')
    ensures Left(d, ack) == Left(d', ack')
  {}

  /** Whether a move brings the end closer is a matter of the flags alone. */
  lemma FlagsDecide(w: Widths, d: Dtm, s: Slave, d': Dtm, s': Slave, m: Move)
    requires Sized(w, d) && Sized(w, d') && SameFlags(d, s.ack, d', s'.ack) && !m.Answer?
    ensures var r, r' := Apply(w, d, s, m), Apply(w, d', s', m); Left(r.0, r.1.ack) == Left(r'.0, r'.1.ack)
  {
    hide Left, NextShiftr, NextRequest;
    var r, r' := Apply(w, d, s, m), Apply(w, d', s', m);
    LeftByFlags(r.0, r.1.ack, r'.0, r'.1.ack);
  }

  predicate Helps(w: Widths, d: Dtm, s: Slave, m: Move)
    requires Sized(w, d)
  {
    var r := Apply(w, d, s, m);
    Left(r.0, r.1.ack) < Left(d, s.ack)
  }

  /** If nothing has moved, none of the moves played would help. */
  lemma {:induction false} NothingMoved(w: Widths, d: Dtm, s: Slave, ms: seq<Move>)
    requires RingWave(w, d, s)
    ensures var r := Play(w, d, s, ms);
      && RingWave(w, r.0, r.1) && Left(r.0, r.1.ack) <= Left(d, s.ack)
      && (Quiet(d, s.ack) ==> Quiet(r.0, r.1.ack))
      && (Left(r.0, r.1.ack) == Left(d, s.ack) ==> forall m <- ms | !m.Answer? :: !Helps(w, d, s, m))
    decreases |ms|
  {
    if ms == [] {
    } else {
      hide Wave, Left, Quiet, Apply, SameFlags;
      var p, m := ms[..|ms| - 1], Last(ms);
      NothingMoved(w, d, s, p);
      var r := Play(w, d, s, p);
      ApplyWave(w, r.0, r.1, m);
      var e := Apply(w, r.0, r.1, m);
      if Left(e.0, e.1.ack) == Left(d, s.ack) {
        LeftTellsFlags(r.0, r.1.ack, d, s.ack);
        if !m.Answer? { FlagsDecide(w, r.0, r.1, d, s, m); }
        forall n <- ms | !n.Answer? ensures !Helps(w, d, s, n) {
          if n != m { assert n in p; }
        }
      }
    }
  }

  /** The moves include a system clock edge, an answer, and a JTAG clock edge with the chain selected,
      in any order and with anything in between. */
  predicate Fair(ms: seq<Move>) { Sys in ms && Pause(true) in ms && exists m <- ms :: m.Respond? }

  /** Fair moves bring every handshake closer to its end. */
  lemma FairForward(w: Widths, d: Dtm, s: Slave, ms: seq<Move>)
    requires RingWave(w, d, s) && Fair(ms) && !Quiet(d, s.ack)
    ensures var r := Play(w, d, s, ms); Left(r.0, r.1.ack) < Left(d, s.ack)
  {
    hide Left, Wave, Quiet, Play;
    NothingMoved(w, d, s, ms);
    var m :| m in ms && m.Respond?;
    ResponseOk(w, d, s, m.din);
    AlwaysForward(w, d, IdlePins(true), s, Response(w, d, s, m.din));
    assert Helps(w, d, s, Sys) || Helps(w, d, s, m) || Helps(w, d, s, Pause(true));
  }

  lemma ResponseOk(w: Widths, d: Dtm, s: Slave, din: Bits)
    requires |s.din| == w.dbits
    ensures SlaveOk(w, d, s, Response(w, d, s, din)) && Response(w, d, s, din).ack == d.req1
  {}

  function PlayAll(w: Widths, d: Dtm, s: Slave, rounds: seq<seq<Move>>): (r: (Dtm, Slave))
    requires Sized(w, d)
    ensures Sized(w, r.0)
    decreases |rounds|
  {
    if rounds == [] then (d, s)
    else
      var r := PlayAll(w, d, s, rounds[..|rounds| - 1]);
      Play(w, r.0, r.1, Last(rounds))
  }

  /** Whatever state a handshake is in, eleven fair rounds, each in any interleaving, end it. */
  lemma {:induction false} HandshakeEnds(w: Widths, d: Dtm, s: Slave, rounds: seq<seq<Move>>)
    requires RingWave(w, d, s) && forall ms <- rounds :: Fair(ms)
    ensures var r := PlayAll(w, d, s, rounds);
      && RingWave(w, r.0, r.1) && (Quiet(r.0, r.1.ack) || Left(r.0, r.1.ack) + |rounds| <= Left(d, s.ack))
      && (|rounds| >= 11 ==> Quiet(r.0, r.1.ack))
    decreases |rounds|
  {
    hide Left, Wave, Quiet, Fair, Play;
    LeftBound(d, s.ack);
    if rounds == [] {
    } else {
      var p := rounds[..|rounds| - 1];
      HandshakeEnds(w, d, s, p);
      var r := PlayAll(w, d, s, p);
      NothingMoved(w, r.0, r.1, Last(rounds));
      if !Quiet(r.0, r.1.ack) { FairForward(w, r.0, r.1, Last(rounds)); }
    }
    var e := PlayAll(w, d, s, rounds);
    LeftBound(e.0, e.1.ack);
  }
}
