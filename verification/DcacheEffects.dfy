/** What the requests that move no data do: a flush removes its line, a write by another master removes
    the written line, a touch brings its line, and a sync waits until the bus is drained. */
module DcacheEffects {
  import opened CacheTypes
  import opened Dcache
  import opened DcacheBus
  import opened DcacheData
  import opened DcacheReach
  import opened DcacheRefill
  import opened DcacheRun
  import opened DcacheSystem
  import opened DcacheTags

  // ---------------------------------------------------------------- flush

  /** The flush of a waiting request is still aimed at the only way that may hold its line. */
  ghost predicate FlushOk(s: State) {
    var c := s.ctl;
    && (c.full && c.req.opFlush ==> c.req.isHit && forall w: nat | Holds(s.dir, w, c.req.addr.LineOf()) :: w == c.req.hitWay)
    && (c.st.FlushCycle? ==> c.refill.storeIdx == c.req.addr.idx && c.refill.storeWay == c.req.hitWay)
  }

  lemma FlushAims(g: Geometry, s: State, i: Input, b: Bus)
    requires g.Ok() && Linked(g, s, b) && EnvOk(g, b, s, i) && DirOk(g, s) && FlushOk(s) && Current(g, s, i).opFlush
    ensures Current(g, s, i).isHit && !s.ctl.refill.writeTag
    ensures forall w: nat | Holds(s.dir, w, Current(g, s, i).addr.LineOf()) :: w == Current(g, s, i).hitWay
  {
    hide Window, AcksOk, NextControl;
    if !s.ctl.full { SingleHit(g, s, i); HitsHold(g, s, i); }
  }

  /** What a step leaves of the request it works on, where a flush is concerned. */
  lemma FlushControl(g: Geometry, s: State, i: Input)
    requires g.Ok() && R0Ok(g, s) && (s.ctl.full ==> ReqOk(g, s.ctl.req))
    requires Current(g, s, i).opFlush ==> Current(g, s, i).isHit
    ensures var c, q := NextControl(g, s, i), Current(g, s, i);
      && (c.full && c.req.opFlush ==> q.opFlush && c.req.isHit && c.req.addr == q.addr && c.req.hitWay == q.hitWay)
      && (c.st.FlushCycle? ==> c.refill.storeIdx == c.req.addr.idx && c.refill.storeWay == c.req.hitWay)
  {
    hide HitWays, LastWay, IdxReload, BaseReservation, AcksNow, ReloadWb, ReloadRefill, StoreWb, StoreExits;
    CurrentOk(g, s, i);
  }

  lemma FlushStep(g: Geometry, s: State, i: Input, b: Bus)
    requires g.Ok() && Linked(g, s, b) && EnvOk(g, b, s, i) && DirOk(g, s) && FlushOk(s)
    ensures FlushOk(Step(g, s, i))
  {
    hide NextControl, NextDirectory, DirOk, Holds, Current, Window, AcksOk;
    var c := NextControl(g, s, i);
    if Current(g, s, i).opFlush { FlushAims(g, s, i, b); }
    FlushControl(g, s, i);
    if c.full && c.req.opFlush {
      forall w: nat | Holds(NextDirectory(g, s, i), w, c.req.addr.LineOf()) ensures w == c.req.hitWay {
        DirectoryStep(g, s, i, w, c.req.addr.LineOf());
      }
    }
  }

  /** A flush completes at this clock edge. */
  predicate FlushDone(g: Geometry, s: State, i: Input)
    requires g.Ok()
  { NextControl(g, s, i).lsValid && if s.ctl.full then s.ctl.req.opFlush else IsFlush(s, i) }

  /** The row of the flush has not arrived in the refill of its line: the flush counts as a miss. */
  predicate FlushMissesRefill(g: Geometry, s: State) { !s.ctl.full && HitReload(g, s) }

  lemma FlushRemoves(g: Geometry, s: State, i: Input, b: Bus)
    requires g.Ok() && Linked(g, s, b) && EnvOk(g, b, s, i) && DirOk(g, s) && FlushOk(s) && FlushDone(g, s, i)
    requires !FlushMissesRefill(g, s)
    ensures NotHeld(NextDirectory(g, s, i), Current(g, s, i).addr.LineOf())
  {
    var line := Current(g, s, i).addr.LineOf();
    CurrentOk(g, s, i);
    if s.ctl.full {
      assert s.ctl.st.FlushCycle?;
      FlushAims(g, s, i, b);
      forall w: nat ensures !Holds(NextDirectory(g, s, i), w, line) {
        if Holds(NextDirectory(g, s, i), w, line) { DirectoryStep(g, s, i, w, line); }
      }
    } else {
      SingleHit(g, s, i);
      NotHeldStep(g, s, i, line);
    }
  }

  lemma FlushKeeps(g: Geometry, s: State, i: Input, b: Bus)
    requires g.Ok() && Linked(g, s, b) && EnvOk(g, b, s, i) && DirOk(g, s) && FlushDone(g, s, i)
    requires FlushMissesRefill(g, s) && !s.snoop.valid
    ensures Holds(NextDirectory(g, s, i), HitWay(g, s), Current(g, s, i).addr.LineOf())
  {
    SingleHit(g, s, i);
    HoldsStep(g, s, i, HitWay(g, s), Current(g, s, i).addr.LineOf());
  }

  lemma {:induction false} RunFlush(g: Geometry, y: Node, ins: seq<Input>)
    requires g.Ok() && Starts(y) && RunOk(g, y, ins)
    ensures FlushOk(Run(g, y, ins).s)
    decreases |ins|
  {
    if ins == [] {
    } else {
      hide FlushOk, Linked, DirOk, EnvOk, Step;
      var p := ins[..|ins| - 1];
      RunFlush(g, y, p);
      RunKeeps(g, y, p);
      FlushStep(g, Run(g, y, p).s, ins[|ins| - 1], Run(g, y, p).b);
    }
  }

  /** In every run, with any writes by other masters, no way holds a line whose flush has just completed,
      if and only if the flush did not find its row still to come in a refill of the line. */
  lemma FlushedLineIsGone(g: Geometry, y: Node, ins: seq<Input>, i: Input)
    requires g.Ok() && Starts(y) && RunOk(g, y, ins + [i]) && FlushDone(g, Run(g, y, ins).s, i)
    ensures var s := Run(g, y, ins).s;
      var gone := NotHeld(Run(g, y, ins + [i]).s.dir, Current(g, s, i).addr.LineOf());
      && (!FlushMissesRefill(g, s) ==> gone)
      && (!s.snoop.valid ==> (gone <==> !FlushMissesRefill(g, s)))
  {
    RunExtends(g, y, ins, i);
    RunFlush(g, y, ins);
    RunKeeps(g, y, ins);
    var z := Run(g, y, ins);
    if !FlushMissesRefill(g, z.s) {
      FlushRemoves(g, z.s, i, z.b);
    } else if !z.s.snoop.valid {
      FlushKeeps(g, z.s, i, z.b);
    }
  }

  // ---------------------------------------------------------------- snooped writes

  /** The line is being brought by the refill in progress. */
  predicate Refilling(c: Control, line: Line) { c.refill.reloading && line == Line(c.refill.reloadTag, c.refill.storeIdx) }

  /** The snoop registers see every way that holds the written line, but for a refill that has just
      allocated it. */
  ghost predicate SnoopSees(s: State) {
    var line := s.snoop.addr.LineOf();
    s.snoop.valid ==> forall w: nat | Holds(s.dir, w, line) ::
      (w in s.snoop.tagSet && s.snoop.tagSet[w] == line.tag) || Refilling(s.ctl, line)
  }

  lemma SnoopLooks(g: Geometry, s: State, i: Input, b: Bus)
    requires g.Ok() && Linked(g, s, b) && EnvOk(g, b, s, i)
    ensures SnoopSees(Step(g, s, i))
  {
    hide Window, AcksOk, AcksNow, HitWays, LastWay, IdxReload, BaseReservation, NextStage0, NextRam, NextDout,
         NextForward, NextDataOut;
  }

  lemma SnoopRemoves(g: Geometry, s: State, i: Input, b: Bus)
    requires g.Ok() && Linked(g, s, b) && EnvOk(g, b, s, i) && DirOk(g, s) && SnoopSees(s) && s.snoop.valid
    ensures NotHeld(NextDirectory(g, s, i), s.snoop.addr.LineOf()) || Refilling(s.ctl, s.snoop.addr.LineOf())
  {
    var line := s.snoop.addr.LineOf();
    if !Refilling(s.ctl, line) {
      forall w: nat ensures !Holds(NextDirectory(g, s, i), w, line) {
        if Holds(NextDirectory(g, s, i), w, line) {
          DirectoryStep(g, s, i, w, line);
        }
      }
    }
  }

  /** In every run, two clock edges after another master has written a line no way holds it, unless a
      refill is bringing it. */
  lemma ForeignWriteInvalidates(g: Geometry, y: Node, ins: seq<Input>, i: Input, j: Input)
    requires g.Ok() && Starts(y) && RunOk(g, y, ins + [i] + [j]) && i.foreign.ForeignWrite?
    ensures var a, c := Run(g, y, ins + [i]), Run(g, y, ins + [i] + [j]);
      NotHeld(c.s.dir, i.foreign.addr.LineOf()) || Refilling(a.s.ctl, i.foreign.addr.LineOf())
  {
    RunExtends(g, y, ins + [i], j);
    RunExtends(g, y, ins, i);
    RunKeeps(g, y, ins);
    RunKeeps(g, y, ins + [i]);
    var z, a := Run(g, y, ins), Run(g, y, ins + [i]);
    SnoopLooks(g, z.s, i, z.b);
    assert a.s.snoop.valid && a.s.snoop.addr == i.foreign.addr;
    SnoopRemoves(g, a.s, j, a.b);
  }

  // ---------------------------------------------------------------- touch and sync

  /** A touch completes at this clock edge. */
  predicate TouchDone(g: Geometry, s: State, i: Input)
    requires g.Ok()
  { NextControl(g, s, i).lsValid && if s.ctl.full then s.ctl.req.opLmiss && s.ctl.req.touch else IsTouch(s, i) }

  lemma TouchHolds(g: Geometry, s: State, i: Input, b: Bus) returns (w: nat)
    requires g.Ok() && Linked(g, s, b) && EnvOk(g, b, s, i) && DirOk(g, s) && ReloadHeld(s.ctl.refill, s.dir)
    requires !s.snoop.valid && TouchDone(g, s, i)
    ensures Holds(NextDirectory(g, s, i), w, Current(g, s, i).addr.LineOf())
  {
    if s.ctl.full {
      w := s.ctl.refill.storeWay;
    } else {
      SingleHit(g, s, i);
      w := HitWay(g, s);
    }
    HoldsStep(g, s, i, w, Current(g, s, i).addr.LineOf());
  }

  /** In every run with one bus master a touch that has completed has brought its line. */
  lemma TouchedLineIsHeld(g: Geometry, y: Node, ins: seq<Input>, i: Input) returns (w: nat)
    requires g.Ok() && Starts(y) && RunOk(g, y, ins + [i]) && Alone(ins) && TouchDone(g, Run(g, y, ins).s, i)
    ensures Holds(Run(g, y, ins + [i]).s.dir, w, Current(g, Run(g, y, ins).s, i).addr.LineOf())
  {
    RunExtends(g, y, ins, i);
    RunHeld(g, y, ins);
    RunKeeps(g, y, ins);
    w := TouchHolds(g, Run(g, y, ins).s, i, Run(g, y, ins).b);
  }

  lemma SyncIdle(g: Geometry, s: State, i: Input)
    requires g.Ok() && NextControl(g, s, i).lsValid && Current(g, s, i).opSync
    requires s.ctl.full ==> !s.ctl.req.opLmiss && !s.ctl.req.opStore
    requires s.ctl.st.DoStcx? || s.ctl.st.FlushCycle? ==> s.ctl.full && !s.ctl.req.opSync
    requires s.ctl.st.ReloadWaitAck? && s.ctl.full ==> !s.ctl.req.hitReload
    ensures s.ctl.st.Idle?
  {
    hide HitWays, LastWay, IdxReload, BaseReservation, AcksNow, ReloadWb, ReloadRefill, StoreWb, StoreExits;
  }

  /** In every run a sync completes only with the machine idle and nothing outstanding on the bus. */
  lemma SyncWaits(g: Geometry, y: Node, ins: seq<Input>, i: Input)
    requires g.Ok() && Starts(y) && RunOk(g, y, ins + [i])
    requires NextControl(g, Run(g, y, ins).s, i).lsValid && Current(g, Run(g, y, ins).s, i).opSync
    ensures Run(g, y, ins).s.ctl.st.Idle? && Run(g, y, ins).b.q == []
  {
    RunExtends(g, y, ins, i);
    RunKeeps(g, y, ins);
    hide NextControl, NextBus;
    SyncIdle(g, Run(g, y, ins).s, i);
  }
}
