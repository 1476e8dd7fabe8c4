/** A line refill requests and fills every row of the line exactly once, in wrap-around order from
    the row that missed, and ends with the whole line equal to memory. */
module DcacheRefill {
  import opened CacheTypes
  import opened Dcache
  import opened DcacheBus
  import opened DcacheTags
  import opened DcacheData
  import opened DcacheReach
  import opened DcacheRun
  import opened DcacheSystem

  /** Rows accepted by the bus and rows written to the data RAM in the refill in progress or just ended. */
  datatype RefillLog = RefillLog(requested: seq<int>, filled: seq<int>)

  ghost function NextLog(g: Geometry, l: RefillLog, s: State, i: Input): RefillLog {
    if s.ctl.st.ReloadWaitAck? then
      RefillLog(if Accepts(s, i) then l.requested + [s.ctl.wb.adr.row] else l.requested,
                if i.ack then l.filled + [s.ctl.refill.storeRow.row] else l.filled)
    else RefillLog([], [])
  }

  /** `n` rows in wrap-around order. */
  ghost function RowsFrom(g: Geometry, start: nat, n: nat): seq<int> {
    seq(n, k requires 0 <= k < n => Advance(g, start, k))
  }

  /** A full turn visits every row of the line exactly once. */
  lemma RowsOnce(g: Geometry, start: nat, r: nat)
    requires start < g.rows && r < g.rows
    ensures exists k :: 0 <= k < g.rows && RowsFrom(g, start, g.rows)[k] == r
    ensures forall j, k | 0 <= j < g.rows && 0 <= k < g.rows &&
              RowsFrom(g, start, g.rows)[j] == r && RowsFrom(g, start, g.rows)[k] == r :: j == k
  {
    assert RowsFrom(g, start, g.rows)[Dist(g, start, r)] == r;
  }

  ghost predicate LogOk(g: Geometry, c: Control, q: seq<Beat>, l: RefillLog) {
    c.st.ReloadWaitAck? ==>
      && Acked(g, c.refill) >= 0
      && l.filled == RowsFrom(g, StartRow(g, c.refill), Acked(g, c.refill))
      && l.requested == RowsFrom(g, StartRow(g, c.refill), Acked(g, c.refill) + |q|)
  }

  lemma RowsExtend(g: Geometry, start: nat, n: nat)
    ensures RowsFrom(g, start, n + 1) == RowsFrom(g, start, n) + [Advance(g, start, n)]
  {}

  /** The next row to fill and the next row to request, counted from the row that missed. */
  lemma NextRows(g: Geometry, f: Refill, wb: Wishbone, q: seq<Beat>)
    requires g.Ok() && Window(g, f, wb, q)
    ensures 0 <= Acked(g, f) < g.rows && f.storeRow.row == Advance(g, StartRow(g, f), Acked(g, f))
    ensures wb.stb ==> wb.adr.row == Advance(g, StartRow(g, f), Acked(g, f) + |q|)
  {}

  lemma LogReload(g: Geometry, s: State, i: Input, b: Bus, f': Refill, l: RefillLog, now: nat)
    requires g.Ok() && EnvOk(g, b, s, i) && s.ctl.st.ReloadWaitAck? && s.ctl.wb.cyc && LogOk(g, s.ctl, b.q, l)
    requires Window(g, s.ctl.refill, s.ctl.wb, b.q)
    requires StartRow(g, f') == StartRow(g, s.ctl.refill)
    requires Acked(g, f') == Acked(g, s.ctl.refill) + (if i.ack then 1 else 0)
    ensures Acked(g, f') >= 0 && NextLog(g, l, s, i).filled == RowsFrom(g, StartRow(g, f'), Acked(g, f'))
    ensures NextLog(g, l, s, i).requested == RowsFrom(g, StartRow(g, f'), Acked(g, f') + |NextQueue(b, s, i, now)|)
  {
    var f := s.ctl.refill;
    NextRows(g, f, s.ctl.wb, b.q);
    RowsExtend(g, StartRow(g, f), Acked(g, f));
    RowsExtend(g, StartRow(g, f), Acked(g, f) + |b.q|);
  }

  lemma LogStarts(g: Geometry, s: State, i: Input, b: Bus, l: RefillLog, now: nat)
    requires g.Ok() && Linked(g, s, b) && EnvOk(g, b, s, i)
    requires !s.ctl.st.ReloadWaitAck? && NextControl(g, s, i).st.ReloadWaitAck?
    ensures LogOk(g, NextControl(g, s, i), NextQueue(b, s, i, now), NextLog(g, l, s, i))
  {
    hide AcksOk, AcksNow, TagsCurrent, ReloadWayOk, HitWays, LastWay, IdxReload, BaseReservation;
    CurrentOk(g, s, i);
  }

  lemma LogStep(g: Geometry, s: State, i: Input, b: Bus, l: RefillLog, now: nat)
    requires g.Ok() && Linked(g, s, b) && EnvOk(g, b, s, i) && LogOk(g, s.ctl, b.q, l)
    ensures LogOk(g, NextControl(g, s, i), NextQueue(b, s, i, now), NextLog(g, l, s, i))
  {
    hide AcksOk, AcksNow, TagsCurrent, ReloadWayOk, HitWays, LastWay, IdxReload, BaseReservation, Current, NextLog,
         NextQueue, SlowIdle, SlowStore, SlowStcx, SlowFlush;
    if NextControl(g, s, i).st.ReloadWaitAck? {
      if s.ctl.st.ReloadWaitAck? {
        var f := Base(g, s, i).refill;
        assert Refills(g, s, i, b, f);
        WindowAcked(g, s, i, b, f);
        LogReload(g, s, i, b, NextControl(g, s, i).refill, l, now);
      } else {
        LogStarts(g, s, i, b, l, now);
      }
    }
  }

  /** A refill starts at the row of the request that missed. */
  lemma RefillStarts(g: Geometry, s: State, i: Input, b: Bus)
    requires g.Ok() && Linked(g, s, b) && EnvOk(g, b, s, i)
    requires !s.ctl.st.ReloadWaitAck? && NextControl(g, s, i).st.ReloadWaitAck?
    ensures Current(g, s, i).opLmiss && StartRow(g, NextControl(g, s, i).refill) == Current(g, s, i).addr.row
    ensures Line(NextControl(g, s, i).refill.reloadTag, NextControl(g, s, i).refill.storeIdx) == Current(g, s, i).addr.LineOf()
  {
    CurrentOk(g, s, i);
  }

  /** The way being refilled stays valid with the refill's tag. */
  ghost predicate ReloadHeld(f: Refill, d: Directory) {
    f.reloading && !f.writeTag ==> Holds(d, f.storeWay, Line(f.reloadTag, f.storeIdx))
  }

  lemma ReloadHeldStep(g: Geometry, s: State, i: Input, b: Bus)
    requires g.Ok() && Linked(g, s, b) && EnvOk(g, b, s, i) && !s.snoop.valid && ReloadHeld(s.ctl.refill, s.dir)
    ensures ReloadHeld(NextControl(g, s, i).refill, NextDirectory(g, s, i))
  {}

  /** The refill log of a run. */
  ghost function LogOf(g: Geometry, y: Node, ins: seq<Input>): RefillLog
    requires g.Ok()
    decreases |ins|
  {
    if ins == [] then RefillLog([], [])
    else NextLog(g, LogOf(g, y, ins[..|ins| - 1]), Run(g, y, ins[..|ins| - 1]).s, ins[|ins| - 1])
  }

  lemma {:induction false} RunLog(g: Geometry, y: Node, ins: seq<Input>)
    requires g.Ok() && Starts(y) && RunOk(g, y, ins)
    ensures var z := Run(g, y, ins); Linked(g, z.s, z.b) && LogOk(g, z.s.ctl, z.b.q, LogOf(g, y, ins))
    decreases |ins|
  {
    RunKeeps(g, y, ins);
    if ins == [] {
      assert y.s.ctl.st.Idle?;
    } else {
      hide Linked, LogOk, NextLog, EnvOk;
      var p := ins[..|ins| - 1];
      var z := Run(g, y, p);
      RunLog(g, y, p);
      LogStep(g, z.s, ins[|ins| - 1], z.b, LogOf(g, y, p), z.now);
    }
  }

  lemma LogEnds(g: Geometry, s: State, i: Input, b: Bus, l: RefillLog)
    requires g.Ok() && Linked(g, s, b) && EnvOk(g, b, s, i) && LogOk(g, s.ctl, b.q, l)
    requires s.ctl.st.ReloadWaitAck? && NextControl(g, s, i).st.Idle?
    ensures var rows := RowsFrom(g, StartRow(g, s.ctl.refill), g.rows); NextLog(g, l, s, i) == RefillLog(rows, rows)
  {
    LastRowEnds(g, s, i, b, 0);
    assert Acked(g, s.ctl.refill) == g.rows - 1;
  }

  /** In every run, with any writes by other masters, when a refill ends its log shows every row of the
      line requested and filled exactly once, in wrap-around order from the row that missed. */
  lemma RefillVisitsRowsOnce(g: Geometry, y: Node, ins: seq<Input>, i: Input)
    requires g.Ok() && Starts(y) && RunOk(g, y, ins + [i])
    requires Run(g, y, ins).s.ctl.st.ReloadWaitAck? && Run(g, y, ins + [i]).s.ctl.st.Idle?
    ensures var rows := RowsFrom(g, StartRow(g, Run(g, y, ins).s.ctl.refill), g.rows);
            LogOf(g, y, ins + [i]) == RefillLog(rows, rows)
  {
    RunExtends(g, y, ins, i);
    assert (ins + [i])[..|ins|] == ins;
    RunLog(g, y, ins);
    var p := Run(g, y, ins);
    LogEnds(g, p.s, i, p.b, LogOf(g, y, ins));
  }

  lemma {:induction false} RunHeld(g: Geometry, y: Node, ins: seq<Input>)
    requires g.Ok() && Starts(y) && RunOk(g, y, ins) && Alone(ins)
    ensures var z := Run(g, y, ins); DataOk(g, z.s, z.b, ViewOf(g, y, ins)) && ReloadHeld(z.s.ctl.refill, z.s.dir)
    decreases |ins|
  {
    RunSystemOk(g, y, ins);
    if ins == [] {
      assert !y.s.ctl.refill.reloading;
    } else {
      var p := ins[..|ins| - 1];
      var z := Run(g, y, p);
      RunHeld(g, y, p);
      ReloadHeldStep(g, z.s, ins[|ins| - 1], z.b);
    }
  }

  lemma RefillEnds(g: Geometry, s: State, i: Input, b: Bus, m: Mem)
    requires g.Ok() && DataOk(g, s, b, m) && EnvOk(g, b, s, i) && OneMaster(i) && ReloadHeld(s.ctl.refill, s.dir)
    requires s.ctl.st.ReloadWaitAck? && NextControl(g, s, i).st.Idle?
    ensures var f := s.ctl.refill;
            forall row: nat | row < g.rows ::
              RamAt(NextRam(s, i), Cell(f.storeWay, RowIx(f.storeIdx, row))) == Read(NextMem(b, s, i), RowAddr(f.reloadTag, f.storeIdx, row))
  {
    LastRowEnds(g, s, i, b, 0);
    var f := s.ctl.refill;
    ReloadHeldStep(g, s, i, b);
    forall row: nat | row < g.rows
      ensures RamAt(NextRam(s, i), Cell(f.storeWay, RowIx(f.storeIdx, row))) == Read(m, RowAddr(f.reloadTag, f.storeIdx, row))
    {
      HoldsStep(g, s, i, f.storeWay, Line(f.reloadTag, f.storeIdx));
      RamStepRow(g, s, i, b, m, f.storeWay, Line(f.reloadTag, f.storeIdx), row);
    }
  }

  /** In every run with one bus master, when a refill ends every row of the chosen way equals memory. */
  lemma RefillsWholeLine(g: Geometry, y: Node, ins: seq<Input>, i: Input)
    requires g.Ok() && Starts(y) && RunOk(g, y, ins + [i]) && Alone(ins + [i])
    requires Run(g, y, ins).s.ctl.st.ReloadWaitAck? && Run(g, y, ins + [i]).s.ctl.st.Idle?
    ensures var f := Run(g, y, ins).s.ctl.refill;
            var z := Run(g, y, ins + [i]);
            forall row: nat | row < g.rows ::
              RamAt(z.s.rams.ram, Cell(f.storeWay, RowIx(f.storeIdx, row))) == Read(z.b.mem, RowAddr(f.reloadTag, f.storeIdx, row))
  {
    RunExtends(g, y, ins, i);
    assert (ins + [i])[|ins|] == i;
    assert forall k | 0 <= k < |ins| :: ins[k] == (ins + [i])[k];
    RunHeld(g, y, ins);
    var p := Run(g, y, ins);
    RefillEnds(g, p.s, i, p.b, ViewOf(g, y, ins));
  }
}
