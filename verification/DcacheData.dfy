/** The data the cache returns agrees with plain memory: with one bus master, every row of every
    valid line equals memory with all performed stores applied, through refills, merged stores
    and both forwarding stages. */
module DcacheData {
  import opened CacheTypes
  import opened Dcache
  import opened DcacheBus
  import opened DcacheTags

  /** The current request is a store that goes out to the bus at this clock edge. */
  ghost predicate Performs(g: Geometry, s: State, i: Input) {
    var q := Current(g, s, i);
    match s.ctl.st
    case Idle => q.opStore && !q.reserve
    case StoreWaitAck => Merges(g, s, i)
    case DoStcx => !StcxFails(s) && !i.stall
    case _ => false
  }

  /** Memory as the program sees it: all performed stores, in order. */
  ghost function NextView(g: Geometry, m: Mem, s: State, i: Input): Mem {
    var q := Current(g, s, i);
    if Performs(g, s, i) then Write(m, q.addr, q.sel, q.data) else m
  }

  /** The store on the bus is the only performed store that memory may not have yet. */
  ghost predicate ViewOk(s: State, b: Bus, m: Mem) {
    m == if s.ctl.st.StoreWaitAck? && s.ctl.wb.stb
         then Write(b.mem, s.ctl.wb.adr, s.ctl.wb.sel, s.ctl.wb.dat) else b.mem
  }

  ghost predicate RefillDataOk(g: Geometry, f: Refill, q: seq<Beat>, m: Mem) {
    forall k | 0 <= k < |q| && Advance(g, f.storeRow.row, k) >= 0 ::
      q[k].data == Read(m, RowAddr(f.reloadTag, f.storeIdx, Advance(g, f.storeRow.row, k)))
  }

  /** The hit status recorded for a held store is still right when the store is performed. */
  ghost predicate HeldStoreOk(c: Control, d: Directory) {
    var q := c.req;
    && (c.full && q.opStore && q.isHit ==> q.hitWays == {q.hitWay} && Holds(d, q.hitWay, q.addr.LineOf()))
    && (c.full && q.opStore && !q.isHit ==> NotHeld(d, q.addr.LineOf()))
    && (c.st.DoStcx? && q.isHit ==>
          c.refill.storeWay == q.hitWay && c.refill.storeWays == q.hitWays && c.refill.storeRow == q.addr.RowOf())
    && (c.writeBram ==>
          && c.refill.storeRow == q.addr.RowOf() && c.refill.storeWays == {c.refill.storeWay}
          && Holds(d, c.refill.storeWay, q.addr.LineOf()))
  }

  /** RAM contents including the store that is being written at this edge. */
  ghost function RamAfter(s: State, c: Cell): DWord {
    if s.ctl.writeBram && c == Cell(s.ctl.refill.storeWay, s.ctl.refill.storeRow)
    then Merge(s.ctl.req.sel, s.ctl.req.data, RamAt(s.rams.ram, c))
    else RamAt(s.rams.ram, c)
  }

  /** Rows of the line being refilled that have not arrived. */
  ghost predicate Missing(f: Refill, w: nat, at: RowIx) {
    f.reloading && !f.writeTag && at.idx == f.storeIdx && w == f.storeWay && at.row !in f.rowsValid
  }

  ghost predicate RamOk(g: Geometry, s: State, m: Mem) {
    forall w, line, row: nat | Holds(s.dir, w, line) && row < g.rows && !Missing(s.ctl.refill, w, RowIx(line.idx, row)) ::
      RamAfter(s, Cell(w, RowIx(line.idx, row))) == Read(m, RowAddr(line.tag, line.idx, row))
  }

  /** The RAM output register lags the RAM by exactly the write that is being forwarded. */
  ghost predicate ForwardOk(g: Geometry, s: State) {
    s.r0.full && s.r0.req.load ==>
      forall w: nat | w < g.ways ::
        RamAt(s.rams.ram, Cell(w, s.r0.req.addr.RowOf())) ==
        (var d := DoutAt(s.rams.dout, w);
         if s.fwd.valid && s.fwd.at == s.r0.req.addr.RowOf() && s.fwd.way == w then Merge(s.fwd.sel, s.fwd.data, d) else d)
  }

  ghost predicate DataOk(g: Geometry, s: State, b: Bus, m: Mem) {
    && Linked(g, s, b) && DirOk(g, s)
    && ViewOk(s, b, m)
    && (s.ctl.st.ReloadWaitAck? ==> RefillDataOk(g, s.ctl.refill, b.q, m))
    && HeldStoreOk(s.ctl, s.dir)
    && RamOk(g, s, m)
    && ForwardOk(g, s)
    && !s.snoop.valid
  }

  ghost predicate OneMaster(i: Input) { i.foreign.NoWrite? }

  // ---------------------------------------------------------------- memory

  /** A store is presented on the bus at its own address with its own data, even when it joins
      the bus cycle of an earlier store. */
  lemma StorePresented(g: Geometry, s: State, i: Input, b: Bus)
    requires g.Ok() && Linked(g, s, b) && EnvOk(g, b, s, i) && Performs(g, s, i)
    ensures var q := Current(g, s, i); var w := NextControl(g, s, i).wb;
            w.cyc && w.stb && w.we && w.adr == q.addr && w.dat == q.data && w.sel == q.sel
    ensures NextControl(g, s, i).st.StoreWaitAck? && NextControl(g, s, i).lsValid && !NextControl(g, s, i).stcxFail
  {}

  /** A presented beat stays as it is until the bus accepts it. */
  lemma ViewStep(g: Geometry, s: State, i: Input, b: Bus, m: Mem, now: nat)
    requires g.Ok() && Linked(g, s, b) && EnvOk(g, b, s, i) && OneMaster(i) && ViewOk(s, b, m)
    ensures ViewOk(Step(g, s, i), NextBus(g, b, s, i, now), NextView(g, m, s, i))
  {
    hide HitWays, LastWay, IdxReload, Window, AcksOk, BaseReservation, TagsCurrent, ReloadWayOk, NextDirectory,
         NextRam;
    if Performs(g, s, i) { StorePresented(g, s, i, b); }
  }

  lemma RefillDataStep(g: Geometry, s: State, i: Input, b: Bus, m: Mem, now: nat)
    requires g.Ok() && Linked(g, s, b) && EnvOk(g, b, s, i) && OneMaster(i) && ViewOk(s, b, m)
    requires s.ctl.st.ReloadWaitAck? ==> RefillDataOk(g, s.ctl.refill, b.q, m)
    ensures NextControl(g, s, i).st.ReloadWaitAck? ==>
              RefillDataOk(g, NextControl(g, s, i).refill, NextQueue(b, s, i, now), NextView(g, m, s, i))
  {
    hide AcksOk, AcksNow, BusOk, TagsCurrent, ReloadWayOk, WindowRows, BaseReservation, HitWays, LastWay, IdxReload,
         Write;
    if s.ctl.st.ReloadWaitAck? {
      hide SlowIdle, SlowStore, SlowStcx, SlowFlush;
      assert NextView(g, m, s, i) == m == b.mem;
    } else {
      assert NextQueue(b, s, i, now) == [] || !NextControl(g, s, i).st.ReloadWaitAck?;
    }
  }

  // ---------------------------------------------------------------- directory facts

  lemma HoldsStep(g: Geometry, s: State, i: Input, w: nat, line: Line)
    requires Holds(s.dir, w, line) && !s.snoop.valid && !s.ctl.refill.writeTag && !s.ctl.st.FlushCycle?
    ensures Holds(NextDirectory(g, s, i), w, line)
  {}

  /** The hit status of the current store: hit in exactly one way, or held by no way. */
  lemma CurrentStore(g: Geometry, s: State, i: Input, b: Bus)
    requires g.Ok() && Linked(g, s, b) && DirOk(g, s) && HeldStoreOk(s.ctl, s.dir)
    requires Current(g, s, i).opStore
    ensures var q := Current(g, s, i);
            if q.isHit then q.hitWays == {q.hitWay} && Holds(s.dir, q.hitWay, q.addr.LineOf())
            else NotHeld(s.dir, q.addr.LineOf())
  {
    if !s.ctl.full { SingleHit(g, s, i); }
  }

  /** A store that goes on, held or performed, still has its hit status. */
  lemma StoreHitKept(g: Geometry, s: State, i: Input, b: Bus)
    requires g.Ok() && Linked(g, s, b) && DirOk(g, s) && EnvOk(g, b, s, i) && !s.snoop.valid
    requires HeldStoreOk(s.ctl, s.dir)
    requires Current(g, s, i).opStore
    ensures var q := Current(g, s, i);
      if q.isHit then q.hitWays == {q.hitWay} && Holds(NextDirectory(g, s, i), q.hitWay, q.addr.LineOf())
      else NotHeld(NextDirectory(g, s, i), q.addr.LineOf())
  {
    hide NextControl, NextDirectory, Holds, HitWays, Window, AcksOk;
    var q := Current(g, s, i);
    CurrentOk(g, s, i);
    CurrentStore(g, s, i, b);
    if q.isHit { HoldsStep(g, s, i, q.hitWay, q.addr.LineOf()); } else { NotHeldStep(g, s, i, q.addr.LineOf()); }
  }

  lemma HeldStoreStep(g: Geometry, s: State, i: Input, b: Bus)
    requires g.Ok() && Linked(g, s, b) && DirOk(g, s) && EnvOk(g, b, s, i) && !s.snoop.valid
    requires HeldStoreOk(s.ctl, s.dir)
    ensures HeldStoreOk(NextControl(g, s, i), NextDirectory(g, s, i))
  {
    hide NextDirectory, Holds, NotHeld, HitWays, LastWay, IdxReload, Window, AcksOk, AcksNow, DirOk,
         BaseReservation, TagsCurrent;
    CurrentOk(g, s, i);
    if Current(g, s, i).opStore { StoreHitKept(g, s, i, b); }
  }

  // ---------------------------------------------------------------- RAM contents

  lemma RamWritten(s: State, i: Input, c: Cell)
    requires s.ctl.refill.writeTag ==> !RamWrites(s, i)
    requires s.ctl.writeBram ==> !s.ctl.refill.reloading
    ensures RamAt(NextRam(s, i), c) ==
            if s.ctl.refill.reloading && i.ack && c == Cell(s.ctl.refill.storeWay, s.ctl.refill.storeRow)
            then i.dat else RamAfter(s, c)
  {
    MergeAll(i.dat, RamAt(s.rams.ram, c));
  }

  lemma RamStepRow(g: Geometry, s: State, i: Input, b: Bus, m: Mem, w: nat, line: Line, row: nat)
    requires g.Ok() && DataOk(g, s, b, m) && EnvOk(g, b, s, i) && OneMaster(i)
    requires Holds(NextDirectory(g, s, i), w, line) && row < g.rows
    requires !Missing(NextControl(g, s, i).refill, w, RowIx(line.idx, row))
    ensures RamAt(NextRam(s, i), Cell(w, RowIx(line.idx, row))) == Read(m, RowAddr(line.tag, line.idx, row))
  {
    var c := Cell(w, RowIx(line.idx, row));
    DirectoryStep(g, s, i, w, line);
    RamWritten(s, i, c);
    if s.ctl.refill.reloading && i.ack && c == Cell(s.ctl.refill.storeWay, s.ctl.refill.storeRow) {
      assert Advance(g, s.ctl.refill.storeRow.row, 0) == row;
      assert b.q[0].read;
    } else {
      assert !Missing(s.ctl.refill, w, RowIx(line.idx, row)) by {
        if s.ctl.st.ReloadWaitAck? && i.ack && LastRow(s) { LastRowEnds(g, s, i, b, 0); }
      }
    }
  }

  /** The registers that write a performed store into the data RAM in the next cycle. */
  lemma PerformedRegs(g: Geometry, s: State, i: Input)
    requires g.Ok() && Performs(g, s, i) && HeldStoreOk(s.ctl, s.dir)
    requires s.ctl.st.DoStcx? ==> s.ctl.full && s.ctl.req.opStore && !s.ctl.refill.writeTag
    requires s.ctl.full && s.ctl.req.opStore ==> !s.ctl.req.opLmiss
    ensures var q, c := Current(g, s, i), NextControl(g, s, i);
      && q.opStore && c.writeBram == q.isHit && c.req.data == q.data && c.req.sel == q.sel
      && (q.isHit ==> c.refill.storeWay == q.hitWay && c.refill.storeRow == q.addr.RowOf())
  {
    hide HitWays, LastWay, IdxReload, BaseReservation, AcksNow;
  }

  /** A performed store changes the row of its own line in the way that holds it, and no other valid row. */
  lemma RamPerformRow(g: Geometry, s: State, i: Input, b: Bus, m: Mem, w: nat, line: Line, row: nat)
    requires g.Ok() && DataOk(g, s, b, m) && EnvOk(g, b, s, i) && OneMaster(i) && Performs(g, s, i)
    requires Holds(NextDirectory(g, s, i), w, line)
    requires RamAt(NextRam(s, i), Cell(w, RowIx(line.idx, row))) == Read(m, RowAddr(line.tag, line.idx, row))
    ensures RamAfter(Step(g, s, i), Cell(w, RowIx(line.idx, row))) ==
            Read(NextView(g, m, s, i), RowAddr(line.tag, line.idx, row))
  {
    hide NextControl, NextDirectory, NextRam, Performs;
    var q := Current(g, s, i);
    assert s.ctl.st.DoStcx? ==> s.ctl.full && s.ctl.req.opStore && !s.ctl.refill.writeTag;
    PerformedRegs(g, s, i);
    StorePresented(g, s, i, b);
    CurrentStore(g, s, i, b);
    DirectoryStep(g, s, i, w, line);
    if RowAddr(line.tag, line.idx, row) == q.addr {
      assert Holds(s.dir, w, q.addr.LineOf());
      assert q.isHit && w == q.hitWay;
    }
  }

  lemma RamStep(g: Geometry, s: State, i: Input, b: Bus, m: Mem)
    requires g.Ok() && DataOk(g, s, b, m) && EnvOk(g, b, s, i) && OneMaster(i)
    ensures RamOk(g, Step(g, s, i), NextView(g, m, s, i))
  {
    var s' := Step(g, s, i);
    assert s'.ctl.writeBram ==> Performs(g, s, i);
    forall w, line, row: nat | Holds(s'.dir, w, line) && row < g.rows && !Missing(s'.ctl.refill, w, RowIx(line.idx, row))
      ensures RamAfter(s', Cell(w, RowIx(line.idx, row))) == Read(NextView(g, m, s, i), RowAddr(line.tag, line.idx, row))
    {
      RamStepRow(g, s, i, b, m, w, line, row);
      if Performs(g, s, i) { RamPerformRow(g, s, i, b, m, w, line, row); }
    }
  }

  lemma ForwardStep(g: Geometry, s: State, i: Input, b: Bus)
    requires g.Ok() && Linked(g, s, b) && EnvOk(g, b, s, i)
    ensures ForwardOk(g, Step(g, s, i))
  {}

  lemma StepData(g: Geometry, s: State, i: Input, b: Bus, m: Mem, now: nat)
    requires g.Ok() && DataOk(g, s, b, m) && EnvOk(g, b, s, i) && OneMaster(i)
    ensures DataOk(g, Step(g, s, i), NextBus(g, b, s, i, now), NextView(g, m, s, i))
  {
    StepLinked(g, s, i, b, now);
    StepDir(g, s, i, b);
    ViewStep(g, s, i, b, m, now);
    RefillDataStep(g, s, i, b, m, now);
    HeldStoreStep(g, s, i, b);
    RamStep(g, s, i, b, m);
    ForwardStep(g, s, i, b);
  }

  // ---------------------------------------------------------------- load results

  /** A load hit returns memory, whichever of the RAM, this cycle's store or the previous write supplies each byte. */
  lemma LoadHitData(g: Geometry, s: State, i: Input, b: Bus, m: Mem)
    requires g.Ok() && DataOk(g, s, b, m) && IsMem(s, i) && s.r0.req.load && IsHit(g, s)
    ensures NextDataOut(g, s, i) == Read(m, s.r0.req.addr)
  {
    var a := s.r0.req.addr;
    var w := HitWay(g, s);
    HitDataIsOneWay(g, s, i);
    SingleHit(g, s, i);
    assert CacheOut(s, w) == RamAfter(s, Cell(w, a.RowOf()));
    assert !Missing(s.ctl.refill, w, RowIx(a.idx, a.row));
    assert Holds(s.dir, w, a.LineOf());
  }

  /** A load completed by an arriving row returns memory. */
  lemma LoadReloadData(g: Geometry, s: State, i: Input, b: Bus, m: Mem)
    requires g.Ok() && DataOk(g, s, b, m) && EnvOk(g, b, s, i) && s.ctl.st.ReloadWaitAck? && ReloadCompletes(g, s, i)
    requires !Current(g, s, i).touch
    ensures NextDataOut(g, s, i) == Read(m, Current(g, s, i).addr)
  {
    if Go(s, i) && HitReload(g, s) { HitReloadLine(g, s, i); }
    assert Advance(g, s.ctl.refill.storeRow.row, 0) == s.ctl.refill.storeRow.row;
    assert b.q[0].read;
  }
}
