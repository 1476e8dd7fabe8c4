/** Every state the cache can reach on its bus, with writes by other masters, flushes and refills. */
module DcacheReach {
  import opened CacheTypes
  import opened Dcache
  import opened DcacheBus
  import opened DcacheTags
  import opened DcacheData
  import opened DcacheSystem

  lemma {:induction false} RunKeeps(g: Geometry, y: Node, ins: seq<Input>)
    requires g.Ok() && Starts(y) && RunOk(g, y, ins)
    ensures var z := Run(g, y, ins); Linked(g, z.s, z.b) && DirOk(g, z.s)
    decreases |ins|
  {
    if ins == [] {
    } else {
      hide Linked, DirOk, Step, EnvOk;
      RunKeeps(g, y, ins[..|ins| - 1]);
      var z := Run(g, y, ins[..|ins| - 1]);
      StepLinked(g, z.s, ins[|ins| - 1], z.b, z.now);
      StepDir(g, z.s, ins[|ins| - 1], z.b);
    }
  }

  /** In every reachable state no two ways hold one line, so a hit returns the data of one way. */
  lemma HitsAreSingle(g: Geometry, y: Node, ins: seq<Input>, i: Input)
    requires g.Ok() && Starts(y) && RunOk(g, y, ins + [i])
    ensures var s := Run(g, y, ins).s;
            && Unique(s.dir)
            && (Go(s, i) && AnyHit(g, s) ==> HitWays(g, s) == {HitWay(g, s)})
            && (Go(s, i) && IsHit(g, s) ==> NextDataOut(g, s, i) == CacheOut(s, HitWay(g, s)))
  {
    RunExtends(g, y, ins, i);
    RunKeeps(g, y, ins);
    var s := Run(g, y, ins).s;
    if Go(s, i) {
      SingleHit(g, s, i);
      if IsHit(g, s) { HitDataIsOneWay(g, s, i); }
    }
  }

  /** In every reachable state of a store cycle the delayed three-bit counter is the number of beats
      presented and not acknowledged, so it has not wrapped; a store merged into the cycle is presented
      at its own address with its own data; and the idle machine has nothing outstanding. */
  lemma StoreCycleIsExact(g: Geometry, y: Node, ins: seq<Input>, i: Input)
    requires g.Ok() && Starts(y) && RunOk(g, y, ins + [i])
    ensures var z := Run(g, y, ins);
            var w := Run(g, y, ins + [i]).s.ctl.wb;
            && (z.s.ctl.st.StoreWaitAck? ==> AcksNow(z.s) == |z.b.q| + (if z.s.ctl.wb.stb then 1 else 0) < 8)
            && (z.s.ctl.st.Idle? ==> z.b.q == [] && !z.b.granted)
            && (z.s.ctl.st.StoreWaitAck? && Merges(g, z.s, i) ==>
                  w.stb && w.we && w.adr == Current(g, z.s, i).addr && w.dat == Current(g, z.s, i).data && w.sel == Current(g, z.s, i).sel)
  {
    RunExtends(g, y, ins, i);
    RunKeeps(g, y, ins);
    var z := Run(g, y, ins);
    if z.s.ctl.st.StoreWaitAck? && Merges(g, z.s, i) { StorePresented(g, z.s, i, z.b); }
  }

  /** In every reachable state of a store cycle with fewer than seven beats outstanding, a plain store to the
      same page that leaves stage 0 while the bus accepts completes at once, as the next beat. */
  lemma StoresFollow(g: Geometry, y: Node, ins: seq<Input>, i: Input)
    requires g.Ok() && Starts(y) && RunOk(g, y, ins + [i])
    requires var z := Run(g, y, ins);
      && z.s.ctl.st.StoreWaitAck? && |z.b.q| + (if z.s.ctl.wb.stb then 1 else 0) < 7 && !i.stall
      && OpStore(z.s, i) && !z.s.r0.req.reserve && z.s.r0.req.addr.tag.page == z.s.ctl.wb.adr.tag.page
    ensures var c := Run(g, y, ins + [i]).s.ctl;
      && c.lsValid && !c.stcxFail && c.st.StoreWaitAck? && c.wb.cyc && c.wb.stb && c.wb.we
      && c.wb.adr == Run(g, y, ins).s.r0.req.addr && c.wb.dat == R0Data(Run(g, y, ins).s, i)
      && c.wb.sel == Run(g, y, ins).s.r0.req.sel
  {
    RunExtends(g, y, ins, i);
    RunKeeps(g, y, ins);
    var z := Run(g, y, ins);
    hide HitWays, LastWay, IdxReload, BaseReservation, NextDirectory, NextBus, DirOk, TagsCurrent, ReloadWayOk, Window;
    assert AcksNow(z.s) < 7;
  }
}
