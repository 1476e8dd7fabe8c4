/** Two runs from reset in which a request meets the refill of its own line, begun by an earlier load of
    the first row: a flush of the second row completes and leaves the line in the cache, and a
    load-and-reserve of the second row completes without a reservation. */
module DcacheRefillRaces {
  import opened CacheTypes
  import opened Dcache
  import opened DcacheBus
  import opened DcacheData
  import opened DcacheEffects
  import opened DcacheLarx
  import opened DcacheReservation
  import opened DcacheRun
  import opened DcacheStaleRearm
  import opened DcacheSystem
  import opened DcacheTags

  const A1 := RowAddr(TA, 0, 1)
  const FLUSH_A1 := Request(true, true, false, false, false, A1, ALL)
  const LARX_A1 := Request(true, false, false, false, true, A1, ALL)

  /** The first row has arrived and the second is outstanding when the request is presented. */
  function Inputs5(r: Request): seq<Input> { Inputs(4) + [Present(r, true, false)] }

  /** The request is in stage 0 and waits for the row that is still to come. */
  ghost predicate Waiting(z: Observed, r: Request) {
    && z.s.r0.full && z.s.r0.req == r && z.s.dir == D4 && z.s.ctl == C4().(lsValid := false)
    && |z.b.q| == 1 && z.b.q[0].read && z.b.q[0].data == ZERO && !z.s.snoop.valid
  }

  lemma Arrives(y: Observed, r: Request)
    requires Phase(4, y) && r.addr == A1 && ReserveOk(r)
    ensures RsrvEnv(G, y.b, y.s, Present(r, true, false)) && Waiting(NextObserved(G, y, Present(r, true, false)), r)
  {}

  lemma {:induction false} QuietInputs(n: nat)
    requires n <= 4
    ensures Alone(Inputs(n))
  {
    forall i | i in Inputs(n) ensures OneMaster(i) {
      var k :| 0 <= k < n && Inputs(n)[k] == i;
    }
  }

  lemma Reached(r: Request)
    requires r.addr == A1 && ReserveOk(r)
    ensures RsrvRun(G, Y0(), Inputs5(r)) && Alone(Inputs5(r)) && Waiting(Observe(G, Y0(), Inputs5(r)), r)
  {
    hide Phase, Observe, RsrvRun, Y0, RsrvEnv, NextObserved, Waiting;
    Reaches(4);
    QuietInputs(4);
    ObserveExtends(G, Y0(), Inputs(4), Present(r, true, false));
    Arrives(Observe(G, Y0(), Inputs(4)), r);
  }

  lemma RowToCome(z: Observed, r: Request)
    requires Waiting(z, r) && r.addr == A1 && r.load && !r.touch
    ensures HitWays(G, z.s) == {0} && HitWay(G, z.s) == 0 && HitReload(G, z.s)
  {
    assert HitWays(G, z.s) == {0};
    assert LastWay({0}, 2) == LastWay({0}, 1) == 0;
  }

  lemma FlushPasses(z: Observed)
    requires Waiting(z, FLUSH_A1)
    ensures RsrvEnv(G, z.b, z.s, Quiet(true, false))
    ensures FlushDone(G, z.s, Quiet(true, false)) && FlushMissesRefill(G, z.s)
    ensures Holds(NextDirectory(G, z.s, Quiet(true, false)), 0, Line(TA, 0))
  {
    RowToCome(z, FLUSH_A1);
  }

  lemma LarxPasses(z: Observed)
    requires Waiting(z, LARX_A1)
    ensures RsrvEnv(G, z.b, z.s, Quiet(true, true))
    ensures LarxCompletes(G, z.s, Quiet(true, true)) && !NextControl(G, z.s, Quiet(true, true)).rsrv.valid
  {
    RowToCome(z, LARX_A1);
  }

  /** The flush completes and its line is still held. */
  lemma FlushRace() returns (ins: seq<Input>, i: Input)
    ensures RunOk(G, Y0(), ins + [i]) && Starts(Y0()) && Alone(ins + [i])
    ensures FlushDone(G, Run(G, Y0(), ins).s, i) && FlushMissesRefill(G, Run(G, Y0(), ins).s)
    ensures Holds(Run(G, Y0(), ins + [i]).s.dir, 0, Line(TA, 0))
  {
    hide Waiting, NextDirectory, NextControl, EnvOk, FlushDone, FlushMissesRefill, Holds;
    ins, i := Inputs5(FLUSH_A1), Quiet(true, false);
    Reached(FLUSH_A1);
    FlushPasses(Observe(G, Y0(), ins));
    RunExtends(G, Y0(), ins, i);
  }

  /** The load-and-reserve completes, with its data, and there is no reservation. */
  lemma LarxRace() returns (ins: seq<Input>, i: Input)
    ensures RsrvRun(G, Y0(), ins + [i]) && Starts(Y0()) && Alone(ins + [i])
    ensures LarxCompletes(G, Run(G, Y0(), ins).s, i) && !Run(G, Y0(), ins + [i]).s.ctl.rsrv.valid
  {
    hide Waiting, NextDirectory, RsrvEnv, LarxCompletes;
    ins, i := Inputs5(LARX_A1), Quiet(true, true);
    Reached(LARX_A1);
    LarxPasses(Observe(G, Y0(), ins));
    ObserveExtends(G, Y0(), ins, i);
  }
}
