/** When a load-and-reserve makes a reservation, and when a store-conditional succeeds. */
module DcacheLarx {
  import opened CacheTypes
  import opened Dcache
  import opened DcacheBus
  import opened DcacheData
  import opened DcacheReach
  import opened DcacheReservation
  import opened DcacheRun
  import opened DcacheSystem
  import opened DcacheTags

  /** A load-and-reserve completes at this clock edge. */
  predicate LarxCompletes(g: Geometry, s: State, i: Input)
    requires g.Ok()
  { NextControl(g, s, i).lsValid && Current(g, s, i).load && Current(g, s, i).reserve }

  /** The load-and-reserve that completes makes a reservation.  One that was held in stage 1 always does;
      one that hits does unless the line was written in the cycle before; one whose row arrives while it is
      in stage 0 does only when the request before it reserved too. */
  predicate LarxReserves(g: Geometry, s: State, i: Input) {
    if s.ctl.full then true
    else if IsHit(g, s) then !(s.snoop.valid && s.snoop.addr.LineOf() == s.r0.req.addr.LineOf())
    else s.ctl.req.reserve
  }

  lemma LarxHeld(g: Geometry, s: State, i: Input, b: Bus, k: Watch)
    requires g.Ok() && RsrvOk(g, s, b, k) && RsrvEnv(g, b, s, i) && s.ctl.full && LarxCompletes(g, s, i)
    ensures s.ctl.st.ReloadWaitAck? && ReloadCompletes(g, s, i)
    ensures NextControl(g, s, i).rsrv == Reservation(true, s.ctl.req.addr.LineOf())
  {
    hide DirOk, AcksOk, AcksNow, TagsCurrent, ReloadWayOk, Window, HitWays, LastWay, IdxReload, WritesOk, BeatsOk,
         OwnedOk, LostByWrite;
  }

  lemma LarxFromStage0(g: Geometry, s: State, i: Input, b: Bus, k: Watch)
    requires g.Ok() && RsrvOk(g, s, b, k) && RsrvEnv(g, b, s, i) && !s.ctl.full && LarxCompletes(g, s, i)
    ensures Reserves(s, i) && (!IsHit(g, s) ==> s.ctl.st.ReloadWaitAck? && ReloadCompletes(g, s, i))
    ensures NextControl(g, s, i).rsrv == Reservation(LarxReserves(g, s, i), s.r0.req.addr.LineOf())
  {
    hide DirOk, AcksOk, AcksNow, TagsCurrent, ReloadWayOk, Window, HitWays, LastWay, WritesOk, BeatsOk,
         OwnedOk, LostByWrite, ReqSnoopHit, SnoopCurrent;
    if Go(s, i) { SnoopHitLine(g, s, i, b, k); }
  }

  /** In every run, with any writes by other masters: a load-and-reserve that completes leaves its line as
      the reserved line, and the reservation valid exactly as `LarxReserves` says. */
  lemma LarxMakesReservation(g: Geometry, y: Node, ins: seq<Input>, i: Input)
    requires g.Ok() && Starts(y) && RsrvRun(g, y, ins + [i]) && LarxCompletes(g, Run(g, y, ins).s, i)
    ensures var s := Run(g, y, ins).s;
      Run(g, y, ins + [i]).s.ctl.rsrv == Reservation(LarxReserves(g, s, i), Current(g, s, i).addr.LineOf())
  {
    ObserveExtends(g, y, ins, i);
    RunRsrv(g, y, ins);
    var z := Observe(g, y, ins);
    if z.s.ctl.full { LarxHeld(g, z.s, i, z.b, z.k); } else { LarxFromStage0(g, z.s, i, z.b, z.k); }
  }

  // ---------------------------------------------------------------- one master

  /** What a program knows of its reservation: whether it has one, and the line last reserved. */
  datatype Arm = Arm(armed: bool, line: Line)

  /** A store-conditional completes at this clock edge. */
  predicate StcxCompletes(g: Geometry, s: State, i: Input)
    requires g.Ok()
  { NextControl(g, s, i).lsValid && Current(g, s, i).opStore && Current(g, s, i).reserve }

  /** A load that does not reserve gets its row while in stage 0, and the request before it reserved. */
  predicate LateArm(g: Geometry, s: State, i: Input) {
    s.ctl.st.ReloadWaitAck? && !s.ctl.full && ReloadCompletes(g, s, i) && s.ctl.req.reserve
  }

  /** With no other master: a load-and-reserve gives up the reservation of another line as soon as it
      leaves stage 0 without a hit, and makes its own when it completes; a store-conditional uses it up. */
  function NextArm(g: Geometry, a: Arm, s: State, i: Input): Arm
    requires g.Ok()
  {
    if LarxCompletes(g, s, i) then Arm(LarxReserves(g, s, i), Current(g, s, i).addr.LineOf())
    else if Reserves(s, i) then Arm(false, s.r0.req.addr.LineOf())
    else if LateArm(g, s, i) then a.(armed := true)
    else if StcxCompletes(g, s, i) then a.(armed := false)
    else a
  }

  function ArmOf(g: Geometry, y: Node, ins: seq<Input>): Arm
    requires g.Ok()
    decreases |ins|
  {
    if ins == [] then Arm(false, y.s.ctl.rsrv.line)
    else NextArm(g, ArmOf(g, y, ins[..|ins| - 1]), Run(g, y, ins[..|ins| - 1]).s, ins[|ins| - 1])
  }

  lemma ArmReserves(g: Geometry, s: State, i: Input, b: Bus, k: Watch)
    requires g.Ok() && RsrvOk(g, s, b, k) && RsrvEnv(g, b, s, i) && !s.snoop.valid
    requires Reserves(s, i) && !LarxCompletes(g, s, i)
    ensures NextControl(g, s, i).rsrv == Reservation(false, s.r0.req.addr.LineOf())
  {
    hide DirOk, AcksOk, AcksNow, TagsCurrent, ReloadWayOk, Window, HitWays, LastWay, WritesOk, BeatsOk,
         OwnedOk, LostByWrite, ReqSnoopHit, SnoopCurrent;
    CurrentOk(g, s, i);
  }

  lemma ArmKept(g: Geometry, s: State, i: Input, b: Bus, k: Watch)
    requires g.Ok() && RsrvOk(g, s, b, k) && RsrvEnv(g, b, s, i) && !s.snoop.valid
    requires !Reserves(s, i) && !LarxCompletes(g, s, i)
    ensures var r := NextControl(g, s, i).rsrv;
      r.line == s.ctl.rsrv.line &&
      (r.valid <==> LateArm(g, s, i) || (s.ctl.rsrv.valid && !StcxCompletes(g, s, i)))
  {
    hide DirOk, AcksOk, AcksNow, TagsCurrent, ReloadWayOk, Window, HitWays, LastWay, WritesOk, BeatsOk,
         OwnedOk, LostByWrite, SnoopCurrent;
    CurrentOk(g, s, i);
  }

  lemma ArmStep(g: Geometry, a: Arm, s: State, i: Input, b: Bus, k: Watch)
    requires g.Ok() && RsrvOk(g, s, b, k) && RsrvEnv(g, b, s, i) && !s.snoop.valid
    requires s.ctl.rsrv == Reservation(a.armed, a.line)
    ensures NextControl(g, s, i).rsrv == Reservation(NextArm(g, a, s, i).armed, NextArm(g, a, s, i).line)
  {
    hide RsrvOk, RsrvEnv, NextControl, HitWays, LastWay, IdxReload;
    if LarxCompletes(g, s, i) {
      if s.ctl.full { LarxHeld(g, s, i, b, k); } else { LarxFromStage0(g, s, i, b, k); }
    } else if Reserves(s, i) {
      ArmReserves(g, s, i, b, k);
    } else {
      ArmKept(g, s, i, b, k);
    }
  }

  lemma {:induction false} NoSnoop(g: Geometry, y: Node, ins: seq<Input>)
    requires g.Ok() && Starts(y) && Alone(ins)
    ensures !Run(g, y, ins).s.snoop.valid
    decreases |ins|
  {
    if ins == [] {
    } else {
      assert ins[|ins| - 1] in ins;
    }
  }

  /** In every run with one bus master the reservation register is what the program's own requests make
      of it: it stays until a store-conditional completes or another load-and-reserve starts. */
  lemma {:induction false} ReservationStays(g: Geometry, y: Node, ins: seq<Input>)
    requires g.Ok() && Starts(y) && RsrvRun(g, y, ins) && Alone(ins)
    ensures Run(g, y, ins).s.ctl.rsrv == Reservation(ArmOf(g, y, ins).armed, ArmOf(g, y, ins).line)
    decreases |ins|
  {
    if ins == [] {
    } else {
      hide RsrvOk, RsrvEnv, Step, NextArm;
      var p, i := ins[..|ins| - 1], ins[|ins| - 1];
      assert p + [i] == ins;
      ObserveExtends(g, y, p, i);
      NoSnoop(g, y, p);
      ReservationStays(g, y, p);
      RunRsrv(g, y, p);
      var z := Observe(g, y, p);
      ArmStep(g, ArmOf(g, y, p), z.s, i, z.b, z.k);
      StepControl(g, z.s, i);
    }
  }

  lemma StepControl(g: Geometry, s: State, i: Input)
    requires g.Ok()
    ensures Step(g, s, i).ctl == NextControl(g, s, i)
  {}

  lemma StcxOutcome(g: Geometry, s: State, i: Input, b: Bus, k: Watch)
    requires g.Ok() && RsrvOk(g, s, b, k) && RsrvEnv(g, b, s, i) && !s.snoop.valid && StcxCompletes(g, s, i)
    ensures var q := Current(g, s, i);
      Completion(g, s, i) == if s.ctl.rsrv.valid && q.addr.LineOf() == s.ctl.rsrv.line
                             then [StoreDone(q.addr, q.sel, q.data)] else [ScFailed]
  {
    hide DirOk, AcksOk, AcksNow, TagsCurrent, ReloadWayOk, Window, HitWays, LastWay, IdxReload, WritesOk, BeatsOk,
         OwnedOk, LostByWrite, SnoopCurrent, BaseReservation;
    CurrentOk(g, s, i);
  }

  /** In every run with one bus master a store-conditional that completes is performed if and only if the
      program has a reservation and it is for the line of the store; otherwise it reports failure. */
  lemma StcxSucceedsIff(g: Geometry, y: Node, ins: seq<Input>, i: Input)
    requires g.Ok() && Starts(y) && RsrvRun(g, y, ins + [i]) && Alone(ins)
    requires StcxCompletes(g, Run(g, y, ins).s, i)
    ensures var q := Current(g, Run(g, y, ins).s, i);
      var a := ArmOf(g, y, ins);
      Completion(g, Run(g, y, ins).s, i) == if a.armed && a.line == q.addr.LineOf()
                                            then [StoreDone(q.addr, q.sel, q.data)] else [ScFailed]
  {
    hide RsrvOk, RsrvEnv, Completion, StcxCompletes;
    ObserveExtends(g, y, ins, i);
    NoSnoop(g, y, ins);
    ReservationStays(g, y, ins);
    RunRsrv(g, y, ins);
    var z := Observe(g, y, ins);
    StcxOutcome(g, z.s, i, z.b, z.k);
  }

  lemma StcxRefused(g: Geometry, s: State, i: Input)
    requires g.Ok() && s.ctl.st.Idle? && Current(g, s, i).opStore && Current(g, s, i).reserve
    requires !s.ctl.rsrv.valid || KillReservation(s)
    requires R0Ok(g, s) && (s.ctl.full ==> ReqOk(g, s.ctl.req))
    ensures Completion(g, s, i) == [ScFailed] && NextControl(g, s, i).st.Idle?
    ensures NextControl(g, s, i).wb.cyc == s.ctl.wb.cyc
  {
    hide HitWays, LastWay, IdxReload, BaseReservation;
    CurrentOk(g, s, i);
  }

  /** In every run, foreign writes included, a store-conditional without a reservation, or with one that is
      being snooped away, fails as soon as the machine is idle, without taking the bus. */
  lemma StcxFailsOffBus(g: Geometry, y: Node, ins: seq<Input>, i: Input)
    requires g.Ok() && Starts(y) && RunOk(g, y, ins + [i])
    requires var s := Run(g, y, ins).s;
      && s.ctl.st.Idle? && Current(g, s, i).opStore && Current(g, s, i).reserve
      && (!s.ctl.rsrv.valid || KillReservation(s))
    ensures Completion(g, Run(g, y, ins).s, i) == [ScFailed]
    ensures var c := Run(g, y, ins + [i]).s.ctl; c.st.Idle? && !c.wb.cyc && !c.wb.stb
  {
    hide NextControl, Completion;
    RunExtends(g, y, ins, i);
    RunKeeps(g, y, ins);
    RunKeeps(g, y, ins + [i]);
    StcxRefused(g, Run(g, y, ins).s, i);
  }
}
