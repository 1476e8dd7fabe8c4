/** Load-and-reserve and store-conditional in the presence of writes by other bus masters. */
module DcacheReservation {
  import opened CacheTypes
  import opened Dcache
  import opened DcacheBus
  import opened DcacheSystem
  import opened DcacheTags

  /** Observer: the cycle of the last foreign write to each line, and the cycle at which the last
      reserving load read its line.  A load hit reads a line whose invalidations are up to date
      only as far as the cycle before, so that cycle counts as its time of reading; a load that
      misses reads when the bus accepts its beat. */
  datatype Watch = Watch(now: nat, lastWrite: map<Line, nat>, readTime: int)

  predicate WroteSince(k: Watch, line: Line, t: int) { line in k.lastWrite && k.lastWrite[line] >= t }

  predicate ReservingHit(g: Geometry, s: State, i: Input) {
    Go(s, i) && s.r0.req.load && s.r0.req.reserve && IsHit(g, s)
  }

  /** A reserving load gets its row from the bus in this cycle. */
  predicate ReservingReload(g: Geometry, s: State, i: Input) {
    s.ctl.st.ReloadWaitAck? && ReloadCompletes(g, s, i) && Current(g, s, i).reserve
  }

  function NextWatch(g: Geometry, k: Watch, b: Bus, s: State, i: Input): Watch {
    Watch(k.now + 1,
          if i.foreign.ForeignWrite? then k.lastWrite[i.foreign.addr.LineOf() := k.now] else k.lastWrite,
          if ReservingReload(g, s, i) && |b.q| > 0 then b.q[0].time
          else if ReservingHit(g, s, i) then k.now - 1 else k.readTime)
  }

  /** Only loads and stores carry the reserve flag. */
  predicate ReserveOk(r: Request) { r.reserve ==> !r.sync && !r.touch && !r.flush }

  /** A valid reservation has not been written by another master since the reserving load read it,
      unless that write is the one the snoop registers hold and are about to act on. */
  ghost predicate Sound(s: State, k: Watch) {
    s.ctl.rsrv.valid && WroteSince(k, s.ctl.rsrv.line, k.readTime) ==>
      s.snoop.valid && s.snoop.addr.LineOf() == s.ctl.rsrv.line
  }

  ghost predicate WritesOk(n: Snoop, k: Watch) {
    && k.readTime < k.now
    && (forall l | l in k.lastWrite :: k.lastWrite[l] < k.now)
    && (n.valid ==> n.addr.LineOf() in k.lastWrite && k.lastWrite[n.addr.LineOf()] == k.now - 1)
    && (forall l | l in k.lastWrite && k.lastWrite[l] == k.now - 1 :: n.valid && n.addr.LineOf() == l)
  }

  /** No foreign write is later than a beat that is still outstanding. */
  ghost predicate BeatsOk(q: seq<Beat>, k: Watch) {
    && (forall n | 0 <= n < |q| :: q[n].time < k.now)
    && (forall n, l | 0 <= n < |q| && l in k.lastWrite :: k.lastWrite[l] < q[n].time)
  }

  ghost predicate OwnedOk(s: State, b: Bus) {
    && (|b.q| > 0 ==> !s.snoop.valid)
    && (s.ctl.st.ReloadWaitAck? && s.ctl.refill.rowsValid != {} ==> b.granted && !s.snoop.valid)
  }

  ghost predicate SnoopCurrent(s: State) {
    s.snoop.valid && !s.ctl.full ==> s.snoop.tagSet == TagRowAt(s.dir.tags, s.snoop.addr.idx)
  }

  ghost predicate OnReloadLine(c: Control) { c.rsrv.line == Line(c.refill.reloadTag, c.refill.storeIdx) }

  /** While a refill goes on with stage 1 empty, the last request, if it reserved, is a load whose
      reservation is lost only because of a foreign write. */
  ghost predicate LastReserve(s: State, k: Watch) {
    var c := s.ctl;
    && HeldReserve(c)
    && (c.st.ReloadWaitAck? && !c.full && c.req.reserve ==> LostByWrite(c, k))
  }

  ghost predicate HeldReserve(c: Control) {
    && (c.full && c.req.load && c.req.reserve ==> c.rsrv.line == c.req.addr.LineOf())
    && (c.full && c.req.reserve ==> !c.req.touch && (c.req.opLmiss || c.req.opStore))
  }

  ghost predicate LostByWrite(c: Control, k: Watch) {
    if OnReloadLine(c) then c.refill.rowsValid != {} && !WroteSince(k, c.rsrv.line, k.readTime)
    else c.rsrv.valid || WroteSince(k, c.rsrv.line, k.readTime)
  }

  ghost predicate RsrvOk(g: Geometry, s: State, b: Bus, k: Watch) {
    && Linked(g, s, b) && DirOk(g, s)
    && (s.r0.full ==> ReserveOk(s.r0.req))
    && WritesOk(s.snoop, k) && BeatsOk(b.q, k) && OwnedOk(s, b) && SnoopCurrent(s) && LastReserve(s, k)
  }

  /** A load that does not reserve completes straight from stage 0 while stage 1 still shows an
      older reserving load whose reservation is gone: the reservation comes back. */
  predicate StaleRearm(g: Geometry, s: State, i: Input) {
    var c := s.ctl;
    && c.st.ReloadWaitAck? && !c.full && ReloadCompletes(g, s, i)
    && c.req.reserve && !s.r0.req.reserve
    && !c.rsrv.valid && c.rsrv.line != Line(c.refill.reloadTag, c.refill.storeIdx)
  }

  /** A load-and-reserve leaves stage 0. */
  predicate Reserves(s: State, i: Input) { Go(s, i) && s.r0.req.load && s.r0.req.reserve }

  ghost predicate RsrvEnv(g: Geometry, b: Bus, s: State, i: Input) {
    EnvOk(g, b, s, i) && (i.valid ==> ReserveOk(i.req))
  }

  lemma TimesStep(g: Geometry, s: State, i: Input, b: Bus, k: Watch)
    requires g.Ok() && RsrvOk(g, s, b, k) && RsrvEnv(g, b, s, i)
    ensures WritesOk(NextSnoop(s, i), NextWatch(g, k, b, s, i))
    ensures BeatsOk(NextQueue(b, s, i, k.now), NextWatch(g, k, b, s, i))
  {}

  lemma OwnedStep(g: Geometry, s: State, i: Input, b: Bus, k: Watch)
    requires g.Ok() && RsrvOk(g, s, b, k) && RsrvEnv(g, b, s, i)
    ensures OwnedOk(Step(g, s, i), NextBus(g, b, s, i, k.now))
  {
    hide NextStage0, NextDirectory, NextRam, NextDout, NextForward, NextDataOut, NextAcks, NextMem, DirOk, AcksOk,
         AcksNow, TagsCurrent, ReloadWayOk, WindowRows, HitWays, LastWay, IdxReload, BaseReservation, LastReserve,
         WritesOk, BeatsOk;
  }

  lemma SnoopStep(g: Geometry, s: State, i: Input, b: Bus, k: Watch)
    requires g.Ok() && RsrvOk(g, s, b, k) && RsrvEnv(g, b, s, i)
    ensures SnoopCurrent(Step(g, s, i))
  {}

  lemma SnoopHitLine(g: Geometry, s: State, i: Input, b: Bus, k: Watch)
    requires g.Ok() && RsrvOk(g, s, b, k) && Go(s, i)
    ensures ReqSnoopHit(g, s, i) ==> s.snoop.valid && s.snoop.addr.LineOf() == s.r0.req.addr.LineOf()
    ensures IsHit(g, s) && s.snoop.valid && s.snoop.addr.LineOf() == s.r0.req.addr.LineOf() ==> ReqSnoopHit(g, s, i)
  {
    if ReqSnoopHit(g, s, i) {
      var w :| w in SnoopHits(g, s) * HitWays(g, s);
    }
    if IsHit(g, s) && s.snoop.valid && s.snoop.addr.LineOf() == s.r0.req.addr.LineOf() {
      HitWayIn(g, s);
      assert HitWay(g, s) in SnoopHits(g, s) * HitWays(g, s);
    }
  }

  /** Outside the completion of a refill row that reserves, the reservation is the one stage 0 makes. */
  lemma RsrvFromBase(g: Geometry, s: State, i: Input)
    requires g.Ok() && !(s.ctl.st.ReloadWaitAck? && ReloadCompletes(g, s, i) && s.ctl.req.reserve)
    ensures NextControl(g, s, i).rsrv.valid ==> NextControl(g, s, i).rsrv == BaseReservation(g, s, i)
  {
    hide BaseReservation, Current, StoreWb, ReloadWb, ReloadRefill, KillReservation, StcxFails, Merges, StoreExits;
  }

  /** Outside the completion of a refill row, soundness is always kept. */
  lemma SoundKept(g: Geometry, s: State, i: Input, b: Bus, k: Watch)
    requires g.Ok() && RsrvOk(g, s, b, k) && RsrvEnv(g, b, s, i)
    requires !(s.ctl.st.ReloadWaitAck? && ReloadCompletes(g, s, i) && s.ctl.req.reserve)
    requires Sound(s, k) || Reserves(s, i)
    ensures Sound(Step(g, s, i), NextWatch(g, k, b, s, i))
  {
    hide NextControl;
    RsrvFromBase(g, s, i);
    if Go(s, i) { SnoopHitLine(g, s, i, b, k); }
  }

  /** A refill row that completes the held request, or a reserving load straight from stage 0,
      reserves the line at the time its beat was accepted. */
  lemma SoundReload(g: Geometry, s: State, i: Input, b: Bus, k: Watch)
    requires g.Ok() && RsrvOk(g, s, b, k) && RsrvEnv(g, b, s, i)
    requires s.ctl.st.ReloadWaitAck? && ReloadCompletes(g, s, i) && s.ctl.req.reserve && !StaleRearm(g, s, i)
    requires Sound(s, k) || Reserves(s, i)
    ensures Sound(Step(g, s, i), NextWatch(g, k, b, s, i))
  {
    assert !s.snoop.valid && !i.foreign.ForeignWrite?;
    if Go(s, i) && HitReload(g, s) { HitReloadLine(g, s, i); }
    CurrentOk(g, s, i);
  }

  /** The exception: the reservation is valid again although another master has written its line. */
  lemma StaleRearmUnsound(g: Geometry, s: State, i: Input, b: Bus, k: Watch)
    requires g.Ok() && RsrvOk(g, s, b, k) && RsrvEnv(g, b, s, i) && StaleRearm(g, s, i)
    ensures !Sound(Step(g, s, i), NextWatch(g, k, b, s, i))
  {
    assert !s.snoop.valid && !i.foreign.ForeignWrite?;
  }

  /** A step from a sound state, or one in which stage 0 reserves anew, leaves reservations sound if and
      only if it is not a stale re-arm. */
  lemma SoundIff(g: Geometry, s: State, i: Input, b: Bus, k: Watch)
    requires g.Ok() && RsrvOk(g, s, b, k) && RsrvEnv(g, b, s, i) && (Sound(s, k) || Reserves(s, i))
    ensures Sound(Step(g, s, i), NextWatch(g, k, b, s, i)) <==> !StaleRearm(g, s, i)
  {
    if StaleRearm(g, s, i) {
      StaleRearmUnsound(g, s, i, b, k);
    } else if s.ctl.st.ReloadWaitAck? && ReloadCompletes(g, s, i) && s.ctl.req.reserve {
      SoundReload(g, s, i, b, k);
    } else {
      SoundKept(g, s, i, b, k);
    }
  }

  lemma HeldReserveStep(g: Geometry, s: State, i: Input, b: Bus, k: Watch)
    requires g.Ok() && RsrvOk(g, s, b, k) && RsrvEnv(g, b, s, i)
    ensures HeldReserve(NextControl(g, s, i))
  {
    hide DirOk, AcksOk, AcksNow, TagsCurrent, ReloadWayOk, Window, HitWays, LastWay, IdxReload, WritesOk, BeatsOk,
         OwnedOk, LostByWrite;
    CurrentOk(g, s, i);
  }

  lemma LostHeld(g: Geometry, s: State, i: Input, b: Bus, k: Watch)
    requires g.Ok() && RsrvOk(g, s, b, k) && RsrvEnv(g, b, s, i) && s.ctl.st.ReloadWaitAck? && s.ctl.full
    requires !NextControl(g, s, i).full && NextControl(g, s, i).req.reserve
    ensures LostByWrite(NextControl(g, s, i), NextWatch(g, k, b, s, i))
  {
    assert ReloadCompletes(g, s, i);
    assert !i.foreign.ForeignWrite?;
  }

  lemma LostIdle(g: Geometry, s: State, i: Input, b: Bus, k: Watch)
    requires g.Ok() && RsrvOk(g, s, b, k) && RsrvEnv(g, b, s, i) && s.ctl.st.ReloadWaitAck? && !s.ctl.full && !Go(s, i)
    requires NextControl(g, s, i).req.reserve
    ensures LostByWrite(NextControl(g, s, i), NextWatch(g, k, b, s, i))
  {
    assert !s.ctl.refill.writeTag;
  }

  lemma LostGo(g: Geometry, s: State, i: Input, b: Bus, k: Watch)
    requires g.Ok() && RsrvOk(g, s, b, k) && RsrvEnv(g, b, s, i) && s.ctl.st.ReloadWaitAck? && Go(s, i)
    requires !NextControl(g, s, i).full && NextControl(g, s, i).req.reserve
    ensures LostByWrite(NextControl(g, s, i), NextWatch(g, k, b, s, i))
  {
    SnoopHitLine(g, s, i, b, k);
    if HitReload(g, s) { HitReloadLine(g, s, i); }
    SingleHit(g, s, i);
    assert !s.ctl.refill.writeTag;
    assert s.r0.req.reserve && s.r0.req.load;
  }

  lemma LastReserveStep(g: Geometry, s: State, i: Input, b: Bus, k: Watch)
    requires g.Ok() && RsrvOk(g, s, b, k) && RsrvEnv(g, b, s, i)
    ensures LastReserve(Step(g, s, i), NextWatch(g, k, b, s, i))
  {
    var c := NextControl(g, s, i);
    HeldReserveStep(g, s, i, b, k);
    if c.st.ReloadWaitAck? && !c.full && c.req.reserve {
      assert s.ctl.st.ReloadWaitAck?;
      if s.ctl.full { LostHeld(g, s, i, b, k); }
      else if Go(s, i) { LostGo(g, s, i, b, k); }
      else { LostIdle(g, s, i, b, k); }
    }
  }

  lemma StepRsrv(g: Geometry, s: State, i: Input, b: Bus, k: Watch)
    requires g.Ok() && RsrvOk(g, s, b, k) && RsrvEnv(g, b, s, i)
    ensures RsrvOk(g, Step(g, s, i), NextBus(g, b, s, i, k.now), NextWatch(g, k, b, s, i))
  {
    StepLinked(g, s, i, b, k.now);
    TimesStep(g, s, i, b, k);
    OwnedStep(g, s, i, b, k);
    SnoopStep(g, s, i, b, k);
    LastReserveStep(g, s, i, b, k);
    StepDir(g, s, i, b);
  }

  /** Reservations with the history of stale re-arms: without one since the last reserving load they are
      sound; after one, the reserved line has been written, and no reserving load is waiting. */
  ghost predicate TaintOk(t: bool, s: State, k: Watch) {
    if t then WroteSince(k, s.ctl.rsrv.line, k.readTime) && !(s.ctl.full && s.ctl.req.load && s.ctl.req.reserve)
    else Sound(s, k)
  }

  predicate NextTaint(g: Geometry, t: bool, s: State, i: Input) { StaleRearm(g, s, i) || (t && !Reserves(s, i)) }

  /** Only a reserving load changes the reserved line and its time of reading. */
  lemma TaintStays(g: Geometry, s: State, i: Input, b: Bus, k: Watch)
    requires g.Ok() && RsrvOk(g, s, b, k) && RsrvEnv(g, b, s, i) && !Reserves(s, i)
    requires !(s.ctl.full && s.ctl.req.load && s.ctl.req.reserve)
    ensures NextControl(g, s, i).rsrv.line == s.ctl.rsrv.line && NextWatch(g, k, b, s, i).readTime == k.readTime
    ensures var c := NextControl(g, s, i); !(c.full && c.req.load && c.req.reserve)
  {
    hide DirOk, AcksOk, AcksNow, TagsCurrent, ReloadWayOk, Window, HitWays, LastWay, IdxReload, WritesOk, BeatsOk,
         OwnedOk, LostByWrite;
    CurrentOk(g, s, i);
  }

  lemma TaintStep(g: Geometry, t: bool, s: State, i: Input, b: Bus, k: Watch)
    requires g.Ok() && RsrvOk(g, s, b, k) && RsrvEnv(g, b, s, i) && TaintOk(t, s, k)
    ensures TaintOk(NextTaint(g, t, s, i), Step(g, s, i), NextWatch(g, k, b, s, i))
  {
    if NextTaint(g, t, s, i) {
      TaintStays(g, s, i, b, k);
    } else {
      SoundIff(g, s, i, b, k);
    }
  }

  // ---------------------------------------------------------------- runs

  /** Cache and bus with their observer. */
  datatype Observed = Observed(s: State, b: Bus, k: Watch)

  function NextObserved(g: Geometry, y: Observed, i: Input): Observed
    requires g.Ok()
  {
    Observed(Step(g, y.s, i), NextBus(g, y.b, y.s, i, y.k.now), NextWatch(g, y.k, y.b, y.s, i))
  }

  /** What the observer has seen in a run. */
  function WatchOf(g: Geometry, y: Node, ins: seq<Input>): Watch
    requires g.Ok()
    decreases |ins|
  {
    if ins == [] then Watch(y.now, map[], -1)
    else
      var z := Run(g, y, ins[..|ins| - 1]);
      NextWatch(g, WatchOf(g, y, ins[..|ins| - 1]), z.b, z.s, ins[|ins| - 1])
  }

  function Observe(g: Geometry, y: Node, ins: seq<Input>): Observed
    requires g.Ok()
  { Observed(Run(g, y, ins).s, Run(g, y, ins).b, WatchOf(g, y, ins)) }

  /** A run in which only loads and stores carry the reserve flag. */
  ghost predicate RsrvRun(g: Geometry, y: Node, ins: seq<Input>)
    requires g.Ok()
  { RunOk(g, y, ins) && forall i <- ins | i.valid :: ReserveOk(i.req) }

  lemma {:induction false} SameClock(g: Geometry, y: Node, ins: seq<Input>)
    requires g.Ok()
    ensures WatchOf(g, y, ins).now == Run(g, y, ins).now
    decreases |ins|
  {
    if ins == [] {
    } else {
      SameClock(g, y, ins[..|ins| - 1]);
    }
  }

  lemma ObserveExtends(g: Geometry, y: Node, ins: seq<Input>, i: Input)
    requires g.Ok()
    ensures Observe(g, y, ins + [i]) == NextObserved(g, Observe(g, y, ins), i)
    ensures RsrvRun(g, y, ins + [i]) <==> RsrvRun(g, y, ins) && RsrvEnv(g, Observe(g, y, ins).b, Observe(g, y, ins).s, i)
  {
    hide Step, NextBus, EnvOk, NextWatch;
    RunExtends(g, y, ins, i);
    SameClock(g, y, ins);
    assert (ins + [i])[..|ins|] == ins && (ins + [i])[|ins|] == i;
    assert forall k | 0 <= k < |ins| :: ins[k] == (ins + [i])[k];
  }

  /** No step of the run brings a lost reservation back. */
  ghost predicate NoRearm(g: Geometry, y: Node, ins: seq<Input>)
    requires g.Ok()
    decreases |ins|
  {
    ins == [] ||
    (NoRearm(g, y, ins[..|ins| - 1]) && !StaleRearm(g, Run(g, y, ins[..|ins| - 1]).s, ins[|ins| - 1]))
  }

  /** A stale re-arm has happened since the last load-and-reserve left stage 0. */
  ghost predicate Tainted(g: Geometry, y: Node, ins: seq<Input>)
    requires g.Ok()
    decreases |ins|
  {
    ins != [] &&
    NextTaint(g, Tainted(g, y, ins[..|ins| - 1]), Run(g, y, ins[..|ins| - 1]).s, ins[|ins| - 1])
  }

  ghost predicate AlwaysSound(g: Geometry, y: Node, ins: seq<Input>)
    requires g.Ok()
    decreases |ins|
  {
    Sound(Run(g, y, ins).s, WatchOf(g, y, ins)) && (ins == [] || AlwaysSound(g, y, ins[..|ins| - 1]))
  }

  lemma {:induction false} RunRsrv(g: Geometry, y: Node, ins: seq<Input>)
    requires g.Ok() && Starts(y) && RsrvRun(g, y, ins)
    ensures var z := Observe(g, y, ins); RsrvOk(g, z.s, z.b, z.k) && TaintOk(Tainted(g, y, ins), z.s, z.k)
    decreases |ins|
  {
    if ins != [] {
      hide RsrvOk, TaintOk, NextTaint, RsrvEnv, RsrvRun, Observe;
      var p, i := ins[..|ins| - 1], ins[|ins| - 1];
      assert p + [i] == ins;
      ObserveExtends(g, y, p, i);
      var z := Observe(g, y, p);
      RunRsrv(g, y, p);
      StepRsrv(g, z.s, i, z.b, z.k);
      TaintStep(g, Tainted(g, y, p), z.s, i, z.b, z.k);
    } else {
      var z := Observe(g, y, ins);
      assert RsrvOk(g, z.s, z.b, z.k) && Sound(z.s, z.k);
    }
  }

  /** In every run, with any writes by other masters: all reservations are sound throughout if and
      only if no step is a stale re-arm. */
  lemma {:induction false} RunsSoundIff(g: Geometry, y: Node, ins: seq<Input>)
    requires g.Ok() && Starts(y) && RsrvRun(g, y, ins)
    ensures AlwaysSound(g, y, ins) <==> NoRearm(g, y, ins)
    decreases |ins|
  {
    if ins == [] {
      assert Sound(y.s, WatchOf(g, y, ins));
    } else {
      var p := ins[..|ins| - 1];
      assert p + [ins[|ins| - 1]] == ins;
      ObserveExtends(g, y, p, ins[|ins| - 1]);
      RunsSoundIff(g, y, p);
      if AlwaysSound(g, y, p) {
        var z := Observe(g, y, p);
        RunRsrv(g, y, p);
        SoundIff(g, z.s, ins[|ins| - 1], z.b, z.k);
      }
    }
  }

  /** A store-conditional goes out on the bus at this clock edge. */
  predicate StcxDriven(s: State, i: Input) { s.ctl.st.DoStcx? && !StcxFails(s) && !i.stall }

  /** In every run, with any writes by other masters, a store-conditional is driven only to the reserved
      line; and no other master has written that line since the reserving load read it, up to and
      including the cycle in which it is driven, if and only if no stale re-arm came after that load. */
  lemma DrivenStcxAtomicIff(g: Geometry, y: Node, ins: seq<Input>, i: Input)
    requires g.Ok() && Starts(y) && RsrvRun(g, y, ins)
    requires var z := Observe(g, y, ins); RsrvEnv(g, z.b, z.s, i) && StcxDriven(z.s, i)
    ensures var z := Observe(g, y, ins);
            && z.s.ctl.rsrv.valid && z.s.ctl.req.addr.LineOf() == z.s.ctl.rsrv.line
            && (!WroteSince(NextWatch(g, z.k, z.b, z.s, i), z.s.ctl.rsrv.line, z.k.readTime) <==> !Tainted(g, y, ins))
  {
    RunRsrv(g, y, ins);
  }
}
