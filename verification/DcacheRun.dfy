/** Whole runs of the cache with one bus master: completions come in program order, one for each
    request, and each load returns, byte for byte, the last earlier store. */
module DcacheRun {
  import opened CacheTypes
  import opened Dcache
  import opened DcacheBus
  import opened DcacheTags
  import opened DcacheData
  import opened DcacheSystem

  /** A request as the load/store unit presented it; the data is the data of the following cycle. */
  datatype Accepted = Accepted(req: Request, data: DWord)

  datatype Event = LoadDone(addr: RowAddr, data: DWord)
                 | StoreDone(addr: RowAddr, sel: Sel, data: DWord)
                 | ScFailed
                 | OtherDone

  /** Requests accepted and completions signalled so far. */
  datatype Trace = Trace(acc: seq<Accepted>, late: bool, log: seq<Event>)

  predicate IsLoad(r: Request) { !r.sync && !r.touch && !r.flush && r.load }
  predicate IsStore(r: Request) { !r.sync && !r.touch && !r.flush && !r.load }

  /** The completion signalled to the load/store unit as a result of this clock edge, if any. */
  ghost function Completion(g: Geometry, s: State, i: Input): seq<Event>
    requires g.Ok()
  {
    var c := NextControl(g, s, i);
    var q := Current(g, s, i);
    if !c.lsValid then []
    else if c.stcxFail then [ScFailed]
    else if q.opStore then [StoreDone(q.addr, q.sel, q.data)]
    else if (if s.ctl.full then q.opLmiss && !q.touch else IsLoad(s.r0.req))
    then [LoadDone(q.addr, NextDataOut(g, s, i))]
    else [OtherDone]
  }

  /** The data of a request is presented in the cycle after it was accepted. */
  function WithData(t: Trace, d: DWord): seq<Accepted> {
    if t.late && |t.acc| > 0 then t.acc[|t.acc| - 1 := Accepted(t.acc[|t.acc| - 1].req, d)] else t.acc
  }

  ghost function NextTrace(g: Geometry, t: Trace, s: State, i: Input): Trace
    requires g.Ok()
  {
    var acc := WithData(t, i.data);
    var take := !R0Stall(s, i) && i.valid;
    Trace(if take then acc + [Accepted(i.req, ZERO)] else acc, take, t.log + Completion(g, s, i))
  }

  /** The trace of a run. */
  ghost function TraceOf(g: Geometry, y: Node, ins: seq<Input>): Trace
    requires g.Ok()
    decreases |ins|
  {
    if ins == [] then Trace([], false, [])
    else NextTrace(g, TraceOf(g, y, ins[..|ins| - 1]), Run(g, y, ins[..|ins| - 1]).s, ins[|ins| - 1])
  }

  /** Memory as the program sees it after a run. */
  ghost function ViewOf(g: Geometry, y: Node, ins: seq<Input>): Mem
    requires g.Ok()
    decreases |ins|
  {
    if ins == [] then y.b.mem
    else NextView(g, ViewOf(g, y, ins[..|ins| - 1]), Run(g, y, ins[..|ins| - 1]).s, ins[|ins| - 1])
  }

  /** No other master writes during the run. */
  ghost predicate Alone(ins: seq<Input>) { forall i <- ins :: OneMaster(i) }

  // ---------------------------------------------------------------- program order

  /** A held request is the accepted request it came from. */
  predicate Matches(q: Pending, a: Accepted) {
    && q.addr == a.req.addr && q.touch == a.req.touch && q.reserve == a.req.reserve
    && (q.opStore <==> IsStore(a.req))
    && (q.opLmiss && !q.touch <==> IsLoad(a.req))
    && (q.opStore ==> q.sel == a.req.sel && q.data == a.data)
  }

  /** A completion is the right one for a request: loads answer with data for the request's address,
      stores have been performed with the request's bytes, and only a store-conditional may fail. */
  predicate Fits(e: Event, a: Accepted) {
    if IsLoad(a.req) then e.LoadDone? && e.addr == a.req.addr
    else if IsStore(a.req) then e == StoreDone(a.req.addr, a.req.sel, a.data) || (a.req.reserve && e == ScFailed)
    else e == OtherDone
  }

  ghost predicate InOrder(r0: Stage0, c: Control, t: Trace) {
    && |t.acc| == |t.log| + (if c.full then 1 else 0) + (if r0.full then 1 else 0)
    && (t.late <==> r0.full && !r0.dValid)
    && (c.full ==> Matches(c.req, t.acc[|t.log|]))
    && (r0.full ==> t.acc[|t.acc| - 1].req == r0.req)
    && (r0.full && r0.dValid ==> t.acc[|t.acc| - 1].data == r0.data)
    && (forall n | 0 <= n < |t.log| :: Fits(t.log[n], t.acc[n]))
  }

  /** Each step completes the oldest outstanding request or nothing: a completion leaves stage 1 empty,
      otherwise the request is held there. */
  ghost predicate Frees(g: Geometry, s: State, i: Input)
    requires g.Ok()
  {
    var c := NextControl(g, s, i);
    && (c.lsValid ==> (s.ctl.full || Go(s, i)) && !c.full)
    && (!c.lsValid ==> c.full == (s.ctl.full || Go(s, i)))
    && (c.full ==> c.req == Current(g, s, i).(hitReload := c.req.hitReload))
  }

  lemma FreesIdle(g: Geometry, s: State, i: Input)
    requires g.Ok() && s.ctl.st.Idle? && R0Ok(g, s) && (s.ctl.full ==> ReqOk(g, s.ctl.req))
    ensures Frees(g, s, i)
  {
    hide HitWays, LastWay, IdxReload, BaseReservation, AcksNow;
    CurrentOk(g, s, i);
  }

  lemma FreesReload(g: Geometry, s: State, i: Input)
    requires g.Ok() && s.ctl.st.ReloadWaitAck? && R0Ok(g, s) && (s.ctl.full ==> ReqOk(g, s.ctl.req))
    requires s.ctl.full && s.ctl.req.hitReload ==> s.ctl.req.opLmiss
    ensures Frees(g, s, i)
  {
    hide HitWays, LastWay, IdxReload, BaseReservation, AcksNow, ReloadRefill, ReloadWb;
    CurrentOk(g, s, i);
  }

  lemma FreesStore(g: Geometry, s: State, i: Input)
    requires g.Ok() && s.ctl.st.StoreWaitAck? && R0Ok(g, s) && (s.ctl.full ==> ReqOk(g, s.ctl.req))
    ensures Frees(g, s, i)
  {
    hide HitWays, LastWay, IdxReload, BaseReservation, AcksNow, StoreWb;
    CurrentOk(g, s, i);
  }

  lemma FreesRest(g: Geometry, s: State, i: Input)
    requires g.Ok() && (s.ctl.st.DoStcx? || s.ctl.st.FlushCycle?) && s.ctl.full
    ensures Frees(g, s, i)
  {
    hide HitWays, LastWay, IdxReload, BaseReservation, AcksNow;
  }

  lemma CompletionFrees(g: Geometry, s: State, i: Input, b: Bus)
    requires g.Ok() && Linked(g, s, b) && EnvOk(g, b, s, i)
    ensures Frees(g, s, i)
  {
    hide Frees, AcksOk, AcksNow, BusOk, TagsCurrent, ReloadWayOk, Window;
    match s.ctl.st
    case Idle => FreesIdle(g, s, i);
    case ReloadWaitAck => FreesReload(g, s, i);
    case StoreWaitAck => FreesStore(g, s, i);
    case _ => FreesRest(g, s, i);
  }

  /** A store completes exactly when it is performed; only a store-conditional may fail. */
  lemma CompletionStores(g: Geometry, s: State, i: Input, b: Bus)
    requires g.Ok() && Linked(g, s, b) && EnvOk(g, b, s, i)
    ensures NextControl(g, s, i).stcxFail ==> NextControl(g, s, i).lsValid && Current(g, s, i).opStore && Current(g, s, i).reserve
    ensures Performs(g, s, i) <==> NextControl(g, s, i).lsValid && !NextControl(g, s, i).stcxFail && Current(g, s, i).opStore
  {
    CurrentOk(g, s, i);
  }

  /** The request the state machine looks at is the oldest one not yet completed. */
  lemma CurrentMatches(g: Geometry, s: State, i: Input, t: Trace)
    requires InOrder(s.r0, s.ctl, t) && (s.ctl.full || Go(s, i))
    ensures |t.log| < |WithData(t, i.data)|
    ensures s.ctl.full ==> Matches(Current(g, s, i), WithData(t, i.data)[|t.log|])
    ensures Go(s, i) ==> WithData(t, i.data)[|t.log|] == Accepted(s.r0.req, R0Data(s, i))
  {}

  lemma CompletionFits(g: Geometry, s: State, i: Input, b: Bus, a: Accepted)
    requires g.Ok() && Linked(g, s, b) && EnvOk(g, b, s, i) && NextControl(g, s, i).lsValid
    requires s.ctl.full ==> Matches(Current(g, s, i), a)
    requires Go(s, i) ==> a == Accepted(s.r0.req, R0Data(s, i))
    ensures |Completion(g, s, i)| == 1 && Fits(Completion(g, s, i)[0], a)
  {
    CompletionFrees(g, s, i, b);
    CompletionStores(g, s, i, b);
    CurrentOk(g, s, i);
  }

  lemma OrderStep(g: Geometry, s: State, i: Input, b: Bus, t: Trace)
    requires g.Ok() && Linked(g, s, b) && EnvOk(g, b, s, i) && InOrder(s.r0, s.ctl, t)
    ensures InOrder(NextStage0(s, i), NextControl(g, s, i), NextTrace(g, t, s, i))
  {
    hide NextControl, Linked, EnvOk, Fits, NextDataOut, HitWays, LastWay, IdxReload;
    CompletionFrees(g, s, i, b);
    LinkControl(g, s, i, b, 0);
    var t' := NextTrace(g, t, s, i);
    var acc := WithData(t, i.data);
    if s.ctl.full || Go(s, i) {
      CurrentMatches(g, s, i, t);
      assert t'.acc[|t.log|] == acc[|t.log|];
      if NextControl(g, s, i).lsValid { CompletionFits(g, s, i, b, acc[|t.log|]); }
    }
    OrderBook(s, i, t, NextControl(g, s, i), Completion(g, s, i), t');
  }

  lemma OrderBook(s: State, i: Input, t: Trace, c: Control, done: seq<Event>, t': Trace)
    requires InOrder(s.r0, s.ctl, t)
    requires c.lsValid ==> (s.ctl.full || Go(s, i)) && !c.full && |done| == 1
    requires !c.lsValid ==> c.full == (s.ctl.full || Go(s, i)) && done == []
    requires s.ctl.full || Go(s, i) ==> |t.log| < |WithData(t, i.data)|
    requires c.full ==> Matches(c.req, WithData(t, i.data)[|t.log|])
    requires c.lsValid ==> Fits(done[0], WithData(t, i.data)[|t.log|])
    requires var take := !R0Stall(s, i) && i.valid;
             t' == Trace(if take then WithData(t, i.data) + [Accepted(i.req, ZERO)] else WithData(t, i.data), take, t.log + done)
    ensures InOrder(NextStage0(s, i), c, t')
  {
    forall n | 0 <= n < |t'.log| ensures Fits(t'.log[n], t'.acc[n]) {
      if n < |t.log| { assert t'.acc[n] == t.acc[n]; }
    }
  }

  // ---------------------------------------------------------------- sequential memory

  /** Memory after the stores of a completion log. */
  ghost function Replay(m: Mem, log: seq<Event>): Mem {
    if log == [] then m
    else
      var p := Replay(m, log[..|log| - 1]);
      match log[|log| - 1]
      case StoreDone(a, sel, d) => Write(p, a, sel, d)
      case _ => p
  }

  /** Byte `k` of row `a` after a completion log: the last store that selected it, else the initial memory. */
  ghost function LastByte(m: Mem, log: seq<Event>, a: RowAddr, k: nat): bv8
    requires k < 8
    decreases |log|
  {
    if log == [] then Read(m, a)[k]
    else
      var e := log[|log| - 1];
      if e.StoreDone? && e.addr == a && e.sel[k] then e.data[k] else LastByte(m, log[..|log| - 1], a, k)
  }

  lemma {:induction false} ReplayBytes(m: Mem, log: seq<Event>, a: RowAddr, k: nat)
    requires k < 8
    ensures Read(Replay(m, log), a)[k] == LastByte(m, log, a, k)
    decreases |log|
  {
    if log == [] {
    } else {
      ReplayBytes(m, log[..|log| - 1], a, k);
    }
  }

  /** Every load in the log returned the bytes of the last earlier stores. */
  ghost predicate LoadsRight(m: Mem, log: seq<Event>) {
    forall n, k: nat | 0 <= n < |log| && log[n].LoadDone? && k < 8 ::
      log[n].data[k] == LastByte(m, log[..n], log[n].addr, k)
  }

  lemma LoadCompletes(g: Geometry, s: State, i: Input, b: Bus, m: Mem)
    requires g.Ok() && DataOk(g, s, b, m) && EnvOk(g, b, s, i) && OneMaster(i)
    requires Completion(g, s, i) != [] && Completion(g, s, i)[0].LoadDone?
    ensures Completion(g, s, i)[0].data == Read(m, Completion(g, s, i)[0].addr)
  {
    CompletionFrees(g, s, i, b);
    CompletionStores(g, s, i, b);
    CurrentOk(g, s, i);
    if s.ctl.full {
      assert ReloadCompletes(g, s, i);
      LoadReloadData(g, s, i, b, m);
    } else if OpLoadHit(g, s, i) {
      LoadHitData(g, s, i, b, m);
    } else {
      LoadReloadData(g, s, i, b, m);
    }
  }

  lemma ReplayStep(g: Geometry, s: State, i: Input, b: Bus, m0: Mem, m: Mem, log: seq<Event>)
    requires g.Ok() && Linked(g, s, b) && EnvOk(g, b, s, i) && m == Replay(m0, log)
    ensures NextView(g, m, s, i) == Replay(m0, log + Completion(g, s, i))
  {
    CompletionFrees(g, s, i, b);
    CompletionStores(g, s, i, b);
    var done := Completion(g, s, i);
    if done != [] { assert (log + done)[..|log + done| - 1] == log; }
    else { assert log + done == log; }
  }

  lemma LoadsStep(g: Geometry, s: State, i: Input, b: Bus, m0: Mem, m: Mem, log: seq<Event>)
    requires g.Ok() && DataOk(g, s, b, m) && EnvOk(g, b, s, i) && OneMaster(i) && m == Replay(m0, log) && LoadsRight(m0, log)
    ensures LoadsRight(m0, log + Completion(g, s, i))
  {
    var done := Completion(g, s, i);
    var log' := log + done;
    forall n, k: nat | 0 <= n < |log'| && log'[n].LoadDone? && k < 8
      ensures log'[n].data[k] == LastByte(m0, log'[..n], log'[n].addr, k)
    {
      if n < |log| {
        assert log'[..n] == log[..n] && log'[n] == log[n];
      } else {
        assert log'[..n] == log;
        LoadCompletes(g, s, i, b, m);
        ReplayBytes(m0, log, log'[n].addr, k);
      }
    }
  }

  // ---------------------------------------------------------------- main theorem

  ghost predicate SystemOk(g: Geometry, m0: Mem, z: Node, view: Mem, t: Trace) {
    && DataOk(g, z.s, z.b, view)
    && InOrder(z.s.r0, z.s.ctl, t)
    && view == Replay(m0, t.log)
    && LoadsRight(m0, t.log)
  }

  lemma StartOk(g: Geometry, y: Node)
    requires g.Ok() && Starts(y)
    ensures SystemOk(g, y.b.mem, y, y.b.mem, Trace([], false, []))
  {}

  lemma SystemStep(g: Geometry, m0: Mem, z: Node, view: Mem, t: Trace, i: Input)
    requires g.Ok() && SystemOk(g, m0, z, view, t) && EnvOk(g, z.b, z.s, i) && OneMaster(i)
    ensures SystemOk(g, m0, NextNode(g, z, i), NextView(g, view, z.s, i), NextTrace(g, t, z.s, i))
  {
    StepData(g, z.s, i, z.b, view, z.now);
    OrderStep(g, z.s, i, z.b, t);
    ReplayStep(g, z.s, i, z.b, m0, view, t.log);
    LoadsStep(g, z.s, i, z.b, m0, view, t.log);
  }

  lemma {:induction false} RunSystemOk(g: Geometry, y: Node, ins: seq<Input>)
    requires g.Ok() && Starts(y) && RunOk(g, y, ins) && Alone(ins)
    ensures SystemOk(g, y.b.mem, Run(g, y, ins), ViewOf(g, y, ins), TraceOf(g, y, ins))
    decreases |ins|
  {
    if ins == [] {
      StartOk(g, y);
    } else {
      hide SystemOk, NextNode, NextView, NextTrace, EnvOk, OneMaster;
      var p := ins[..|ins| - 1];
      RunSystemOk(g, y, p);
      SystemStep(g, y.b.mem, Run(g, y, p), ViewOf(g, y, p), TraceOf(g, y, p), ins[|ins| - 1]);
    }
  }

  /** In every run from reset with one bus master: the n-th completion answers the n-th accepted
      request, at most two requests are in flight, and every load returned, byte for byte, the last
      earlier store to that byte in program order, or the initial memory.  Whenever the machine is
      idle, memory itself holds all completed stores. */
  lemma LoadsSeeLastStores(g: Geometry, y: Node, ins: seq<Input>)
    requires g.Ok() && Starts(y) && RunOk(g, y, ins) && Alone(ins)
    ensures var z, t := Run(g, y, ins), TraceOf(g, y, ins);
            && (z.s.ctl.st.Idle? ==> z.b.mem == Replay(y.b.mem, t.log))
            && |t.log| <= |t.acc| <= |t.log| + 2
            && (forall n | 0 <= n < |t.log| :: Fits(t.log[n], t.acc[n]))
            && (forall n, k: nat | 0 <= n < |t.log| && t.log[n].LoadDone? && k < 8 ::
                  t.log[n].data[k] == LastByte(y.b.mem, t.log[..n], t.log[n].addr, k))
  {
    RunSystemOk(g, y, ins);
  }
}
