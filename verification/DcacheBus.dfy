/** The cache connected to its pipelined Wishbone bus, and the control invariant that ties the
    state machine to the beats the bus has accepted and not yet acknowledged. */
module DcacheBus {
  import opened CacheTypes
  import opened Dcache

  /** One accepted, unacknowledged transfer. `time` is the cycle in which it was accepted. */
  datatype Beat = Beat(read: bool, data: DWord, time: nat)

  /** The bus side: memory, the outstanding beats in order, and whether the cache owns the bus. */
  datatype Bus = Bus(mem: Mem, q: seq<Beat>, granted: bool)

  predicate Accepts(s: State, i: Input) { s.ctl.wb.cyc && s.ctl.wb.stb && !i.stall }

  /** What the bus and the load/store unit promise: acknowledges come in order and only for
      beats accepted in an earlier cycle, read data is the data of the oldest beat, and another
      master writes only while the cache does not own the bus. */
  predicate EnvOk(g: Geometry, b: Bus, s: State, i: Input) {
    && i.victim < g.ways
    && (i.valid ==> i.req.addr.row < g.rows)
    && (i.ack ==> |b.q| > 0 && (b.q[0].read ==> i.dat == b.q[0].data))
    && (i.foreign.ForeignWrite? ==> !b.granted && !(s.ctl.wb.cyc && !i.stall))
  }

  function NextQueue(b: Bus, s: State, i: Input, now: nat): seq<Beat> {
    (if i.ack && |b.q| > 0 then b.q[1..] else b.q) +
    (if Accepts(s, i) then [Beat(!s.ctl.wb.we, Read(b.mem, s.ctl.wb.adr), now)] else [])
  }

  function NextMem(b: Bus, s: State, i: Input): Mem {
    if Accepts(s, i) && s.ctl.wb.we then Write(b.mem, s.ctl.wb.adr, s.ctl.wb.sel, s.ctl.wb.dat)
    else if i.foreign.ForeignWrite? then Write(b.mem, i.foreign.addr, i.foreign.sel, i.foreign.data)
    else b.mem
  }

  function NextBus(g: Geometry, b: Bus, s: State, i: Input, now: nat): Bus
    requires g.Ok()
  {
    Bus(NextMem(b, s, i), NextQueue(b, s, i, now),
        NextControl(g, s, i).wb.cyc && (b.granted || (s.ctl.wb.cyc && !i.stall)))
  }

  // ---------------------------------------------------------------- refill window

  /** Rows from `from` forward to `to`, going round the end of the line. */
  function Dist(g: Geometry, from: nat, to: nat): int {
    if to >= from then to - from else to + g.rows - from
  }

  function Advance(g: Geometry, row: nat, k: nat): int {
    if row + k < g.rows then row + k else row + k - g.rows
  }

  function StartRow(g: Geometry, f: Refill): nat { NextRow(g, f.endRow) }

  /** Rows of the line acknowledged so far. */
  function Acked(g: Geometry, f: Refill): int { Dist(g, StartRow(g, f), f.storeRow.row) }

  /** The refill and the bus address stay within one line. */
  predicate WindowShape(g: Geometry, f: Refill, wb: Wishbone) {
    && f.endRow < g.rows && f.storeRow.row < g.rows && f.storeRow.idx == f.storeIdx
    && wb.adr.tag == f.reloadTag && wb.adr.idx == f.storeIdx && wb.adr.row < g.rows
  }

  /** The row presented follows the rows outstanding, which follow the rows arrived. */
  predicate WindowBeats(g: Geometry, f: Refill, wb: Wishbone, q: seq<Beat>) {
    && (wb.stb ==> Acked(g, f) + |q| < g.rows && wb.adr.row == Advance(g, f.storeRow.row, |q|))
    && (!wb.stb ==> Acked(g, f) + |q| == g.rows)
    && (forall k | 0 <= k < |q| :: q[k].read)
  }

  /** The valid rows are the rows arrived. */
  predicate WindowRows(g: Geometry, f: Refill) {
    forall r: nat | r < g.rows :: r in f.rowsValid <==> Dist(g, StartRow(g, f), r) < Acked(g, f)
  }

  /** During a refill the rows arrived, the rows outstanding on the bus and the rows still to be
      requested are consecutive stretches of the line, starting at the row that missed. */
  predicate Window(g: Geometry, f: Refill, wb: Wishbone, q: seq<Beat>) {
    WindowShape(g, f, wb) && WindowBeats(g, f, wb, q) && WindowRows(g, f)
  }

  // ---------------------------------------------------------------- control invariant

  predicate ReqOk(g: Geometry, q: Pending) {
    && q.valid && q.addr.row < g.rows
    && (q.opLmiss || q.opStore || q.opFlush || q.opSync)
    && !(q.opLmiss && q.opStore) && !(q.opLmiss && q.opFlush) && !(q.opLmiss && q.opSync)
    && !(q.opStore && q.opFlush) && !(q.opStore && q.opSync) && !(q.opFlush && q.opSync)
    && (q.opStore ==> !q.load && !q.touch)
    && (q.opFlush || q.opSync ==> !q.opLmiss)
    && (q.opLmiss && !q.touch ==> q.load)
  }

  /** A held request that is waiting for the refill in progress. */
  predicate ReloadReqOk(c: Control) {
    var f := c.refill;
    var q := c.req;
    && (!q.opLmiss ==> !q.hitReload)
    && (q.hitReload ==> q.addr.LineOf() == Line(f.reloadTag, f.storeIdx))
    && (q.hitReload && q.touch ==> f.rowsValid == {})
    && (q.hitReload && !q.touch ==> q.addr.row !in f.rowsValid)
  }

  predicate CtlOk(g: Geometry, c: Control, q: seq<Beat>) {
    && (c.refill.reloading <==> c.st.ReloadWaitAck?)
    && (c.refill.writeTag ==> c.refill.reloading && c.full && c.req.opLmiss && c.req.hitReload && q == [] && c.refill.rowsValid == {})
    && (c.writeBram ==> c.st.StoreWaitAck?)
    && (c.wb.cyc <==> c.st.ReloadWaitAck? || c.st.StoreWaitAck? || c.st.DoStcx?)
    && (!c.wb.cyc ==> q == [] && !c.wb.stb)
    && (c.full ==> ReqOk(g, c.req))
    && (c.st.ReloadWaitAck? ==> !c.wb.we && Window(g, c.refill, c.wb, q) && (c.full ==> ReloadReqOk(c)))
    && (c.st.StoreWaitAck? ==>
          && c.wb.we && (forall k | 0 <= k < |q| :: !q[k].read)
          && (c.full && c.req.samePage ==> c.req.addr.tag.page == c.wb.adr.tag.page))
    && (c.st.DoStcx? ==>
          && !c.wb.stb && c.wb.we && q == [] && c.full && c.req.opStore && c.req.reserve
          && c.wb.adr == c.req.addr && c.wb.dat == c.req.data && c.wb.sel == c.req.sel)
    && (c.st.FlushCycle? ==> c.full && c.req.opFlush)
  }

  /** While a store cycle is open the three-bit counter is exact: beats presented and not acknowledged. */
  predicate AcksOk(s: State, q: seq<Beat>) {
    && (s.ctl.st.StoreWaitAck? ==> AcksNow(s) == |q| + (if s.ctl.wb.stb then 1 else 0))
    && (s.ctl.st.DoStcx? ==> AcksNow(s) == 0)
  }

  predicate BusOk(b: Bus, s: State) {
    && (b.granted ==> s.ctl.wb.cyc)
    && (|b.q| > 0 ==> b.granted)
  }

  predicate R0Ok(g: Geometry, s: State) { s.r0.full ==> s.r0.req.addr.row < g.rows }

  /** The registered copy of the tags is current whenever it may be used, although the tag RAM
      read port lags the tag RAM by a cycle. */
  predicate TagsCurrent(s: State) {
    s.r0.full && !s.ctl.full ==> s.dir.tagSet == TagRowAt(s.dir.tags, s.r0.req.addr.idx)
  }

  /** Once the new tag is written, the way being refilled carries the refill's tag. */
  predicate ReloadWayOk(g: Geometry, c: Control, tags: map<nat, TagRow>) {
    var f := c.refill;
    f.reloading && !f.writeTag ==>
      && f.storeWays == {f.storeWay} && f.storeWay < g.ways
      && f.storeWay in TagRowAt(tags, f.storeIdx) && TagRowAt(tags, f.storeIdx)[f.storeWay] == f.reloadTag
  }

  predicate Linked(g: Geometry, s: State, b: Bus) {
    && R0Ok(g, s) && CtlOk(g, s.ctl, b.q) && AcksOk(s, b.q) && BusOk(b, s) && s.acks.pending < 8
    && TagsCurrent(s) && ReloadWayOk(g, s.ctl, s.dir.tags)
  }

  lemma LastWayHits(hits: set<nat>, n: nat, w: nat)
    requires w < n && w in hits
    ensures LastWay(hits, n) in hits && w <= LastWay(hits, n) < n
  {}

  lemma HitWayIn(g: Geometry, s: State)
    requires AnyHit(g, s)
    ensures HitWay(g, s) in HitWays(g, s)
  {
    var w :| w in HitWays(g, s);
    LastWayHits(HitWays(g, s), g.ways, w);
  }

  lemma CurrentOk(g: Geometry, s: State, i: Input)
    requires R0Ok(g, s) && (s.ctl.full ==> ReqOk(g, s.ctl.req))
    ensures var q := Current(g, s, i);
            q.valid && (q.opLmiss || q.opStore || q.opFlush || q.opSync) ==> ReqOk(g, q)
    ensures !s.ctl.full && Go(s, i) ==> Current(g, s, i).valid
  {}

  /** A refill starts with nothing arrived and nothing requested. */
  lemma WindowStarts(g: Geometry, s: State, i: Input)
    requires g.Ok() && s.ctl.st.Idle? && Current(g, s, i).opLmiss && Current(g, s, i).addr.row < g.rows
    ensures Window(g, NextControl(g, s, i).refill, NextControl(g, s, i).wb, [])
  {
    hide Current, Base;
  }

  /** The control invariant is kept by every step, whatever the stall and acknowledge timing. */
  lemma LinkIdle(g: Geometry, s: State, i: Input, b: Bus, now: nat)
    requires g.Ok() && Linked(g, s, b) && EnvOk(g, b, s, i) && s.ctl.st.Idle?
    ensures CtlOk(g, NextControl(g, s, i), NextQueue(b, s, i, now))
    ensures ReloadWayOk(g, NextControl(g, s, i), NextTags(s, i))
  {
    hide AcksOk, AcksNow, BusOk, TagsCurrent, BaseReservation, HitWays, LastWay, IdxReload, Window, SlowReload,
         SlowStore, SlowStcx, SlowFlush;
    CurrentOk(g, s, i);
    if Current(g, s, i).opLmiss { WindowStarts(g, s, i); }
  }

  /** A refill step before the last row. */
  ghost predicate Refills(g: Geometry, s: State, i: Input, b: Bus, f: Refill) {
    && g.Ok() && EnvOk(g, b, s, i) && s.ctl.wb.cyc && !s.ctl.wb.we
    && Window(g, s.ctl.refill, s.ctl.wb, b.q)
    && f == s.ctl.refill.(storeWay := f.storeWay, storeWays := f.storeWays, writeTag := f.writeTag)
    && !(i.ack && LastRow(s))
  }

  lemma WindowAcked(g: Geometry, s: State, i: Input, b: Bus, f: Refill)
    requires Refills(g, s, i, b, f)
    ensures var f' := ReloadRefill(g, s, i, f);
      StartRow(g, f') == StartRow(g, f) && Acked(g, f') == Acked(g, f) + if i.ack then 1 else 0
  {
    hide WindowRows;
  }

  lemma WindowShapeStep(g: Geometry, s: State, i: Input, b: Bus, f: Refill)
    requires Refills(g, s, i, b, f)
    ensures WindowShape(g, ReloadRefill(g, s, i, f), ReloadWb(g, s, i))
  {
    hide WindowRows, WindowBeats;
  }

  lemma WindowBeatsStep(g: Geometry, s: State, i: Input, b: Bus, f: Refill, now: nat)
    requires Refills(g, s, i, b, f)
    ensures WindowBeats(g, ReloadRefill(g, s, i, f), ReloadWb(g, s, i), NextQueue(b, s, i, now))
  {
    hide WindowRows;
    WindowAcked(g, s, i, b, f);
  }

  lemma WindowRowsStep(g: Geometry, s: State, i: Input, b: Bus, f: Refill)
    requires Refills(g, s, i, b, f)
    ensures WindowRows(g, ReloadRefill(g, s, i, f))
  {
    hide WindowBeats;
    WindowAcked(g, s, i, b, f);
  }

  lemma WindowStep(g: Geometry, s: State, i: Input, b: Bus, f: Refill, now: nat)
    requires Refills(g, s, i, b, f)
    ensures Window(g, ReloadRefill(g, s, i, f), ReloadWb(g, s, i), NextQueue(b, s, i, now))
  {
    hide Refills, WindowShape, WindowBeats, WindowRows, ReloadRefill, ReloadWb, NextQueue;
    WindowShapeStep(g, s, i, b, f);
    WindowBeatsStep(g, s, i, b, f, now);
    WindowRowsStep(g, s, i, b, f);
  }

  /** A load that hits the line being refilled waits for the row of that very line. */
  lemma HitReloadLine(g: Geometry, s: State, i: Input)
    requires TagsCurrent(s) && ReloadWayOk(g, s.ctl, s.dir.tags) && !s.ctl.refill.writeTag
    requires Go(s, i) && HitReload(g, s)
    ensures s.r0.req.addr.LineOf() == Line(s.ctl.refill.reloadTag, s.ctl.refill.storeIdx)
    ensures s.r0.req.addr.row !in s.ctl.refill.rowsValid && !s.r0.req.touch
  {
    HitWayIn(g, s);
  }

  lemma ReloadReqStep(g: Geometry, s: State, i: Input, b: Bus)
    requires g.Ok() && Linked(g, s, b) && EnvOk(g, b, s, i) && s.ctl.st.ReloadWaitAck?
    ensures NextControl(g, s, i).full ==> ReqOk(g, NextControl(g, s, i).req) && ReloadReqOk(NextControl(g, s, i))
  {
    CurrentOk(g, s, i);
    if Go(s, i) && HitReload(g, s) { HitReloadLine(g, s, i); }
  }

  /** When the last row arrives nothing is left on the bus and nobody waits for the refill any more. */
  lemma LastRowEnds(g: Geometry, s: State, i: Input, b: Bus, now: nat)
    requires g.Ok() && Linked(g, s, b) && EnvOk(g, b, s, i) && s.ctl.st.ReloadWaitAck? && i.ack && LastRow(s)
    ensures NextQueue(b, s, i, now) == [] && !s.ctl.wb.stb
    ensures forall r: nat | r < g.rows :: r in ReloadRefill(g, s, i, s.ctl.refill).rowsValid
    ensures NextControl(g, s, i).full ==> !NextControl(g, s, i).req.hitReload
  {
    var f := s.ctl.refill;
    assert Acked(g, f) == g.rows - 1;
    ReloadReqStep(g, s, i, b);
    if Go(s, i) && HitReload(g, s) { HitReloadLine(g, s, i); }
  }

  lemma LinkReload(g: Geometry, s: State, i: Input, b: Bus, now: nat)
    requires g.Ok() && Linked(g, s, b) && EnvOk(g, b, s, i) && s.ctl.st.ReloadWaitAck?
    ensures CtlOk(g, NextControl(g, s, i), NextQueue(b, s, i, now))
    ensures ReloadWayOk(g, NextControl(g, s, i), NextTags(s, i))
  {
    ReloadReqStep(g, s, i, b);
    if i.ack && LastRow(s) {
      LastRowEnds(g, s, i, b, now);
    } else {
      WindowStep(g, s, i, b, Base(g, s, i).refill, now);
    }
  }

  lemma LinkStore(g: Geometry, s: State, i: Input, b: Bus, now: nat)
    requires g.Ok() && Linked(g, s, b) && EnvOk(g, b, s, i) && s.ctl.st.StoreWaitAck?
    ensures CtlOk(g, NextControl(g, s, i), NextQueue(b, s, i, now))
    ensures ReloadWayOk(g, NextControl(g, s, i), NextTags(s, i))
  {
    CurrentOk(g, s, i);
  }

  lemma LinkRest(g: Geometry, s: State, i: Input, b: Bus, now: nat)
    requires g.Ok() && Linked(g, s, b) && EnvOk(g, b, s, i) && (s.ctl.st.DoStcx? || s.ctl.st.FlushCycle?)
    ensures CtlOk(g, NextControl(g, s, i), NextQueue(b, s, i, now))
    ensures ReloadWayOk(g, NextControl(g, s, i), NextTags(s, i))
  {
    CurrentOk(g, s, i);
  }

  lemma LinkControl(g: Geometry, s: State, i: Input, b: Bus, now: nat)
    requires g.Ok() && Linked(g, s, b) && EnvOk(g, b, s, i)
    ensures CtlOk(g, NextControl(g, s, i), NextQueue(b, s, i, now))
    ensures ReloadWayOk(g, NextControl(g, s, i), NextTags(s, i))
  {
    match s.ctl.st {
      case Idle => LinkIdle(g, s, i, b, now);
      case ReloadWaitAck => LinkReload(g, s, i, b, now);
      case StoreWaitAck => LinkStore(g, s, i, b, now);
      case DoStcx => LinkRest(g, s, i, b, now);
      case FlushCycle => LinkRest(g, s, i, b, now);
    }
  }

  lemma AcksStore(g: Geometry, s: State, i: Input, b: Bus, now: nat)
    requires g.Ok() && Linked(g, s, b) && EnvOk(g, b, s, i) && s.ctl.st.StoreWaitAck?
    ensures AcksOk(Step(g, s, i), NextQueue(b, s, i, now))
  {
    hide NextStage0, NextDirectory, NextRam, NextDout, NextForward, NextDataOut, NextSnoop, Window, BaseReservation,
         HitWays, LastWay, IdxReload, SlowIdle, SlowReload, SlowStcx, SlowFlush;
    LinkStore(g, s, i, b, now);
  }

  lemma LinkAcks(g: Geometry, s: State, i: Input, b: Bus, now: nat)
    requires g.Ok() && Linked(g, s, b) && EnvOk(g, b, s, i)
    ensures AcksOk(Step(g, s, i), NextQueue(b, s, i, now))
  {
    hide NextStage0, NextDirectory, NextRam, NextDout, NextForward, NextDataOut, NextSnoop, Window, BaseReservation,
         HitWays, LastWay, IdxReload, SlowStore, TagsCurrent, ReloadWayOk;
    if s.ctl.st.StoreWaitAck? { AcksStore(g, s, i, b, now); }
  }

  lemma LinkBus(g: Geometry, s: State, i: Input, b: Bus, now: nat)
    requires g.Ok() && Linked(g, s, b) && EnvOk(g, b, s, i)
    ensures BusOk(NextBus(g, b, s, i, now), Step(g, s, i))
  {
    LinkControl(g, s, i, b, now);
  }

  lemma LinkTags(g: Geometry, s: State, i: Input, b: Bus, now: nat)
    requires g.Ok() && Linked(g, s, b) && EnvOk(g, b, s, i)
    ensures TagsCurrent(Step(g, s, i))
  {
    CurrentOk(g, s, i);
  }

  lemma StepLinked(g: Geometry, s: State, i: Input, b: Bus, now: nat)
    requires g.Ok() && Linked(g, s, b) && EnvOk(g, b, s, i)
    ensures Linked(g, Step(g, s, i), NextBus(g, b, s, i, now))
  {
    LinkControl(g, s, i, b, now);
    LinkAcks(g, s, i, b, now);
    LinkBus(g, s, i, b, now);
    LinkTags(g, s, i, b, now);
  }
}
