/** Register-level model of the write-through data cache, restricted to cacheable real-mode
    loads, stores, touches, flushes, syncs, load-and-reserve and store-conditional requests
    from the load/store unit.  One call of `Step` is one rising clock edge: every register of
    the next state is computed from the registers and inputs before the edge. */
module Dcache {
  import opened CacheTypes

  /** Cache geometry: the number of ways and of rows per line are parameters; the number of
      lines is not bounded. */
  datatype Geometry = Geometry(ways: nat, rows: nat) {
    predicate Ok() { 1 <= ways && 2 <= rows }
  }

  datatype Machine = Idle | ReloadWaitAck | StoreWaitAck | DoStcx | FlushCycle

  datatype Request = Request(load: bool, flush: bool, touch: bool, sync: bool, reserve: bool,
                             addr: RowAddr, sel: Sel)

  /** Stage 0: the latched request.  Its store data arrives one cycle later. */
  datatype Stage0 = Stage0(full: bool, req: Request, data: DWord, dValid: bool)

  /** Stage 1: the decoded request, held while `full`. */
  datatype Pending = Pending(opLmiss: bool, opStore: bool, opFlush: bool, opSync: bool, valid: bool,
                             load: bool, touch: bool, reserve: bool, addr: RowAddr, data: DWord, sel: Sel,
                             isHit: bool, hitWay: nat, hitWays: set<nat>, hitReload: bool, samePage: bool)

  datatype Slot = Slot(idx: nat, way: nat)
  datatype Cell = Cell(way: nat, at: RowIx)
  type TagRow = map<nat, Tag>

  /** Last data RAM write, kept one cycle for loads that read the RAM too early to see it. */
  datatype Forward = Forward(valid: bool, data: DWord, sel: Sel, at: RowIx, way: nat)

  /** The registers of the line refill. */
  datatype Refill = Refill(reloading: bool, writeTag: bool, reloadTag: Tag, storeIdx: nat,
                           storeWay: nat, storeWays: set<nat>, storeRow: RowIx, endRow: nat, rowsValid: set<nat>)

  datatype Wishbone = Wishbone(cyc: bool, stb: bool, we: bool, adr: RowAddr, dat: DWord, sel: Sel)
  datatype AckCount = AckCount(pending: nat, stalled: bool, decAcks: bool)
  datatype Reservation = Reservation(valid: bool, line: Line)
  datatype Snoop = Snoop(valid: bool, addr: RowAddr, tagSet: TagRow)

  /** Cache directory and its registered read port. */
  datatype Directory = Directory(tags: map<nat, TagRow>, valids: set<Slot>, tagSet: TagRow)

  /** Data RAMs of all ways and their registered read ports. */
  datatype Rams = Rams(ram: map<Cell, DWord>, dout: map<nat, DWord>)

  /** The registers written by the slow-path state machine. */
  datatype Control = Control(st: Machine, full: bool, req: Pending, writeBram: bool, refill: Refill,
                             wb: Wishbone, lsValid: bool, stcxFail: bool, rsrv: Reservation)

  datatype State = State(r0: Stage0, dir: Directory, rams: Rams, fwd: Forward, ctl: Control,
                         acks: AckCount, dataOut: DWord, snoop: Snoop)

  datatype Foreign = NoWrite | ForeignWrite(addr: RowAddr, sel: Sel, data: DWord)

  /** Inputs of one clock cycle.  `data` belongs to the request presented one cycle earlier;
      `victim` is the replacement policy's choice; `foreign` is a write by another bus master. */
  datatype Input = Input(valid: bool, req: Request, data: DWord, hold: bool,
                         stall: bool, ack: bool, dat: DWord, victim: nat, foreign: Foreign)

  // ---------------------------------------------------------------- request decode

  function TagRowAt(tags: map<nat, TagRow>, idx: nat): TagRow {
    if idx in tags then tags[idx] else map[]
  }

  predicate R0Stall(s: State, i: Input) { s.ctl.full || i.hold }

  predicate Go(s: State, i: Input) { s.r0.full && !R0Stall(s, i) }

  function HitWays(g: Geometry, s: State): set<nat> {
    set w: nat | w < g.ways && Slot(s.r0.req.addr.idx, w) in s.dir.valids &&
                 w in s.dir.tagSet && s.dir.tagSet[w] == s.r0.req.addr.tag
  }

  /** The matching way with the largest number, 0 when none matches. */
  function LastWay(hits: set<nat>, n: nat): (w: nat) {
    if n == 0 then 0 else if n - 1 in hits then n - 1 else LastWay(hits, n - 1)
  }

  /** Ways whose hit does not count because the wanted row is not reloaded yet. */
  function IdxReload(s: State): set<nat> {
    var f := s.ctl.refill;
    if f.reloading && s.r0.req.addr.idx == f.storeIdx && s.r0.req.load && !s.r0.req.touch &&
       s.r0.req.addr.row !in f.rowsValid
    then f.storeWays else {}
  }

  predicate AnyHit(g: Geometry, s: State) { HitWays(g, s) != {} }
  function HitWay(g: Geometry, s: State): nat { LastWay(HitWays(g, s), g.ways) }
  predicate IsHit(g: Geometry, s: State) { AnyHit(g, s) && HitWay(g, s) !in IdxReload(s) }
  predicate HitReload(g: Geometry, s: State) { AnyHit(g, s) && HitWay(g, s) in IdxReload(s) }

  predicate OpSync(s: State, i: Input) { Go(s, i) && s.r0.req.sync }
  predicate IsTouch(s: State, i: Input) { Go(s, i) && !s.r0.req.sync && s.r0.req.touch }
  predicate IsFlush(s: State, i: Input) { Go(s, i) && !s.r0.req.sync && !s.r0.req.touch && s.r0.req.flush }
  predicate IsMem(s: State, i: Input) { Go(s, i) && !s.r0.req.sync && !s.r0.req.touch && !s.r0.req.flush }
  predicate OpFlush(g: Geometry, s: State, i: Input) { IsFlush(s, i) && IsHit(g, s) }
  predicate OpNop(g: Geometry, s: State, i: Input) { IsFlush(s, i) && !IsHit(g, s) }
  predicate OpStore(s: State, i: Input) { IsMem(s, i) && !s.r0.req.load }
  predicate OpLoadHit(g: Geometry, s: State, i: Input) {
    (IsTouch(s, i) && AnyHit(g, s)) || (IsMem(s, i) && s.r0.req.load && IsHit(g, s))
  }
  predicate OpLoadMiss(g: Geometry, s: State, i: Input) {
    (IsTouch(s, i) && !AnyHit(g, s)) || (IsMem(s, i) && s.r0.req.load && !IsHit(g, s))
  }

  /** The store data of the request in stage 0. */
  function R0Data(s: State, i: Input): DWord { if s.r0.dValid then s.r0.data else i.data }

  /** The request the state machine looks at: the one held in stage 1, else the one in stage 0. */
  function Current(g: Geometry, s: State, i: Input): Pending {
    if s.ctl.full then s.ctl.req
    else
      var r := s.r0.req;
      Pending(OpLoadMiss(g, s, i), OpStore(s, i), OpFlush(g, s, i), OpSync(s, i), Go(s, i),
              r.load, r.touch, r.reserve, r.addr, R0Data(s, i), if r.load then ALL else r.sel,
              Go(s, i) && IsHit(g, s), HitWay(g, s), if Go(s, i) then HitWays(g, s) else {},
              OpLoadMiss(g, s, i) && HitReload(g, s), r.addr.tag.page == s.ctl.wb.adr.tag.page)
  }

  // ---------------------------------------------------------------- stage 0, RAMs, directory

  function NextStage0(s: State, i: Input): Stage0 {
    if !R0Stall(s, i) then Stage0(i.valid, i.req, ZERO, false)
    else if !s.r0.dValid then s.r0.(data := i.data, dValid := s.r0.full)
    else s.r0
  }

  /** The way written by a refill or store: the victim while the new tag is being written. */
  function ReplaceWay(s: State, i: Input): nat {
    if s.ctl.refill.writeTag then i.victim else s.ctl.refill.storeWay
  }

  predicate RamWrites(s: State, i: Input) { s.ctl.writeBram || (s.ctl.refill.reloading && i.ack) }
  function RamData(s: State, i: Input): DWord { if s.ctl.writeBram then s.ctl.req.data else i.dat }
  function RamSel(s: State): Sel { if s.ctl.writeBram then s.ctl.req.sel else ALL }

  function RamAt(ram: map<Cell, DWord>, c: Cell): DWord { if c in ram then ram[c] else ZERO }

  /** The data RAM rows: a byte-enabled write, and a read port that returns the row as it was
      before the write of the same edge. */
  function NextRam(s: State, i: Input): map<Cell, DWord> {
    var c := Cell(ReplaceWay(s, i), s.ctl.refill.storeRow);
    if RamWrites(s, i) then s.rams.ram[c := Merge(RamSel(s), RamData(s, i), RamAt(s.rams.ram, c))]
    else s.rams.ram
  }

  function DoutAt(dout: map<nat, DWord>, w: nat): DWord { if w in dout then dout[w] else ZERO }

  function NextDout(g: Geometry, s: State, i: Input): map<nat, DWord> {
    if !R0Stall(s, i) then
      map w: nat | w < g.ways :: RamAt(s.rams.ram, Cell(w, i.req.addr.RowOf()))
    else if s.r0.full && s.r0.req.load then
      map w: nat | w < g.ways :: RamAt(s.rams.ram, Cell(w, s.r0.req.addr.RowOf()))
    else s.rams.dout
  }

  function NextForward(s: State, i: Input): Forward {
    Forward(RamWrites(s, i), RamData(s, i), RamSel(s), s.ctl.refill.storeRow, ReplaceWay(s, i))
  }

  /** Data RAM output of one way with the writes of this and the previous cycle forwarded. */
  function CacheOut(s: State, w: nat): DWord {
    var row := s.r0.req.addr.RowOf();
    var d := DoutAt(s.rams.dout, w);
    var d1 := if s.fwd.valid && s.fwd.at == row && s.fwd.way == w then Merge(s.fwd.sel, s.fwd.data, d) else d;
    if s.ctl.writeBram && s.ctl.refill.storeRow == row && w in s.ctl.refill.storeWays
    then Merge(s.ctl.req.sel, s.ctl.req.data, d1) else d1
  }

  function OrWays(s: State, hits: set<nat>, n: nat): DWord {
    if n == 0 then ZERO
    else if n - 1 in hits then OrBytes(CacheOut(s, n - 1), OrWays(s, hits, n - 1))
    else OrWays(s, hits, n - 1)
  }

  function NextDataOut(g: Geometry, s: State, i: Input): DWord {
    if Go(s, i) && IsHit(g, s) then OrWays(s, HitWays(g, s), g.ways) else i.dat
  }

  predicate SnoopActive(s: State, i: Input) { i.foreign.ForeignWrite? && !(s.ctl.wb.cyc && !i.stall) }

  function NextSnoop(s: State, i: Input): Snoop {
    if i.foreign.ForeignWrite? then
      Snoop(SnoopActive(s, i), i.foreign.addr, TagRowAt(s.dir.tags, i.foreign.addr.idx))
    else s.snoop.(valid := false)
  }

  function SnoopHits(g: Geometry, s: State): set<nat> {
    set w: nat | w < g.ways && s.snoop.valid && w in s.snoop.tagSet && s.snoop.tagSet[w] == s.snoop.addr.tag
  }

  function NextTags(s: State, i: Input): map<nat, TagRow> {
    var f := s.ctl.refill;
    if f.writeTag then s.dir.tags[f.storeIdx := TagRowAt(s.dir.tags, f.storeIdx)[i.victim := f.reloadTag]]
    else s.dir.tags
  }

  function NextValids(g: Geometry, s: State, i: Input): set<Slot> {
    var f := s.ctl.refill;
    var v0 := set x | x in s.dir.valids && !(x.idx == s.snoop.addr.idx && x.way in SnoopHits(g, s));
    var v1 := if f.writeTag then v0 + {Slot(f.storeIdx, i.victim)} else v0;
    if s.ctl.st.FlushCycle? then v1 - {Slot(f.storeIdx, f.storeWay)} else v1
  }

  function NextTagSet(s: State, i: Input): TagRow {
    TagRowAt(s.dir.tags, if R0Stall(s, i) then s.r0.req.addr.idx else i.req.addr.idx)
  }

  function NextDirectory(g: Geometry, s: State, i: Input): Directory {
    Directory(NextTags(s, i), NextValids(g, s, i), NextTagSet(s, i))
  }

  // ---------------------------------------------------------------- acknowledge counter

  /** Beats presented and not yet acknowledged, three bits wide. */
  function AcksNow(s: State): nat {
    if !s.ctl.wb.cyc then 0
    else if s.ctl.wb.stb && !s.acks.stalled && !s.acks.decAcks then (s.acks.pending + 1) % 8
    else if (!s.ctl.wb.stb || s.acks.stalled) && s.acks.decAcks then (s.acks.pending + 7) % 8
    else s.acks.pending
  }

  function NextAcks(s: State, i: Input): AckCount {
    AckCount(AcksNow(s), i.stall && s.ctl.wb.cyc, i.ack && s.ctl.wb.cyc)
  }

  // ---------------------------------------------------------------- reservation

  predicate KillReservation(s: State) {
    s.snoop.valid && s.ctl.rsrv.valid && s.snoop.addr.LineOf() == s.ctl.rsrv.line
  }

  predicate ReqSnoopHit(g: Geometry, s: State, i: Input) {
    Go(s, i) && s.snoop.addr.idx == s.r0.req.addr.idx && SnoopHits(g, s) * HitWays(g, s) != {}
  }

  /** Reservation before the state machine's own assignments. */
  function BaseReservation(g: Geometry, s: State, i: Input): Reservation {
    if Go(s, i) && s.r0.req.load && s.r0.req.reserve then
      Reservation(IsHit(g, s) && !ReqSnoopHit(g, s, i), s.r0.req.addr.LineOf())
    else Reservation(s.ctl.rsrv.valid && !KillReservation(s), s.ctl.rsrv.line)
  }

  // ---------------------------------------------------------------- slow-path state machine

  /** Register values that hold in every state unless the state machine overrides them. */
  function Base(g: Geometry, s: State, i: Input): Control {
    var c := s.ctl;
    var f := c.refill;
    var take := !c.full && Go(s, i);
    var f' := if f.writeTag then f.(storeWay := i.victim, storeWays := {i.victim}, writeTag := false) else f;
    Control(c.st,
            if take then OpLoadMiss(g, s, i) || OpStore(s, i) || OpFlush(g, s, i) || OpSync(s, i) else c.full,
            if take then Current(g, s, i) else c.req,
            false, f', c.wb,
            OpLoadHit(g, s, i) || OpNop(g, s, i), false, BaseReservation(g, s, i))
  }

  function PrevRow(g: Geometry, row: nat): nat
    requires g.Ok()
  {
    if row == 0 then g.rows - 1 else row - 1
  }

  function NextRow(g: Geometry, row: nat): nat {
    if row + 1 >= g.rows then 0 else row + 1
  }

  /** Complete the current request. */
  function Done(b: Control): Control { b.(full := false, lsValid := true) }

  function SlowIdle(g: Geometry, s: State, i: Input): Control
    requires g.Ok()
  {
    var q := Current(g, s, i);
    var b := Base(g, s, i);
    var b0 := b.(req := b.req.(hitReload := true),
                 wb := b.wb.(adr := q.addr, sel := q.sel, dat := q.data),
                 refill := b.refill.(storeIdx := q.addr.idx, storeRow := q.addr.RowOf(), endRow := PrevRow(g, q.addr.row),
                                     reloadTag := q.addr.tag, rowsValid := {},
                                     storeWay := if q.isHit then q.hitWay else b.refill.storeWay,
                                     storeWays := if q.isHit then q.hitWays else b.refill.storeWays));
    if q.opLmiss then
      b0.(st := ReloadWaitAck, wb := b0.wb.(we := false, cyc := true, stb := true),
          refill := b0.refill.(reloading := true, writeTag := true))
    else if q.opStore && q.reserve then
      if !s.ctl.rsrv.valid || KillReservation(s) then Done(b0).(stcxFail := true)
      else b0.(st := DoStcx, wb := b0.wb.(we := true, cyc := true))
    else if q.opStore then
      Done(b0).(st := StoreWaitAck, writeBram := q.isHit, wb := b0.wb.(we := true, cyc := true, stb := true))
    else if q.opFlush then b0.(st := FlushCycle)
    else if q.opSync then Done(b0)
    else b0
  }

  /** The arriving row is the one the current request waits for. */
  predicate ReloadCompletes(g: Geometry, s: State, i: Input) {
    i.ack && Current(g, s, i).hitReload && s.ctl.refill.storeRow.row == Current(g, s, i).addr.row
  }

  predicate TouchCompletes(s: State) {
    s.ctl.full && s.ctl.req.touch && s.ctl.req.hitReload && !s.ctl.refill.writeTag
  }

  predicate LastRow(s: State) { s.ctl.refill.storeRow.row == s.ctl.refill.endRow }

  function ReloadWb(g: Geometry, s: State, i: Input): Wishbone {
    var w := s.ctl.wb;
    var w' := if !i.stall && w.stb
              then w.(stb := w.adr.row != s.ctl.refill.endRow, adr := w.adr.(row := NextRow(g, w.adr.row)))
              else w;
    w'.(cyc := w.cyc && !(i.ack && LastRow(s)))
  }

  function ReloadRefill(g: Geometry, s: State, i: Input, f: Refill): Refill {
    if i.ack then
      f.(rowsValid := f.rowsValid + {f.storeRow.row}, storeRow := f.storeRow.(row := NextRow(g, f.storeRow.row)),
         reloading := f.reloading && !LastRow(s))
    else f
  }

  function SlowReload(g: Geometry, s: State, i: Input): Control {
    var b := Base(g, s, i);
    var done := TouchCompletes(s) || ReloadCompletes(g, s, i);
    b.(st := if i.ack && LastRow(s) then Idle else ReloadWaitAck,
       full := b.full && !done,
       lsValid := b.lsValid || done,
       wb := ReloadWb(g, s, i),
       refill := ReloadRefill(g, s, i, b.refill),
       rsrv := if ReloadCompletes(g, s, i) && s.ctl.req.reserve then b.rsrv.(valid := true) else b.rsrv)
  }

  /** Another store of the same page joins the bus cycle. */
  predicate Merges(g: Geometry, s: State, i: Input) {
    var q := Current(g, s, i);
    !i.stall && q.opStore && q.samePage && !q.reserve && AcksNow(s) < 7
  }

  predicate StrobesDone(g: Geometry, s: State, i: Input) {
    var q := Current(g, s, i);
    if !i.stall && !(q.opStore && q.samePage && !q.reserve) then true
    else !s.ctl.wb.stb && !Merges(g, s, i)
  }

  predicate StoreExits(g: Geometry, s: State, i: Input) {
    StrobesDone(g, s, i) && (AcksNow(s) == 0 || (i.ack && AcksNow(s) == 1))
  }

  function StoreWb(g: Geometry, s: State, i: Input): Wishbone {
    var q := Current(g, s, i);
    var w := s.ctl.wb;
    var w1 := if !i.stall && q.valid
              then w.(adr := RowAddr(Tag(w.adr.tag.page, q.addr.tag.sub), q.addr.idx, q.addr.row), dat := q.data, sel := q.sel)
              else w;
    var w2 := if i.stall then w1 else w1.(stb := Merges(g, s, i));
    if StoreExits(g, s, i) then w2.(cyc := false, stb := false) else w2
  }

  function SlowStore(g: Geometry, s: State, i: Input): Control {
    var q := Current(g, s, i);
    var b := Base(g, s, i);
    var b1 := if Merges(g, s, i)
              then Done(b).(writeBram := q.isHit,
                            refill := b.refill.(storeWay := q.hitWay, storeWays := q.hitWays, storeRow := q.addr.RowOf()))
              else b;
    b1.(st := if StoreExits(g, s, i) then Idle else StoreWaitAck, wb := StoreWb(g, s, i))
  }

  predicate StcxFails(s: State) {
    !s.ctl.rsrv.valid || KillReservation(s) || s.ctl.req.addr.LineOf() != s.ctl.rsrv.line
  }

  function SlowStcx(g: Geometry, s: State, i: Input): Control {
    var b := Base(g, s, i);
    if StcxFails(s) then
      Done(b).(st := Idle, stcxFail := true, wb := b.wb.(cyc := false), rsrv := b.rsrv.(valid := false))
    else if !i.stall then
      Done(b).(st := StoreWaitAck, writeBram := s.ctl.req.isHit, wb := b.wb.(stb := true), rsrv := b.rsrv.(valid := false))
    else b
  }

  function SlowFlush(g: Geometry, s: State, i: Input): Control {
    Done(Base(g, s, i)).(st := Idle)
  }

  function NextControl(g: Geometry, s: State, i: Input): Control
    requires g.Ok()
  {
    match s.ctl.st
    case Idle => SlowIdle(g, s, i)
    case ReloadWaitAck => SlowReload(g, s, i)
    case StoreWaitAck => SlowStore(g, s, i)
    case DoStcx => SlowStcx(g, s, i)
    case FlushCycle => SlowFlush(g, s, i)
  }

  function Step(g: Geometry, s: State, i: Input): State
    requires g.Ok()
  {
    State(NextStage0(s, i), NextDirectory(g, s, i), Rams(NextRam(s, i), NextDout(g, s, i)), NextForward(s, i),
          NextControl(g, s, i), NextAcks(s, i), NextDataOut(g, s, i), NextSnoop(s, i))
  }

  /** The state after reset: everything invalid and idle; other registers arbitrary. */
  predicate Reset(s: State) {
    !s.r0.full && s.dir.valids == {} && s.ctl.st.Idle? && !s.ctl.full && !s.ctl.wb.cyc && !s.ctl.wb.stb &&
    !s.ctl.lsValid && !s.ctl.refill.reloading && !s.ctl.refill.writeTag && !s.ctl.writeBram &&
    s.acks == AckCount(0, false, false) && !s.ctl.rsrv.valid && !s.snoop.valid
  }
}
