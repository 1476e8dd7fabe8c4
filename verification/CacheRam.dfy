/** The byte-write RAM under each way of the data cache, and how the cache uses it. */
module CacheRam {
  import opened Arith
  import opened CacheTypes
  import opened Dcache

  const NONE: Sel := [false, false, false, false, false, false, false, false]

  class Ram {
    const cells: array<DWord>
    var rdData0: DWord
    var rdData: DWord
    /** The optional second read register. */
    const addBuf: bool

    ghost predicate Valid() reads this { !addBuf ==> rdData == rdData0 }

    constructor (size: nat, addBuf: bool)
      ensures Valid() && fresh(cells) && cells.Length == size && this.addBuf == addBuf
    {
      cells := new DWord[size](_ => ZERO);
      rdData0, rdData, this.addBuf := ZERO, ZERO, addBuf;
    }

    /** One clock edge: the selected byte lanes are written, and a read returns what the row held
        before the edge, also when the same row is written at it.  The output follows at once, or a
        clock later with the second register. */
    method Clock(rdEn: bool, rdAddr: nat, sel: Sel, wrAddr: nat, wrData: DWord)
      requires Valid() && (rdEn ==> rdAddr < cells.Length) && (sel != NONE ==> wrAddr < cells.Length)
      modifies this, cells
      ensures Valid() && cells[..] == Written(old(cells[..]), sel, wrAddr, wrData)
      ensures rdData0 == if rdEn then old(cells[rdAddr]) else old(rdData0)
      ensures rdData == if addBuf then old(rdData0) else rdData0
    {
      var next := if rdEn then cells[rdAddr] else rdData0;
      if sel != NONE {
        ghost var was := cells[wrAddr];
        for lane := 0 to 8
          modifies cells
          invariant forall k | 0 <= k < cells.Length && k != wrAddr :: cells[k] == old(cells[k])
          invariant forall b | 0 <= b < 8 :: cells[wrAddr][b] == if b < lane && sel[b] then wrData[b] else was[b]
        {
          if sel[lane] { cells[wrAddr] := cells[wrAddr][lane := wrData[lane]]; }
        }
        assert cells[wrAddr] == Merge(sel, wrData, was);
      }
      rdData := if addBuf then rdData0 else next;
      rdData0 := next;
    }
  }

  function Written(cells: seq<DWord>, sel: Sel, at: nat, d: DWord): seq<DWord>
    requires sel != NONE ==> at < |cells|
  { if sel == NONE then cells else cells[at := Merge(sel, d, cells[at])] }

  // ---------------------------------------------------------------- in the cache

  /** The row address of a RAM with `g.rows` rows for each line. */
  function Place(g: Geometry, at: RowIx): nat { at.idx * g.rows + at.row }

  predicate Inside(g: Geometry, lines: nat, at: RowIx) { at.idx < lines && at.row < g.rows }

  lemma PlaceInside(g: Geometry, lines: nat, at: RowIx)
    requires Inside(g, lines, at)
    ensures Place(g, at) < lines * g.rows
  {
    Product(g.rows, lines - 1 - at.idx);
    assert lines * g.rows == at.idx * g.rows + (lines - at.idx) * g.rows;
    assert (lines - at.idx) * g.rows == g.rows * (lines - 1 - at.idx) + g.rows;
  }

  lemma PlaceUnique(g: Geometry, a: RowIx, b: RowIx)
    requires a.row < g.rows && b.row < g.rows && Place(g, a) == Place(g, b)
    ensures a == b
  {
    ModUnique(g.rows, a.idx, a.row, Place(g, a));
    ModUnique(g.rows, b.idx, b.row, Place(g, b));
  }

  /** A RAM holds the rows of one way of the cache. */
  ghost predicate HoldsWay(g: Geometry, lines: nat, cells: seq<DWord>, ram: map<Cell, DWord>, w: nat) {
    && |cells| == lines * g.rows
    && forall at: RowIx | Inside(g, lines, at) && Place(g, at) < |cells| :: cells[Place(g, at)] == RamAt(ram, Cell(w, at))
  }

  /** Byte selects and read enable the cache gives to the RAM of a way, and the row it reads. */
  function WaySel(s: State, i: Input, w: nat): Sel { if RamWrites(s, i) && ReplaceWay(s, i) == w then RamSel(s) else NONE }
  predicate ReadsRow(s: State, i: Input) { !R0Stall(s, i) || (s.r0.full && s.r0.req.load) }
  function RowRead(s: State, i: Input): RowIx { if !R0Stall(s, i) then i.req.addr.RowOf() else s.r0.req.addr.RowOf() }

  /** The RAM of every way, clocked with these inputs, goes on holding that way. */
  lemma WritesFollow(g: Geometry, lines: nat, cells: seq<DWord>, s: State, i: Input, w: nat)
    requires HoldsWay(g, lines, cells, s.rams.ram, w) && Inside(g, lines, s.ctl.refill.storeRow)
    ensures Place(g, s.ctl.refill.storeRow) < |cells|
    ensures HoldsWay(g, lines, Written(cells, WaySel(s, i, w), Place(g, s.ctl.refill.storeRow), RamData(s, i)), NextRam(s, i), w)
  {
    var at := s.ctl.refill.storeRow;
    PlaceInside(g, lines, at);
    var cells' := Written(cells, WaySel(s, i, w), Place(g, at), RamData(s, i));
    forall x: RowIx | Inside(g, lines, x) && Place(g, x) < |cells'|
      ensures cells'[Place(g, x)] == RamAt(NextRam(s, i), Cell(w, x))
    {
      if Place(g, x) == Place(g, at) { PlaceUnique(g, x, at); }
      NoMerge(RamData(s, i), cells[Place(g, at)]);
    }
  }

  lemma NoMerge(d: DWord, was: DWord)
    ensures Merge(NONE, d, was) == was
  {}

  /** And its read register goes on being the cache's. */
  lemma ReadsFollow(g: Geometry, lines: nat, cells: seq<DWord>, s: State, i: Input, w: nat, rd: DWord)
    requires HoldsWay(g, lines, cells, s.rams.ram, w) && w < g.ways && rd == DoutAt(s.rams.dout, w)
    requires Inside(g, lines, RowRead(s, i))
    ensures Place(g, RowRead(s, i)) < |cells|
    ensures (if ReadsRow(s, i) then cells[Place(g, RowRead(s, i))] else rd) == DoutAt(NextDout(g, s, i), w)
  {
    PlaceInside(g, lines, RowRead(s, i));
  }
}
