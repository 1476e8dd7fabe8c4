/** Addresses, doublewords and memories shared by the data cache modules.

    A real address is split the way the cache splits it: tag, set index, row within the line
    (a row is one 64-bit bus transfer).  The tag is itself a page number and the bits of the
    tag below the page number; a store may join the bus cycle of another store of its page. */
module CacheTypes {

  type DWord = s: seq<bv8> | |s| == 8 witness [0, 0, 0, 0, 0, 0, 0, 0]
  type Sel = s: seq<bool> | |s| == 8 witness [true, true, true, true, true, true, true, true]

  const ZERO: DWord := [0, 0, 0, 0, 0, 0, 0, 0]
  const ALL: Sel := [true, true, true, true, true, true, true, true]

  datatype Tag = Tag(page: nat, sub: nat)
  datatype Line = Line(tag: Tag, idx: nat)
  datatype RowIx = RowIx(idx: nat, row: nat)
  datatype RowAddr = RowAddr(tag: Tag, idx: nat, row: nat) {
    function LineOf(): Line { Line(tag, idx) }
    function RowOf(): RowIx { RowIx(idx, row) }
  }

  /** Byte lanes selected by `sel` come from `d`, the others keep `was`. */
  function Merge(sel: Sel, d: DWord, was: DWord): DWord {
    seq(8, b requires 0 <= b < 8 => if sel[b] then d[b] else was[b])
  }

  function OrBytes(x: DWord, y: DWord): DWord {
    seq(8, b requires 0 <= b < 8 => x[b] | y[b])
  }

  lemma MergeAll(d: DWord, was: DWord)
    ensures Merge(ALL, d, was) == d
  {}

  lemma OrZero(x: DWord)
    ensures OrBytes(x, ZERO) == x && OrBytes(ZERO, x) == x
  {
    forall b | 0 <= b < 8 ensures OrBytes(x, ZERO)[b] == x[b] && OrBytes(ZERO, x)[b] == x[b] {
      assert x[b] | 0 == x[b];
      assert 0 | x[b] == x[b];
    }
  }

  type Mem = map<RowAddr, DWord>

  function Read(m: Mem, a: RowAddr): DWord {
    if a in m then m[a] else ZERO
  }

  function Write(m: Mem, a: RowAddr, sel: Sel, d: DWord): Mem {
    m[a := Merge(sel, d, Read(m, a))]
  }
}
