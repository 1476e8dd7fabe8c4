/** The bit sorter: cfuged, pextd and pdepd by two write pointers moving towards each other, one mask
    bit from each end per clock.  Words are 64 bits, bit 0 first. */
module BitSorter {

  type Bits = seq<bool>
  type Word = b: Bits | |b| == 64 witness Zeros(64)

  type Index = k: nat | k < 64

  function Zeros(n: nat): (z: Bits)
    ensures |z| == n && forall i | 0 <= i < n :: !z[i]
  { seq(n, _ => false) }

  function Not(m: Bits): (r: Bits)
    ensures |r| == |m| && forall i | 0 <= i < |m| :: r[i] == !m[i]
  { if m == [] then [] else Not(m[..|m| - 1]) + [!m[|m| - 1]] }

  function And(a: Word, b: Word): Word { seq(64, i requires 0 <= i < 64 => a[i] && b[i]) }
  function Or(a: Word, b: Word): Word { seq(64, i requires 0 <= i < 64 => a[i] || b[i]) }

  function ShiftLeft(a: Word, n: nat): Word
    requires n <= 64
  { Zeros(n) + a[..64 - n] }

  // ---------------------------------------------------------------- what the instructions mean

  /** The bits of x under the ones of m, lowest first. */
  function Pick(x: Bits, m: Bits): Bits
    requires |x| == |m|
  {
    if m == [] then []
    else Pick(x[..|m| - 1], m[..|m| - 1]) + if m[|m| - 1] then [x[|m| - 1]] else []
  }

  function Ones(m: Bits): nat { if m == [] then 0 else Ones(m[..|m| - 1]) + if m[|m| - 1] then 1 else 0 }

  lemma {:induction false} PickSize(x: Bits, m: Bits)
    requires |x| == |m|
    ensures |Pick(x, m)| == Ones(m) <= |m|
  {
    if m == [] {
    } else {
      PickSize(x[..|m| - 1], m[..|m| - 1]);
    }
  }

  /** Gather the bits under the mask at the right end. */
  function Pextd(x: Word, m: Word): Word {
    PickSize(x, m);
    Pick(x, m) + Zeros(64 - Ones(m))
  }

  /** Spread the low bits over the ones of the mask. */
  function Pdepd(x: Word, m: Word): Word { seq(64, i requires 0 <= i < 64 => DepositBit(x, m, i)) }

  predicate DepositBit(x: Word, m: Word, i: nat)
    requires i < 64
  {
    PickSize(m[..i], m[..i]);
    m[i] && x[Ones(m[..i])]
  }

  /** Gather the bits under zeros at the left and the bits under ones at the right. */
  function Cfuged(x: Word, m: Word): Word {
    PickSize(x, m);
    Or(ShiftLeft(Pextd(x, Not(m)), Ones(m)), Pextd(x, m))
  }

  // ---------------------------------------------------------------- laws

  lemma {:induction false} PickJoin(a: Bits, x: Bits, m: Bits, n: Bits)
    requires |a| == |m| && |x| == |n|
    ensures Pick(a + x, m + n) == Pick(a, m) + Pick(x, n) && Ones(m + n) == Ones(m) + Ones(n)
  {
    if n == [] {
      assert a + x == a && m + n == m;
    } else {
      var k := |n| - 1;
      PickJoin(a, x[..k], m, n[..k]);
      assert (a + x)[..|m| + k] == a + x[..k] && (m + n)[..|m| + k] == m + n[..k];
    }
  }

  lemma {:induction false} OnesNot(m: Bits)
    ensures Ones(m) + Ones(Not(m)) == |m|
  {
    if m == [] {
    } else {
      OnesNot(m[..|m| - 1]);
      assert Not(m)[..|m| - 1] == Not(m[..|m| - 1]);
    }
  }

  /** The fused word is the two picks side by side. */
  lemma CfugedIsBoth(x: Word, m: Word)
    ensures Cfuged(x, m) == Pick(x, m) + Pick(x, Not(m))
  {
    PickSize(x, m);
    PickSize(x, Not(m));
    OnesNot(m);
    var left := ShiftLeft(Pextd(x, Not(m)), Ones(m));
    assert left == Zeros(Ones(m)) + Pick(x, Not(m));
  }

  lemma {:induction false} PickDeposit(x: Word, m: Word, k: nat)
    requires k <= 64
    ensures Ones(m[..k]) <= k && Pick(Pdepd(x, m)[..k], m[..k]) == x[..Ones(m[..k])]
  {
    PickSize(m[..k], m[..k]);
    if k == 0 {
    } else {
      PickDeposit(x, m, k - 1);
      assert m[..k][..k - 1] == m[..k - 1] && Pdepd(x, m)[..k][..k - 1] == Pdepd(x, m)[..k - 1];
    }
  }

  /** Extracting what was deposited gives back the low bits, as many as the mask has ones. */
  lemma ExtractOfDeposit(x: Word, m: Word)
    ensures Ones(m) <= 64 && Pextd(Pdepd(x, m), m) == x[..Ones(m)] + Zeros(64 - Ones(m))
  {
    PickDeposit(x, m, 64);
    assert m[..64] == m && Pdepd(x, m)[..64] == Pdepd(x, m);
  }

  lemma {:induction false} PickAt(x: Bits, m: Bits, i: nat)
    requires |x| == |m| && i < |m| && m[i]
    ensures Ones(m[..i]) < |Pick(x, m)| && Pick(x, m)[Ones(m[..i])] == x[i]
  {
    var k := |m| - 1;
    PickSize(x, m);
    PickSize(x[..k], m[..k]);
    if i == k {
    } else {
      PickAt(x[..k], m[..k], i);
      assert m[..k][..i] == m[..i];
    }
  }

  /** Depositing what was extracted gives back the bits under the mask. */
  lemma DepositOfExtract(x: Word, m: Word)
    ensures Pdepd(Pextd(x, m), m) == And(x, m)
  {
    forall i | 0 <= i < 64 ensures DepositBit(Pextd(x, m), m, i) == (x[i] && m[i]) {
      if m[i] { PickAt(x, m, i); }
    }
  }

  lemma {:induction false} PickSelf(m: Bits)
    ensures Pick(m, m) == seq(Ones(m), _ => true) && Pick(m, Not(m)) == Zeros(Ones(Not(m)))
  {
    if m == [] {
    } else {
      PickSelf(m[..|m| - 1]);
      assert Not(m)[..|m| - 1] == Not(m[..|m| - 1]);
    }
  }

  /** Fusing the mask with itself sorts it: zeros at the left, ones at the right. */
  lemma CfugedSortsMask(m: Word)
    ensures Ones(m) <= 64 && Cfuged(m, m) == seq(Ones(m), _ => true) + Zeros(64 - Ones(m))
  {
    CfugedIsBoth(m, m);
    PickSelf(m);
    OnesNot(m);
  }

  // ---------------------------------------------------------------- the clocked machine

  /** Operation code, bits 7 and 6 of the instruction; the fourth code sorts like cfuged. */
  datatype Op = Dep | Ext | Fuge | Fuge3

  function Meaning(op: Op, x: Word, m: Word): Word {
    match op
    case Dep => Pdepd(x, m)
    case Ext => Pextd(x, m)
    case _ => Cfuged(x, m)
  }

  predicate Sorts(op: Op) { op.Fuge? || op.Fuge3? }

  /** Ones among the low k mask bits, and the bits of x under them. */
  function LowOnes(m: Word, k: nat): nat
    requires k <= 64
  { Ones(m[..k]) }

  function LowPick(x: Word, m: Word, k: nat): Bits
    requires k <= 64
  { Pick(x[..k], m[..k]) }

  /** Zeros among the top k mask bits, and the bits of x under them. */
  function TopZeros(m: Word, k: nat): nat
    requires k <= 64
  { Ones(Not(m)[64 - k..]) }

  function TopPick(x: Word, m: Word, k: nat): Bits
    requires k <= 64
  { Pick(x[64 - k..], Not(m)[64 - k..]) }

  function Maybe(c: bool, bit: bool): Bits { if c then [bit] else [] }

  lemma TopStep(x: Word, m: Word, k: nat)
    requires k < 64
    ensures TopPick(x, m, k + 1) == Maybe(!m[63 - k], x[63 - k]) + TopPick(x, m, k)
    ensures TopZeros(m, k + 1) == TopZeros(m, k) + if m[63 - k] then 0 else 1
  {
    var y, n, z := [x[63 - k]], [!m[63 - k]], Not(m);
    PickJoin(y, x[64 - k..], n, z[64 - k..]);
    assert y + x[64 - k..] == x[63 - k..] && n + z[64 - k..] == z[63 - k..];
    assert y[..0] == [] && n[..0] == [];
    hide Not;
  }

  lemma LowStep(x: Word, m: Word, k: nat)
    requires k < 64
    ensures LowPick(x, m, k + 1) == LowPick(x, m, k) + Maybe(m[k], x[k])
    ensures LowOnes(m, k + 1) == LowOnes(m, k) + if m[k] then 1 else 0
  {
    assert m[..k + 1][..k] == m[..k] && x[..k + 1][..k] == x[..k];
  }

  lemma Sizes(x: Word, m: Word, k: nat)
    requires k <= 64
    ensures |LowPick(x, m, k)| == LowOnes(m, k) <= k && |TopPick(x, m, k)| == TopZeros(m, k) <= k
  {
    PickSize(x[..k], m[..k]);
    PickSize(x[64 - k..], Not(m)[64 - k..]);
  }

  lemma Parts(m: Word, k: nat)
    requires k <= 64
    ensures Ones(m) == LowOnes(m, k) + Ones(m[k..])
    ensures 64 == Ones(m) + Ones(Not(m)[..64 - k]) + TopZeros(m, k)
  {
    OnesNot(m);
    PickJoin(m[..k], m[k..], m[..k], m[k..]);
    assert m[..k] + m[k..] == m;
    var z := Not(m);
    PickJoin(z[..64 - k], z[64 - k..], z[..64 - k], z[64 - k..]);
    assert z[..64 - k] + z[64 - k..] == z;
    hide Not;
  }

  /** The two pointers never meet: what is written from the left stays above what is written from the
      right, and there is room for the next bit of each. */
  lemma PointersApart(m: Word, k: nat)
    requires k <= 64
    ensures LowOnes(m, k) <= Ones(m) <= 64 - TopZeros(m, k)
    ensures k == 64 ==> LowOnes(m, k) + TopZeros(m, k) == 64
    ensures k < 64 && !m[63 - k] ==> Ones(m) < 64 - TopZeros(m, k)
    ensures k < 64 && m[k] ==> LowOnes(m, k) < Ones(m)
  {
    Parts(m, k);
    if k < 64 { Parts(m, k + 1); LowStep(m, m, k); TopStep(m, m, k); }
    if k == 64 { assert m[64..] == [] && Not(m)[..0] == []; }
    hide LowOnes, TopZeros, Not;
  }

  function Gap(a: Bits, g: nat, b: Bits): Bits { a + Zeros(g) + b }

  function Deposited(x: Word, m: Word, k: nat): Word { seq(64, i requires 0 <= i < 64 => i < k && DepositBit(x, m, i)) }

  /** Result bits after k clocks. */
  ghost function Partial(op: Op, x: Word, m: Word, k: nat): Word
    requires k <= 64
  {
    PointersApart(m, k);
    Sizes(x, m, k);
    match op
    case Dep => Deposited(x, m, k)
    case Ext => Gap(LowPick(x, m, k), 64 - LowOnes(m, k), [])
    case _ => Gap(LowPick(x, m, k), 64 - LowOnes(m, k) - TopZeros(m, k), TopPick(x, m, k))
  }

  lemma PartialStart(op: Op, x: Word, m: Word)
    ensures Partial(op, x, m, 0) == Zeros(64)
  {
    assert x[..0] == [] && m[..0] == [] && x[64..] == [] && Not(m)[64..] == [];
  }

  lemma PartialEnd(op: Op, x: Word, m: Word)
    ensures Partial(op, x, m, 64) == Meaning(op, x, m)
  {
    PointersApart(m, 64);
    assert x[..64] == x && m[..64] == m && x[0..] == x && Not(m)[0..] == Not(m);
    CfugedIsBoth(x, m);
  }

  /** Writing at either edge of the gap between two parts, or at both. */
  lemma FillGap(a: Bits, g: nat, b: Bits, left: bool, l: bool, right: bool, r: bool)
    requires g >= (if left then 1 else 0) + if right then 1 else 0
    ensures Gap(a + Maybe(right, r), g - |Maybe(left, l)| - |Maybe(right, r)|, Maybe(left, l) + b) ==
      var v := if left then Gap(a, g, b)[|a| + g - 1 := l] else Gap(a, g, b);
      if right then v[|a| := r] else v
  {
    var v := if left then Gap(a, g, b)[|a| + g - 1 := l] else Gap(a, g, b);
    assert v == Gap(a, g - |Maybe(left, l)|, Maybe(left, l) + b);
  }

  /** What one clock writes: from the left when sorting and the mask bit is zero, from the right when
      the mask bit is one. */
  ghost function Written(op: Op, x: Word, m: Word, k: nat, v: Word): Word
    requires k < 64
  {
    PointersApart(m, k);
    Sizes(x, m, k);
    var v1 := if Sorts(op) && !m[63 - k] then v[63 - TopZeros(m, k) := x[63 - k]] else v;
    if !m[k] then v1 else if op.Dep? then v1[k := x[LowOnes(m, k)]] else v1[LowOnes(m, k) := x[k]]
  }

  lemma DepositStep(x: Word, m: Word, k: nat)
    requires k < 64
    ensures Partial(Dep, x, m, k + 1) == Written(Dep, x, m, k, Partial(Dep, x, m, k))
  {}

  /** One clock on a word that is two parts around a gap. */
  lemma WrittenGap(op: Op, x: Word, m: Word, k: nat, a: Bits, b: Bits)
    requires k < 64 && !op.Dep? && |a| == LowOnes(m, k) && |b| == (if Sorts(op) then TopZeros(m, k) else 0)
    requires |a| + |b| <= 64
    ensures var left, right := Maybe(Sorts(op) && !m[63 - k], x[63 - k]), Maybe(m[k], x[k]);
      && |a + right| + |left + b| <= 64
      && Written(op, x, m, k, Gap(a, 64 - |a| - |b|, b)) == Gap(a + right, 64 - |a + right| - |left + b|, left + b)
  {
    hide Gap, LowOnes, TopZeros;
    PointersApart(m, k);
    FillGap(a, 64 - |a| - |b|, b, Sorts(op) && !m[63 - k], x[63 - k], m[k], x[k]);
  }

  lemma ExtractStep(x: Word, m: Word, k: nat)
    requires k < 64
    ensures Partial(Ext, x, m, k + 1) == Written(Ext, x, m, k, Partial(Ext, x, m, k))
  {
    hide Gap, Written, LowOnes, LowPick, TopZeros, TopPick, Deposited;
    Sizes(x, m, k);
    Sizes(x, m, k + 1);
    LowStep(x, m, k);
    WrittenGap(Ext, x, m, k, LowPick(x, m, k), []);
  }

  lemma FuseStep(op: Op, x: Word, m: Word, k: nat)
    requires k < 64 && Sorts(op)
    ensures Partial(op, x, m, k + 1) == Written(op, x, m, k, Partial(op, x, m, k))
  {
    hide Gap, Written, LowOnes, LowPick, TopZeros, TopPick, Deposited, Maybe;
    Sizes(x, m, k);
    Sizes(x, m, k + 1);
    PointersApart(m, k);
    LowStep(x, m, k);
    TopStep(x, m, k);
    WrittenGap(op, x, m, k, LowPick(x, m, k), TopPick(x, m, k));
  }

  lemma PartialStep(op: Op, x: Word, m: Word, k: nat)
    requires k < 64
    ensures Partial(op, x, m, k + 1) == Written(op, x, m, k, Partial(op, x, m, k))
  {
    match op
    case Dep => DepositStep(x, m, k);
    case Ext => ExtractStep(x, m, k);
    case _ => FuseStep(op, x, m, k);
  }

  /** Six-bit counters wrap. */
  function Wrap(k: int): Index
    requires -1 <= k <= 64
  { if k == 64 then 0 else if k == -1 then 63 else k }

  /** The word shifted down, or up, by k places. */
  function Down(x: Word, k: nat): Word
    requires k <= 64
  { x[k..] + Zeros(k) }

  function Up(x: Word, k: nat): Word
    requires k <= 64
  { Zeros(k) + x[..64 - k] }

  lemma Unmoved(x: Word)
    ensures Up(x, 0) == x == Down(x, 0)
  {}

  lemma Slide(x: Word, k: nat)
    requires k < 64
    ensures Up(x, k)[63] == x[63 - k] && [false] + Up(x, k)[..63] == Up(x, k + 1)
    ensures Down(x, k)[0] == x[k] && Down(x, k)[1..] + [false] == Down(x, k + 1)
  {}

  /** The registers of the sorter. */
  class Sorter {
    var val: Word
    var st: bool
    var sd: bool
    var opr: Op
    var bc: Index
    var jl: Index
    var jr: Index
    var srMl: Word
    var srMr: Word
    var srVl: Word
    var srVr: Word

    /** Registers after k clocks on x under the mask m.  The right value register drops a bit with every
        mask bit, or only with the ones when spreading. */
    ghost predicate At(op: Op, x: Word, m: Word, k: nat) reads this {
      && k <= 64 && LowOnes(m, k) <= k && TopZeros(m, k) <= k
      && opr == op && st == (k < 64) && sd == (k == 64)
      && bc == Wrap(k) && jr == Wrap(LowOnes(m, k)) && (Sorts(op) ==> jl == Wrap(63 - TopZeros(m, k)))
      && srMl == Up(m, k) && srMr == Down(m, k) && srVl == Up(x, k)
      && srVr == Down(x, if op.Dep? then LowOnes(m, k) else k)
      && val == Partial(op, x, m, k)
    }

    constructor ()
    {
      val, srMl, srMr, srVl, srVr := Zeros(64), Zeros(64), Zeros(64), Zeros(64), Zeros(64);
      st, sd, opr, bc, jl, jr := false, false, Dep, 0, 0, 0;
    }

    /** A clock with `go`: take the operands. */
    method Go(op: Op, x: Word, m: Word)
      modifies this
      ensures At(op, x, m, 0)
    {
      hide Up, Down, Partial, LowOnes, TopZeros, Zeros;
      srMl, srMr, srVl, srVr := m, m, x, x;
      st, sd, opr, val, bc, jl, jr := true, false, op, Zeros(64), 0, 63, 0;
      PartialStart(op, x, m);
      Sizes(x, m, 0);
      Unmoved(x);
      Unmoved(m);
    }

    /** The result bits written in one clock. */
    method WriteBits(ghost op: Op, ghost x: Word, ghost m: Word, ghost k: nat) returns (v: Word)
      requires k < 64 && At(op, x, m, k)
      ensures v == Written(op, x, m, k, val)
    {
      Slide(m, k);
      Slide(x, k);
      Slide(x, LowOnes(m, k));
      PointersApart(m, k);
      hide Up, Down, Partial, LowOnes, TopZeros;
      v := val;
      if !srMl[63] && Sorts(opr) { v := v[jl := srVl[63]]; }
      if srMr[0] { v := v[if opr.Dep? then bc else jr := srVr[0]]; }
    }

    /** The counters at the end of a clock. */
    method Count()
      modifies `jl, `jr, `bc, `sd, `st
      ensures jl == if !srMl[63] && Sorts(opr) then Wrap(old(jl) - 1) else old(jl)
      ensures jr == if srMr[0] then Wrap(old(jr) + 1) else old(jr)
      ensures bc == Wrap(old(bc) + 1) && sd == (old(bc) == 63) && st == !sd
    {
      sd, st := bc == 63, bc != 63;
      if !srMl[63] && Sorts(opr) { jl := Wrap(jl - 1); }
      if srMr[0] { jr := Wrap(jr + 1); }
      bc := Wrap(bc + 1);
    }

    /** A clock without `go` while sorting. */
    method Tick(ghost op: Op, ghost x: Word, ghost m: Word, ghost k: nat)
      requires k < 64 && At(op, x, m, k)
      modifies this
      ensures At(op, x, m, k + 1)
    {
      hide Up, Down, Partial, Written, LowOnes, TopZeros, LowPick, TopPick;
      var v := WriteBits(op, x, m, k);
      PartialStep(op, x, m, k);
      LowStep(x, m, k);
      TopStep(x, m, k);
      Slide(x, k);
      Slide(m, k);
      Slide(x, LowOnes(m, k));
      val := v;
      Count();
      if !opr.Dep? || srMr[0] { srVr := srVr[1..] + [false]; }
      srVl, srMl, srMr := [false] + srVl[..63], [false] + srMl[..63], srMr[1..] + [false];
    }

    /** An instruction from `go` to `done`. */
    method Sort(op: Op, x: Word, m: Word) returns (result: Word)
      modifies this
      ensures result == Meaning(op, x, m) && sd && !st
    {
      Go(op, x, m);
      for k := 0 to 64
        invariant At(op, x, m, k)
      {
        Tick(op, x, m, k);
      }
      PartialEnd(op, x, m);
      result := val;
    }
  }
}
