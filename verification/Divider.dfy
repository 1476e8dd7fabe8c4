/** The restoring divider: one quotient bit per clock, or eight while the running dividend is small. */
module Divider {
  import opened Arith

  type Word = x: nat | x < 0x1_0000_0000_0000_0000

  datatype Request = Request(dividend: Word, divisor: Word, extended: bool, modulus: bool, is32: bool,
                             signed: bool, negate: bool)

  datatype Output = Output(valid: bool, data: Word, overflow: bool)

  /** Registers; `dend` has 129 bits and `count` seven. */
  datatype State = State(dend: nat, div: Word, quot: Word, running: bool, count: nat, overflow: bool, ovf32: bool,
                         modulus: bool, is32: bool, signed: bool, negate: bool, out: Output)

  datatype Input = Quiet | Flush | Valid(req: Request)

  // ---------------------------------------------------------------- one iteration

  function Numerator(q: Request): nat {
    if q.extended then q.dividend * 0x1_0000_0000_0000_0000 else q.dividend
  }

  function Load(s: State, q: Request): State {
    s.(dend := Numerator(q), div := q.divisor, quot := 0, negate := q.negate, modulus := q.modulus, is32 := q.is32,
       signed := q.signed, count := 127, running := true, overflow := false, ovf32 := false)
  }

  /** Bits 127 to 64 of the running dividend. */
  function Middle(dend: nat): Word { dend / 0x1_0000_0000_0000_0000 % 0x1_0000_0000_0000_0000 }

  predicate Fits(dend: nat, div: Word) { dend >= 0x1_0000_0000_0000_0000_0000_0000_0000_0000 || Middle(dend) >= div }

  /** The difference in the upper part, shifted left by one. */
  function Reduced(dend: nat, div: Word): nat {
    ((Middle(dend) - div) % 0x1_0000_0000_0000_0000 * 0x1_0000_0000_0000_0000 + dend % 0x1_0000_0000_0000_0000) * 2
  }

  predicate TakesEight(s: State) { s.dend < 0x200_0000_0000_0000 && !(56 <= s.count < 64) }

  /** The registers an iteration shifts. */
  datatype Shifts = Shifts(ovf32: bool, dend: nat, quot: Word, count: nat)

  function Digits(s: State): Shifts {
    if Fits(s.dend, s.div) then
      Shifts(s.ovf32 || s.quot / 0x8000_0000 % 2 == 1, Reduced(s.dend, s.div),
             (s.quot * 2 + 1) % 0x1_0000_0000_0000_0000, (s.count + 1) % 128)
    else if TakesEight(s) then
      Shifts(s.ovf32 || s.quot / 0x100_0000 % 256 != 0, s.dend * 256,
             s.quot * 256 % 0x1_0000_0000_0000_0000, (s.count + 8) % 128)
    else
      Shifts(s.ovf32 || s.quot / 0x8000_0000 % 2 == 1, s.dend % 0x1_0000_0000_0000_0000_0000_0000_0000_0000 * 2,
             s.quot * 2 % 0x1_0000_0000_0000_0000, (s.count + 1) % 128)
  }

  function Iterate(s: State): State {
    var d := Digits(s);
    s.(running := s.count != 63, overflow := s.quot >= 0x8000_0000_0000_0000,
       ovf32 := d.ovf32, dend := d.dend, quot := d.quot, count := d.count)
  }

  // ---------------------------------------------------------------- result selection

  function Magnitude(s: State): nat {
    if s.modulus then s.dend / 0x2_0000_0000_0000_0000 % 0x1_0000_0000_0000_0000 else s.quot
  }

  /** The 65-bit two's complement of a magnitude, or the magnitude itself. */
  function Signed65(m: nat, negate: bool): nat { if negate then (0 - m) % 0x2_0000_0000_0000_0000 else m }

  /** The 65-bit result with its sign, as an unsigned number. */
  function SignedBits(s: State): nat { Signed65(Magnitude(s), s.negate) }

  predicate BitAt(x: nat, p: nat)
    requires p > 0
  { x / p % 2 == 1 }

  predicate DidOverflow(s: State) {
    var r := SignedBits(s);
    if !s.is32 then s.overflow || (s.signed && BitAt(r, 0x1_0000_0000_0000_0000) != BitAt(r, 0x8000_0000_0000_0000))
    else if s.signed then s.ovf32 || BitAt(r, 0x1_0000_0000) != BitAt(r, 0x8000_0000)
    else s.ovf32
  }

  function Result(s: State): Word {
    if DidOverflow(s) then 0
    else if s.is32 && !s.modulus then SignedBits(s) % 0x1_0000_0000
    else SignedBits(s) % 0x1_0000_0000_0000_0000
  }

  function Step(s: State, i: Input): State {
    var s1 :=
      match i
      case Flush =>
        s.(dend := 0, div := 0, quot := 0, running := false, count := 0, is32 := false, overflow := false)
      case Valid(q) => Load(s, q)
      case Quiet => if s.running then Iterate(s) else s.(count := 0);
    s1.(out := Output(s.count == 64, Result(s), DidOverflow(s)))
  }

  // ---------------------------------------------------------------- what an iteration does to the numbers

  /** The comparison is a comparison with the divisor shifted to the upper part. */
  lemma FitsMeans(dend: nat, div: Word)
    requires dend < 0x2_0000_0000_0000_0000_0000_0000_0000_0000
    ensures Fits(dend, div) <==> dend >= 0x1_0000_0000_0000_0000 * div
  {}

  lemma ReducedMeans(dend: nat, div: Word)
    requires 0x1_0000_0000_0000_0000 * div <= dend < 0x2_0000_0000_0000_0000 * div
    ensures Reduced(dend, div) == 2 * (dend - 0x1_0000_0000_0000_0000 * div)
  {
    var top, low := dend / 0x1_0000_0000_0000_0000, dend % 0x1_0000_0000_0000_0000;
    assert div <= top < 2 * div;
    if top < 0x1_0000_0000_0000_0000 {
      assert Middle(dend) == top;
    } else {
      assert Middle(dend) == top - 0x1_0000_0000_0000_0000;
    }
  }

  /** The true quotient needs a 65th bit. */
  predicate TooBig(n: nat, div: Word) { n >= 0x1_0000_0000_0000_0000 * div }

  /** The quotient bits so far as a number, their leading bit, and the sticky flag for bits above 31. */
  ghost predicate QuotOk(s: State, top: bool, k: nat, q: nat) {
    && s.quot == q % 0x1_0000_0000_0000_0000
    && (s.ovf32 <==> q >= 0x1_0000_0000)
    && (k == 0 ==> q == 0)
    && (k > 0 ==> if top then Pow2(k - 1) <= q < Pow2(k) else q < Pow2(k - 1))
  }

  /** The numerator less the part already divided, after k shifts. */
  ghost function Leftover(k: nat, n: nat, div: nat, q: nat): int {
    Pow2(k) * n - 0x2_0000_0000_0000_0000 * (div * q)
  }

  /** The running dividend is what is left of the numerator, and stays below twice the shifted divisor. */
  ghost predicate DendOk(s: State, n: nat, k: nat, q: nat) {
    && s.dend == Leftover(k, n, s.div, q)
    && s.dend < 0x2_0000_0000_0000_0000 * s.div
  }

  ghost predicate CountOk(s: State, k: nat) { k <= 65 && s.count == (k + 127) % 128 && s.running == (k < 65) }

  ghost predicate Loaded(s: State, r: Request) {
    s.div == r.divisor && s.modulus == r.modulus && s.is32 == r.is32 && s.signed == r.signed && s.negate == r.negate
  }

  /** After k of the 65 bit positions. */
  ghost predicate At(s: State, r: Request, k: nat, q: nat) {
    var n := Numerator(r);
    && CountOk(s, k) && Loaded(s, r)
    && s.dend < 0x2_0000_0000_0000_0000_0000_0000_0000_0000
    && QuotOk(s, TooBig(n, s.div), k, q)
    && (k == 0 ==> s.dend == n)
    && (!TooBig(n, s.div) ==> DendOk(s, n, k, q))
    && (k == 65 ==> s.overflow == TooBig(n, s.div))
  }

  /** Bit positions consumed by the next iteration. */
  function Width(s: State): nat { if !Fits(s.dend, s.div) && TakesEight(s) then 8 else 1 }

  function Shifted(s: State, q: nat): nat {
    if Fits(s.dend, s.div) then 2 * q + 1 else if TakesEight(s) then 256 * q else 2 * q
  }

  /** Bits that leave the low word set the sticky flag. */
  lemma StickyBits(q: nat)
    requires q < 0x1_0000_0000
    ensures q / 0x8000_0000 % 2 == 1 <==> q >= 0x8000_0000
    ensures q / 0x100_0000 % 256 != 0 <==> q >= 0x100_0000
  {}

  lemma QuotShifts(s: State, q: nat)
    requires s.quot == q % 0x1_0000_0000_0000_0000
    ensures Iterate(s).quot == Shifted(s, q) % 0x1_0000_0000_0000_0000
  {
    DropTop(q, 2, 1);
    DropTop(q, 2, 0);
    DropTop(q, 256, 0);
    hide Fits, TakesEight, Reduced;
  }

  lemma FlagSticks(s: State, q: nat)
    requires s.quot == q % 0x1_0000_0000_0000_0000 && (s.ovf32 <==> q >= 0x1_0000_0000)
    ensures Iterate(s).ovf32 <==> Shifted(s, q) >= 0x1_0000_0000
  {
    if q < 0x1_0000_0000 {
      StickyBits(q);
      assert s.quot == q;
    }
    hide Fits, TakesEight, Reduced;
  }

  lemma QuotStep(s: State, top: bool, k: nat, q: nat)
    requires QuotOk(s, top, k, q)
    requires k == 0 ==> (Fits(s.dend, s.div) <==> top)
    ensures QuotOk(Iterate(s), top, k + Width(s), Shifted(s, q))
  {
    QuotShifts(s, q);
    FlagSticks(s, q);
    if k > 0 && Width(s) == 8 { Pow2Eight(k - 1); Pow2Eight(k); }
  }

  lemma OneDigit(k: nat, n: nat, div: nat, q: nat)
    ensures Leftover(k + 1, n, div, 2 * q) == 2 * Leftover(k, n, div, q)
    ensures Leftover(k + 1, n, div, 2 * q + 1) == 2 * Leftover(k, n, div, q) - 0x2_0000_0000_0000_0000 * div
  {
    assert 2 * Pow2(k) * n == 2 * (Pow2(k) * n);
    assert div * (2 * q) == 2 * (div * q);
    assert div * (2 * q + 1) == div * (2 * q) + div;
  }

  lemma EightDigits(k: nat, n: nat, div: nat, q: nat)
    ensures Leftover(k + 8, n, div, 256 * q) == 256 * Leftover(k, n, div, q)
  {
    Pow2Eight(k);
    assert 256 * Pow2(k) * n == 256 * (Pow2(k) * n);
    assert div * (256 * q) == 256 * (div * q);
  }

  /** An iteration on a running dividend below twice the shifted divisor. */
  lemma NewDend(s: State)
    requires s.dend < 0x2_0000_0000_0000_0000 * s.div
    ensures Iterate(s).dend < 0x2_0000_0000_0000_0000 * s.div
    ensures Iterate(s).dend == if Fits(s.dend, s.div) then 2 * s.dend - 0x2_0000_0000_0000_0000 * s.div
                               else if TakesEight(s) then 256 * s.dend
                               else 2 * s.dend
  {
    FitsMeans(s.dend, s.div);
    if Fits(s.dend, s.div) { ReducedMeans(s.dend, s.div); }
  }

  lemma DendStep(s: State, n: nat, k: nat, q: nat)
    requires DendOk(s, n, k, q)
    ensures DendOk(Iterate(s), n, k + Width(s), Shifted(s, q))
  {
    NewDend(s);
    OneDigit(k, n, s.div, q);
    EightDigits(k, n, s.div, q);
    hide Leftover, Fits;
  }

  lemma CountStep(s: State, k: nat)
    requires CountOk(s, k) && s.running
    ensures CountOk(Iterate(s), k + Width(s))
    ensures k + Width(s) == 65 ==> k == 64
  {
    hide Fits, Reduced;
  }

  lemma DendWidth(s: State)
    requires s.dend < 0x2_0000_0000_0000_0000_0000_0000_0000_0000
    ensures Iterate(s).dend < 0x2_0000_0000_0000_0000_0000_0000_0000_0000
  {
    hide Fits;
  }

  /** After 64 positions the leading quotient bit has reached the top of the register. */
  lemma LeadingBit(s: State, top: bool, q: nat)
    requires QuotOk(s, top, 64, q)
    ensures s.quot >= 0x8000_0000_0000_0000 <==> top
  {
    Powers();
  }

  lemma LeadsWith(s: State, r: Request, q: nat)
    requires At(s, r, 0, q)
    ensures Fits(s.dend, s.div) <==> TooBig(Numerator(r), s.div)
  {
    FitsMeans(s.dend, s.div);
  }

  lemma StaysLoaded(s: State, r: Request)
    requires Loaded(s, r)
    ensures Loaded(Iterate(s), r) && Iterate(s).div == s.div
    ensures Iterate(s).overflow == (s.quot >= 0x8000_0000_0000_0000)
  {
    hide Digits;
  }

  /** Whatever mix of one-bit and eight-bit steps, exactly 65 positions are consumed. */
  lemma IterateStep(s: State, r: Request, k: nat, q: nat)
    requires At(s, r, k, q) && s.running
    ensures Width(s) > 0 && At(Iterate(s), r, k + Width(s), Shifted(s, q))
  {
    hide QuotOk, DendOk, TooBig, CountOk, Loaded, Fits, Iterate;
    var n := Numerator(r);
    if k == 0 { LeadsWith(s, r, q); }
    QuotStep(s, TooBig(n, s.div), k, q);
    if !TooBig(n, s.div) { DendStep(s, n, k, q); }
    if k == 64 { LeadingBit(s, TooBig(n, s.div), q); }
    CountStep(s, k);
    DendWidth(s);
    StaysLoaded(s, r);
  }

  // ---------------------------------------------------------------- the finished division

  /** All 65 positions consumed: quotient and remainder, or the overflow flags. */
  lemma Finished(s: State, r: Request, q: nat)
    requires At(s, r, 65, q)
    ensures s.overflow <==> r.divisor == 0 || Numerator(r) / r.divisor >= 0x1_0000_0000_0000_0000
    ensures s.ovf32 <==> r.divisor == 0 || Numerator(r) / r.divisor >= 0x1_0000_0000
    ensures !s.overflow ==>
      s.quot == Numerator(r) / r.divisor && s.dend == 0x2_0000_0000_0000_0000 * (Numerator(r) % r.divisor)
  {
    var n := Numerator(r);
    Powers();
    if TooBig(n, s.div) {
      if s.div > 0 { BigQuotient(n, s.div); }
    } else {
      assert s.dend == 0x2_0000_0000_0000_0000 * (n - s.div * q);
      ModUnique(s.div, q, n - s.div * q, n);
    }
  }

  lemma BigQuotient(n: nat, div: Word)
    requires div > 0 && TooBig(n, div)
    ensures n / div >= 0x1_0000_0000_0000_0000
  {}

  /** The mathematical answer: the quotient or the remainder of the magnitudes, with its sign. */
  function Answer(r: Request): int
    requires r.divisor > 0
  {
    var m := if r.modulus then Numerator(r) % r.divisor else Numerator(r) / r.divisor;
    if r.negate then -m else m
  }

  /** The low 33 bits, read with their sign, fit 32. */
  predicate Fits32(v: int) { (v + 0x8000_0000) % 0x2_0000_0000 < 0x1_0000_0000 }

  /** The quotient fits its width, and the answer its signed width. */
  predicate Representable(r: Request)
    requires r.divisor > 0
  {
    if r.is32 then Numerator(r) / r.divisor < 0x1_0000_0000 && (r.signed ==> Fits32(Answer(r)))
    else
      && Numerator(r) / r.divisor < 0x1_0000_0000_0000_0000
      && (r.signed ==> -0x8000_0000_0000_0000 <= Answer(r) < 0x8000_0000_0000_0000)
  }

  /** With 32-bit operands, and for every quotient, that is the plain signed range. */
  lemma PlainRange(r: Request)
    requires r.divisor > 0 && Numerator(r) / r.divisor < 0x1_0000_0000 && (r.modulus ==> r.divisor <= 0x1_0000_0000)
    ensures Fits32(Answer(r)) <==> -0x8000_0000 <= Answer(r) < 0x8000_0000
  {
    hide Fits32, Answer;
    AnswerSmall(r);
    FitsSmall(Answer(r));
  }

  lemma AnswerSmall(r: Request)
    requires r.divisor > 0 && Numerator(r) / r.divisor < 0x1_0000_0000 && (r.modulus ==> r.divisor <= 0x1_0000_0000)
    ensures -0x1_0000_0000 < Answer(r) < 0x1_0000_0000
  {
    hide Numerator;
    var _, m := Divided(Numerator(r), r.divisor);
  }

  lemma FitsSmall(v: int)
    requires -0x1_0000_0000 < v < 0x1_0000_0000
    ensures Fits32(v) <==> -0x8000_0000 <= v < 0x8000_0000
  {
    var x := v + 0x8000_0000;
    if x < 0 { ModUnique(0x2_0000_0000, -1, x + 0x2_0000_0000, x); } else { ModUnique(0x2_0000_0000, 0, x, x); }
  }

  function Expected(r: Request): Output {
    if r.divisor == 0 || !Representable(r) then Output(true, 0, true)
    else if r.is32 && !r.modulus then Output(true, Answer(r) % 0x1_0000_0000, false)
    else Output(true, Answer(r) % 0x1_0000_0000_0000_0000, false)
  }

  lemma Complement(m: nat)
    requires 0 < m < 0x2_0000_0000_0000_0000
    ensures Signed65(m, true) == 0x2_0000_0000_0000_0000 - m
  {
    ModUnique(0x2_0000_0000_0000_0000, -1, 0x2_0000_0000_0000_0000 - m, 0 - m);
  }

  /** The top two bits of the 65-bit result agree exactly when it fits 64 bits. */
  lemma SignBits64(m: nat, negate: bool)
    requires m < 0x1_0000_0000_0000_0000
    ensures var v, b := if negate then 0 - m else m, Signed65(m, negate);
      BitAt(b, 0x1_0000_0000_0000_0000) == BitAt(b, 0x8000_0000_0000_0000) <==>
        -0x8000_0000_0000_0000 <= v < 0x8000_0000_0000_0000
  {
    if negate && m > 0 { Complement(m); }
  }

  /** Bits 32 and 31 agree exactly when the low 33 bits, read with their sign, fit 32. */
  lemma SignBits32(m: nat, negate: bool)
    requires m < 0x1_0000_0000_0000_0000
    ensures var v, b := if negate then 0 - m else m, Signed65(m, negate);
      BitAt(b, 0x1_0000_0000) == BitAt(b, 0x8000_0000) <==> Fits32(v)
  {
    hide Signed65, BitAt, Fits32;
    LowBits(m, negate);
    BitPair(Signed65(m, negate));
    SameLow(if negate then 0 - m else m, Signed65(m, negate));
  }

  lemma SameLow(a: int, b: int)
    requires a % 0x2_0000_0000 == b % 0x2_0000_0000
    ensures Fits32(a) <==> Fits32(b)
  {
    LowDecides(a);
    LowDecides(b);
  }

  lemma LowDecides(a: int)
    ensures var y := a % 0x2_0000_0000; Fits32(a) <==> y < 0x8000_0000 || y >= 0x1_8000_0000
  {
    var q, y := a / 0x2_0000_0000, a % 0x2_0000_0000;
    if y < 0x1_8000_0000 {
      ModUnique(0x2_0000_0000, q, y + 0x8000_0000, a + 0x8000_0000);
    } else {
      ModUnique(0x2_0000_0000, q + 1, y - 0x1_8000_0000, a + 0x8000_0000);
    }
  }

  lemma BitPair(b: nat)
    ensures BitAt(b, 0x1_0000_0000) == BitAt(b, 0x8000_0000) <==> Fits32(b)
  {
    hide Fits32, BitAt;
    LowDecides(b);
    var q, h, e, l := Pieces(b);
    ModUnique(0x2_0000_0000, q, 0x1_0000_0000 * h + 0x8000_0000 * e + l, b);
    BitIs(b, 0x1_0000_0000, q, h, 0x8000_0000 * e + l);
    BitIs(b, 0x8000_0000, 2 * q + h, e, l);
  }

  lemma Pieces(b: nat) returns (q: nat, h: nat, e: nat, l: nat)
    ensures b == 0x2_0000_0000 * q + 0x1_0000_0000 * h + 0x8000_0000 * e + l && h < 2 && e < 2 && l < 0x8000_0000
  {
    var x := b / 0x8000_0000;
    l, e := b % 0x8000_0000, x % 2;
    var y := x / 2;
    h, q := y % 2, y / 2;
  }

  lemma BitIs(b: nat, p: nat, q: nat, h: nat, l: nat)
    requires p > 0 && b == p * (2 * q + h) + l && h < 2 && l < p
    ensures BitAt(b, p) <==> h == 1
  {
    ModUnique(p, 2 * q + h, l, b);
    ModUnique(2, q, h, 2 * q + h);
  }

  lemma LowBits(m: nat, negate: bool)
    requires m < 0x1_0000_0000_0000_0000
    ensures var v, b := if negate then 0 - m else m, Signed65(m, negate);
      && b % 0x1_0000_0000_0000_0000 == v % 0x1_0000_0000_0000_0000 && b % 0x1_0000_0000 == v % 0x1_0000_0000
      && b % 0x2_0000_0000 == v % 0x2_0000_0000
  {
    if negate && m > 0 { Complement(m); }
  }

  lemma MagnitudeOk(s: State, r: Request)
    requires r.divisor > 0 && s.modulus == r.modulus
    requires s.quot == Numerator(r) / r.divisor && s.dend == 0x2_0000_0000_0000_0000 * (Numerator(r) % r.divisor)
    ensures Magnitude(s) == if r.modulus then Numerator(r) % r.divisor else Numerator(r) / r.divisor
    ensures Magnitude(s) < 0x1_0000_0000_0000_0000
  {}

  lemma ResultOk(s: State, r: Request, q: nat)
    requires At(s, r, 65, q)
    ensures Output(true, Result(s), DidOverflow(s)) == Expected(r)
  {
    hide Magnitude, BitAt;
    Finished(s, r, q);
    if !s.overflow {
      MagnitudeOk(s, r);
      SignBits64(Magnitude(s), r.negate);
      SignBits32(Magnitude(s), r.negate);
      LowBits(Magnitude(s), r.negate);
    }
  }

  // ---------------------------------------------------------------- the valid pulse

  /** After n clocks with neither a request nor a flush. */
  function Wait(s: State, n: nat): State
    decreases n
  { if n == 0 then s else Wait(Step(s, Quiet), n - 1) }

  predicate Idle(s: State) { !s.running && s.count == 0 }

  /** An idle divider, in particular one just flushed, never says valid. */
  lemma {:induction false} IdleIsSilent(s: State, n: nat)
    requires Idle(s) && n > 0
    ensures !Wait(s, n).out.valid
    decreases n
  {
    if n == 1 {
    } else {
      IdleIsSilent(Step(s, Quiet), n - 1);
    }
  }

  lemma RunningStep(s: State, r: Request, k: nat, q: nat)
    requires At(s, r, k, q) && k < 65
    ensures !Step(s, Quiet).out.valid && Width(s) > 0 && At(Step(s, Quiet), r, k + Width(s), Shifted(s, q))
  {
    IterateStep(s, r, k, q);
  }

  lemma LastStep(s: State, r: Request, q: nat)
    requires At(s, r, 65, q)
    ensures Step(s, Quiet).out.valid && Idle(Step(s, Quiet)) && Step(s, Quiet).out == Expected(r)
  {
    hide Expected, Result, DidOverflow;
    ResultOk(s, r, q);
  }

  lemma {:induction false} OnePulse(s: State, r: Request, k: nat, q: nat) returns (t: nat)
    requires At(s, r, k, q)
    ensures t <= 65 - k && Wait(s, t + 1).out == Expected(r)
    ensures forall j: nat | j > 0 :: Wait(s, j).out.valid <==> j == t + 1
    decreases 65 - k
  {
    hide Step, Expected, Iterate, Shifted, Width, Idle, QuotOk, DendOk;
    var s1 := Step(s, Quiet);
    if k == 65 {
      t := 0;
      LastStep(s, r, q);
      assert Wait(s, 1) == Wait(s1, 0);
      forall j: nat | j > 0 ensures Wait(s, j).out.valid <==> j == 1 {
        if j > 1 { IdleIsSilent(s1, j - 1); }
      }
    } else {
      RunningStep(s, r, k, q);
      var t1 := OnePulse(s1, r, k + Width(s), Shifted(s, q));
      t := t1 + 1;
      forall j: nat | j > 0 ensures Wait(s, j).out.valid <==> j == t + 1 {
        assert Wait(s, j) == Wait(s1, j - 1);
      }
    }
  }

  /** From any state, a request that is neither flushed nor replaced is answered by exactly one valid
      pulse, after at most 65 running steps, with the exact answer or with zero and overflow. */
  lemma EveryRequestIsAnswered(s: State, r: Request) returns (t: nat)
    ensures t <= 65 && Wait(Step(s, Valid(r)), t + 1).out == Expected(r)
    ensures forall j: nat | j > 0 :: Wait(Step(s, Valid(r)), j).out.valid <==> j == t + 1
  {
    t := OnePulse(Step(s, Valid(r)), r, 0, 0);
  }

  lemma {:induction false} WaitOneMore(s: State, n: nat)
    ensures Wait(s, n + 1) == Step(Wait(s, n), Quiet)
    decreases n
  {
    if n == 0 {
      assert Wait(s, 1) == Wait(Step(s, Quiet), 0);
    } else {
      WaitOneMore(Step(s, Quiet), n - 1);
    }
  }

  /** A request flushed after j clocks, or replaced then by another, is answered at that very edge if it
      has just finished, before it if it had finished earlier, and otherwise never: after a flush there
      is silence. */
  lemma FlushedRequest(s: State, r: Request, j: nat, q: Request) returns (t: nat)
    ensures t <= 65 && forall k: nat | 0 < k <= j :: Wait(Step(s, Valid(r)), k).out.valid <==> k == t + 1
    ensures var u := Wait(Step(s, Valid(r)), j);
      && (Step(u, Flush).out.valid <==> j == t) && (Step(u, Valid(q)).out.valid <==> j == t)
      && forall n: nat | n > 0 :: !Wait(Step(u, Flush), n).out.valid
  {
    t := EveryRequestIsAnswered(s, r);
    var u := Wait(Step(s, Valid(r)), j);
    WaitOneMore(Step(s, Valid(r)), j);
    assert Step(u, Flush).out.valid == Step(u, Quiet).out.valid == Step(u, Valid(q)).out.valid;
    forall n: nat | n > 0 ensures !Wait(Step(u, Flush), n).out.valid { IdleIsSilent(Step(u, Flush), n); }
  }

  // ---------------------------------------------------------------- the answers in plain numbers

  /** The number a request divides: its dividend, above 64 zero bits in the extended form. */
  function Dividend(r: Request): nat { r.dividend * if r.extended then 0x1_0000_0000_0000_0000 else 1 }

  lemma AnswerIs(r: Request, q: nat, m: nat)
    requires r.divisor > 0 && m < r.divisor && Dividend(r) == q * r.divisor + m
    ensures Numerator(r) / r.divisor == q && Numerator(r) % r.divisor == m
  {
    assert q * r.divisor == r.divisor * q;
    ModUnique(r.divisor, q, m, Numerator(r));
  }

  /** An output answers a request whose magnitudes have quotient q and remainder m: it carries the one
      asked for, with its sign and in its width; or zero with overflow exactly when the quotient needs
      more bits than the width, or the signed answer more than the signed width. */
  predicate Answers(o: Output, r: Request, q: nat, m: nat) {
    var x := if r.modulus then m else q;
    var v := if r.negate then 0 - x else x;
    && (!r.is32 ==> (o.overflow <==> q >= 0x1_0000_0000_0000_0000
                                     || (r.signed && !(-0x8000_0000_0000_0000 <= v < 0x8000_0000_0000_0000))))
    && (r.is32 ==> (o.overflow <==> q >= 0x1_0000_0000
                                    || (r.signed && (v + 0x8000_0000) % 0x2_0000_0000 >= 0x1_0000_0000)))
    && o.data == if o.overflow then 0
                 else if r.is32 && !r.modulus then v % 0x1_0000_0000
                 else v % 0x1_0000_0000_0000_0000
  }

  lemma ExpectedAnswers(r: Request, q: nat, m: nat)
    requires r.divisor > 0 && Numerator(r) / r.divisor == q && Numerator(r) % r.divisor == m
    ensures Answers(Expected(r), r, q, m)
  {
    hide Numerator;
  }

  /** The one pulse that answers a request carries the quotient or the remainder of its dividend, taken
      above 64 zero bits in the extended form. */
  lemma PulseMeans(s: State, r: Request, q: nat, m: nat) returns (t: nat)
    requires r.divisor > 0 && m < r.divisor && Dividend(r) == q * r.divisor + m
    ensures t <= 65 && forall j: nat | j > 0 :: Wait(Step(s, Valid(r)), j).out.valid <==> j == t + 1
    ensures Answers(Wait(Step(s, Valid(r)), t + 1).out, r, q, m)
  {
    hide Wait, Step, Expected, Answers;
    t := EveryRequestIsAnswered(s, r);
    AnswerIs(r, q, m);
    ExpectedAnswers(r, q, m);
  }

  /** Division by zero overflows. */
  lemma ZeroDivisor(s: State, r: Request) returns (t: nat)
    requires r.divisor == 0
    ensures t <= 65 && Wait(Step(s, Valid(r)), t + 1).out == Output(true, 0, true)
    ensures forall j: nat | j > 0 :: Wait(Step(s, Valid(r)), j).out.valid <==> j == t + 1
  {
    t := EveryRequestIsAnswered(s, r);
  }

  // ---------------------------------------------------------------- signed division

  function Abs(x: int): nat { if x < 0 then -x else x }

  /** v and z are quotient and remainder of n by b, truncated toward zero. */
  ghost predicate Truncates(n: int, b: int, v: int, z: int) {
    n == v * b + z && Abs(z) < Abs(b) && (z < 0 ==> n < 0) && (z > 0 ==> n > 0)
  }

  lemma NotSmall(v: int, b: int)
    requires v * b != 0
    ensures Abs(v * b) >= Abs(b)
  {
    var x, y: int := Abs(v), Abs(b);
    assert x >= 1 && Abs(v * b) == x * y by { SignRule(v, b); }
    Product(y, x - 1);
  }

  lemma SignRule(v: int, b: int)
    ensures Abs(v * b) == Abs(v) * Abs(b)
    ensures v * b > 0 <==> v != 0 && b != 0 && (v < 0) == (b < 0)
  {}

  /** Then the magnitudes divide, and the signs are those the execution unit forms. */
  lemma Magnitudes(n: int, b: int, v: int, z: int)
    requires Truncates(n, b, v, z)
    ensures Abs(n) == Abs(v) * Abs(b) + Abs(z)
    ensures v == (if (n < 0) != (b < 0) then 0 - Abs(v) else Abs(v)) && z == if n < 0 then 0 - Abs(z) else Abs(z)
  {
    var p := v * b;
    SignRule(v, b);
    if p != 0 { NotSmall(v, b); }
    hide *;
  }

  /** The request the execution unit forms for a signed division of a by b. */
  predicate Signs(r: Request, a: int, b: int) {
    && r.signed && !r.is32 && r.dividend == Abs(a) && r.divisor == Abs(b)
    && r.negate == ((a < 0) != (b < 0 && !r.modulus))
  }

  /** Signed 64-bit division, extended or not: the data is the truncated quotient or remainder in two's
      complement, and overflow says exactly that the quotient does not fit. */
  lemma SignedDivision(s: State, r: Request, a: int, b: int, v: int, z: int) returns (t: nat)
    requires -0x8000_0000_0000_0000 <= b < 0x8000_0000_0000_0000 && Signs(r, a, b)
    requires Truncates(a * if r.extended then 0x1_0000_0000_0000_0000 else 1, b, v, z)
    ensures t <= 65 && forall j: nat | j > 0 :: Wait(Step(s, Valid(r)), j).out.valid <==> j == t + 1
    ensures var o := Wait(Step(s, Valid(r)), t + 1).out;
      && (!r.modulus ==> (o.overflow <==> !(-0x8000_0000_0000_0000 <= v < 0x8000_0000_0000_0000)))
      && (r.modulus ==> (o.overflow <==> Abs(v) >= 0x1_0000_0000_0000_0000))
      && o.data == if o.overflow then 0 else (if r.modulus then z else v) % 0x1_0000_0000_0000_0000
  {
    hide Wait, Step;
    Magnitudes(a * if r.extended then 0x1_0000_0000_0000_0000 else 1, b, v, z);
    assert Dividend(r) == Abs(a * if r.extended then 0x1_0000_0000_0000_0000 else 1);
    t := PulseMeans(s, r, Abs(v), Abs(z));
  }
}
