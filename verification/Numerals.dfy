/** Integer output and input of the boot firmware's C library: the digit and padding printers of
    vsnprintf, and strtoul. */
module Numerals {
  import opened Arith

  const MODULUS: nat := 0x1_0000_0000_0000_0000

  type Long = x: nat | x < 0x1_0000_0000_0000_0000

  // ---------------------------------------------------------------- numerals

  function DigitChar(d: nat, upper: bool): char
    requires d < 16
  { if d < 10 then '0' + d as char else if upper then 'A' + (d - 10) as char else 'a' + (d - 10) as char }

  /** The numeral of a value, most significant digit first, without leading zeros. */
  function Numeral(v: nat, base: nat, upper: bool): string
    requires 2 <= base <= 16
  {
    if v < base then [DigitChar(v, upper)]
    else Numeral(v / base, base, upper) + [DigitChar(v % base, upper)]
  }

  /** Value of a character as a digit, or -1. */
  function DigitVal(c: char): int {
    if '0' <= c <= '9' then c as int - '0' as int
    else if 'a' <= c <= 'z' then c as int - 'a' as int + 10
    else if 'A' <= c <= 'Z' then c as int - 'A' as int + 10
    else -1
  }

  predicate IsDigit(c: char, base: nat) { 0 <= DigitVal(c) < base }

  predicate AllDigits(s: string, base: nat) { forall i | 0 <= i < |s| :: IsDigit(s[i], base) }

  function Horner(s: string, base: nat): nat
    requires AllDigits(s, base)
  { if s == [] then 0 else Horner(s[..|s| - 1], base) * base + DigitVal(s[|s| - 1]) }

  lemma {:induction false} NumeralReads(v: nat, base: nat, upper: bool)
    requires 2 <= base <= 16
    ensures AllDigits(Numeral(v, base, upper), base) && Horner(Numeral(v, base, upper), base) == v
  {
    hide DigitChar, DigitVal, Numeral;
    if v >= base {
      var q, m := LastDigit(v, base, upper);
      NumeralReads(q, base, upper);
      DigitReads(m, upper);
      AddDigit(Numeral(q, base, upper), DigitChar(m, upper), base);
    } else {
      OneDigit(v, base, upper);
      DigitReads(v, upper);
      AddDigit([], DigitChar(v, upper), base);
    }
  }

  lemma OneDigit(v: nat, base: nat, upper: bool)
    requires v < base && 2 <= base <= 16
    ensures Numeral(v, base, upper) == [] + [DigitChar(v, upper)]
  {}

  lemma LastDigit(v: nat, base: nat, upper: bool) returns (q: nat, m: nat)
    requires base <= v && 2 <= base <= 16
    ensures q == v / base && m == v % base && q < v && m < base && v == base * q + m
    ensures Numeral(v, base, upper) == Numeral(q, base, upper) + [DigitChar(m, upper)]
  {
    q, m := Divided(v, base);
  }

  lemma DigitReads(d: nat, upper: bool)
    requires d < 16
    ensures DigitVal(DigitChar(d, upper)) == d
  {}

  lemma AddDigit(s: string, c: char, base: nat)
    requires AllDigits(s, base) && IsDigit(c, base)
    ensures AllDigits(s + [c], base) && Horner(s + [c], base) == Horner(s, base) * base + DigitVal(c)
  {
    assert (s + [c])[..|s|] == s;
  }

  function Copies(c: char, n: nat): (s: string)
    ensures |s| == n && forall i | 0 <= i < n :: s[i] == c
  { seq(n, _ => c) }

  lemma {:induction false} LeadingZeros(n: nat, s: string, base: nat)
    requires base >= 1 && AllDigits(s, base)
    ensures AllDigits(Copies('0', n) + s, base) && Horner(Copies('0', n) + s, base) == Horner(s, base)
  {
    var z := Copies('0', n);
    if s == [] {
      if n == 0 {
        assert z + s == [];
      } else {
        LeadingZeros(n - 1, s, base);
        assert (z + s)[..n - 1] == Copies('0', n - 1) + s;
      }
    } else {
      LeadingZeros(n, s[..|s| - 1], base);
      assert (z + s)[..|z + s| - 1] == z + s[..|s| - 1];
    }
  }

  // ---------------------------------------------------------------- reading

  /** The string ends at its first NUL. */
  function CharAt(s: string, i: nat): char { if i < |s| then s[i] else '\0' }

  predicate IsBlank(c: char) { c == ' ' || c == '\t' || c == '\n' || c == '\r' }

  function SkipBlanks(s: string, i: nat): nat
    decreases |s| - i
  { if i < |s| && IsBlank(s[i]) then SkipBlanks(s, i + 1) else i }

  function SkipDigits(s: string, i: nat, base: nat): (e: nat)
    requires i <= |s|
    ensures i <= e <= |s| && AllDigits(s[i..e], base) && (e < |s| ==> !IsDigit(s[e], base))
    decreases |s| - i
  {
    if i < |s| && IsDigit(s[i], base) then
      var e := SkipDigits(s, i + 1, base);
      assert s[i..e] == [s[i]] + s[i + 1..e];
      e
    else i
  }

  /** A leading "0x", which base 16 allows. */
  predicate HasPrefix(s: string, i: nat) { CharAt(s, i) == '0' && CharAt(s, i + 1) == 'x' }

  datatype Parsed = Parsed(value: nat, end: nat)

  function ParseFrom(s: string, start: nat, base: nat): Parsed
    requires start <= |s|
  {
    var e := SkipDigits(s, start, base);
    Parsed(Horner(s[start..e], base) % MODULUS, e)
  }

  /** Blanks, an optional prefix, and the longest run of digits, modulo the width of the result. */
  function Parse(s: string, base: int): Parsed {
    if base < 0 || base > 36 then Parsed(0, 0)
    else
      var i := SkipBlanks(s, 0);
      var b := if base != 0 then base else if HasPrefix(s, i) then 16 else 10;
      BlanksInside(s, 0);
      ParseFrom(s, if b == 16 && HasPrefix(s, i) then i + 2 else i, b)
  }

  lemma {:induction false} BlanksInside(s: string, i: nat)
    requires i <= |s|
    ensures i <= SkipBlanks(s, i) <= |s|
    decreases |s| - i
  {
    if i >= |s| || !IsBlank(s[i]) {
    } else {
      BlanksInside(s, i + 1);
    }
  }

  method Strtoul(s: string, base: int) returns (value: Long, end: nat)
    ensures Parsed(value, end) == Parse(s, base)
  {
    value, end := 0, 0;
    if base < 0 || base > 36 { return; }
    BlanksInside(s, 0);
    while IsBlank(CharAt(s, end))
      invariant end <= |s| && SkipBlanks(s, end) == SkipBlanks(s, 0)
      decreases |s| - end
    {
      end := end + 1;
    }
    var b := base;
    if b == 0 {
      if CharAt(s, end) == '0' && CharAt(s, end + 1) == 'x' { b := 16; } else { b := 10; }
    }
    if b == 16 && CharAt(s, end) == '0' && CharAt(s, end + 1) == 'x' { end := end + 2; }
    value, end := ReadDigits(s, end, b);
  }

  lemma OneMore(s: string, start: nat, end: nat, base: nat)
    requires start <= end < |s| && AllDigits(s[start..end], base) && IsDigit(s[end], base)
    ensures AllDigits(s[start..end + 1], base)
    ensures Horner(s[start..end + 1], base) == Horner(s[start..end], base) * base + DigitVal(s[end])
  {
    hide Horner, AllDigits, DigitVal;
    assert s[start..end] + [s[end]] == s[start..end + 1];
    AddDigit(s[start..end], s[end], base);
  }

  lemma SkipOne(s: string, end: nat, base: nat)
    requires end < |s| && IsDigit(s[end], base)
    ensures SkipDigits(s, end, base) == SkipDigits(s, end + 1, base)
  {
    hide AllDigits, DigitVal;
  }

  lemma NoMore(s: string, end: nat, base: nat)
    requires end <= |s| && (end < |s| ==> !IsDigit(s[end], base))
    ensures SkipDigits(s, end, base) == end
  {}

  method ReadDigits(s: string, start: nat, base: nat) returns (value: Long, end: nat)
    requires start <= |s|
    ensures Parsed(value, end) == ParseFrom(s, start, base)
  {
    value, end := 0, start;
    hide Horner, SkipDigits, DigitVal, AllDigits;
    Nothing(s, start, base);
    while end < |s| && IsDigit(s[end], base)
      invariant start <= end <= |s| && AllDigits(s[start..end], base)
      invariant SkipDigits(s, end, base) == SkipDigits(s, start, base)
      invariant value == Horner(s[start..end], base) % MODULUS
    {
      OneMore(s, start, end, base);
      SkipOne(s, end, base);
      value := Append(value, Horner(s[start..end], base), base, DigitVal(s[end]));
      end := end + 1;
    }
    NoMore(s, end, base);
  }

  lemma Nothing(s: string, start: nat, base: nat)
    requires start <= |s|
    ensures AllDigits(s[start..start], base) && Horner(s[start..start], base) == 0
  {}

  /** One more digit in the fixed-width accumulator. */
  method Append(value: Long, ghost exact: nat, base: nat, digit: nat) returns (r: Long)
    requires value == exact % MODULUS
    ensures r == (exact * base + digit) % MODULUS
  {
    DropTop(exact, base, digit);
    r := (value * base + digit) % MODULUS;
  }

  // ---------------------------------------------------------------- printing

  /** Digits of a positive value. */
  function Len(v: nat, base: nat): nat
    requires base >= 2
  { if v == 0 then 0 else 1 + Len(v / base, base) }

  lemma {:induction false} NumeralLength(v: nat, base: nat, upper: bool)
    requires 2 <= base <= 16
    ensures |Numeral(v, base, upper)| == if v == 0 then 1 else Len(v, base)
  {
    if v >= base {
      var q, m := LastDigit(v, base, upper);
      NotZero(v, base);
      NumeralLength(q, base, upper);
    } else {
      Shrinks(v, base);
    }
  }

  /** Cells a numeral needs. */
  method PrintIntlen(value: Long, base: nat) returns (n: nat)
    requires base >= 2
    ensures n == if value == 0 then 1 else Len(value, base)
  {
    n := 0;
    var v: nat := value;
    while v > 0
      invariant n + Len(v, base) == Len(value, base)
      decreases v
    {
      Shrinks(v, base);
      var rest := v / base;
      v, n := rest, n + 1;
    }
    if n == 0 { n := 1; }
  }

  /** Write a numeral, last digit first, or nothing if the base or the room does not suit. */
  method PrintItoa(buf: array<char>, pos: nat, bufsize: nat, value: Long, base: nat, upper: bool)
    returns (ok: bool, end: nat)
    requires pos + bufsize <= buf.Length
    modifies buf
    ensures ok <==> 2 < base <= 16 && |Numeral(value, base, upper)| <= bufsize
    ensures pos <= end <= pos + bufsize && if ok then buf[pos..end] == Numeral(value, base, upper) else end == pos
    ensures forall k | 0 <= k < buf.Length && !(pos <= k < end) :: buf[k] == old(buf[k])
  {
    if base <= 2 || base > 16 { return false, pos; }
    NumeralLength(value, base, upper);
    var len := PrintIntlen(value, base);
    if len > bufsize { return false, pos; }
    end := pos + len;
    WriteDigits(buf, pos, end, value, base, upper);
    ok := true;
  }

  method WriteDigits(buf: array<char>, pos: nat, end: nat, value: Long, base: nat, upper: bool)
    requires 2 < base <= 16 && end <= buf.Length && pos + |Numeral(value, base, upper)| == end
    modifies buf
    ensures buf[pos..end] == Numeral(value, base, upper)
    ensures forall k | 0 <= k < buf.Length && !(pos <= k < end) :: buf[k] == old(buf[k])
  {
    var i, more := end, true;
    var v: nat := value;
    while more
      invariant pos <= i <= end
      invariant if more then pos + |Numeral(v, base, upper)| == i else i == pos
      invariant (if more then Numeral(v, base, upper) else "") + buf[i..end] == Numeral(value, base, upper)
      invariant forall k | 0 <= k < buf.Length && !(i <= k < end) :: buf[k] == old(buf[k])
      decreases more, v
    {
      ghost var tail := buf[i..end];
      i := i - 1;
      buf[i] := DigitChar(v % base, upper);
      assert buf[i..end] == [DigitChar(v % base, upper)] + tail;
      SplitNumeral(v, base, upper);
      v := v / base;
      more := v != 0;
    }
  }

  lemma SplitNumeral(v: nat, base: nat, upper: bool)
    requires 2 <= base <= 16
    ensures Numeral(v, base, upper)
      == (if v / base == 0 then "" else Numeral(v / base, base, upper)) + [DigitChar(v % base, upper)]
    ensures v / base <= v && (v > 0 ==> v / base < v)
  {
    Shrinks(v, base);
    if v >= base { var _, _ := LastDigit(v, base, upper); NotZero(v, base); }
  }

  lemma NotZero(v: nat, base: nat)
    requires 0 < base <= v
    ensures v / base > 0
  {
    var q, m := Divided(v, base);
    if q == 0 { assert false; }
  }

  /** Conversion of an unsigned long to int. */
  function ToInt(x: nat): int {
    var y := x % 0x1_0000_0000;
    if y < 0x8000_0000 then y else y - 0x1_0000_0000
  }

  function Max0(x: int): nat { if x < 0 then 0 else x }

  /** Padding before a numeral of the given length in a field. */
  function Padding(sizec: string, len: nat, bufsize: nat): nat {
    var n := Max0(ToInt(Parse(sizec, 10).value) - len);
    if n < bufsize then n else bufsize
  }

  method PrintFill(buf: array<char>, pos: nat, bufsize: nat, sizec: string, value: Long, base: nat, c: char, optlen: nat)
    returns (end: nat)
    requires pos + bufsize <= buf.Length && base >= 2
    modifies buf
    ensures end == pos + Padding(sizec, (if value == 0 then 1 else Len(value, base)) + optlen, bufsize) <= pos + bufsize
    ensures buf[pos..end] == Copies(c, end - pos)
    ensures forall k | 0 <= k < buf.Length && !(pos <= k < end) :: buf[k] == old(buf[k])
  {
    var width, _ := Strtoul(sizec, 10);
    var sizei := ToInt(width);
    var len := PrintIntlen(value, base);
    len := len + optlen;
    end := pos;
    if sizei > len {
      var i := 0;
      while i < sizei - len && end - pos < bufsize
        invariant 0 <= i <= sizei - len && end == pos + i <= pos + bufsize
        invariant forall k | pos <= k < end :: buf[k] == c
        invariant forall k | 0 <= k < buf.Length && !(pos <= k < end) :: buf[k] == old(buf[k])
      {
        buf[end] := c;
        end, i := end + 1, i + 1;
      }
    }
  }

  /** A padded unsigned field, as the formats u, x, X and o print it. */
  method PrintField(buf: array<char>, pos: nat, bufsize: nat, sizec: string, value: Long, base: nat, c: char, upper: bool)
    returns (ok: bool, end: nat)
    requires pos + bufsize <= buf.Length && 2 < base <= 16
    modifies buf
    ensures var n := Numeral(value, base, upper);
      && pos <= end <= pos + bufsize
      && (ok <==> Padding(sizec, |n|, bufsize) + |n| <= bufsize)
      && (ok ==> buf[pos..end] == Copies(c, Padding(sizec, |n|, bufsize)) + n)
    ensures forall k | 0 <= k < buf.Length && !(pos <= k < end) :: buf[k] == old(buf[k])
  {
    NumeralLength(value, base, upper);
    end := PrintFill(buf, pos, bufsize, sizec, value, base, c, 0);
    ghost var mid, pad := end, buf[pos..end];
    ok, end := PrintItoa(buf, end, bufsize - (end - pos), value, base, upper);
    assert buf[pos..end] == buf[pos..mid] + buf[mid..end] && buf[pos..mid] == pad;
  }

  // ---------------------------------------------------------------- there and back

  predicate IsLetter(c: char, upper: bool) { if upper then 'A' <= c <= 'Z' else 'a' <= c <= 'z' }

  /** Printed digits above nine are letters of the chosen case and no others, and both cases of all 26
      letters are read as digits. */
  lemma Letters(d: nat, upper: bool, c: char)
    requires d < 16
    ensures IsLetter(DigitChar(d, upper), upper) <==> d >= 10
    ensures !IsLetter(DigitChar(d, upper), !upper)
    ensures 10 <= DigitVal(c) < 36 <==> IsLetter(c, false) || IsLetter(c, true)
    ensures 0 <= DigitVal(c) < 10 <==> '0' <= c <= '9'
  {}

  /** The run of digits at `i` ends at `e`. */
  predicate EndsAt(s: string, i: nat, e: nat, base: nat) {
    i <= e <= |s| && AllDigits(s[i..e], base) && (e < |s| ==> !IsDigit(s[e], base))
  }

  lemma RunsToEnd(s: string, i: nat, e: nat, base: nat)
    requires EndsAt(s, i, e, base)
    ensures SkipDigits(s, i, base) == e
  {
    var e' := SkipDigits(s, i, base);
    assert forall k | i <= k < e :: s[k] == s[i..e][k - i];
    assert forall k | i <= k < e' :: s[k] == s[i..e'][k - i];
  }

  predicate Blanks(pre: string) { forall c <- pre :: c in " \t\n\r" }

  lemma {:induction false} BlanksThen(pre: string, k: nat, s: string)
    requires k <= |pre| && Blanks(pre) && (s == "" || s[0] !in " \t\n\r")
    ensures SkipBlanks(pre + s, k) == |pre|
    decreases |pre| - k
  {
    if k == |pre| {
    } else {
      assert (pre + s)[k] in pre;
      BlanksThen(pre, k + 1, s);
    }
  }

  lemma FromDigits(s: string, i: nat, e: nat, base: nat, v: Long)
    requires EndsAt(s, i, e, base) && Horner(s[i..e], base) == v
    ensures ParseFrom(s, i, base) == Parsed(v, e)
  {
    RunsToEnd(s, i, e, base);
  }

  /** A printed number, with zeros before it. */
  function Printed(n: nat, v: nat, base: nat, upper: bool): string
    requires 2 <= base <= 16
  { Copies('0', n) + Numeral(v, base, upper) }

  /** Text after a number that does not go on with it. */
  predicate Stops(rest: string, base: nat) { rest == "" || (!IsDigit(rest[0], base) && rest[0] != 'x') }

  lemma PrintedReads(pre: string, n: nat, v: Long, base: nat, upper: bool, rest: string)
    requires 2 <= base <= 16 && Stops(rest, base)
    ensures var s, num := pre + Printed(n, v, base, upper) + rest, Printed(n, v, base, upper);
      && |num| > 0 && AllDigits(num, base) && IsDigit(s[|pre|], base)
      && EndsAt(s, |pre|, |pre + num|, base) && ParseFrom(s, |pre|, base) == Parsed(v, |pre + num|)
  {
    var num := Printed(n, v, base, upper);
    var s := pre + num + rest;
    NumeralReads(v, base, upper);
    NumeralLength(v, base, upper);
    LeadingZeros(n, Numeral(v, base, upper), base);
    assert s[|pre|..|pre + num|] == num && s[|pre|] == num[0];
    FromDigits(s, |pre|, |pre + num|, base, v);
  }

  lemma NoPrefix(pre: string, num: string, rest: string, base: nat)
    requires base <= 16 && num != "" && AllDigits(num, base) && Stops(rest, base)
    ensures !HasPrefix(pre + num + rest, |pre|)
  {
    var s := pre + num + rest;
    if |num| > 1 { assert s[|pre| + 1] == num[1]; }
    else if rest != "" { assert s[|pre| + 1] == rest[0]; }
  }

  lemma DigitIsNoBlank(c: char, base: nat)
    requires IsDigit(c, base)
    ensures c !in " \t\n\r"
  {}

  /** strtoul in the base reads back what the printers wrote, after any blanks, with any zeros before it and
      in either case, up to the text that follows; base 0 reads decimal. */
  lemma ReadsBack(pre: string, n: nat, v: Long, base: nat, upper: bool, rest: string)
    requires 2 < base <= 16 && Blanks(pre) && Stops(rest, base)
    ensures var num := Printed(n, v, base, upper);
      && Parse(pre + num + rest, base) == Parsed(v, |pre + num|)
      && (base == 10 ==> Parse(pre + num + rest, 0) == Parsed(v, |pre + num|))
  {
    var num := Printed(n, v, base, upper);
    PrintedReads(pre, n, v, base, upper, rest);
    DigitIsNoBlank(num[0], base);
    BlanksThen(pre, 0, num + rest);
    assert pre + num + rest == pre + (num + rest);
    NoPrefix(pre, num, rest, base);
  }

  /** With "0x" before it, a hexadecimal number is read in base 16 and in base 0. */
  lemma ReadsPrefixed(pre: string, n: nat, v: Long, upper: bool, rest: string)
    requires Blanks(pre) && Stops(rest, 16)
    ensures var s := pre + "0x" + Printed(n, v, 16, upper);
      Parse(s + rest, 16) == Parsed(v, |s|) && Parse(s + rest, 0) == Parsed(v, |s|)
  {
    hide ParseFrom, Printed, EndsAt, SkipBlanks, IsBlank, AllDigits;
    var num := Printed(n, v, 16, upper);
    var s := pre + "0x" + num + rest;
    PrintedReads(pre + "0x", n, v, 16, upper, rest);
    BlanksThen(pre, 0, "0x" + num + rest);
    assert s == pre + ("0x" + num + rest);
    assert CharAt(s, |pre|) == '0' && CharAt(s, |pre| + 1) == 'x';
  }

  /** Text that does not start with a digit, after any blanks, is zero. */
  lemma ReadsNothing(pre: string, rest: string, base: nat)
    requires 0 < base <= 36 && Blanks(pre) && (rest == "" || (rest[0] !in " \t\n\r" && !IsDigit(rest[0], base)))
    requires base == 16 ==> !HasPrefix(rest, 0)
    ensures Parse(pre + rest, base) == Parsed(0, |pre|)
  {
    var s := pre + rest;
    BlanksThen(pre, 0, rest);
    assert CharAt(s, |pre|) == CharAt(rest, 0) && CharAt(s, |pre| + 1) == CharAt(rest, 1);
    FromDigits(s, |pre|, |pre|, base, 0);
  }

  /** A field width printed in decimal, read as the int x that it is modulo 2^32, pads a shorter numeral to
      that width, as far as there is room. */
  lemma FieldWidth(n: nat, width: Long, x: int, len: nat, bufsize: nat)
    requires -0x8000_0000 <= x < 0x8000_0000 && (width - x) % 0x1_0000_0000 == 0
    ensures var p := Padding(Printed(n, width, 10, false), len, bufsize);
      if x <= len then p == 0 else if x - len <= bufsize then p == x - len else p == bufsize
  {
    hide Parse, Printed;
    var num := Printed(n, width, 10, false);
    ReadsBack("", n, width, 10, false, "");
    assert "" + num + "" == num;
  }
}
