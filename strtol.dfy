/** z_strtol and z_strtoul: conversion of the text at the start of a C string
    into a `long` / `unsigned long`. The conversion is specified by pure
    functions over the bytes (leading blanks, optional sign, optional 0x/0b
    prefix, the maximal run of digits of the base and its value, clamped on
    overflow) and implemented by methods that follow the cursor, accumulator
    and flag variables of the source. The end pointer is returned as an
    offset from the start of the string. */
module StrToL {
  import opened Machine
  import opened Wrappers
  import opened CType
  import opened CString

  /** What a parse yields: the value and the offset `*endptr` is set to. */
  datatype Parsed = Parsed(value: int, end: nat)

  /** Where the digits begin, in which base, and whether a '-' was seen. */
  datatype Scan = Scan(neg: bool, base: nat, start: nat)

  /** The value of a byte read as a digit: '0'-'9' give 0-9, letters of
      either case give 10-35, anything else is not a digit. */
  function DigitValue(c: Byte): (d: Option<nat>)
    ensures d.Some? <==> IsDigit(c) || IsAlpha(c)
    ensures '0' as int <= c <= '9' as int ==> d == Some(c - '0' as int)
    ensures 'A' as int <= c <= 'Z' as int ==> d == Some(c - 'A' as int + 10)
    ensures 'a' as int <= c <= 'z' as int ==> d == Some(c - 'a' as int + 10)
    ensures d.Some? ==> d.value < 36
  {
    if IsDigit(c) then Some(c - '0' as int)
    else if IsAlpha(c) then Some(c - if IsUpper(c) then 'A' as int - 10 else 'a' as int - 10)
    else None
  }

  /** The byte is a digit of the given base. */
  predicate IsDigitIn(c: Byte, base: nat)
  {
    DigitValue(c).Some? && DigitValue(c).value < base
  }

  /** The first position at or after `i` that is not a blank. */
  function SkipSpaces(s: seq<Byte>, i: nat): (k: nat)
    requires Terminated(s) && i <= NulIndex(s)
    ensures i <= k <= NulIndex(s)
    ensures !IsSpace(s[k])
    ensures forall j :: i <= j < k ==> IsSpace(s[j])
    decreases NulIndex(s) - i
  {
    if IsSpace(s[i]) then SkipSpaces(s, i + 1) else i
  }

  /** Blanks, one optional sign, then the base prefix: "0x"/"0X" when the
      base is 0 or 16, "0b"/"0B" when it is 0 or 2; a base still 0 becomes 8
      for a leading '0' and 10 otherwise. */
  function ScanPrefix(s: seq<Byte>, base: nat): (r: Scan)
    requires Terminated(s) && base <= 36
    ensures 1 <= r.base <= 36
    ensures r.start <= NulIndex(s)
    ensures base != 0 && r.base != base ==> r.base == 16 || r.base == 2
  {
    var k := SkipSpaces(s, 0);
    var neg := s[k] == '-' as int;
    var j := if s[k] == '-' as int || s[k] == '+' as int then k + 1 else k;
    if (base == 0 || base == 16) && s[j] == '0' as int && (s[j + 1] == 'x' as int || s[j + 1] == 'X' as int) then
      Scan(neg, 16, j + 2)
    else if (base == 0 || base == 2) && s[j] == '0' as int && (s[j + 1] == 'b' as int || s[j + 1] == 'B' as int) then
      Scan(neg, 2, j + 2)
    else
      Scan(neg, if base != 0 then base else if s[j] == '0' as int then 8 else 10, j)
  }

  /** The end of the maximal run of digits of `base` that starts at `i`. */
  function DigitRunEnd(s: seq<Byte>, i: nat, base: nat): (e: nat)
    requires Terminated(s) && i <= NulIndex(s)
    ensures i <= e <= NulIndex(s)
    ensures !IsDigitIn(s[e], base)
    ensures forall j :: i <= j < e ==> IsDigitIn(s[j], base)
    decreases NulIndex(s) - i
  {
    if IsDigitIn(s[i], base) then DigitRunEnd(s, i + 1, base) else i
  }

  /** All bytes are digits of `base`. */
  predicate AllDigits(ds: seq<Byte>, base: nat)
  {
    forall j :: 0 <= j < |ds| ==> IsDigitIn(ds[j], base)
  }

  /** The number a run of digits denotes, most significant digit first. */
  function Value(ds: seq<Byte>, base: nat): nat
    requires AllDigits(ds, base)
  {
    if ds == [] then 0
    else Value(ds[..|ds| - 1], base) * base + DigitValue(ds[|ds| - 1]).value
  }

  /** Largest magnitude z_strtol accepts: LONG_MAX, or 2^63 after a '-'. */
  function LongLimit(neg: bool): nat
  {
    if neg then ToUnsigned64(-(ToUnsigned64(LONG_MIN) as int)) else LONG_MAX
  }

  /** z_strtol. A base outside [0, 36] yields 0 with the end at the start of
      the string; otherwise the digit run's value with its sign, LONG_MAX or
      LONG_MIN when the magnitude does not fit, and the end just after the
      digits, or at the start of the string when there are none. */
  function StrtolSpec(s: seq<Byte>, base: int): (p: Parsed)
    requires Terminated(s)
    ensures LONG_MIN <= p.value <= LONG_MAX
    ensures p.end <= NulIndex(s)
  {
    if base < 0 || base > 36 then Parsed(0, 0)
    else
      var sc := ScanPrefix(s, base);
      var e := DigitRunEnd(s, sc.start, sc.base);
      var v := Value(s[sc.start..e], sc.base);
      var value :=
        if v > LongLimit(sc.neg) then (if sc.neg then LONG_MIN else LONG_MAX)
        else if sc.neg then -(v as int) else v;
      Parsed(value, if e > sc.start then e else 0)
  }

  /** z_strtoul (for a base in [0, 36]): the digit run's value, ULONG_MAX
      when it does not fit, and negated modulo 2^64 after a '-'. */
  function StrtoulSpec(s: seq<Byte>, base: nat): (p: Parsed)
    requires Terminated(s) && base <= 36
    ensures 0 <= p.value <= ULONG_MAX
    ensures p.end <= NulIndex(s)
  {
    var sc := ScanPrefix(s, base);
    var e := DigitRunEnd(s, sc.start, sc.base);
    var v := Value(s[sc.start..e], sc.base);
    var value :=
      if v > ULONG_MAX then ULONG_MAX
      else if sc.neg then ToUnsigned64(-(v as int)) else v;
    Parsed(value, if e > sc.start then e else 0)
  }

  // ---------------------------------------------------------------------
  // Lemmas for the implementation

  lemma {:induction false} ValueSnoc(ds: seq<Byte>, c: Byte, base: nat)
    requires AllDigits(ds, base) && IsDigitIn(c, base)
    ensures AllDigits(ds + [c], base)
    ensures Value(ds + [c], base) == Value(ds, base) * base + DigitValue(c).value
  {
    assert (ds + [c])[..|ds + [c]| - 1] == ds;
  }

  /** Extending a run of digits by the next digit of the string. */
  lemma NextDigit(s: seq<Byte>, start: nat, i: nat, base: nat)
    requires Terminated(s) && start <= NulIndex(s) && start <= i <= DigitRunEnd(s, start, base)
    requires AllDigits(s[start..i], base) && IsDigitIn(s[i], base)
    ensures i + 1 <= DigitRunEnd(s, start, base)
    ensures AllDigits(s[start..i + 1], base)
    ensures Value(s[start..i + 1], base) == Value(s[start..i], base) * base + DigitValue(s[i]).value
  {
    assert s[start..i + 1] == s[start..i] + [s[i]];
    ValueSnoc(s[start..i], s[i], base);
  }

  /** The overflow test of the loop, stated on the quotient and remainder of
      the limit, decides whether one more digit would exceed the limit. */
  lemma CutoffTest(acc: nat, d: nat, base: nat, limit: nat)
    requires 1 <= base && d < base
    ensures (acc > limit / base || (acc == limit / base && d > limit % base)) <==> acc * base + d > limit
  {
    var q, r := limit / base, limit % base;
    assert limit == q * base + r;
    if acc > q {
      calc {
        acc * base + d;
      >= (q + 1) * base;
        { assert (q + 1) * base == q * base + base; }
        q * base + base;
      >  limit;
      }
    } else if acc < q {
      assert acc + 1 <= q;
      assert (acc + 1) * base <= q * base by {
        MulMonotone(acc + 1, q, base);
      }
      assert acc * base + d < (acc + 1) * base;
    }
  }

  lemma MulMonotone(a: nat, b: nat, k: nat)
    requires a <= b
    ensures a * k <= b * k
  {
  }

  /** The state of the digit loop after the digits of value `v`: `any` is 0
      before the first digit, 1 while the value fits under `limit` (and is
      then `acc`), -1 once it has overflowed; `acc` never exceeds `limit`. */
  predicate Accumulated(v: nat, acc: nat, any: int, empty: bool, limit: nat)
  {
    && (empty <==> any == 0)
    && (any == 0 ==> acc == 0 && v == 0)
    && (any == -1 || any == 0 || any == 1)
    && (any == -1 <==> v > limit)
    && (any == 1 ==> acc == v)
    && acc <= limit
  }

  /** One iteration of the digit loop keeps its state consistent. */
  lemma AccumulateStep(v: nat, acc: nat, any: int, empty: bool, c: nat, base: nat, limit: nat)
    requires Accumulated(v, acc, any, empty, limit) && 1 <= base && c < base
    ensures var overflow := any < 0 || acc > limit / base || (acc == limit / base && c > limit % base);
            Accumulated(v * base + c, if overflow then acc else acc * base + c,
                        if overflow then -1 else 1, false, limit)
  {
    if any < 0 {
      OverflowSticks(v, c, base, limit);
    } else {
      CutoffTest(acc, c, base, limit);
    }
  }

  /** Once the digits exceed the limit, more digits keep them above it. */
  lemma OverflowSticks(v: nat, d: nat, base: nat, limit: nat)
    requires 1 <= base && v > limit
    ensures v * base + d > limit
  {
    MulMonotone(1, base, v);
  }

  // ---------------------------------------------------------------------
  // The loops

  /** The do-while loop `do c = *s++; while (z_isspace(c))`: the index of
      the first byte that is not a blank. */
  method SkipBlanks(str: seq<Byte>) returns (k: nat)
    requires Terminated(str)
    ensures k == SkipSpaces(str, 0)
  {
    k := 0;
    while IsSpace(str[k])
      invariant k <= SkipSpaces(str, 0)
      invariant forall j :: 0 <= j < k ==> IsSpace(str[j])
      decreases NulIndex(str) - k
    {
      k := k + 1;
    }
  }

  /** The blank-skipping, sign and prefix steps shared by both conversions
      (a do-while loop over `c = *s++`, then straight-line code). */
  method ScanFront(str: seq<Byte>, base: nat) returns (neg: bool, b: nat, pos: nat)
    requires Terminated(str) && base <= 36
    ensures Scan(neg, b, pos) == ScanPrefix(str, base)
  {
    var k := SkipBlanks(str);
    var c := str[k];
    pos := k;
    neg := false;
    if c == '-' as int {
      neg := true;
      pos := pos + 1;
      c := str[pos];
    } else if c == '+' as int {
      pos := pos + 1;
      c := str[pos];
    }
    b := base;
    if (b == 0 || b == 16) && c == '0' as int && (str[pos + 1] == 'x' as int || str[pos + 1] == 'X' as int) {
      pos := pos + 2;
      b := 16;
    } else if (b == 0 || b == 2) && c == '0' as int && (str[pos + 1] == 'b' as int || str[pos + 1] == 'B' as int) {
      pos := pos + 2;
      b := 2;
    }
    if b == 0 {
      b := if c == '0' as int then 8 else 10;
    }
  }

  /** The digit loop shared by both conversions. `any` is 0 before the first
      digit, 1 while the accumulated value fits under `limit`, and -1 once it
      has overflowed; digits are consumed either way. */
  method Accumulate(str: seq<Byte>, start: nat, base: nat, limit: nat) returns (acc: nat, any: int, next: nat)
    requires Terminated(str) && start <= NulIndex(str) && 1 <= base <= 36
    ensures next == DigitRunEnd(str, start, base)
    ensures AllDigits(str[start..next], base)
    ensures any == -1 || any == 0 || any == 1
    ensures any == 0 <==> next == start
    ensures any == 0 ==> acc == 0
    ensures any == -1 <==> next > start && Value(str[start..next], base) > limit
    ensures any == 1 ==> acc == Value(str[start..next], base)
    ensures acc <= limit
  {
    var cutoff := limit / base;
    var cutlim := limit % base;
    acc, any := 0, 0;
    var i := start;
    ghost var v := 0;
    while true
      invariant start <= i <= DigitRunEnd(str, start, base)
      invariant AllDigits(str[start..i], base) && v == Value(str[start..i], base)
      invariant Accumulated(v, acc, any, i == start, limit)
      decreases NulIndex(str) - i
    {
      var digit := DigitValue(str[i]);
      if digit.None? {
        break;
      }
      var c := digit.value;
      if c >= base {
        break;
      }
      NextDigit(str, start, i, base);
      AccumulateStep(v, acc, any, i == start, c, base, limit);
      if any < 0 || acc > cutoff || (acc == cutoff && c > cutlim) {
        any := -1;
      } else {
        any := 1;
        acc := acc * base + c;
      }
      v := v * base + c;
      assert v == Value(str[start..i + 1], base);
      i := i + 1;
    }
    next := i;
  }

  /** z_strtol, returning the value and the end offset. */
  method Strtol(str: seq<Byte>, base: int) returns (value: Int64, end: nat)
    requires Terminated(str)
    ensures Parsed(value, end) == StrtolSpec(str, base)
  {
    if base < 0 || base > 36 {
      return 0, 0;
    }
    var neg, b, pos := ScanFront(str, base);
    var limit := LongLimit(neg);
    var acc, any, next := Accumulate(str, pos, b, limit);
    assert any == 0 ==> str[pos..next] == [];
    var result: UInt64;
    if any < 0 {
      result := if neg then ToUnsigned64(LONG_MIN) else LONG_MAX;
    } else if neg {
      result := ToUnsigned64(-(acc as int));
    } else {
      result := acc;
    }
    end := if any != 0 then next else 0;
    value := ToSigned64(result);
  }

  /** z_strtoul, returning the value and the end offset. */
  method Strtoul(str: seq<Byte>, base: nat) returns (value: UInt64, end: nat)
    requires Terminated(str) && base <= 36
    ensures Parsed(value, end) == StrtoulSpec(str, base)
  {
    var neg, b, pos := ScanFront(str, base);
    var acc, any, next := Accumulate(str, pos, b, ULONG_MAX);
    assert any == 0 ==> str[pos..next] == [];
    if any < 0 {
      value := ULONG_MAX;
    } else if neg {
      value := ToUnsigned64(-(acc as int));
    } else {
      value := acc;
    }
    end := if any != 0 then next else 0;
  }
}
