/**
 The exact decimal reading of a ProtoJSON int32 (gemini.go, geminiInt32): number text as in section
 6 of RFC 8259, read without floating point.
 */
module GeminiNumber {
  import opened Common

  // ------------------------------------------------------------------ powers of ten ----

  function Pow10(k: nat): (p: nat)
    ensures p >= 1
  {
    if k == 0 then 1 else 10 * Pow10(k - 1)
  }

  lemma TenTimes(x: int, p: int)
    ensures (x * p) * 10 == x * (10 * p) == (10 * p) * x && x * p == p * x
  {
  }

  lemma {:induction false} Pow10Add(a: nat, b: nat)
    ensures Pow10(a + b) == Pow10(a) * Pow10(b)
  {
    if a > 0 {
      Pow10Add(a - 1, b);
      TenTimes(Pow10(b), Pow10(a - 1));
      assert a - 1 + b == a + b - 1;
    }
  }

  lemma Pow10Monotone(a: nat, b: nat)
    requires a <= b
    ensures Pow10(a) <= Pow10(b)
  {
    Pow10Add(a, b - a);
    MulGrows(Pow10(a), Pow10(b - a));
  }

  lemma MulGrows(x: nat, y: nat)
    requires y >= 1
    ensures x * y >= x
  {
  }

  lemma Cancel(x: int, y: int, p: nat)
    requires p >= 1
    ensures x * p == y * p <==> x == y
  {
    if x < y {
      assert (y - x) * p >= 1;
    } else if x > y {
      assert (x - y) * p >= 1;
    }
  }

  // ------------------------------------------------------------------ digit strings ----

  predicate IsDigit(c: char) {
    '0' <= c <= '9'
  }

  predicate AllDigits(s: Bytes) {
    forall i | 0 <= i < |s| :: IsDigit(s[i])
  }

  predicate AllZeros(s: Bytes) {
    forall i | 0 <= i < |s| :: s[i] == '0'
  }

  function DigitValue(c: char): (d: nat)
    requires IsDigit(c)
    ensures d <= 9 && (d == 0 <==> c == '0')
  {
    c as int - '0' as int
  }

  function Value(s: Bytes): nat
    requires AllDigits(s)
  {
    if s == "" then 0 else Value(s[..|s| - 1]) * 10 + DigitValue(s[|s| - 1])
  }

  lemma ValuePush(s: Bytes, c: char)
    requires AllDigits(s) && IsDigit(c)
    ensures AllDigits(s + [c]) && Value(s + [c]) == Value(s) * 10 + DigitValue(c)
  {
    assert (s + [c])[..|s|] == s;
  }

  lemma {:induction false} ValueTrailingZeros(s: Bytes, k: nat)
    requires AllDigits(s) && k <= |s| && AllZeros(s[|s| - k..])
    ensures Value(s) == Value(s[..|s| - k]) * Pow10(k)
  {
    if k == 0 {
      assert s[..|s|] == s;
    } else {
      var init := s[..|s| - 1];
      assert s[|s| - 1] == s[|s| - k..][k - 1];
      assert init[|init| - (k - 1)..] == s[|s| - k..][..k - 1];
      ValueTrailingZeros(init, k - 1);
      assert init[..|init| - (k - 1)] == s[..|s| - k];
      TenTimes(Value(s[..|s| - k]), Pow10(k - 1));
    }
  }

  lemma {:induction false} ValueLeadingZeros(s: Bytes, k: nat)
    requires AllDigits(s) && k <= |s| && AllZeros(s[..k])
    ensures Value(s) == Value(s[k..])
    decreases |s|
  {
    if k < |s| {
      assert s[..|s| - 1][..k] == s[..k];
      ValueLeadingZeros(s[..|s| - 1], k);
      assert s[k..][..|s[k..]| - 1] == s[..|s| - 1][k..];
    } else {
      assert s[..k] == s && s[k..] == "";
      ZerosValue(s);
    }
  }

  lemma {:induction false} ZerosValue(s: Bytes)
    requires AllZeros(s)
    ensures AllDigits(s) && Value(s) == 0
    decreases |s|
  {
    if s != "" {
      ZerosValue(s[..|s| - 1]);
    }
  }

  /** A number without leading zeros has as many digits as its size says. */
  lemma {:induction false} ValueBounds(s: Bytes)
    requires AllDigits(s) && s != "" && s[0] != '0'
    ensures Pow10(|s| - 1) <= Value(s) < Pow10(|s|)
    decreases |s|
  {
    if |s| > 1 {
      ValueBounds(s[..|s| - 1]);
    } else {
      assert s[..0] == "";
      assert Value(s) == DigitValue(s[0]);
    }
  }

  lemma LastDigit(s: Bytes)
    requires AllDigits(s) && s != "" && s[|s| - 1] != '0'
    ensures Value(s) % 10 != 0
  {
    TensPlus(Value(s[..|s| - 1]), DigitValue(s[|s| - 1]));
  }

  lemma TensPlus(x: nat, d: nat)
    requires 0 < d < 10
    ensures (x * 10 + d) % 10 != 0
  {
  }

  // ---------------------------------------------------------------- number text ----

  datatype Exponent = Exponent(mark: char, sign: Bytes, digits: Bytes)

  /** Number text, taken apart. */
  datatype Number = Number(negative: bool, whole: Bytes, fraction: Option<Bytes>, exponent: Option<Exponent>)

  predicate ValidNumber(n: Number) {
    && AllDigits(n.whole) && n.whole != "" && (n.whole[0] == '0' ==> |n.whole| == 1)
    && (n.fraction.Some? ==> AllDigits(n.fraction.value) && n.fraction.value != "")
    && (n.exponent.Some? ==>
      var e := n.exponent.value;
      e.mark in {'e', 'E'} && e.sign in {"", "+", "-"} && AllDigits(e.digits) && e.digits != "")
  }

  function Mantissa(n: Number): Bytes {
    n.whole + if n.fraction.Some? then "." + n.fraction.value else ""
  }

  function ExponentText(e: Exponent): Bytes {
    e.sign + e.digits
  }

  function Text(n: Number): Bytes {
    (if n.negative then "-" else "") + Mantissa(n)
    + if n.exponent.Some? then [n.exponent.value.mark] + ExponentText(n.exponent.value) else ""
  }

  function FractionDigits(n: Number): Bytes {
    if n.fraction.Some? then n.fraction.value else ""
  }

  /** All digits of the mantissa, as one integer. */
  function Digits(n: Number): Bytes {
    n.whole + FractionDigits(n)
  }

  function Signed(negative: bool, x: nat): int {
    if negative then 0 - x else x
  }

  function ExponentValue(n: Number): int
    requires ValidNumber(n)
  {
    if n.exponent.None? then 0
    else Signed(n.exponent.value.sign == "-", Value(n.exponent.value.digits))
  }

  /** Is the rational number that the text denotes the integer v? The number is the signed digits
      times a power of ten; a negative power is moved to the other side. */
  predicate Denotes(n: Number, v: int)
    requires ValidNumber(n) && AllDigits(Digits(n))
  {
    var m := Signed(n.negative, Value(Digits(n)));
    var e := ExponentValue(n) - |FractionDigits(n)|;
    if e >= 0 then v == m * Pow10(e) else v * Pow10(-e) == m
  }

  predicate Int32(v: int) {
    MIN_INT32 <= v <= MAX_INT32
  }

  /** strconv.ParseInt(s, 10, 32) on an optional sign and digits. */
  function ParseInt32(s: Bytes): Option<int>
    requires s != "" && AllDigits(if s[0] == '+' || s[0] == '-' then s[1..] else s)
  {
    var v := Signed(s[0] == '-', Value(if s[0] == '+' || s[0] == '-' then s[1..] else s));
    if Int32(v) then Some(v) else None
  }

  // --------------------------------------------------------------- significant digits ----

  /** first and last are the outermost non-zero digits of ds, or both -1. */
  ghost predicate Significant(ds: Bytes, first: int, last: int) {
    if first < 0 then last == first == -1 && AllZeros(ds)
    else
      && first <= last < |ds| && ds[first] != '0' && ds[last] != '0'
      && AllZeros(ds[..first]) && AllZeros(ds[last + 1..])
  }

  lemma SignificantPush(ds: Bytes, first: int, last: int, c: char)
    requires Significant(ds, first, last)
    ensures Significant(ds + [c],
      if c != '0' && first < 0 then |ds| else first,
      if c != '0' then |ds| else last)
  {
    var all := ds + [c];
    if first >= 0 {
      assert all[..first] == ds[..first];
      assert c == '0' ==> all[last + 1..] == ds[last + 1..] + [c];
    } else {
      assert all[..|ds|] == ds;
    }
    assert all[|ds| + 1..] == "";
  }

  lemma SignificantValue(ds: Bytes, first: int, last: int)
    requires AllDigits(ds) && Significant(ds, first, last) && first >= 0
    ensures var s := ds[first..last + 1];
      && AllDigits(s) && Value(ds) == Value(s) * Pow10(|ds| - 1 - last)
      && Pow10(last - first) <= Value(s) < Pow10(last - first + 1) && Value(s) % 10 != 0
  {
    var k := |ds| - 1 - last;
    assert ds[|ds| - k..] == ds[last + 1..];
    ValueTrailingZeros(ds, k);
    var head := ds[..last + 1];
    assert ds[..|ds| - k] == head;
    assert head[..first] == ds[..first];
    ValueLeadingZeros(head, first);
    var s := ds[first..last + 1];
    assert head[first..] == s;
    assert s[0] == ds[first] && s[|s| - 1] == ds[last];
    ValueBounds(s);
    LastDigit(s);
  }

  // ----------------------------------------------------------------- the arithmetic ----

  lemma ScaledUp(v: int, m: int, z: nat, e: nat)
    ensures v == (m * Pow10(z)) * Pow10(e) <==> v == m * Pow10(e + z)
  {
    Pow10Add(e, z);
    MulRegroup(m, Pow10(z), Pow10(e));
  }

  lemma MulRegroup(a: int, b: int, c: int)
    ensures (a * b) * c == a * (c * b) && (a * b) * c == a * (b * c)
  {
  }

  lemma ScaledDown(v: int, m: int, up: nat, down: nat)
    ensures v * Pow10(down) == m * Pow10(up + down) <==> v == m * Pow10(up)
  {
    Pow10Add(up, down);
    MulRegroup(m, Pow10(up), Pow10(down));
    Cancel(v, m * Pow10(up), Pow10(down));
  }

  lemma NotIntegral(v: int, m: int, z: nat, d: nat)
    requires m % 10 != 0 && d >= 1
    ensures v * Pow10(z + d) != m * Pow10(z)
  {
    Pow10Add(d, z);
    MulRegroup(v, Pow10(d), Pow10(z));
    Cancel(v * Pow10(d), m, Pow10(z));
    assert Pow10(d) == 10 * Pow10(d - 1);
    TimesTen(v, Pow10(d - 1));
  }

  lemma TimesTen(v: int, p: int)
    ensures (v * (10 * p)) % 10 == 0
  {
    MulRegroup(v, p, 10);
  }

  /** m * 10^z times 10^e is the integer v exactly when v is m * 10^(e+z), and never when e+z < 0,
      since then m would be a multiple of ten. */
  lemma ScaledInteger(v: int, m: int, z: nat, e: int)
    requires m % 10 != 0
    ensures (if e >= 0 then v == (m * Pow10(z)) * Pow10(e) else v * Pow10(-e) == m * Pow10(z))
      <==> e + z >= 0 && v == m * Pow10(e + z)
  {
    if e >= 0 {
      ScaledUp(v, m, z, e);
    } else if e + z >= 0 {
      ScaledDown(v, m, e + z, -e);
    } else {
      NotIntegral(v, m, z, -e - z);
    }
  }

  lemma TenDigits()
    ensures Pow10(10) == 10_000_000_000
  {
    assert Pow10(5) == 100_000;
    Pow10Add(5, 5);
  }

  /** Ten digits are enough to leave the range. */
  lemma TooBig(m: int, s: nat, digits: nat)
    requires digits >= 1 && Pow10(digits - 1) <= (if m < 0 then -m else m)
    requires digits + s > 10
    ensures !Int32(m * Pow10(s))
  {
    var x := if m < 0 then -m else m;
    Pow10Add(digits - 1, s);
    Pow10Monotone(10, digits - 1 + s);
    TenDigits();
    MulMonotone(Pow10(digits - 1), x, Pow10(s));
    assert m < 0 ==> m * Pow10(s) == -(x * Pow10(s));
  }

  lemma MulMonotone(x: nat, y: nat, p: nat)
    requires x <= y
    ensures x * p <= y * p
  {
  }

  // ------------------------------------------------------------------------ the method ----

  lemma DigitsAreDigits(n: Number)
    requires ValidNumber(n)
    ensures AllDigits(Digits(n))
  {
  }

  /** The mantissa's characters: every digit in order, and the dot after the whole part. */
  lemma MantissaAt(n: Number, k: nat)
    requires ValidNumber(n) && k < |Mantissa(n)|
    ensures |Mantissa(n)| == |Digits(n)| + if n.fraction.Some? then 1 else 0
    ensures var c := Mantissa(n)[k];
      if k < |n.whole| then c == Digits(n)[k] && IsDigit(c)
      else if k == |n.whole| then c == '.'
      else c == Digits(n)[k - 1] && IsDigit(c)
  {
  }

  /** How many of the first k mantissa characters are digits. */
  function DigitCount(n: Number, k: nat): nat {
    if k <= |n.whole| then k else k - 1
  }

  method ScanMantissa(mantissa: Bytes, ghost n: Number) returns (first: int, last: int, digits: nat, fraction: nat)
    requires ValidNumber(n) && mantissa == Mantissa(n)
    ensures Significant(Digits(n), first, last) && digits == |Digits(n)| && fraction == |FractionDigits(n)|
  {
    first, last, digits, fraction := -1, -1, 0, 0;
    var afterDot := false;
    ghost var ds := Digits(n);
    for k := 0 to |mantissa|
      invariant digits == DigitCount(n, k) <= |ds| && Significant(ds[..digits], first, last)
      invariant afterDot <==> k > |n.whole|
      invariant fraction == if k > |n.whole| then k - 1 - |n.whole| else 0
    {
      MantissaAt(n, k);
      if mantissa[k] == '.' {
        afterDot := true;
        continue;
      }
      assert ds[..digits + 1] == ds[..digits] + [mantissa[k]];
      SignificantPush(ds[..digits], first, last, mantissa[k]);
      if mantissa[k] != '0' {
        if first < 0 {
          first := digits;
        }
        last := digits;
      }
      digits := digits + 1;
      if afterDot {
        fraction := fraction + 1;
      }
    }
    if |mantissa| > 0 {
      MantissaAt(n, |mantissa| - 1);
    }
    assert ds[..digits] == ds;
  }

  /** The significant digits among the first p digits. */
  function Taken(ds: Bytes, first: nat, last: nat, p: nat): Bytes
    requires first <= last < |ds| && p <= |ds|
  {
    ds[first..if p <= first then first else if p <= last then p else last + 1]
  }

  lemma TakenPush(ds: Bytes, first: nat, last: nat, p: nat)
    requires first <= last < |ds| && p < |ds| && AllDigits(ds)
    ensures AllDigits(Taken(ds, first, last, p)) && AllDigits(Taken(ds, first, last, p + 1))
    ensures Value(Taken(ds, first, last, p + 1))
      == if first <= p <= last then Value(Taken(ds, first, last, p)) * 10 + DigitValue(ds[p]) else Value(Taken(ds, first, last, p))
  {
    if first <= p <= last {
      assert Taken(ds, first, last, p + 1) == Taken(ds, first, last, p) + [ds[p]];
      ValuePush(Taken(ds, first, last, p), ds[p]);
    }
  }

  /** The value of the significant digits. */
  method Accumulate(mantissa: Bytes, first: nat, last: nat, ghost n: Number) returns (value: nat)
    requires ValidNumber(n) && mantissa == Mantissa(n) && first <= last < |Digits(n)| && last - first + 1 <= 10
    ensures AllDigits(Digits(n)[first..last + 1]) && value == Value(Digits(n)[first..last + 1])
  {
    value := 0;
    var position := 0;
    ghost var ds := Digits(n);
    DigitsAreDigits(n);
    assert Taken(ds, first, last, 0) == "";
    for k := 0 to |mantissa|
      invariant position == DigitCount(n, k) <= |ds|
      invariant AllDigits(Taken(ds, first, last, position)) && value == Value(Taken(ds, first, last, position))
      invariant value < MAX_INT64
    {
      MantissaAt(n, k);
      if mantissa[k] == '.' {
        continue;
      }
      TakenPush(ds, first, last, position);
      if first <= position <= last {
        value := value * 10 + DigitValue(mantissa[k]);
        TenDigitsFit(Taken(ds, first, last, position + 1));
      }
      position := position + 1;
    }
    if |mantissa| > 0 {
      MantissaAt(n, |mantissa| - 1);
    }
  }

  lemma {:induction false} ValueUpper(s: Bytes)
    requires AllDigits(s)
    ensures Value(s) < Pow10(|s|)
    decreases |s|
  {
    if s != "" {
      ValueUpper(s[..|s| - 1]);
    }
  }

  lemma TenDigitsFit(s: Bytes)
    requires AllDigits(s) && |s| <= 10
    ensures Value(s) < MAX_INT64
  {
    ValueUpper(s);
    Pow10Monotone(|s|, 10);
    TenDigits();
  }

  lemma NoMark(n: Number, k: nat)
    requires ValidNumber(n) && k < |Mantissa(n)|
    ensures Mantissa(n)[k] != 'e' && Mantissa(n)[k] != 'E' && Mantissa(n)[k] != '-'
  {
    MantissaAt(n, k);
  }

  /** The text after the mantissa. */
  function Tail(n: Number): Bytes {
    if n.exponent.Some? then [n.exponent.value.mark] + ExponentText(n.exponent.value) else ""
  }

  lemma TextParts(n: Number)
    requires ValidNumber(n)
    ensures Mantissa(n) != "" && Text(n) != ""
    ensures Text(n)[0] == '-' <==> n.negative
    ensures (if n.negative then Text(n)[1..] else Text(n)) == Mantissa(n) + Tail(n)
  {
    NoMark(n, 0);
    var rest := Mantissa(n) + Tail(n);
    assert rest[0] == Mantissa(n)[0];
    if n.negative {
      Assoc("-", Mantissa(n), Tail(n));
      assert ("-" + rest)[1..] == rest;
    } else {
      assert "" + Mantissa(n) == Mantissa(n);
    }
  }

  lemma MarkSlices(m: Bytes, mark: char, e: Bytes)
    ensures var rest := m + ([mark] + e);
      rest[|m|] == mark && rest[..|m|] == m && rest[|m| + 1..] == e
  {
  }

  /** Take off the sign and find the exponent mark. */
  method SplitText(text: Bytes, ghost n: Number) returns (negative: bool, mantissa: Bytes, exponentText: Bytes)
    requires ValidNumber(n) && text == Text(n)
    ensures negative == n.negative && mantissa == Mantissa(n)
    ensures exponentText == if n.exponent.Some? then ExponentText(n.exponent.value) else "0"
  {
    TextParts(n);
    negative := text[0] == '-';
    mantissa, exponentText := SplitRest(if negative then text[1..] else text, n);
  }

  /** Without the sign. */
  method SplitRest(rest: Bytes, ghost n: Number) returns (mantissa: Bytes, exponentText: Bytes)
    requires ValidNumber(n) && rest == Mantissa(n) + Tail(n)
    ensures mantissa == Mantissa(n)
    ensures exponentText == if n.exponent.Some? then ExponentText(n.exponent.value) else "0"
  {
    if n.exponent.Some? {
      MarkSlices(Mantissa(n), n.exponent.value.mark, ExponentText(n.exponent.value));
    } else {
      assert rest == Mantissa(n);
    }
    var pos := FindMark(rest, n);
    mantissa, exponentText := rest, "0";
    if pos < |rest| {
      mantissa, exponentText := rest[..pos], rest[pos + 1..];
    }
  }

  method FindMark(rest: Bytes, ghost n: Number) returns (pos: nat)
    requires ValidNumber(n) && rest == Mantissa(n) + Tail(n)
    ensures pos == |Mantissa(n)|
  {
    pos := 0;
    while pos < |rest| && rest[pos] != 'e' && rest[pos] != 'E'
      invariant pos <= |Mantissa(n)|
    {
      pos := pos + 1;
    }
    if pos < |Mantissa(n)| {
      NoMark(n, pos);
    }
  }

  lemma ParsedExponent(n: Number)
    requires ValidNumber(n) && n.exponent.Some?
    ensures var e := ExponentText(n.exponent.value);
      && e != "" && AllDigits(if e[0] == '+' || e[0] == '-' then e[1..] else e)
      && ParseInt32(e) == if Int32(ExponentValue(n)) then Some(ExponentValue(n)) else None
  {
    var e := n.exponent.value;
    assert IsDigit(e.digits[0]);
    if e.sign == "" {
      assert ExponentText(e) == e.digits;
    } else {
      assert ExponentText(e)[1..] == e.digits;
    }
  }

  /** v is the answer the text asks for. */
  predicate Answers(n: Number, v: int)
    requires ValidNumber(n) && AllDigits(Digits(n))
  {
    Denotes(n, v) && Int32(v) && (v == 0 || Int32(ExponentValue(n)))
  }

  lemma ZeroAnswers(n: Number, v: int)
    requires ValidNumber(n) && AllZeros(Digits(n))
    ensures AllDigits(Digits(n)) && (Denotes(n, v) <==> v == 0)
  {
    ZerosValue(Digits(n));
    var e := ExponentValue(n) - |FractionDigits(n)|;
    if e < 0 {
      Cancel(v, 0, Pow10(-e));
    }
  }

  /** The text denotes exactly m shifted left by scale, and nothing when the shift is negative. */
  ghost predicate DenotesShifted(n: Number, m: int, scale: int)
    requires ValidNumber(n) && AllDigits(Digits(n))
  {
    forall v :: Denotes(n, v) <==> scale >= 0 && v == m * Pow10(scale)
  }

  lemma SignedTimes(negative: bool, x: nat, p: nat)
    ensures Signed(negative, x * p) == Signed(negative, x) * p
  {
  }

  lemma SignedLast(negative: bool, x: nat)
    requires x % 10 != 0
    ensures Signed(negative, x) % 10 != 0
  {
    var q := (0 - x) / 10;
    assert 0 - x == 10 * q + (0 - x) % 10;
    assert (0 - x) % 10 == 0 ==> x == 10 * -q;
  }

  lemma ShiftedForm(n: Number, first: int, last: int)
    requires ValidNumber(n) && AllDigits(Digits(n)) && Significant(Digits(n), first, last) && first >= 0
    requires AllDigits(Digits(n)[first..last + 1])
    ensures DenotesShifted(n, Signed(n.negative, Value(Digits(n)[first..last + 1])),
                           ExponentValue(n) - |FractionDigits(n)| + |Digits(n)| - 1 - last)
  {
    SignificantValue(Digits(n), first, last);
    ShiftedBy(n, Value(Digits(n)[first..last + 1]), |Digits(n)| - 1 - last);
  }

  lemma ShiftedBy(n: Number, x: nat, z: nat)
    requires ValidNumber(n) && AllDigits(Digits(n)) && x % 10 != 0 && Value(Digits(n)) == x * Pow10(z)
    ensures DenotesShifted(n, Signed(n.negative, x), ExponentValue(n) - |FractionDigits(n)| + z)
  {
    SignedTimes(n.negative, x, Pow10(z));
    SignedLast(n.negative, x);
    AllShifted(n, Signed(n.negative, x), z, ExponentValue(n) - |FractionDigits(n)| + z);
  }

  lemma AllShifted(n: Number, m: int, z: nat, scale: int)
    requires ValidNumber(n) && AllDigits(Digits(n)) && m % 10 != 0
    requires Signed(n.negative, Value(Digits(n))) == m * Pow10(z)
    requires scale == ExponentValue(n) - |FractionDigits(n)| + z
    ensures DenotesShifted(n, m, scale)
  {
    forall v ensures Denotes(n, v) <==> scale >= 0 && v == m * Pow10(scale) {
      DenotesScaled(n, v, m, z);
    }
  }

  lemma DenotesScaled(n: Number, v: int, m: int, z: nat)
    requires ValidNumber(n) && AllDigits(Digits(n)) && m % 10 != 0
    requires Signed(n.negative, Value(Digits(n))) == m * Pow10(z)
    ensures var e := ExponentValue(n) - |FractionDigits(n)|;
      Denotes(n, v) <==> e + z >= 0 && v == m * Pow10(e + z)
  {
    ScaledInteger(v, m, z, ExponentValue(n) - |FractionDigits(n)|);
  }

  lemma NoExponent(n: Number, m: int, scale: int)
    requires ValidNumber(n) && AllDigits(Digits(n)) && DenotesShifted(n, m, scale) && m != 0
    requires !Int32(ExponentValue(n))
    ensures forall v :: !Answers(n, v)
  {
    NonZero(m, scale);
  }

  lemma WideExponent(n: Number, first: nat, last: int)
    requires ValidNumber(n) && AllDigits(Digits(n)) && Significant(Digits(n), first, last)
    requires !Int32(ExponentValue(n))
    ensures forall v :: !Answers(n, v)
  {
    SignificantValue(Digits(n), first, last);
    ShiftedForm(n, first, last);
    NoExponent(n, Signed(n.negative, Value(Digits(n)[first..last + 1])),
               ExponentValue(n) - |FractionDigits(n)| + |Digits(n)| - 1 - last);
  }

  lemma OutOfRange(n: Number, m: int, scale: int, digits: nat)
    requires ValidNumber(n) && AllDigits(Digits(n)) && DenotesShifted(n, m, scale)
    requires digits >= 1 && Pow10(digits - 1) <= (if m < 0 then -m else m)
    requires scale < 0 || digits + scale > 10
    ensures forall v :: !Answers(n, v)
  {
    if scale >= 0 {
      TooBig(m, scale, digits);
    }
  }

  /** r is the answer the text asks for, or None when there is none. */
  ghost predicate IsAnswer(n: Number, r: Option<int>)
    requires ValidNumber(n) && AllDigits(Digits(n))
  {
    match r
    case Some(v) => Answers(n, v)
    case None => forall v :: !Answers(n, v)
  }

  /** The last part: shift the significant digits and check the range. */
  method Evaluate(negative: bool, x: nat, scale: int, digits: nat, ghost n: Number) returns (r: Option<int>)
    requires ValidNumber(n) && AllDigits(Digits(n)) && DenotesShifted(n, Signed(negative, x), scale)
    requires x < Pow10(digits) && scale >= 0 && digits + scale <= 10 && Int32(ExponentValue(n))
    ensures IsAnswer(n, r)
  {
    SignedTimes(negative, x, Pow10(scale));
    var value := Shift(x, scale, digits);
    if negative {
      value := -value;
    }
    assert Denotes(n, value);
    if value < MIN_INT32 || value > MAX_INT32 {
      return None;
    }
    return Some(value);
  }

  /** On any number text the answer is v exactly when the text denotes the integer v in the int32
      range and either v is zero or the written exponent itself fits 32 bits. No intermediate value
      leaves the int64 range. */
  method Int32OfText(text: Bytes, ghost n: Number) returns (r: Option<int>)
    requires ValidNumber(n) && text == Text(n)
    ensures AllDigits(Digits(n)) && IsAnswer(n, r)
  {
    var negative, mantissa, exponentText := SplitText(text, n);
    var first, last, digits, fraction := ScanMantissa(mantissa, n);
    DigitsAreDigits(n);
    if first < 0 {
      ZeroAnswers(n, 0);
      return Some(0);
    }
    var scale, ok := ScaleOf(exponentText, last, digits, fraction, n);
    if !ok {
      WideExponent(n, first, last);
      return None;
    }
    r := Scaled(negative, mantissa, first, last, scale, n);
  }

  /** How far the significant digits are shifted, unless the written exponent does not fit. */
  method ScaleOf(exponentText: Bytes, last: int, digits: nat, fraction: nat, ghost n: Number) returns (scale: int, ok: bool)
    requires ValidNumber(n)
    requires exponentText == if n.exponent.Some? then ExponentText(n.exponent.value) else "0"
    ensures ok <==> Int32(ExponentValue(n))
    ensures ok ==> scale == ExponentValue(n) - fraction + digits - 1 - last
  {
    ExponentOf(n, exponentText);
    var exponent := ParseInt32(exponentText);
    if exponent.None? {
      return 0, false;
    }
    return exponent.value - fraction + (digits - last - 1), true;
  }

  /** The significant digits and the exponent are known; the count of digits decides what can fit. */
  method Scaled(negative: bool, mantissa: Bytes, first: nat, last: nat, scale: int, ghost n: Number) returns (r: Option<int>)
    requires ValidNumber(n) && mantissa == Mantissa(n) && negative == n.negative && Int32(ExponentValue(n))
    requires AllDigits(Digits(n)) && Significant(Digits(n), first, last)
    requires scale == ExponentValue(n) - |FractionDigits(n)| + |Digits(n)| - 1 - last
    ensures IsAnswer(n, r)
  {
    if scale < 0 || last - first + 1 + scale > 10 {
      NothingFits(n, first, last, scale);
      return None;
    }
    ShiftedDigits(n, first, last, scale);
    var x := Accumulate(mantissa, first, last, n);
    r := Evaluate(negative, x, scale, last - first + 1, n);
  }

  /** The text denotes its significant digits, shifted. */
  lemma ShiftedDigits(n: Number, first: nat, last: int, scale: int)
    requires ValidNumber(n) && AllDigits(Digits(n)) && Significant(Digits(n), first, last)
    requires scale == ExponentValue(n) - |FractionDigits(n)| + |Digits(n)| - 1 - last
    ensures AllDigits(Digits(n)[first..last + 1])
    ensures var x := Value(Digits(n)[first..last + 1]);
      && DenotesShifted(n, Signed(n.negative, x), scale)
      && Pow10(last - first) <= x < Pow10(last - first + 1)
  {
    SignificantValue(Digits(n), first, last);
    ShiftedForm(n, first, last);
  }

  lemma NothingFits(n: Number, first: nat, last: int, scale: int)
    requires ValidNumber(n) && AllDigits(Digits(n)) && Significant(Digits(n), first, last)
    requires scale == ExponentValue(n) - |FractionDigits(n)| + |Digits(n)| - 1 - last
    requires scale < 0 || last - first + 1 + scale > 10
    ensures forall v :: !Answers(n, v)
  {
    ShiftedDigits(n, first, last, scale);
    OutOfRange(n, Signed(n.negative, Value(Digits(n)[first..last + 1])), scale, last - first + 1);
  }

  lemma ExponentOf(n: Number, text: Bytes)
    requires ValidNumber(n)
    requires text == if n.exponent.Some? then ExponentText(n.exponent.value) else "0"
    ensures text != "" && AllDigits(if text[0] == '+' || text[0] == '-' then text[1..] else text)
    ensures ParseInt32(text) == if Int32(ExponentValue(n)) then Some(ExponentValue(n)) else None
  {
    if n.exponent.Some? {
      ParsedExponent(n);
    } else {
      ZerosValue("0");
    }
  }

  lemma NonZero(m: int, scale: int)
    requires m != 0
    ensures scale >= 0 ==> m * Pow10(scale) != 0
  {
    if scale >= 0 {
      Cancel(m, 0, Pow10(scale));
    }
  }

  /** The loop that appends zeros; with at most ten digits nothing overflows 64 bits. */
  method Shift(m: int, scale: nat, digits: nat) returns (value: int)
    requires 0 <= m < Pow10(digits) && digits + scale <= 10
    ensures value == m * Pow10(scale) && value < MAX_INT64
  {
    value := m;
    var left := scale;
    assert m * Pow10(0) == m;
    ShiftBound(m, digits, 0);
    while left > 0
      invariant 0 <= left <= scale
      invariant value == m * Pow10(scale - left) && 0 <= value < MAX_INT64
    {
      value := value * 10;
      left := left - 1;
      MulRegroup(m, Pow10(scale - left - 1), 10);
      ShiftBound(m, digits, scale - left);
    }
  }

  lemma ShiftBound(m: nat, digits: nat, k: nat)
    requires m < Pow10(digits) && digits + k <= 10
    ensures 0 <= m * Pow10(k) < MAX_INT64
  {
    Pow10Add(digits, k);
    Pow10Monotone(digits + k, 10);
    TenDigits();
    ProductBound(m, Pow10(digits), Pow10(k));
  }

  lemma ProductBound(m: nat, p: nat, q: nat)
    requires m < p
    ensures 0 <= m * q <= p * q
  {
  }
}
