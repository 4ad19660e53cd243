/**
 How long a hidden retry waits (main.go, localRetryDelay and localRetryExtraBackoff) and the delay a
 Gemini error advertises (gemini_errors.go, geminiRetryDelaySeconds). Durations are nanoseconds.
 */
module RetryDelay {
  import opened Common
  import opened GeminiNumber

  const SECOND := 1_000_000_000

  function Pow2(k: nat): (p: nat)
    ensures p >= 1
  {
    if k == 0 then 1 else 2 * Pow2(k - 1)
  }

  lemma {:induction false} Pow2Monotone(a: nat, b: nat)
    requires a <= b
    ensures Pow2(a) <= Pow2(b)
    decreases b - a
  {
    if a < b {
      Pow2Monotone(a, b - 1);
    }
  }

  function Min(a: int, b: int): int {
    if a <= b then a else b
  }

  /** Doubling from one second, capped; no doubling leaves the int64 range. */
  method ExtraBackoff(cap: int, retryIndex: int) returns (d: int)
    requires cap <= MAX_INT64
    ensures d == if cap <= 0 then 0 else Min(cap, SECOND * Pow2(if retryIndex < 0 then 0 else retryIndex))
  {
    var n := if retryIndex < 0 then 0 else retryIndex;
    if cap <= 0 {
      return 0;
    }
    d := SECOND;
    var i := 0;
    while i < n && d < cap
      invariant 0 <= i <= n && d == SECOND * Pow2(i) && 0 < d <= MAX_INT64
    {
      if d >= cap - d {
        Pow2Monotone(i + 1, n);
        return cap;
      }
      d := d * 2;
      i := i + 1;
    }
    Pow2Monotone(i, n);
    if d > cap {
      return cap;
    }
  }

  /** The upstream's delay in seconds plus the backoff, saturating instead of overflowing. */
  method LocalRetryDelay(cap: int, upstreamRetryAfter: int, retryIndex: int) returns (wait: int)
    requires cap <= MAX_INT64
    ensures var ra := if upstreamRetryAfter < 0 then 0 else upstreamRetryAfter;
      var extra := if cap <= 0 then 0 else Min(cap, SECOND * Pow2(if retryIndex < 0 then 0 else retryIndex));
      wait == Min(MAX_INT64, ra * SECOND + extra)
  {
    var ra := if upstreamRetryAfter < 0 then 0 else upstreamRetryAfter;
    var extra := ExtraBackoff(cap, retryIndex);
    if ra > (MAX_INT64 - extra) / SECOND {
      return MAX_INT64;
    }
    return ra * SECOND + extra;
  }

  // ------------------------------------------------------------- advertised durations ----

  /** A ProtoJSON duration: whole seconds and up to nine fractional digits. */
  datatype Duration = Duration(whole: Bytes, fraction: Option<Bytes>)

  const MAX_SECONDS := 315_576_000_000

  predicate ValidDuration(d: Duration) {
    && d.whole != "" && AllDigits(d.whole)
    && (d.fraction.Some? ==> 1 <= |d.fraction.value| <= 9 && AllDigits(d.fraction.value))
  }

  function DurationText(d: Duration): Bytes {
    d.whole + (if d.fraction.Some? then "." + d.fraction.value else "") + "s"
  }

  function Fraction(d: Duration): Bytes {
    if d.fraction.Some? then d.fraction.value else ""
  }

  predicate Spells(text: Bytes, d: Duration) {
    ValidDuration(d) && text == DurationText(d)
  }

  /** The text is the duration d, within the range of the format. */
  predicate Reads(text: Bytes, d: Duration) {
    Spells(text, d) && Value(d.whole) <= MAX_SECONDS
  }

  /** The least whole number of seconds that is not shorter than d. */
  predicate Ceiling(d: Duration, seconds: int)
    requires ValidDuration(d)
  {
    var unit := Pow10(|Fraction(d)|);
    var amount := Value(d.whole) * unit + Value(Fraction(d));
    (seconds - 1) * unit < amount <= seconds * unit
  }

  lemma {:induction false} NonZeroValue(s: Bytes)
    requires AllDigits(s) && !AllZeros(s)
    ensures Value(s) > 0
    decreases |s|
  {
    ZerosInit(s);
    if s[|s| - 1] == '0' {
      NonZeroValue(s[..|s| - 1]);
    }
  }

  lemma ZerosInit(s: Bytes)
    requires s != ""
    ensures AllZeros(s) <==> AllZeros(s[..|s| - 1]) && s[|s| - 1] == '0'
  {
    var init := s[..|s| - 1];
    assert s == init + [s[|s| - 1]];
  }

  lemma CeilingIs(d: Duration, seconds: int)
    requires ValidDuration(d)
    requires seconds == Value(d.whole) + if AllZeros(Fraction(d)) then 0 else 1
    ensures Ceiling(d, seconds)
  {
    var f := Fraction(d);
    ValueUpper(f);
    if AllZeros(f) {
      ZerosValue(f);
    } else {
      NonZeroValue(f);
    }
    Spread(Value(d.whole), Pow10(|f|));
  }

  lemma Spread(w: int, unit: int)
    ensures (w + 1) * unit == w * unit + unit && (w - 1) * unit == w * unit - unit
  {
  }

  /** The one way to take the text apart. */
  lemma SpelledParts(text: Bytes, d: Duration)
    requires Spells(text, d)
    ensures text != "" && text[|text| - 1] == 's'
    ensures var body := text[..|text| - 1];
      var j := IndexOf(body, '.');
      && body[..j] == d.whole && body != ""
      && (if d.fraction.Some? then j < |body| && body[j + 1..] == d.fraction.value else j == |body|)
  {
    var body := text[..|text| - 1];
    assert body == d.whole + if d.fraction.Some? then "." + d.fraction.value else "";
    if d.fraction.Some? {
      assert body[..|d.whole|] == d.whole;
      IndexIs(body, '.', |d.whole|);
    } else {
      assert body == d.whole;
      var j := IndexOf(body, '.');
      assert j < |body| ==> IsDigit(d.whole[j]);
    }
  }

  method AllDigitsIn(s: Bytes) returns (ok: bool)
    ensures ok <==> AllDigits(s)
  {
    for i := 0 to |s|
      invariant AllDigits(s[..i])
    {
      if s[i] < '0' || s[i] > '9' {
        return false;
      }
    }
    assert s[..|s|] == s;
    return true;
  }

  lemma SpellsOnce(text: Bytes, d: Duration, e: Duration)
    requires Spells(text, d) && Spells(text, e)
    ensures d == e
  {
    SpelledParts(text, d);
    SpelledParts(text, e);
  }

  /** The duration that the text spells, if any. */
  method TakeApart(text: Bytes) returns (d: Option<Duration>)
    ensures d.Some? ==> Spells(text, d.value)
    ensures d.None? ==> forall e :: !Spells(text, e)
  {
    forall e | Spells(text, e) {
      SpelledParts(text, e);
    }
    if text == "" || text[|text| - 1] != 's' || |text| == 1 {
      return None;
    }
    var body := text[..|text| - 1];
    var j := IndexOf(body, '.');
    var whole := body[..j];
    var fractional := j < |body|;
    var fraction := if fractional then body[j + 1..] else "";
    if whole == "" || (fractional && (fraction == "" || |fraction| > 9)) {
      return None;
    }
    var wholeOk := AllDigitsIn(whole);
    if !wholeOk {
      return None;
    }
    var fractionOk := AllDigitsIn(fraction);
    if !fractionOk {
      return None;
    }
    d := Some(Duration(whole, if fractional then Some(fraction) else None));
    PartsSpell(text, d.value);
  }

  /** Parts that fit together spell the text they were taken from. */
  lemma PartsSpell(text: Bytes, d: Duration)
    requires ValidDuration(d) && text != "" && text[|text| - 1] == 's'
    requires var body := text[..|text| - 1];
      var j := IndexOf(body, '.');
      body[..j] == d.whole && if d.fraction.Some? then j < |body| && body[j + 1..] == d.fraction.value else j == |body|
    ensures Spells(text, d)
  {
    var body := text[..|text| - 1];
    assert text == body + "s";
    assert body == d.whole + if d.fraction.Some? then "." + d.fraction.value else "";
  }

  /** The ceiling of any well-formed duration in range, and zero for every other text. */
  method RetryDelaySeconds(text: Bytes) returns (seconds: int)
    ensures forall d | Reads(text, d) :: Ceiling(d, seconds)
    ensures (forall d :: !Reads(text, d)) ==> seconds == 0
    ensures 0 <= seconds <= MAX_SECONDS + 1
  {
    var parts := TakeApart(text);
    if parts.None? {
      return 0;
    }
    var d := parts.value;
    forall e | Spells(text, e) ensures e == d {
      SpellsOnce(text, d, e);
    }
    seconds := Value(d.whole);
    if seconds > MAX_SECONDS {
      return 0;
    }
    assert Reads(text, d);
    if !AllZeros(Fraction(d)) {
      seconds := seconds + 1;
    }
    CeilingIs(d, seconds);
  }

  /** A retry told to wait a duration never waits less, except where 64-bit nanoseconds saturate. */
  method WaitAdvertised(cap: int, text: Bytes, retryIndex: int, ghost d: Duration) returns (wait: int)
    requires cap <= MAX_INT64 && Reads(text, d)
    ensures var unit := Pow10(|Fraction(d)|);
      wait == MAX_INT64 || wait * unit >= (Value(d.whole) * unit + Value(Fraction(d))) * SECOND
  {
    var seconds := RetryDelaySeconds(text);
    wait := LocalRetryDelay(cap, seconds, retryIndex);
    ghost var unit := Pow10(|Fraction(d)|);
    ghost var amount := Value(d.whole) * unit + Value(Fraction(d));
    if wait != MAX_INT64 {
      LongEnough(wait, seconds, unit, amount);
    }
  }

  lemma LongEnough(wait: int, seconds: int, unit: nat, amount: int)
    requires wait >= seconds * SECOND && amount <= seconds * unit
    ensures wait * unit >= amount * SECOND
  {
    assert (wait - seconds * SECOND) * unit >= 0;
    assert wait * unit >= seconds * SECOND * unit;
    assert seconds * SECOND * unit == (seconds * unit) * SECOND;
  }
}
