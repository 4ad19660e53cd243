/**
 The check for escapes that a strict JSON reader rejects (responses.go, validResponsesJSONUnicode):
 section 7 of RFC 8259 for the escapes, section 8.2 for unpaired surrogates.
 */
module ResponsesUnicode {
  import opened Common

  // ------------------------------------------------------------------- hex digits ----

  predicate IsHex(c: char) {
    '0' <= c <= '9' || 'a' <= c <= 'f' || 'A' <= c <= 'F'
  }

  function Digit(c: char): (d: nat)
    requires IsHex(c)
    ensures d < 16
  {
    if '0' <= c <= '9' then c as int - '0' as int
    else if 'a' <= c <= 'f' then c as int - 'a' as int + 10
    else c as int - 'A' as int + 10
  }

  predicate AllHex(s: Bytes) {
    forall i | 0 <= i < |s| :: IsHex(s[i])
  }

  /** The number that a run of hex digits denotes. */
  function HexValue(s: Bytes): nat
    requires AllHex(s)
  {
    if s == "" then 0 else HexValue(s[..|s| - 1]) * 16 + Digit(s[|s| - 1])
  }

  /** Four hex digits as one 16-bit value, which never overflows. */
  method Hex4(s: Bytes) returns (value: nat, ok: bool)
    ensures ok <==> |s| == 4 && AllHex(s)
    ensures ok ==> value == HexValue(s) && value <= 0xffff
  {
    if |s| != 4 {
      return 0, false;
    }
    value := 0;
    var bound := 1;
    for i := 0 to 4
      invariant AllHex(s[..i]) && value == HexValue(s[..i]) && value < bound
      invariant bound == if i == 0 then 1 else if i == 1 then 0x10 else if i == 2 then 0x100 else if i == 3 then 0x1000 else 0x10000
    {
      var c := s[i];
      if !IsHex(c) {
        return 0, false;
      }
      assert s[..i + 1][..i] == s[..i];
      value := value * 16 + Digit(c);
      bound := bound * 16;
    }
    assert s[..4] == s;
    return value, true;
  }

  // ------------------------------------------------------------ a reference reading ----

  /** The lexical units that matter: a `\u` escape keeps the up to four characters it claims. */
  datatype Unit = Char(c: char) | Quote | Escape(c: char) | Unicode(hex: Bytes)

  /** Read the text unit by unit; backslashes escape only inside string literals. */
  function Units(text: Bytes, inString: bool): seq<Unit>
    decreases |text|
  {
    if text == "" then []
    else if text[0] == '"' then [Quote] + Units(text[1..], !inString)
    else if text[0] == '\\' && inString && |text| > 1 then
      if text[1] == 'u' then
        var n := if |text| < 6 then |text| else 6;
        [Unicode(text[2..n])] + Units(text[n..], inString)
      else [Escape(text[1])] + Units(text[2..], inString)
    else [Char(text[0])] + Units(text[1..], inString)
  }

  predicate FourHex(u: Unit) {
    u.Unicode? && |u.hex| == 4 && AllHex(u.hex)
  }

  predicate High(u: Unit) {
    FourHex(u) && 0xd800 <= HexValue(u.hex) <= 0xdbff
  }

  predicate Low(u: Unit) {
    FourHex(u) && 0xdc00 <= HexValue(u.hex) <= 0xdfff
  }

  /** Every `\u` has four hex digits, and surrogates come only as a high one directly before a low
      one. */
  predicate UnitOk(us: seq<Unit>, k: nat)
    requires k < |us|
  {
    && (us[k].Unicode? ==> FourHex(us[k]))
    && (High(us[k]) ==> k + 1 < |us| && Low(us[k + 1]))
    && (Low(us[k]) ==> k > 0 && High(us[k - 1]))
  }

  predicate WellFormed(us: seq<Unit>) {
    forall k | 0 <= k < |us| :: UnitOk(us, k)
  }

  // ------------------------------------------------------------------ one unit more ----

  lemma PlainUnit(u: Unit, us: seq<Unit>)
    requires (u.Unicode? ==> FourHex(u)) && !High(u) && !Low(u)
    ensures WellFormed([u] + us) <==> WellFormed(us)
  {
    var all := [u] + us;
    assert forall k | 0 <= k < |us| :: all[k + 1] == us[k];
    if WellFormed(us) {
      forall k | 0 <= k < |all| ensures UnitOk(all, k) {
        assert k > 0 ==> UnitOk(us, k - 1);
      }
    }
    if WellFormed(all) {
      forall k | 0 <= k < |us| ensures UnitOk(us, k) {
        assert UnitOk(all, k + 1);
      }
    }
  }

  lemma PairUnits(u: Unit, v: Unit, us: seq<Unit>)
    requires High(u) && Low(v)
    ensures WellFormed([u] + ([v] + us)) <==> WellFormed(us)
  {
    var all := [u] + ([v] + us);
    assert forall k | 0 <= k < |us| :: all[k + 2] == us[k];
    assert all[1] == v;
    if WellFormed(us) {
      forall k | 0 <= k < |all| ensures UnitOk(all, k) {
        assert k > 1 ==> UnitOk(us, k - 2);
      }
    }
    if WellFormed(all) {
      forall k | 0 <= k < |us| ensures UnitOk(us, k) {
        assert UnitOk(all, k + 2);
      }
    }
  }

  lemma BadUnit(u: Unit, us: seq<Unit>)
    requires u.Unicode? && (!FourHex(u) || Low(u) || (High(u) && (us == [] || !Low(us[0]))))
    ensures !WellFormed([u] + us)
  {
    assert !UnitOk([u] + us, 0);
  }

  /** The first unit of the rest, when it is not a complete low surrogate escape. */
  lemma NotLowNext(text: Bytes)
    requires !(|text| >= 6 && text[0] == '\\' && text[1] == 'u' && AllHex(text[2..6]) && 0xdc00 <= HexValue(text[2..6]) <= 0xdfff)
    ensures Units(text, true) == [] || !Low(Units(text, true)[0])
  {
  }

  // ----------------------------------------------------------------------- the method ----

  /** A \\u escape whose u is at i: its last byte, with the low surrogate that follows a high one. */
  method UnicodeEscape(data: Bytes, i: nat) returns (fine: bool, last: nat)
    requires 0 < i < |data| && data[i - 1] == '\\' && data[i] == 'u'
    ensures !fine ==> !WellFormed(Units(data[i - 1..], true))
    ensures fine ==> i < last < |data| && (WellFormed(Units(data[i - 1..], true)) <==> WellFormed(Units(data[last + 1..], true)))
  {
    ghost var rest := data[i - 1..];
    if i + 4 >= |data| {
      assert rest[|rest|..] == "";
      BadUnit(Unicode(rest[2..|rest|]), Units(rest[|rest|..], true));
      return false, 0;
    }
    assert data[i + 1..i + 5] == rest[2..6] && rest[6..] == data[i + 5..];
    var code, hex := Hex4(data[i + 1..i + 5]);
    ghost var u := Unicode(rest[2..6]);
    if !hex {
      BadUnit(u, Units(rest[6..], true));
      return false, 0;
    }
    last := i + 4;
    if 0xd800 <= code <= 0xdbff {
      var paired := LowFollows(data, last);
      if !paired {
        BadUnit(u, Units(rest[6..], true));
        return false, 0;
      }
      ghost var next := rest[6..];
      assert next[6..] == data[last + 7..];
      PairUnits(u, Unicode(next[2..6]), Units(next[6..], true));
      return true, last + 6;
    } else if 0xdc00 <= code <= 0xdfff {
      BadUnit(u, Units(rest[6..], true));
      return false, 0;
    }
    PlainUnit(u, Units(rest[6..], true));
    return true, last;
  }

  /** One unit at i, and whether it lies inside of a string. */
  method OneUnit(data: Bytes, i: nat, inString: bool) returns (fine: bool, next: nat, after: bool)
    requires i < |data|
    ensures !fine ==> !WellFormed(Units(data[i..], inString))
    ensures fine ==> i < next <= |data| && (WellFormed(Units(data[i..], inString)) <==> WellFormed(Units(data[next..], after)))
  {
    ghost var rest := data[i..];
    assert rest[1..] == data[i + 1..];
    if data[i] == '"' {
      PlainUnit(Quote, Units(rest[1..], !inString));
      return true, i + 1, !inString;
    } else if data[i] == '\\' && inString && i + 1 < |data| {
      if data[i + 1] == 'u' {
        var last;
        fine, last := UnicodeEscape(data, i + 1);
        return fine, last + 1, true;
      }
      assert rest[2..] == data[i + 2..];
      PlainUnit(Escape(data[i + 1]), Units(rest[2..], true));
      return true, i + 2, true;
    }
    PlainUnit(Char(data[i]), Units(rest[1..], inString));
    return true, i + 1, inString;
  }

  /** On text that is valid UTF-8 (`utf8`), the answer is exactly whether its units are well formed.
      Every index stays inside the text. */
  method ValidUnicode(data: Bytes, utf8: bool) returns (ok: bool)
    ensures ok <==> utf8 && WellFormed(Units(data, false))
  {
    if !utf8 {
      return false;
    }
    var inString := false;
    var i := 0;
    assert data[0..] == data;
    while i < |data|
      invariant 0 <= i <= |data|
      invariant WellFormed(Units(data, false)) <==> WellFormed(Units(data[i..], inString))
    {
      var fine;
      fine, i, inString := OneUnit(data, i, inString);
      if !fine {
        return false;
      }
    }
    return true;
  }

  /** Does a low surrogate escape start right after index i, the last digit of the high one? */
  method LowFollows(data: Bytes, i: nat) returns (paired: bool)
    requires i < |data|
    ensures var next := data[i + 1..];
      if paired then |next| >= 6 && next[0] == '\\' && next[1] == 'u' && Low(Unicode(next[2..6]))
      else Units(next, true) == [] || !Low(Units(next, true)[0])
  {
    ghost var next := data[i + 1..];
    if i + 6 >= |data| || data[i + 1] != '\\' || data[i + 2] != 'u' {
      NotLowNext(next);
      return false;
    }
    assert data[i + 3..i + 7] == next[2..6];
    var low, fine := Hex4(data[i + 3..i + 7]);
    if !fine || low < 0xdc00 || low > 0xdfff {
      NotLowNext(next);
      return false;
    }
    return true;
  }
}
