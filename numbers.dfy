/** The numeric tokens of the wire format, read the way `Number` and `parseInt` read them, and
    the decimal spelling JavaScript gives a number when it becomes a property key. */
module Numbers {
  import opened Units

  /** A JavaScript number as the decoder can produce it: an integer, or NaN. */
  datatype Num = Finite(n: int) | NaN {
    /** JavaScript's `i < this`; every comparison with NaN is false. */
    predicate Exceeds(i: int) {
      Finite? && i < n
    }
  }

  function DigitValue(u: CodeUnit): nat
    requires IsDigit(u)
  {
    u - DIGIT_ZERO
  }

  function DigitUnit(d: nat): CodeUnit
    requires d < 10
  {
    DIGIT_ZERO + d
  }

  /** The value of a run of decimal digits, most significant digit first. */
  function DigitsValue(t: Text): nat
    requires AllDigits(t)
  {
    if |t| == 0 then 0 else DigitsValue(t[..|t| - 1]) * 10 + DigitValue(t[|t| - 1])
  }

  /** The decimal spelling of a natural number. */
  function NatToString(n: nat): (t: Text)
    ensures |t| > 0 && AllDigits(t)
  {
    if n < 10 then [DigitUnit(n)] else NatToString(n / 10) + [DigitUnit(n % 10)]
  }

  /** `String(n)` for an integer: a minus sign before the digits of a negative number. */
  function IntToString(n: int): (t: Text)
    ensures |t| > 0 && (t[0] == MINUS <==> n < 0)
    ensures AllDigits(t[SignLength(t)..])
  {
    if n < 0 then
      var digits := NatToString(-n);
      assert ([MINUS] + digits)[1..] == digits;
      [MINUS] + digits
    else NatToString(n)
  }

  /** The length of the sign that may start a numeric token: 1 for `-` or `+`, else 0. */
  function SignLength(t: Text): (s: nat)
    ensures s <= |t|
  {
    if |t| > 0 && (t[0] == MINUS || t[0] == PLUS) then 1 else 0
  }

  /** `Number(token)`: the empty token is 0 and an optionally signed run of digits is its value;
      every other token is NaN in this model. */
  function ToNumber(t: Text): (r: Num)
    ensures r.Finite? <==> |t| == 0 || (|t| > SignLength(t) && AllDigits(t[SignLength(t)..]))
    ensures r.Finite? && r.n < 0 ==> |t| > 0 && t[0] == MINUS
  {
    if |t| == 0 then Finite(0)
    else if (t[0] == MINUS || t[0] == PLUS) && |t| > 1 && AllDigits(t[1..]) then
      Finite(if t[0] == MINUS then -(DigitsValue(t[1..]) as int) else DigitsValue(t[1..]))
    else if AllDigits(t) then Finite(DigitsValue(t))
    else NaN
  }

  /** The length of the run of digits that starts `t`. */
  function DigitRun(t: Text): (k: nat)
    ensures k <= |t| && AllDigits(t[..k])
    ensures k < |t| ==> !IsDigit(t[k])
  {
    if |t| == 0 || !IsDigit(t[0]) then 0 else 1 + DigitRun(t[1..])
  }

  /** `parseInt(token, 10)`: an optional sign, then the longest run of digits, whatever follows it;
      NaN when no digit follows the sign. */
  function ParseIntPrefix(t: Text): (r: Num)
    ensures r.Finite? <==> DigitRun(t[SignLength(t)..]) > 0
  {
    var s := SignLength(t);
    var body := t[s..];
    var k := DigitRun(body);
    if k == 0 then NaN
    else Finite(if s == 1 && t[0] == MINUS then -(DigitsValue(body[..k]) as int) else DigitsValue(body[..k]))
  }

  /** What `parseInt` reads is what `Number` makes of the sign and the longest digit run alone,
      whatever follows them. */
  lemma {:induction false} ParseIntReadsPrefix(t: Text)
    requires ParseIntPrefix(t).Finite?
    ensures var s := SignLength(t); ParseIntPrefix(t) == ToNumber(t[..s + DigitRun(t[s..])])
  {
    var s := SignLength(t);
    var body := t[s..];
    var k := DigitRun(body);
    var prefix := t[..s + k];
    assert prefix[s..] == body[..k];
    assert s == 0 ==> prefix == body[..k];
  }

  /** A run made only of digits is read to its end. */
  lemma {:induction false} DigitRunAll(t: Text)
    requires AllDigits(t)
    ensures DigitRun(t) == |t|
  {
    if |t| > 0 {
      assert AllDigits(t[1..]) by {
        forall i | 0 <= i < |t| - 1 ensures IsDigit(t[1..][i]) {
          assert t[1..][i] == t[i + 1];
        }
      }
      DigitRunAll(t[1..]);
    }
  }

  /** `parseInt` and `Number` agree on every non-empty token that `Number` accepts. */
  lemma {:induction false} NumberAgreesWithParseInt(t: Text)
    requires |t| > 0 && ToNumber(t).Finite?
    ensures ParseIntPrefix(t) == ToNumber(t)
  {
    DigitRunAll(t[SignLength(t)..]);
    ParseIntReadsPrefix(t);
    assert t[..|t|] == t;
  }

  /** Reading back the decimal spelling of a natural number gives the number. */
  lemma {:induction false} NatToStringRoundTrip(n: nat)
    ensures DigitsValue(NatToString(n)) == n
  {
    if n >= 10 {
      var t := NatToString(n);
      assert t[..|t| - 1] == NatToString(n / 10);
      NatToStringRoundTrip(n / 10);
    }
  }

  lemma {:induction false} NatToStringInjective(a: nat, b: nat)
    ensures NatToString(a) == NatToString(b) <==> a == b
  {
    if NatToString(a) == NatToString(b) {
      NatToStringRoundTrip(a);
      NatToStringRoundTrip(b);
    }
  }

  /** Both number readers of the format read `String(n)` back as `n`. */
  lemma {:induction false} IntToStringRoundTrip(n: int)
    ensures ToNumber(IntToString(n)) == Finite(n)
    ensures ParseIntPrefix(IntToString(n)) == Finite(n)
  {
    var digits := NatToString(if n < 0 then -n else n);
    NatToStringRoundTrip(if n < 0 then -n else n);
    assert digits[..|digits|] == digits;
    if n < 0 {
      assert IntToString(n)[1..] == digits;
    }
  }

  lemma {:induction false} IntToStringInjective(a: int, b: int)
    ensures IntToString(a) == IntToString(b) <==> a == b
  {
    if IntToString(a) == IntToString(b) {
      IntToStringRoundTrip(a);
      IntToStringRoundTrip(b);
    }
  }
}
