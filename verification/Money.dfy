// Money in 64-bit minor units: printing and exact parsing, and rounding to the nearest
// unit with ties away from zero.
module Money {
  import opened Prelude
  import opened Text

  const MIN: int := -0x8000_0000_0000_0000
  const MAX: int := 0x7fff_ffff_ffff_ffff

  newtype int64 = x: int | -0x8000_0000_0000_0000 <= x <= 0x7fff_ffff_ffff_ffff

  predicate IsInt64(n: int) {
    MIN <= n <= MAX
  }

  // The most whole units an amount may have, and the largest amount with as many.
  const MAX_WHOLE: int := (MAX - 99) / 100
  const LARGEST: int := 9223372036854775799

  // ---- printing ---------------------------------------------------------------------------

  // Negation wraps round at the least value.
  function Negated(v: int64): int64 {
    if v as int == MIN then v else -v
  }

  // Division truncates toward zero.
  function Quo(n: int, d: int): int
    requires d != 0
  {
    if (n < 0) == (d < 0) then Abs(n) / Abs(d) else -(Abs(n) / Abs(d))
  }

  function Abs(n: int): nat {
    if n < 0 then -n else n
  }

  function Rem(n: int, d: int): int
    requires d != 0
  {
    n - Quo(n, d) * d
  }

  // %d and %02d.
  function Signed(n: int): string {
    if n < 0 then "-" + Decimal(-n) else Decimal(n)
  }

  function Padded(n: int): string {
    if |Signed(n)| < 2 then "0" + Signed(n) else Signed(n)
  }

  function Print(amount: int64): string {
    var neg := amount < 0;
    var v := (if neg then Negated(amount) else amount) as int;
    (if neg then "-" else "") + Signed(Quo(v, 100)) + "." + Padded(Rem(v, 100))
  }

  // ---- exact parsing -----------------------------------------------------------------------

  function CutDot(s: string): (string, Option<string>) {
    if s == "" then ("", None)
    else if s[0] == '.' then ("", Some(s[1..]))
    else
      var rest := CutDot(s[1..]);
      ([s[0]] + rest.0, rest.1)
  }

  function StripMinus(s: string): string {
    if s != "" && s[0] == '-' then s[1..] else s
  }

  function Pow10(n: nat): (p: nat)
    ensures p > 0
  {
    if n == 0 then 1 else 10 * Pow10(n - 1)
  }

  datatype Rational = Rational(num: int, den: nat)

  // The number a plain decimal stands for: an optional minus, digits, and optionally a
  // point and more digits. Shifting the point out of the text gives numerator and
  // denominator.
  function PlainDecimal(s: string): Option<Rational> {
    var t := Trim(s);
    var parts := CutDot(StripMinus(t));
    var places := if parts.1.Some? then parts.1.value else "";
    if !IsDigits(parts.0) || !(places == "" || IsDigits(places)) then None
    else
      var n: int := Value(parts.0 + places);
      Some(Rational(if StripMinus(t) != t then -n else n, Pow10(|places|)))
  }

  function Places(s: string): nat {
    var parts := CutDot(StripMinus(Trim(s)));
    if parts.1.Some? then |parts.1.value| else 0
  }

  // strconv.ParseInt on a run of digits.
  function ParseInt(digits: string): Option<int64>
    requires IsDigits(digits)
  {
    if Value(digits) <= MAX then Some(Value(digits) as int64) else None
  }

  method AllDigits(s: string) returns (ok: bool)
    ensures ok <==> IsDigits(s)
  {
    for i := 0 to |s|
      invariant forall k :: 0 <= k < i ==> IsDigit(s[k])
    {
      if !IsDigit(s[i]) {
        return false;
      }
    }
    ok := s != "";
  }

  lemma {:induction false} ValueSnoc(s: string, c: char)
    requires (forall i :: 0 <= i < |s| ==> IsDigit(s[i])) && IsDigit(c)
    ensures Value(s + [c]) == 10 * Value(s) + DigitValue(c)
  {
  }

  lemma TimesTen(v: nat, p: nat, x: nat, d: nat)
    ensures 10 * (v * p + x) + d == v * (10 * p) + (10 * x + d)
  {
  }

  lemma {:induction false} ValueSplits(w: string, f: string)
    requires forall i :: 0 <= i < |w| ==> IsDigit(w[i])
    requires forall i :: 0 <= i < |f| ==> IsDigit(f[i])
    ensures forall i :: 0 <= i < |w + f| ==> IsDigit((w + f)[i])
    ensures Value(w + f) == Value(w) * Pow10(|f|) + Value(f)
  {
    if f == "" {
      assert w + f == w;
    } else {
      var front, c := f[..|f| - 1], f[|f| - 1];
      ValueSplits(w, front);
      assert w + f == (w + front) + [c] && f == front + [c];
      ValueSnoc(w + front, c);
      ValueSnoc(front, c);
      OneDigitMore(Value(w), Pow10(|front|), Value(front), DigitValue(c), Value(w + front), Value(w + f), Value(f),
        Pow10(|f|));
    }
  }

  lemma OneDigitMore(w: nat, p: nat, front: nat, d: nat, shorter: nat, longer: nat, f: nat, q: nat)
    requires shorter == w * p + front && longer == 10 * shorter + d && f == 10 * front + d && q == 10 * p
    ensures longer == w * q + f
  {
  }

  lemma {:induction false} ValueBelow(f: string)
    requires forall i :: 0 <= i < |f| ==> IsDigit(f[i])
    ensures Value(f) < Pow10(|f|)
  {
    if f != "" {
      ValueBelow(f[..|f| - 1]);
    }
  }

  predicate PlacesOk(f: string) {
    |f| <= 2 && (f == "" || IsDigits(f))
  }

  lemma Shift(v: nat, q: nat, f: nat, p: nat)
    requires q * p == 100 && f < q
    ensures (v * q + f) * p == v * 100 + f * p && f * p <= 99
  {
  }

  lemma PowersToHundred(n: nat)
    requires n <= 2
    ensures Pow10(n) * Pow10(2 - n) == 100
  {
  }

  // Whole units and places, in minor units.
  lemma {:induction false} MinorValue(w: string, f: string)
    requires IsDigits(w) && PlacesOk(f)
    ensures IsDigits(w + f) && Value(w + f) * Pow10(2 - |f|) == Value(w) * 100 + Value(f) * Pow10(2 - |f|)
    ensures Value(f) * Pow10(2 - |f|) <= 99
  {
    ValueSplits(w, f);
    ValueBelow(f);
    PowersToHundred(|f|);
    Shift(Value(w), Pow10(|f|), Value(f), Pow10(2 - |f|));
  }

  // What parsing gives, part by part.
  lemma {:induction false} ParsedParts(text: string, w: string, f: string)
    requires var parts := CutDot(StripMinus(Trim(text)));
      w == parts.0 && f == if parts.1.Some? then parts.1.value else ""
    ensures Parsed(text).Some? <==> IsDigits(w) && PlacesOk(f) && Value(w) <= MAX_WHOLE
    ensures Parsed(text).Some? ==>
      var minor := Value(w) * 100 + Value(f) * Pow10(2 - |f|);
      Parsed(text).value as int == if StripMinus(Trim(text)) != Trim(text) then -minor else minor
  {
    if IsDigits(w) && PlacesOk(f) {
      MinorValue(w, f);
      ParsedNumber(text, w, f, Value(w) * 100 + Value(f) * Pow10(2 - |f|));
      LimitOnWhole(Value(w), Value(f) * Pow10(2 - |f|));
    } else {
      assert Parsed(text).None?;
    }
  }

  lemma LimitOnWhole(w: nat, cents: nat)
    requires cents <= 99
    ensures w <= MAX_WHOLE <==> w * 100 + cents <= LARGEST
  {
  }

  lemma {:induction false} ParsedNumber(text: string, w: string, f: string, minor: int)
    requires var parts := CutDot(StripMinus(Trim(text)));
      w == parts.0 && f == if parts.1.Some? then parts.1.value else ""
    requires IsDigits(w) && PlacesOk(f) && IsDigits(w + f) && Value(w + f) * Pow10(2 - |f|) == minor && minor >= 0
    ensures Parsed(text) ==
      var signed := if StripMinus(Trim(text)) != Trim(text) then -minor else minor;
      if minor <= LARGEST then Some(signed as int64) else None
  {
  }

  // Pads to two places.
  method ParsePlaces(f: string) returns (r: Option<int64>)
    ensures r.Some? <==> PlacesOk(f)
    ensures r.Some? ==> r.value as int == Value(f) * Pow10(2 - |f|) && 0 <= r.value <= 99
  {
    if |f| > 2 {
      return None;
    }
    var ok := AllDigits(f);
    if f != "" && !ok {
      return None;
    }
    var padded := f;
    while |padded| < 2
      invariant |f| <= |padded| <= 2 && forall i :: 0 <= i < |padded| ==> IsDigit(padded[i])
      invariant Value(padded) * Pow10(2 - |padded|) == Value(f) * Pow10(2 - |f|)
      decreases 2 - |padded|
    {
      ValueSnoc(padded, '0');
      TimesTen(Value(padded), Pow10(1 - |padded|), 0, 0);
      padded := padded + "0";
    }
    ValueBelow(padded);
    assert Pow10(2) == 100 && Pow10(0) == 1;
    r := Some(Value(padded) as int64);
  }

  // Exactly the plain decimals of at most two places and not too large parse, each to a
  // hundred times its value; the arithmetic never leaves 64 bits.
  method ParseDecimalToMinor(text: string) returns (r: Option<int64>)
    ensures r == Parsed(text)
  {
    var s := Trim(text);
    var neg := StripMinus(s) != s;
    var parts := CutDot(StripMinus(s));
    ghost var f := if parts.1.Some? then parts.1.value else "";
    ParsedParts(text, parts.0, f);
    var ok := AllDigits(parts.0);
    if s == "" || !ok {
      return None;
    }
    var w := ParseInt(parts.0);
    if w.None? || w.value > 92233720368547757 {
      return None;
    }
    var frac: int64 := 0;
    if parts.1.Some? {
      var places := ParsePlaces(parts.1.value);
      if places.None? {
        return None;
      }
      frac := places.value;
    }
    var minor := w.value * 100 + frac;
    if neg {
      minor := -minor;
    }
    r := Some(minor);
  }

  ghost function Parsed(s: string): Option<int64> {
    var p := PlainDecimal(s);
    if p.None? || Places(s) > 2 then None
    else
      var minor := p.value.num * Pow10(2 - Places(s));
      if -LARGEST <= minor <= LARGEST then Some(minor as int64) else None
  }

  // ---- printing then parsing -------------------------------------------------------------

  lemma {:induction false} CutAtDot(a: string, rest: string)
    requires '.' !in a
    ensures CutDot(a + "." + rest) == (a, Some(rest))
  {
    var s := a + "." + rest;
    if a == "" {
      assert s[1..] == rest;
    } else {
      assert s[1..] == a[1..] + "." + rest;
      CutAtDot(a[1..], rest);
      assert a == [a[0]] + a[1..];
    }
  }

  lemma {:induction false} CutNowhere(s: string)
    requires '.' !in s
    ensures CutDot(s) == (s, None)
  {
    if s != "" {
      CutNowhere(s[1..]);
      assert s == [s[0]] + s[1..];
    }
  }

  function Rejoined(parts: (string, Option<string>)): string {
    parts.0 + if parts.1.Some? then "." + parts.1.value else ""
  }

  lemma {:induction false} CutJoins(s: string)
    ensures Rejoined(CutDot(s)) == s
  {
    if s != "" && s[0] != '.' {
      CutJoins(s[1..]);
      assert s == [s[0]] + s[1..];
    }
  }

  // A plain decimal: a minus or none, whole units, and after a point, if there is one, at
  // most two digits.
  ghost predicate Spells(t: string, neg: bool, w: string, dot: bool, f: string) {
    && t == (if neg then "-" else "") + (w + if dot then "." + f else "")
    && IsDigits(w) && (f == "" || IsDigits(f)) && |f| <= 2 && (!dot ==> f == "")
  }

  ghost function Cents(w: string, f: string): nat
    requires IsDigits(w) && (f == "" || IsDigits(f))
  {
    100 * Value(w) + if |f| == 1 then 10 * Value(f) else Value(f)
  }

  lemma {:induction false} SpelledParts(t: string, neg: bool, w: string, dot: bool, f: string)
    requires Spells(t, neg, w, dot, f)
    ensures (StripMinus(t) != t <==> neg) && CutDot(StripMinus(t)) == (w, if dot then Some(f) else None)
  {
    var rest := w + if dot then "." + f else "";
    assert rest[0] == w[0] && IsDigit(w[0]);
    assert neg ==> t[1..] == rest;
    assert StripMinus(t) == rest;
    if dot {
      assert rest == w + "." + f;
      CutAtDot(w, f);
    } else {
      assert rest == w;
      CutNowhere(w);
    }
  }

  lemma HundredthsOf(f: string)
    requires PlacesOk(f)
    ensures Value(f) * Pow10(2 - |f|) == if |f| == 1 then 10 * Value(f) else Value(f)
  {
    assert Pow10(0) == 1 && Pow10(1) == 10;
  }

  // Such a text is read as what it spells, as long as that is not too large.
  lemma {:induction false} SpelledIsParsed(text: string, neg: bool, w: string, dot: bool, f: string)
    requires Spells(Trim(text), neg, w, dot, f)
    ensures Parsed(text).Some? <==> Cents(w, f) <= 9223372036854775799
    ensures var cents: int := Cents(w, f);
      Parsed(text).Some? ==> Parsed(text).value as int == if neg then -cents else cents
  {
    SpelledParts(Trim(text), neg, w, dot, f);
    ParsedParts(text, w, f);
    HundredthsOf(f);
    ValueBelow(f);
    PowersToHundred(|f|);
    MinorValue(w, f);
    LimitOnWhole(Value(w), Value(f) * Pow10(2 - |f|));
  }

  // Nothing else is read.
  lemma {:induction false} ParsedIsSpelled(text: string) returns (neg: bool, w: string, dot: bool, f: string)
    requires Parsed(text).Some?
    ensures Spells(Trim(text), neg, w, dot, f)
  {
    var t := Trim(text);
    var parts := CutDot(StripMinus(t));
    neg, w, dot, f := StripMinus(t) != t, parts.0, parts.1.Some?, if parts.1.Some? then parts.1.value else "";
    ParsedParts(text, w, f);
    CutJoins(StripMinus(t));
    assert neg ==> t == "-" + StripMinus(t);
  }

  lemma TwoPlaces(f: nat)
    requires f < 100
    ensures IsDigits(Padded(f)) && |Padded(f)| == 2 && Value(Padded(f)) == f
  {
    if f < 10 {
      ValueSplits("0", Decimal(f));
      assert "0"[..0] == "";
    } else {
      assert Decimal(f) == Decimal(f / 10) + [DigitOf(f % 10)];
      assert |Decimal(f / 10)| == 1;
    }
  }

  lemma {:induction false} PlainFromParts(text: string, w: string, f: string, n: int)
    requires Trim(text) == text && CutDot(StripMinus(text)) == (w, Some(f)) && IsDigits(w) && IsDigits(f)
    requires IsDigits(w + f) && Value(w + f) == n
    ensures PlainDecimal(text) == Some(Rational(if StripMinus(text) != text then -n else n, Pow10(|f|))) &&
      Places(text) == |f|
  {
  }

  lemma {:induction false} PlainPositive(w: string, f: string)
    requires IsDigits(w) && IsDigits(f)
    ensures var body := w + "." + f;
      PlainDecimal(body) == Some(Rational(Value(w) * Pow10(|f|) + Value(f), Pow10(|f|))) && Places(body) == |f|
  {
    var body := w + "." + f;
    assert body[0] == w[0] && body[|body| - 1] == f[|f| - 1];
    TrimNothing(body);
    assert StripMinus(body) == body;
    CutAtDot(w, f);
    ValueSplits(w, f);
    PlainFromParts(body, w, f, Value(w) * Pow10(|f|) + Value(f));
  }

  lemma {:induction false} PlainNegative(w: string, f: string)
    requires IsDigits(w) && IsDigits(f)
    ensures var t := "-" + (w + "." + f);
      PlainDecimal(t) == Some(Rational(-(Value(w) * Pow10(|f|) + Value(f)), Pow10(|f|))) && Places(t) == |f|
  {
    var body := w + "." + f;
    var t := "-" + body;
    assert t[0] == '-' && t[|t| - 1] == f[|f| - 1];
    TrimNothing(t);
    assert t[1..] == body;
    assert StripMinus(t) == body && |body| != |t|;
    CutAtDot(w, f);
    ValueSplits(w, f);
    PlainFromParts(t, w, f, Value(w) * Pow10(|f|) + Value(f));
  }

  // The text of w whole units and f cents.
  function Body(w: nat, f: nat): string {
    Decimal(w) + "." + Padded(f)
  }

  lemma ByHundred(v: nat)
    ensures Quo(v, 100) == v / 100 && Rem(v, 100) == v % 100
  {
  }

  lemma SignInFront(d: string, p: string)
    ensures "" + d + "." + p == d + "." + p && "-" + d + "." + p == "-" + (d + "." + p)
  {
  }

  lemma {:induction false} PrintedShape(m: int64, v: nat)
    requires m as int != MIN && v == Abs(m as int)
    ensures Print(m) == (if m < 0 then "-" + Body(v / 100, v % 100) else Body(v / 100, v % 100))
  {
    ByHundred(v);
    SignInFront(Decimal(v / 100), Padded(v % 100));
  }

  lemma {:induction false} BodyReads(w: nat, f: nat)
    requires f < 100
    ensures PlainDecimal(Body(w, f)) == Some(Rational(w * 100 + f, 100)) && Places(Body(w, f)) == 2
    ensures PlainDecimal("-" + Body(w, f)) == Some(Rational(-(w * 100 + f), 100)) && Places("-" + Body(w, f)) == 2
  {
    TwoPlaces(f);
    PowersToHundred(2);
    PlainPositive(Decimal(w), Padded(f));
    PlainNegative(Decimal(w), Padded(f));
  }

  // What is printed reads as the amount over a hundred, with two places.
  lemma {:induction false} PrintedReads(m: int64)
    requires m as int != MIN
    ensures PlainDecimal(Print(m)) == Some(Rational(m as int, 100)) && Places(Print(m)) == 2
  {
    var v := Abs(m as int);
    PrintedShape(m, v);
    BodyReads(v / 100, v % 100);
    var text := Print(m);
    if m < 0 {
      assert text == "-" + Body(v / 100, v % 100);
    } else {
      assert text == Body(v / 100, v % 100);
    }
  }

  lemma LeastShape(m: int64)
    requires m as int == MIN
    ensures Print(m) == "-" + ("-" + Decimal(92233720368547758)) + "." + ("-" + Decimal(8))
  {
    assert Quo(MIN, 100) == -92233720368547758 && Rem(MIN, 100) == -8;
    assert |Decimal(8)| == 1;
  }

  // The least value prints with its signs doubled and does not read at all.
  lemma LeastValueUnreadable(m: int64)
    requires m as int == MIN
    ensures PlainDecimal(Print(m)).None?
  {
    LeastShape(m);
    SignedPlacesUnreadable(92233720368547758, 8);
  }

  lemma {:induction false} SignedPlacesUnreadable(w: nat, f: nat)
    ensures PlainDecimal("-" + ("-" + Decimal(w)) + "." + ("-" + Decimal(f))).None?
  {
    TwoSigns("-" + Decimal(w), "-" + Decimal(f));
  }

  lemma TwoSigns(w: string, f: string)
    requires w != "" && f != "" && '.' !in w && !IsDigit(w[0]) && IsDigit(f[|f| - 1])
    ensures PlainDecimal("-" + w + "." + f).None?
  {
    var s := "-" + w + "." + f;
    assert s[0] == '-' && s[|s| - 1] == f[|f| - 1];
    TrimNothing(s);
    assert StripMinus(s) == s[1..] == w + "." + f;
    CutAtDot(w, f);
  }

  // Printing then parsing is the identity exactly up to LARGEST either way.
  lemma PrintThenParse(m: int64)
    ensures Parsed(Print(m)) == Some(m) <==> -LARGEST <= m as int <= LARGEST
    ensures Parsed(Print(m)) == Some(m) || Parsed(Print(m)) == None
  {
    if m as int == MIN {
      LeastValueUnreadable(m);
    } else {
      PrintedReads(m);
    }
  }

  // Every price staged as text within the bound reads back at commit as it was staged.
  lemma StagedPriceReadsBack(m: int64)
    requires m >= 0
    ensures Parsed(Print(m)) == Some(m) <==> m as int <= LARGEST
  {
    PrintThenParse(m);
  }

  // ---- rounding -----------------------------------------------------------------------------

  // q is nearest to n / d; of two nearest, the one farther from zero.
  ghost predicate IsNearest(n: int, d: nat, q: int) {
    NearestMultiple(n, d, q * d)
  }

  ghost predicate NearestMultiple(n: int, d: nat, p: int) {
    && 2 * Abs(n - p) <= d
    && (2 * Abs(n - p) == d ==> Abs(p) > Abs(n))
  }

  // The same in closed form: half of d added away from zero, then truncated.
  function Rounded(n: int, d: nat): int
    requires d > 0
  {
    if n >= 0 then (2 * n + d) / (2 * d) else -((2 * -n + d) / (2 * d))
  }

  lemma Division(a: nat, b: nat)
    requires b > 0
    ensures (a / b) * b <= a < (a / b) * b + b
  {
  }

  // Rounding is odd.
  lemma RoundedOdd(n: int, d: nat)
    requires d > 0
    ensures Rounded(-n, d) == -Rounded(n, d)
  {
  }

  lemma RoundedIsNearest(n: int, d: nat)
    requires d > 0
    ensures IsNearest(n, d, Rounded(n, d))
  {
  }

  lemma Apart(p: int, q: int, d: nat)
    requires p < q
    ensures p * d + d <= q * d
  {
    assert (q - p - 1) * d >= 0;
    assert (q - p - 1) * d == q * d - p * d - d;
  }

  lemma NegativeMultiple(q: int, d: nat)
    ensures q * d < 0 ==> q * d <= -(d as int)
  {
  }

  // Nearest multiples come in the order of the values. On a tie the one farther from zero
  // is taken, so two values a tie apart cannot swap.
  lemma MultiplesInOrder(n: int, m: int, d: nat, pd: int, qd: int)
    requires d > 0 && n <= m && (qd < 0 ==> qd <= -(d as int))
    requires 2 * Abs(n - pd) <= d && (2 * Abs(n - pd) == d ==> Abs(pd) > Abs(n))
    requires 2 * Abs(m - qd) <= d && (2 * Abs(m - qd) == d ==> Abs(qd) > Abs(m))
    ensures pd < qd + d
  {
  }

  // Rounding keeps order: a larger value never rounds to less.
  lemma NearestMonotone(n: int, m: int, d: nat, p: int, q: int)
    requires d > 0 && n <= m && IsNearest(n, d, p) && IsNearest(m, d, q)
    ensures p <= q
  {
    NegativeMultiple(q, d);
    MultiplesInOrder(n, m, d, p * d, q * d);
    if q < p {
      Apart(q, p, d);
    }
  }

  lemma ScaledNearest(n: int, d: nat, k: nat, q: int)
    requires k > 0
    ensures IsNearest(n, d, q) <==> IsNearest(n * k, d * k, q)
  {
    assert q * (d * k) == (q * d) * k;
    ScaledMultiple(n, d, q * d, k);
  }

  lemma ScaledMultiple(n: int, d: nat, p: int, k: nat)
    requires k > 0
    ensures NearestMultiple(n, d, p) <==> NearestMultiple(n * k, d * k, p * k)
  {
    AbsScaled(n - p, k);
    AbsScaled(n, k);
    AbsScaled(p, k);
    DifferenceScaled(n, p, k);
    ScaledHalf(Abs(n - p), d, k);
    ScaledOrder(Abs(n), Abs(p), k);
  }

  lemma DifferenceScaled(n: int, p: int, k: nat)
    ensures n * k - p * k == (n - p) * k
  {
  }

  lemma ScaledHalf(x: nat, d: nat, k: nat)
    requires k > 0
    ensures (2 * (x * k) <= d * k <==> 2 * x <= d) && (2 * (x * k) == d * k <==> 2 * x == d)
  {
  }

  lemma AbsScaled(x: int, k: nat)
    ensures Abs(x * k) == Abs(x) * k
  {
  }

  lemma ScaledOrder(a: nat, b: nat, k: nat)
    requires k > 0
    ensures (a <= b <==> a * k <= b * k) && (a == b <==> a * k == b * k) && (a < b <==> a * k < b * k)
  {
  }

  // Over any common denominators: rounding is monotone in the value, and so depends on
  // nothing but the value, whatever terms a fraction is written in.
  lemma RoundingMonotone(n: int, d: nat, m: int, e: nat)
    requires d > 0 && e > 0 && n * e <= m * d
    ensures Rounded(n, d) <= Rounded(m, e)
    ensures n * e == m * d ==> Rounded(n, d) == Rounded(m, e)
  {
    RoundedIsNearest(n, d);
    RoundedIsNearest(m, e);
    ScaledNearest(n, d, e, Rounded(n, d));
    ScaledNearest(m, e, d, Rounded(m, e));
    assert d * e == e * d && d * e > 0;
    NearestMonotone(n * e, m * d, d * e, Rounded(n, d), Rounded(m, e));
    if n * e == m * d {
      NearestMonotone(m * d, n * e, d * e, Rounded(m, e), Rounded(n, d));
    }
  }

  // There is one nearest integer.
  lemma NearestUnique(n: int, d: nat, q: int)
    requires d > 0
    ensures IsNearest(n, d, q) <==> q == Rounded(n, d)
  {
    RoundedIsNearest(n, d);
    if IsNearest(n, d, q) {
      NearestMonotone(n, n, d, q, Rounded(n, d));
      NearestMonotone(n, n, d, Rounded(n, d), q);
    }
  }

  // ---- the two rounding operations ---------------------------------------------------------

  // Quotient and remainder by absolute values: the remainder takes the value's sign.
  lemma QuotientBounds(n: int, d: int, a: nat, b: nat)
    requires d != 0 && a == Abs(n) && b == Abs(d)
    ensures Abs(Rem(n, d)) == a % b && Rem(n, d) == if n < 0 then -(a % b) else a % b
    ensures Quo(n, d) == if (n < 0) == (d < 0) then a / b else -(a / b)
  {
  }

  lemma RemainderIs(a: nat, b: nat)
    requires b > 0
    ensures a % b == a - (a / b) * b
  {
  }

  // The quotient moved one away from zero when the remainder is at least half, in the
  // direction of the value's sign.
  function Adjusted(n: int, d: int): int
    requires d != 0
  {
    if 2 * Abs(Rem(n, d)) >= Abs(d) then Quo(n, d) + (if (n < 0) != (d < 0) then -1 else 1) else Quo(n, d)
  }

  lemma AdjustedIsRounded(n: int, d: int)
    requires d != 0
    ensures Adjusted(n, d) == Rounded(if d < 0 then -n else n, Abs(d))
  {
    var a, b := Abs(n), Abs(d);
    QuotientBounds(n, d, a, b);
    HalfUp(a, b);
    RoundedBySign(if d < 0 then -n else n, b, a);
    if n == 0 {
      assert a / b == 0 && a % b == 0;
    }
  }

  lemma RoundedBySign(n: int, d: nat, a: nat)
    requires d > 0 && a == Abs(n)
    ensures Rounded(n, d) == if n < 0 then -((2 * a + d) / (2 * d)) else (2 * a + d) / (2 * d)
  {
  }

  lemma HalfUp(a: nat, b: nat)
    requires b > 0
    ensures (2 * a + b) / (2 * b) == a / b + if 2 * (a % b) >= b then 1 else 0
  {
    var q, r := a / b, a % b;
    assert 2 * a + b == q * (2 * b) + (2 * r + b);
    var up := if 2 * r >= b then 1 else 0;
    QuotientOf(2 * a + b, 2 * b, q + up, 2 * r + b - up * (2 * b));
  }

  lemma QuotientOf(a: nat, b: nat, q: nat, r: int)
    requires b > 0 && a == q * b + r && 0 <= r < b
    ensures a / b == q
  {
    Division(a, b);
    if a / b < q {
      Apart(a / b, q, b);
    } else if q < a / b {
      Apart(q, a / b, b);
    }
  }

  // The nearest minor unit to amount * num / den, ties away from zero.
  method MulRatio(amount: int64, num: int64, den: int64) returns (r: Option<int64>)
    ensures r.Some? <==> den != 0 && IsInt64(Ratio(amount as int, num as int, den as int))
    ensures r.Some? ==> r.value as int == Ratio(amount as int, num as int, den as int)
  {
    if den == 0 {
      return None;
    }
    var prod := amount as int * num as int;
    var d := den as int;
    var q := Quo(prod, d);
    var rem := Rem(prod, d);
    AdjustedIsRounded(prod, d);
    if 2 * Abs(rem) >= Abs(d) {
      if (prod < 0) != (den < 0) {
        q := q - 1;
      } else {
        q := q + 1;
      }
    }
    r := if IsInt64(q) then Some(q as int64) else None;
  }

  // The value amount * num / den rounded, with the sign moved to the numerator.
  ghost function Ratio(amount: int, num: int, den: int): int {
    if den == 0 then 0
    else Rounded(if den < 0 then -(amount * num) else amount * num, Abs(den))
  }

  // Rounds a number to whole minor units and says whether that changed it.
  method ParseMoneyRounded(value: Rational) returns (r: Option<int64>, rounded: bool)
    requires value.den > 0
    ensures r == if IsInt64(Rounded(100 * value.num, value.den)) then Some(Rounded(100 * value.num, value.den) as int64)
      else None
    ensures r.Some? ==> (rounded <==> 100 * value.num != r.value as int * value.den)
  {
    var num, den := 100 * value.num, value.den;
    var q, rem := Quo(num, den), Rem(num, den);
    AdjustedIsRounded(num, den);
    rounded := rem != 0;
    RoundedWhenRemainder(num, den);
    if rem != 0 {
      if 2 * Abs(rem) >= den {
        if num < 0 {
          q := q - 1;
        } else {
          q := q + 1;
        }
      }
    }
    if !IsInt64(q) {
      return None, false;
    }
    r := Some(q as int64);
  }

  // No remainder is the same as nothing rounded.
  lemma RoundedWhenRemainder(n: int, d: nat)
    requires d > 0
    ensures Rem(n, d) == 0 <==> n == Rounded(n, d) * d
  {
    RoundedIsNearest(n, d);
    if Rem(n, d) == 0 {
      var q := Quo(n, d);
      assert n == q * d;
      NearestUnique(n, d, q);
    } else if n == Rounded(n, d) * d {
      NoRemainder(n, d, Rounded(n, d));
    }
  }

  lemma NoRemainder(n: int, d: nat, q: int)
    requires d > 0 && n == q * d
    ensures Rem(n, d) == 0
  {
    AbsScaled(q, d);
    QuotientOf(Abs(n), d, Abs(q), 0);
    QuotientBounds(n, d, Abs(n), d);
    RemainderIs(Abs(n), d);
  }

  // On what the exact parser accepts, rounding agrees with it and changes nothing.
  lemma RoundedAgreesWithExact(text: string)
    requires Parsed(text).Some?
    ensures var v := PlainDecimal(text).value;
      v.den > 0 && Rounded(100 * v.num, v.den) == Parsed(text).value as int &&
        100 * v.num == Parsed(text).value as int * v.den
  {
    var v, places := PlainDecimal(text).value, Places(text);
    var m := v.num * Pow10(2 - places);
    assert v.den == Pow10(places);
    PowersToHundred(places);
    assert m * v.den == v.num * (Pow10(2 - places) * v.den) == v.num * 100;
    NearestUnique(100 * v.num, v.den, m);
  }
}
