/** The handful of QString operations the settings reader relies on, written
    out as explicit functions on `seq<char>`: `trimmed()`, `toInt(&ok)`,
    `QString::number(int)`, `contains()`, and the leftmost/rightmost position
    search that a regular-expression match performs. */
module Text {
  import opened Wrappers

  /** A C++ `int`. */
  type Int32 = x: int | -0x8000_0000 <= x <= 0x7FFF_FFFF

  predicate IsInt32(x: int)
  {
    -0x8000_0000 <= x <= 0x7FFF_FFFF
  }

  // ---------------------------------------------------------------------------
  // Positions

  /** The first position in `from..last` that satisfies `p`: how an unanchored
      regular expression (or `indexOf`) picks the leftmost match. */
  function FirstFrom(p: nat -> bool, from: nat, last: nat): (r: Option<nat>)
    decreases last + 1 - from
    ensures r.Some? ==> from <= r.value <= last && p(r.value)
    ensures r.Some? ==> forall j :: from <= j < r.value ==> !p(j)
    ensures r.None? ==> forall j :: from <= j <= last ==> !p(j)
  {
    if from > last then None
    else if p(from) then Some(from)
    else FirstFrom(p, from + 1, last)
  }

  /** The last position in `lo..hi` that satisfies `p`: where a greedy
      `[^\[]*` stops when it has to be followed by a literal. */
  function LastFrom(p: nat -> bool, lo: nat, hi: nat): (r: Option<nat>)
    decreases hi + 1 - lo
    ensures r.Some? ==> lo <= r.value <= hi && p(r.value)
    ensures r.Some? ==> forall j :: r.value < j <= hi ==> !p(j)
    ensures r.None? ==> forall j :: lo <= j <= hi ==> !p(j)
  {
    if hi < lo then None
    else if p(hi) then Some(hi)
    else if hi == lo then None
    else LastFrom(p, lo, hi - 1)
  }

  /** Positions that satisfy nothing between `a` and `b` can be skipped. */
  lemma FirstFromSkip(p: nat -> bool, a: nat, b: nat, last: nat)
    requires a <= b <= last + 1
    requires forall j :: a <= j < b ==> !p(j)
    ensures FirstFrom(p, a, last) == FirstFrom(p, b, last)
  {
  }

  /** The first position at or after `i` that holds `c`, or the length of
      `s`: where a `[^c]*` run ends. */
  function StopAt(s: string, i: nat, c: char): (e: nat)
    requires i <= |s|
    decreases |s| - i
    ensures i <= e <= |s| && (e == |s| || s[e] == c)
    ensures forall k :: i <= k < e ==> s[k] != c
  {
    if i < |s| && s[i] != c then StopAt(s, i + 1, c) else i
  }

  /** `t` occurs in `s` at position `i`. */
  predicate StartsAt(s: string, i: nat, t: string)
  {
    i + |t| <= |s| && s[i..i + |t|] == t
  }

  function Occurrences(s: string, t: string): nat -> bool
  {
    (i: nat) => StartsAt(s, i, t)
  }

  /** `QString::contains(t)`. */
  predicate Contains(s: string, t: string)
  {
    FirstFrom(Occurrences(s, t), 0, |s|).Some?
  }

  lemma ContainsAt(s: string, t: string, i: nat)
    requires StartsAt(s, i, t)
    ensures Contains(s, t)
  {
    assert Occurrences(s, t)(i);
  }

  lemma ContainsWitness(s: string, t: string) returns (i: nat)
    requires Contains(s, t)
    ensures StartsAt(s, i, t)
  {
    i := FirstFrom(Occurrences(s, t), 0, |s|).value;
  }

  // ---------------------------------------------------------------------------
  // QString::trimmed()

  /** `QChar::isSpace`: TAB..CR, space, NEL, NO-BREAK SPACE and the Unicode
      separator characters (categories Zs, Zl, Zp). */
  predicate IsSpace(c: char)
  {
    var u := c as int;
    u == 0x20 || 0x09 <= u <= 0x0D || u == 0x85 || u == 0xA0 || u == 0x1680
    || 0x2000 <= u <= 0x200A || u == 0x2028 || u == 0x2029 || u == 0x202F
    || u == 0x205F || u == 0x3000
  }

  predicate AllSpace(s: string)
  {
    forall k :: 0 <= k < |s| ==> IsSpace(s[k])
  }

  function TrimStart(s: string): (r: string)
    ensures |r| <= |s| && r == s[|s| - |r|..]
    ensures AllSpace(s[..|s| - |r|])
    ensures |r| > 0 ==> !IsSpace(r[0])
  {
    if |s| > 0 && IsSpace(s[0]) then
      var r := TrimStart(s[1..]);
      var n := |s| - |r|;
      assert s[1..][n - 1..] == s[n..];
      assert s[..n] == [s[0]] + s[1..][..n - 1];
      r
    else s
  }

  function TrimEnd(s: string): (r: string)
    ensures |r| <= |s| && r == s[..|r|]
    ensures AllSpace(s[|r|..])
    ensures |r| > 0 ==> !IsSpace(r[|r| - 1])
  {
    if |s| > 0 && IsSpace(s[|s| - 1]) then
      var r := TrimEnd(s[..|s| - 1]);
      assert s[|r|..] == s[..|s| - 1][|r|..] + [s[|s| - 1]];
      r
    else s
  }

  /** `QString::trimmed()`: the text between the leading and the trailing
      whitespace. */
  function Trim(s: string): (r: string)
    ensures |r| > 0 ==> !IsSpace(r[0]) && !IsSpace(r[|r| - 1])
    ensures exists a, b :: 0 <= a <= b <= |s| && r == s[a..b] && AllSpace(s[..a]) && AllSpace(s[b..])
  {
    var t := TrimStart(s);
    var r := TrimEnd(t);
    var a := |s| - |t|;
    assert r == s[a..a + |r|];
    assert s[a + |r|..] == t[|r|..];
    r
  }

  /** A string with no whitespace at either end is its own trimmed form. */
  lemma TrimUnchanged(s: string)
    requires |s| > 0 ==> !IsSpace(s[0]) && !IsSpace(s[|s| - 1])
    ensures Trim(s) == s
  {
  }

  lemma {:induction false} TrimIdempotent(s: string)
    ensures Trim(Trim(s)) == Trim(s)
  {
    TrimUnchanged(Trim(s));
  }

  // ---------------------------------------------------------------------------
  // QString::toInt(&ok) and QString::number(int), base 10

  predicate IsDigit(c: char)
  {
    '0' <= c <= '9'
  }

  predicate AllDigits(s: string)
  {
    forall k :: 0 <= k < |s| ==> IsDigit(s[k])
  }

  function DigitChar(d: nat): (c: char)
    requires d < 10
    ensures IsDigit(c) && c as int - '0' as int == d
  {
    ('0' as int + d) as char
  }

  /** The value of a run of decimal digits, most significant first. */
  function DigitsValue(ds: string): nat
    requires AllDigits(ds)
  {
    if |ds| == 0 then 0
    else DigitsValue(ds[..|ds| - 1]) * 10 + (ds[|ds| - 1] as int - '0' as int)
  }

  /** Optional sign, then one or more ASCII digits, and nothing else. */
  function ParseDecimal(t: string): Option<int>
  {
    var signed := |t| > 0 && (t[0] == '-' || t[0] == '+');
    var digits := if signed then t[1..] else t;
    if |digits| == 0 || !AllDigits(digits) then None
    else
      var magnitude: int := DigitsValue(digits);
      Some(if t[0] == '-' then -magnitude else magnitude)
  }

  /** `QString::toInt(&ok)`: surrounding whitespace is ignored, a value that
      is not a decimal integer or does not fit an `int` gives `None`
      (`ok == false`). */
  function ParseInt(s: string): Option<Int32>
  {
    var d := ParseDecimal(Trim(s));
    if d.Some? && IsInt32(d.value) then Some(d.value) else None
  }

  /** `t` is the sign `sg` (none, '+' or '-') followed by the digits `ds`. */
  predicate DecimalSplit(t: string, sg: string, ds: string)
  {
    t == sg + ds && (sg == "" || sg == "+" || sg == "-") && |ds| > 0 && AllDigits(ds)
  }

  /** The value of the digits `ds` under the sign `sg`. */
  function SignedValue(sg: string, ds: string): int
    requires AllDigits(ds)
  {
    var magnitude: int := DigitsValue(ds);
    if sg == "-" then -magnitude else magnitude
  }

  lemma ParseDecimalOfSplit(t: string, sg: string, ds: string)
    requires DecimalSplit(t, sg, ds)
    ensures ParseDecimal(t) == Some(SignedValue(sg, ds))
  {
    if sg == "" {
      assert t == ds && IsDigit(t[0]);
    } else {
      assert t[0] == sg[0] && t[1..] == ds;
    }
  }

  lemma ParseDecimalSplit(t: string) returns (sg: string, ds: string)
    requires ParseDecimal(t).Some?
    ensures DecimalSplit(t, sg, ds) && ParseDecimal(t) == Some(SignedValue(sg, ds))
  {
    if |t| > 0 && (t[0] == '-' || t[0] == '+') {
      sg, ds := t[..1], t[1..];
    } else {
      sg, ds := "", t;
    }
    assert t == sg + ds;
    ParseDecimalOfSplit(t, sg, ds);
  }

  /** `toInt(&ok)` succeeds exactly when the trimmed text is an optional sign
      followed by one or more decimal digits whose value fits an `int`, and
      then yields that value. */
  lemma ParseIntAccepts(s: string)
    ensures ParseInt(s).Some? <==>
      exists sg, ds :: DecimalSplit(Trim(s), sg, ds) && IsInt32(SignedValue(sg, ds))
    ensures forall sg, ds :: DecimalSplit(Trim(s), sg, ds) && IsInt32(SignedValue(sg, ds)) ==>
      ParseInt(s) == Some(SignedValue(sg, ds))
  {
    var t := Trim(s);
    if ParseInt(s).Some? {
      var sg, ds := ParseDecimalSplit(t);
      assert DecimalSplit(t, sg, ds) && IsInt32(SignedValue(sg, ds));
    }
    forall sg, ds | DecimalSplit(t, sg, ds) && IsInt32(SignedValue(sg, ds))
      ensures ParseInt(s) == Some(SignedValue(sg, ds))
    {
      ParseDecimalOfSplit(t, sg, ds);
    }
  }

  function NatToDigits(n: nat): string
  {
    if n < 10 then [DigitChar(n)] else NatToDigits(n / 10) + [DigitChar(n % 10)]
  }

  /** `QString::number(int)`: decimal, with a leading '-' for negatives. */
  function NumberToString(n: int): string
  {
    if n < 0 then "-" + NatToDigits(-n) else NatToDigits(n)
  }

  lemma {:induction false} NatToDigitsRoundTrip(n: nat)
    ensures |NatToDigits(n)| > 0 && AllDigits(NatToDigits(n))
    ensures DigitsValue(NatToDigits(n)) == n
  {
    if n >= 10 {
      NatToDigitsRoundTrip(n / 10);
      var s := NatToDigits(n);
      assert s[..|s| - 1] == NatToDigits(n / 10);
    }
  }

  /** A sign or a digit is never whitespace, so `NumberToString` needs no trimming. */
  lemma NumberTrimmed(n: int)
    ensures Trim(NumberToString(n)) == NumberToString(n)
    ensures |NumberToString(n)| > 0
  {
    var s := NumberToString(n);
    var ds := NatToDigits(if n < 0 then -n else n);
    NatToDigitsRoundTrip(if n < 0 then -n else n);
    assert s[|s| - 1] == ds[|ds| - 1];
    assert IsDigit(ds[0]) && IsDigit(ds[|ds| - 1]);
    TrimUnchanged(s);
  }

  lemma ParseDecimalOfNumber(n: int)
    ensures ParseDecimal(NumberToString(n)) == Some(n)
  {
    var s := NumberToString(n);
    if n < 0 {
      var ds := NatToDigits(-n);
      NatToDigitsRoundTrip(-n);
      assert s[1..] == ds;
    } else {
      NatToDigitsRoundTrip(n);
      assert s[0] != '-' && s[0] != '+';
    }
  }

  /** Reading back what `QString::number` wrote gives the same `int`. */
  lemma ParseIntRoundTrip(n: Int32)
    ensures ParseInt(NumberToString(n)) == Some(n)
  {
    NumberTrimmed(n);
    ParseDecimalOfNumber(n);
    ParseIntOfDecimal(NumberToString(n), n);
  }

  lemma ParseIntOfDecimal(s: string, x: int)
    requires ParseDecimal(Trim(s)) == Some(x) && IsInt32(x)
    ensures ParseInt(s) == Some(x)
  {
  }
}
