/**
 `Date.__str__`: the year, month and day as decimal integers formatted like
 Python's `{:04d}`, `{:02d}` and `{:02d}`, joined by '-'.
 */
module DateText {
  import opened Dates

  predicate IsDigit(ch: char) {
    '0' <= ch <= '9'
  }

  function DigitChar(k: nat): (ch: char)
    requires k < 10
    ensures IsDigit(ch) && DigitValue(ch) == k
  {
    "0123456789"[k]
  }

  function DigitValue(ch: char): nat
    requires IsDigit(ch)
  {
    (ch as int) - ('0' as int)
  }

  /** Decimal digits of `n` without leading zeros (the `str` of a natural). */
  function Digits(n: nat): (s: string)
    decreases n
    ensures 1 <= |s|
    ensures forall i :: 0 <= i < |s| ==> IsDigit(s[i])
  {
    if n < 10 then [DigitChar(n)] else Digits(n / 10) + [DigitChar(n % 10)]
  }

  datatype Option<T> = None | Some(value: T)

  /** Reads a string of decimal digits, most significant first; `None` when
      some character is not a digit. */
  function ParseNat(s: string): (r: Option<nat>)
    ensures r.Some? <==> forall i :: 0 <= i < |s| ==> IsDigit(s[i])
  {
    if s == [] then Some(0)
    else if !IsDigit(s[|s| - 1]) then None
    else match ParseNat(s[..|s| - 1])
      case None => None
      case Some(v) => Some(10 * v + DigitValue(s[|s| - 1]))
  }

  function Power10(k: nat): nat {
    if k == 0 then 1 else 10 * Power10(k - 1)
  }

  function Zeros(k: nat): (s: string)
    ensures |s| == k && forall i :: 0 <= i < k ==> s[i] == '0'
  {
    if k == 0 then [] else Zeros(k - 1) + ['0']
  }

  /** Left-pads `s` with '0' to at least `width` characters. */
  function PadZeros(s: string, width: int): (p: string)
    ensures |p| == if |s| >= width then |s| else width
    ensures p[|p| - |s|..] == s
    ensures forall i :: 0 <= i < |p| - |s| ==> p[i] == '0'
  {
    if |s| >= width then s else Zeros(width - |s|) + s
  }

  /** Python's `format(n, "0<width>d")`: a negative number keeps its '-'
      in front and the zeros go between the sign and the digits, so that the
      whole string is at least `width` characters long. */
  function FormatInt(n: int, width: nat): (s: string)
    ensures n < 0 ==> |s| >= 2 && s[0] == '-' && forall i :: 1 <= i < |s| ==> IsDigit(s[i])
    ensures 0 <= n ==> forall i :: 0 <= i < |s| ==> IsDigit(s[i])
    ensures width <= |s|
  {
    if n < 0 then "-" + PadZeros(Digits(-n), width - 1) else PadZeros(Digits(n), width)
  }

  predicate DigitsOrDashes(s: string) {
    forall i :: 0 <= i < |s| ==> IsDigit(s[i]) || s[i] == '-'
  }

  lemma FormatDigitsOrDashes(n: int, width: nat)
    ensures DigitsOrDashes(FormatInt(n, width))
  {
    var s := FormatInt(n, width);
    forall i | 0 <= i < |s|
      ensures IsDigit(s[i]) || s[i] == '-'
    {
      if n < 0 && i == 0 {
        assert s[0] == '-';
      }
    }
  }

  /** Joining three fields with '-' keeps only digits and dashes. */
  lemma JoinDigitsOrDashes(y: string, m: string, dd: string)
    requires DigitsOrDashes(y) && DigitsOrDashes(m) && DigitsOrDashes(dd)
    ensures DigitsOrDashes(y + "-" + m + "-" + dd)
  {}

  /** The string form of a `Date`: at least ten characters, all of them
      digits or '-'. */
  function Render(d: Date): (s: string)
    ensures 10 <= |s|
    ensures DigitsOrDashes(s)
  {
    var y, m, dd := FormatInt(d.year, 4), FormatInt(d.month, 2), FormatInt(d.day, 2);
    FormatDigitsOrDashes(d.year, 4);
    FormatDigitsOrDashes(d.month, 2);
    FormatDigitsOrDashes(d.day, 2);
    JoinDigitsOrDashes(y, m, dd);
    y + "-" + m + "-" + dd
  }

  /** Parsing the digits of `n` gives back `n`. */
  lemma {:induction false} ParseDigits(n: nat)
    ensures ParseNat(Digits(n)) == Some(n)
    decreases n
  {
    var s := Digits(n);
    if n >= 10 {
      ParseDigits(n / 10);
      assert s[..|s| - 1] == Digits(n / 10);
    }
  }

  /** Leading zeros do not change the value of a digit string. */
  lemma {:induction false} ParseLeadingZeros(k: nat, s: string)
    requires forall i :: 0 <= i < |s| ==> IsDigit(s[i])
    ensures ParseNat(Zeros(k) + s) == ParseNat(s)
    decreases |s|
  {
    var z := Zeros(k) + s;
    if s == [] {
      assert z == Zeros(k);
      ParseZeros(k);
    } else {
      assert z[..|z| - 1] == Zeros(k) + s[..|s| - 1];
      ParseLeadingZeros(k, s[..|s| - 1]);
    }
  }

  lemma {:induction false} ParseZeros(k: nat)
    ensures ParseNat(Zeros(k)) == Some(0)
  {
    if k > 0 {
      assert Zeros(k)[..k - 1] == Zeros(k - 1);
      ParseZeros(k - 1);
    }
  }

  /** A natural below 10^k has at most k digits. */
  lemma {:induction false} DigitsLength(n: nat, k: nat)
    requires 1 <= k && n < Power10(k)
    ensures |Digits(n)| <= k
    decreases k
  {
    if n >= 10 {
      assert k > 1;
      DigitsLength(n / 10, k - 1);
    }
  }

  /** Formatting a natural with a width and parsing the result gives the
      natural back; when it has at most `width` digits the string is exactly
      `width` characters long. */
  lemma FormatNatRoundTrip(n: nat, width: nat)
    requires 1 <= width && n < Power10(width)
    ensures |FormatInt(n, width)| == width
    ensures ParseNat(FormatInt(n, width)) == Some(n)
  {
    DigitsLength(n, width);
    var ds := Digits(n);
    ParseDigits(n);
    if |ds| < width {
      ParseLeadingZeros(width - |ds|, ds);
    }
  }

  /** Where the three fields sit in "YYYY-MM-DD". */
  lemma DashedFields(y: string, m: string, dd: string)
    requires |y| == 4 && |m| == 2 && |dd| == 2
    ensures var s := y + "-" + m + "-" + dd;
      |s| == 10 && s[4] == '-' && s[7] == '-' && s[..4] == y && s[5..7] == m && s[8..] == dd
  {}

  /** A date with a year in 0..9999 renders as "YYYY-MM-DD": ten characters,
      dashes at positions 4 and 7, and each field reads back as its value. */
  lemma RenderShape(d: Date)
    requires 0 <= d.year <= 9999 && Valid(d)
    ensures |Render(d)| == 10
    ensures Render(d)[4] == '-' && Render(d)[7] == '-'
    ensures ParseNat(Render(d)[..4]) == Some(d.year)
    ensures ParseNat(Render(d)[5..7]) == Some(d.month)
    ensures ParseNat(Render(d)[8..]) == Some(d.day)
  {
    assert Power10(2) == 100;
    assert Power10(4) == 10000;
    FormatNatRoundTrip(d.year, 4);
    FormatNatRoundTrip(d.month, 2);
    FormatNatRoundTrip(d.day, 2);
    DashedFields(FormatInt(d.year, 4), FormatInt(d.month, 2), FormatInt(d.day, 2));
  }

  lemma DigitsExamples()
    ensures Digits(2024) == "2024" && Digits(29) == "29" && Digits(2) == "2" && Digits(1) == "1"
  {
    assert Digits(20) == "20";
    assert Digits(202) == "202";
  }

  lemma FormatExamples()
    ensures FormatInt(2024, 4) == "2024"
    ensures FormatInt(2, 2) == "02"
    ensures FormatInt(29, 2) == "29"
    ensures FormatInt(-1, 4) == "-001"
  {
    DigitsExamples();
    assert Zeros(1) == "0";
    assert Zeros(3) == "000";
  }
}
