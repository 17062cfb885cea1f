/** The text a duration is shown as: "{years} years, {months} months, {days} days",
    with JavaScript's decimal rendering of each number (a leading '-' for a
    negative one) and always the plural words. */
module Display {
  import Calendar
  import opened Durations

  predicate IsDigit(c: char) {
    '0' <= c <= '9'
  }

  predicate AllDigits(s: string) {
    forall i :: 0 <= i < |s| ==> IsDigit(s[i])
  }

  /** The number a string of decimal digits denotes. */
  function DecimalValue(s: string): nat
    requires AllDigits(s)
  {
    if s == [] then 0
    else DecimalValue(s[..|s| - 1]) * 10 + (s[|s| - 1] as int - '0' as int)
  }

  function DigitChar(k: nat): (c: char)
    requires k < 10
    ensures IsDigit(c) && c as int - '0' as int == k
  {
    (k + '0' as int) as char
  }

  /** Shortest decimal digits of n: no leading zero except for 0 itself. */
  function NatToDecimal(n: nat): (s: string)
    ensures |s| >= 1 && AllDigits(s)
    ensures DecimalValue(s) == n
    ensures s[0] == '0' ==> n == 0
  {
    if n < 10 then [DigitChar(n)]
    else
      var front := NatToDecimal(n / 10);
      var s := front + [DigitChar(n % 10)];
      assert s[..|s| - 1] == front;
      s
  }

  /** `${i}` for an integer i. */
  function IntToDecimal(i: int): (s: string)
    ensures |s| >= 1
    ensures s[0] == '-' <==> i < 0
    ensures i < 0 ==> AllDigits(s[1..]) && |s| >= 2 && DecimalValue(s[1..]) == -i
    ensures i >= 0 ==> AllDigits(s) && DecimalValue(s) == i
    ensures i >= 0 && s[0] == '0' ==> i == 0
    ensures i < 0 ==> s[1] != '0'
  {
    if i < 0 then
      var s := "-" + NatToDecimal(-i);
      assert s[1..] == NatToDecimal(-i);
      s
    else NatToDecimal(i)
  }

  /** Distinct integers render as distinct strings. */
  lemma IntToDecimalInjective(a: int, b: int)
    requires IntToDecimal(a) == IntToDecimal(b)
    ensures a == b
  {
  }

  predicate NoSpace(s: string) {
    forall i :: 0 <= i < |s| ==> s[i] != ' '
  }

  lemma IntToDecimalHasNoSpace(i: int)
    ensures NoSpace(IntToDecimal(i))
  {
    var s := IntToDecimal(i);
    if i < 0 {
      assert forall k :: 1 <= k < |s| ==> s[k] == s[1..][k - 1];
    }
  }

  /** `${years} years, ${months} months, ${days} days`: the text opens with the
      years (a '-' exactly when they are negative) and closes with " days". */
  function RenderDuration(d: Duration): (text: string)
    ensures |text| > 5 && text[|text| - 5..] == " days"
    ensures text[0] == '-' <==> d.years < 0
    ensures |text| >= |IntToDecimal(d.years)| + 8
            && text[..|IntToDecimal(d.years)| + 8] == IntToDecimal(d.years) + " years, "
  {
    var years := IntToDecimal(d.years);
    var rest := " years, " + (IntToDecimal(d.months) + (" months, " + (IntToDecimal(d.days) + " days")));
    EndsWith(IntToDecimal(d.days), " days");
    EndsWith(years, rest);
    assert (years + rest)[..|years| + 8] == years + rest[..8];
    years + rest
  }

  /** The last |b| characters of a + b are b. */
  lemma EndsWith(a: string, b: string)
    ensures (a + b)[|a + b| - |b|..] == b
  {
  }

  /** In a + x with no space in a and a space opening x, the first space is at |a|. */
  lemma FirstSpaceAt(a: string, x: string)
    requires NoSpace(a) && |x| > 0 && x[0] == ' '
    ensures (a + x)[|a|] == ' '
    ensures forall k :: 0 <= k < |a| ==> (a + x)[k] != ' '
  {
  }

  /** Two strings split at their first space agree on both parts. */
  lemma {:induction false} SplitAtFirstSpace(a: string, x: string, b: string, y: string)
    requires NoSpace(a) && NoSpace(b)
    requires |x| > 0 && x[0] == ' ' && |y| > 0 && y[0] == ' '
    requires a + x == b + y
    ensures a == b && x == y
  {
    FirstSpaceAt(a, x);
    FirstSpaceAt(b, y);
    assert |a| == |b|;
    assert a == (a + x)[..|a|] && b == (b + y)[..|b|];
    assert x == (a + x)[|a|..] && y == (b + y)[|b|..];
  }

  /** The rendered text determines the duration: no two durations are shown alike. */
  lemma RenderInjective(d: Duration, e: Duration)
    requires RenderDuration(d) == RenderDuration(e)
    ensures d == e
  {
    IntToDecimalHasNoSpace(d.years);
    IntToDecimalHasNoSpace(e.years);
    IntToDecimalHasNoSpace(d.months);
    IntToDecimalHasNoSpace(e.months);
    var restD := " years, " + (IntToDecimal(d.months) + (" months, " + (IntToDecimal(d.days) + " days")));
    var restE := " years, " + (IntToDecimal(e.months) + (" months, " + (IntToDecimal(e.days) + " days")));
    SplitAtFirstSpace(IntToDecimal(d.years), restD, IntToDecimal(e.years), restE);
    IntToDecimalInjective(d.years, e.years);
    var tailD := IntToDecimal(d.months) + (" months, " + (IntToDecimal(d.days) + " days"));
    var tailE := IntToDecimal(e.months) + (" months, " + (IntToDecimal(e.days) + " days"));
    assert tailD == restD[8..] && tailE == restE[8..];
    SplitAtFirstSpace(IntToDecimal(d.months), " months, " + (IntToDecimal(d.days) + " days"),
                      IntToDecimal(e.months), " months, " + (IntToDecimal(e.days) + " days"));
    IntToDecimalInjective(d.months, e.months);
    var lastD := IntToDecimal(d.days) + " days";
    var lastE := IntToDecimal(e.days) + " days";
    assert lastD == (" months, " + lastD)[9..] && lastE == (" months, " + lastE)[9..];
    assert IntToDecimal(d.days) == lastD[..|lastD| - 5] && IntToDecimal(e.days) == lastE[..|lastE| - 5];
    IntToDecimalInjective(d.days, e.days);
  }

  /** The words stay plural whatever the numbers. */
  lemma AlwaysPluralWords()
    ensures RenderDuration(Duration(1, 1, 1)) == "1 years, 1 months, 1 days"
  {
    assert IntToDecimal(1) == "1";
  }

  /** A negative days field renders with its minus sign. */
  lemma NegativeDaysRendered()
    ensures RenderDuration(Duration(0, 1, -2)) == "0 years, 1 months, -2 days"
  {
    assert IntToDecimal(0) == "0" && IntToDecimal(1) == "1";
    assert IntToDecimal(-2) == "-2";
  }

  /** 2020-01-15 to 2022-03-20 is shown as "2 years, 2 months, 5 days". */
  lemma AcmeExampleRendered()
    ensures RenderDuration(CalendarDifference(Calendar.Date(2020, 1, 15), Calendar.Date(2022, 3, 20)))
            == "2 years, 2 months, 5 days"
  {
    AcmeExample();
    assert IntToDecimal(2) == "2" && IntToDecimal(5) == "5";
  }
}
