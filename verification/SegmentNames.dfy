// The number in a segment's file name: padded to six digits, and read back only from six digits.
module SegmentNames {
  import opened Wrappers
  import opened Text
  import opened HistoryArchive

  const WIDTH := 6

  function Pad(text: string): (padded: string)
    ensures |padded| == if |text| >= WIDTH then |text| else WIDTH
    decreases WIDTH - |text|
  {
    if |text| >= WIDTH then text else Pad("0" + text)
  }

  /** The number as an appended segment's name carries it. */
  function NumberText(number: nat): string {
    Pad(Decimal(number))
  }

  predicate IsDigit(c: char) {
    '0' <= c <= '9'
  }

  predicate AllDigits(text: string) {
    forall i | 0 <= i < |text| :: IsDigit(text[i])
  }

  function Value(text: string): nat
    requires AllDigits(text)
  {
    if text == "" then 0 else Value(text[..|text| - 1]) * 10 + (text[|text| - 1] as nat - '0' as nat)
  }

  /** The number a listed name stands for; other names are passed over. */
  function NumberIn(text: string): Option<nat> {
    if |text| == WIDTH && AllDigits(text) then Some(Value(text)) else None
  }

  function Power(k: nat): nat {
    if k == 0 then 1 else 10 * Power(k - 1)
  }

  lemma {:induction false} DecimalValue(n: nat)
    ensures AllDigits(Decimal(n)) && Value(Decimal(n)) == n && Decimal(n) != ""
  {
    var digit := "0123456789"[n % 10];
    assert digit as nat - '0' as nat == n % 10;
    if n >= 10 {
      DecimalValue(n / 10);
      assert Decimal(n) == Decimal(n / 10) + [digit];
    } else {
      assert Decimal(n) == [digit] && [digit][..0] == "";
    }
  }

  lemma {:induction false} DecimalLength(n: nat, k: nat)
    requires k > 0
    ensures |Decimal(n)| <= k <==> n < Power(k)
  {
    if n >= 10 && k > 1 {
      DecimalLength(n / 10, k - 1);
    } else if n >= 10 {
      DecimalValue(n / 10);
      assert Power(1) == 10 * Power(0);
    } else {
      PowerAtLeastTen(k);
    }
  }

  lemma {:induction false} PowerAtLeastTen(k: nat)
    requires k > 0
    ensures Power(k) >= 10
  {
    if k > 1 { PowerAtLeastTen(k - 1); }
  }

  lemma {:induction false} LeadingZero(text: string)
    requires AllDigits(text)
    ensures AllDigits("0" + text) && Value("0" + text) == Value(text)
  {
    if text != "" {
      LeadingZero(text[..|text| - 1]);
      assert ("0" + text)[..|text|] == "0" + text[..|text| - 1];
    } else {
      assert "0" + text == "0" && "0"[..0] == "";
    }
  }

  lemma {:induction false} PadValue(text: string)
    requires AllDigits(text)
    ensures AllDigits(Pad(text)) && Value(Pad(text)) == Value(text)
    decreases WIDTH - |text|
  {
    if |text| < WIDTH {
      LeadingZero(text);
      PadValue("0" + text);
    }
  }

  /** A segment's name is recognised again, as that segment's, exactly when its number has at most six digits. */
  lemma NamesReadBack(number: nat)
    ensures NumberIn(NumberText(number)) == if number < LISTED_NUMBERS then Some(number) else None
  {
    DecimalValue(number);
    PadValue(Decimal(number));
    DecimalLength(number, WIDTH);
    assert Power(1) == 10 && Power(2) == 100 && Power(3) == 1000 && Power(4) == 10000 && Power(5) == 100000;
  }

  /** Different segments have different names. */
  lemma NamesDiffer(a: nat, b: nat)
    requires NumberText(a) == NumberText(b)
    ensures a == b
  {
    DecimalValue(a);
    DecimalValue(b);
    PadValue(Decimal(a));
    PadValue(Decimal(b));
  }
}
