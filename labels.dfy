/** The label printed beside a suggested file: the file path followed by the
    one-based page number in full-width parentheses, or by a fixed fallback
    text when the loader recorded no page. */
module Labels {
  import opened Util

  const PAGE_UNAVAILABLE: string := "ページ番号取得不可"
  const FALLBACK_SUFFIX: string := "（" + PAGE_UNAVAILABLE + "）"

  predicate IsDigit(c: char)
  {
    '0' <= c <= '9'
  }

  predicate AllDigits(s: string)
  {
    forall i :: 0 <= i < |s| ==> IsDigit(s[i])
  }

  function DigitChar(d: nat): (c: char)
    requires d < 10
    ensures IsDigit(c) && c as int - '0' as int == d
  {
    "0123456789"[d]
  }

  /** Decimal digits of `n`, most significant first, as Python's `str` writes them. */
  function NatToDecimal(n: nat): (s: string)
    ensures |s| > 0
    ensures forall i :: 0 <= i < |s| ==> IsDigit(s[i])
  {
    if n < 10 then [DigitChar(n)] else NatToDecimal(n / 10) + [DigitChar(n % 10)]
  }

  /** `str(n)` for an `int`: a minus sign before the digits of a negative value. */
  function IntToDecimal(n: int): (s: string)
    ensures |s| > 0
  {
    if n < 0 then "-" + NatToDecimal(-n) else NatToDecimal(n)
  }

  function ParseNat(s: string): nat
  {
    if s == [] then 0
    else
      var c := s[|s| - 1];
      10 * ParseNat(s[..|s| - 1]) + (if IsDigit(c) then c as int - '0' as int else 0)
  }

  function ParseInt(s: string): int
  {
    if |s| > 0 && s[0] == '-' then -(ParseNat(s[1..]) as int) else ParseNat(s)
  }

  lemma {:induction false} NatToDecimalRoundTrip(n: nat)
    ensures ParseNat(NatToDecimal(n)) == n
  {
    if n >= 10 {
      NatToDecimalRoundTrip(n / 10);
      var s := NatToDecimal(n);
      assert s[..|s| - 1] == NatToDecimal(n / 10);
    }
  }

  /** The digits carry no leading zero, as Python's `str` writes them. */
  lemma {:induction false} NatToDecimalCanonical(n: nat)
    ensures NatToDecimal(n)[0] != '0' || n == 0
  {
    if n >= 10 {
      NatToDecimalCanonical(n / 10);
    }
  }

  /** The text of an integer is "0", or starts with a non-zero digit, or is a
      minus sign followed by a non-zero digit. */
  lemma IntToDecimalCanonical(n: int)
    ensures IntToDecimal(n)[0] == '0' ==> n == 0
    ensures n < 0 ==> |IntToDecimal(n)| > 1 && IntToDecimal(n)[0] == '-' && IntToDecimal(n)[1] != '0'
  {
    if n < 0 {
      NatToDecimalCanonical(-n);
    } else {
      NatToDecimalCanonical(n);
    }
  }

  /** Reading back the decimal text of an integer gives that integer. */
  lemma IntToDecimalRoundTrip(n: int)
    ensures ParseInt(IntToDecimal(n)) == n
  {
    if n < 0 {
      NatToDecimalRoundTrip(-n);
      assert ("-" + NatToDecimal(-n))[1..] == NatToDecimal(-n);
    } else {
      NatToDecimalRoundTrip(n);
      assert IsDigit(NatToDecimal(n)[0]);
    }
  }

  /** The text after the file path: the page shown one-based, or the fallback. */
  function PageSuffix(page: Option<int>): (s: string)
    ensures |s| > 2 && s[0] == '（' && s[|s| - 1] == '）'
  {
    match page
    case Some(n) => "（P." + IntToDecimal(n + 1) + "）"
    case None => FALLBACK_SUFFIX
  }

  /** The label of a suggested file with the page read from its metadata. */
  function PageLabel(source: string, page: Option<int>): (shown: string)
    ensures |shown| > |source| && shown[..|source|] == source
  {
    source + PageSuffix(page)
  }

  /** The page number text of a page index: it reads back as page + 1 and,
      for an index of zero or more, is all digits with a non-zero first
      digit. */
  lemma PageNumberText(n: int)
    ensures ParseInt(IntToDecimal(n + 1)) == n + 1
    ensures n >= 0 ==> '1' <= IntToDecimal(n + 1)[0] <= '9'
    ensures n >= 0 ==> AllDigits(IntToDecimal(n + 1))
  {
    IntToDecimalRoundTrip(n + 1);
    if n >= 0 {
      NatToDecimalCanonical(n + 1);
    }
  }

  /** A label with a page holds the file path, then "（P.", then the decimal
      text of page + 1, which reads back as page + 1 and, for a page index
      of zero or more, is all digits with a non-zero first digit, then "）". */
  lemma PageLabelWithPage(source: string, n: int)
    ensures PageLabel(source, Some(n)) == source + "（P." + IntToDecimal(n + 1) + "）"
    ensures ParseInt(IntToDecimal(n + 1)) == n + 1
    ensures n >= 0 ==> '1' <= IntToDecimal(n + 1)[0] <= '9'
    ensures n >= 0 ==> AllDigits(IntToDecimal(n + 1))
  {
    PageNumberText(n);
  }

  /** The fallback text appears exactly when the page is absent. */
  lemma PageLabelFallback(source: string, page: Option<int>)
    ensures EndsWith(PageLabel(source, page), FALLBACK_SUFFIX) <==> page.None?
  {
    var text := PageLabel(source, page);
    if page.Some? {
      var digits := IntToDecimal(page.value + 1);
      assert text == source + "（P." + digits + "）";
      var last := digits[|digits| - 1];
      assert text[|text| - 2] == last;
      assert IsDigit(last) by {
        if page.value + 1 < 0 {
          assert digits == "-" + NatToDecimal(-(page.value + 1));
        }
      }
    }
  }

  lemma NumberedSuffixIsNotFallback(n: int)
    ensures PageSuffix(Some(n)) != FALLBACK_SUFFIX
  {
    assert PageSuffix(Some(n))[1] == 'P';
    assert FALLBACK_SUFFIX[1] == 'ペ';
  }

  lemma PageSuffixInjective(p: Option<int>, q: Option<int>)
    requires PageSuffix(p) == PageSuffix(q)
    ensures p == q
  {
    var a, b := PageSuffix(p), PageSuffix(q);
    if p.Some? && q.Some? {
      var da, db := IntToDecimal(p.value + 1), IntToDecimal(q.value + 1);
      assert da == a[3..|a| - 1];
      assert db == b[3..|b| - 1];
      IntToDecimalRoundTrip(p.value + 1);
      IntToDecimalRoundTrip(q.value + 1);
    } else if p.Some? {
      NumberedSuffixIsNotFallback(p.value);
    } else if q.Some? {
      NumberedSuffixIsNotFallback(q.value);
    }
  }

  /** Two labels for the same file agree exactly when they show the same page. */
  lemma PageLabelInjective(source: string, p: Option<int>, q: Option<int>)
    requires PageLabel(source, p) == PageLabel(source, q)
    ensures p == q
  {
    assert PageSuffix(p) == PageLabel(source, p)[|source|..];
    assert PageSuffix(q) == PageLabel(source, q)[|source|..];
    PageSuffixInjective(p, q);
  }
}
