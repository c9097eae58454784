/**
 * Calendar dates as front matter delivers them, and their `%Y-%m-%d` text.
 * All later comparisons of dates are comparisons of that text, which is
 * only right because every field is zero-padded to a fixed width.
 */
module Dates {
  import opened Text

  type Year = y: int | 1 <= y <= 9999 witness 1
  type Month = m: int | 1 <= m <= 12 witness 1
  type Day = d: int | 1 <= d <= 31 witness 1

  datatype Date = Date(year: Year, month: Month, day: Day)

  /** Chronological order. */
  predicate Before(a: Date, b: Date)
  {
    || a.year < b.year
    || (a.year == b.year && a.month < b.month)
    || (a.year == b.year && a.month == b.month && a.day < b.day)
  }

  function Pow10(w: nat): nat
  {
    if w == 0 then 1 else 10 * Pow10(w - 1)
  }

  /** The last `w` decimal digits of `n`, zero-padded on the left. */
  function Pad(n: nat, w: nat): (r: string)
    ensures |r| == w
    ensures forall i :: 0 <= i < w ==> IsDigit(r[i])
  {
    if w == 0 then [] else Pad(n / 10, w - 1) + [DigitChar(n % 10)]
  }

  /** Padded numerals of one width compare as the numbers do. */
  lemma {:induction false} PadOrder(n: nat, m: nat, w: nat)
    requires n < Pow10(w) && m < Pow10(w)
    ensures StrLt(Pad(n, w), Pad(m, w)) <==> n < m
    ensures Pad(n, w) == Pad(m, w) <==> n == m
  {
    if w > 0 {
      PadOrder(n / 10, m / 10, w - 1);
      StrLtConcat(Pad(n / 10, w - 1), [DigitChar(n % 10)], Pad(m / 10, w - 1), [DigitChar(m % 10)]);
      assert StrLt([DigitChar(n % 10)], [DigitChar(m % 10)]) <==> n % 10 < m % 10;
    }
  }

  /** A padded numeral reads back as the number it was made from. */
  lemma {:induction false} PadValue(n: nat, w: nat)
    requires n < Pow10(w)
    ensures DigitsValue(Pad(n, w)) == n
  {
    if w > 0 {
      PadValue(n / 10, w - 1);
      var r := Pad(n, w);
      assert r[..w - 1] == Pad(n / 10, w - 1);
    }
  }

  /** `d.strftime("%Y-%m-%d")`. */
  function Format(d: Date): (s: string)
    ensures |s| == 10 && s[4] == '-' && s[7] == '-'
  {
    Pad(d.year, 4) + "-" + Pad(d.month, 2) + "-" + Pad(d.day, 2)
  }

  /** The formatted text holds the year, month and day, in that order. */
  lemma FormatFields(d: Date)
    ensures DigitsValue(Format(d)[..4]) == d.year
    ensures DigitsValue(Format(d)[5..7]) == d.month
    ensures DigitsValue(Format(d)[8..]) == d.day
  {
    var s := Format(d);
    assert s[..4] == Pad(d.year, 4);
    assert s[5..7] == Pad(d.month, 2);
    assert s[8..] == Pad(d.day, 2);
    PadValue(d.year, 4);
    PadValue(d.month, 2);
    PadValue(d.day, 2);
  }

  /** Comparing formatted dates as strings is comparing the dates. */
  lemma FormatOrder(a: Date, b: Date)
    ensures StrLt(Format(a), Format(b)) <==> Before(a, b)
    ensures Format(a) == Format(b) <==> a == b
  {
    PadOrder(a.year, b.year, 4);
    PadOrder(a.month, b.month, 2);
    PadOrder(a.day, b.day, 2);
    var ma, mb := "-" + Pad(a.month, 2), "-" + Pad(b.month, 2);
    var da, db := "-" + Pad(a.day, 2), "-" + Pad(b.day, 2);
    assert Format(a) == Pad(a.year, 4) + (ma + da);
    assert Format(b) == Pad(b.year, 4) + (mb + db);
    StrLtConcat(Pad(a.year, 4), ma + da, Pad(b.year, 4), mb + db);
    StrLtConcat(ma, da, mb, db);
    StrLtConcat("-", Pad(a.month, 2), "-", Pad(b.month, 2));
    StrLtConcat("-", Pad(a.day, 2), "-", Pad(b.day, 2));
    StrLtIrreflexive("-");
  }
}
