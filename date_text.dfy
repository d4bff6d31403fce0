/**
 * Reading a date written as text with `datetime.strptime(s, "%Y-%m-%d")`:
 * four year digits, a dash, a month of one or two digits, a dash, and a
 * day of one or two digits (or a space and one digit); the whole text
 * must be consumed and the date must exist, otherwise ValueError.
 */
module DateText {
  import opened Wrappers
  import opened Text
  import opened Calendar

  /** The position of the first occurrence of c in s. */
  function IndexOf(s: string, c: char): (r: Option<nat>)
    ensures r.Some? ==> r.value < |s| && s[r.value] == c && forall i :: 0 <= i < r.value ==> s[i] != c
    ensures r.None? ==> forall i :: 0 <= i < |s| ==> s[i] != c
  {
    if s == [] then None
    else if s[0] == c then Some(0)
    else
      var r := IndexOf(s[1..], c);
      if r.Some? then Some(r.value + 1) else None
  }

  /** `%m`: 1[0-2], 0[1-9] or [1-9]. */
  predicate MonthField(m: string)
  {
    1 <= |m| <= 2 && AllDigits(m) && 1 <= ParseNat(m) <= 12
  }

  /** `%d`: 3[01], [12] and a digit, 0[1-9], [1-9], or a space and [1-9]. */
  predicate DayField(d: string)
  {
    (1 <= |d| <= 2 && AllDigits(d) && 1 <= ParseNat(d) <= 31) ||
    (|d| == 2 && d[0] == ' ' && '1' <= d[1] <= '9')
  }

  function DayValue(d: string): nat
    requires DayField(d)
  {
    if d[0] == ' ' then DigitValue(d[1]) else ParseNat(d)
  }

  /** strptime with "%Y-%m-%d": the date, or None where it raises ValueError. */
  function ParseYmd(s: string): (r: Option<Date>)
    ensures r.Some? ==> ValidDate(r.value) && 1 <= r.value.year <= 9999
  {
    if |s| < 5 || !AllDigits(s[..4]) || s[4] != '-' then None
    else
      var rest := s[5..];
      var k := IndexOf(rest, '-');
      if k.None? then None
      else
        var m, d := rest[..k.value], rest[k.value + 1..];
        if !MonthField(m) || !DayField(d) then None
        else
          var date := Date(ParseNat(s[..4]), ParseNat(m), DayValue(d));
          ParseNatBound(s[..4]);
          if date.year >= 1 && ValidDate(date) then Some(date) else None
  }

  lemma {:induction false} ParseNatBound(s: string)
    requires AllDigits(s)
    ensures |s| == 4 ==> ParseNat(s) <= 9999
    ensures ParseNat(s) < Pow10(|s|)
  {
    if s != [] {
      ParseNatBound(s[..|s| - 1]);
      assert Pow10(|s|) == 10 * Pow10(|s| - 1);
    }
    assert Pow10(4) == 10000;
  }

  function Pow10(n: nat): (r: nat)
    ensures r >= 1
  {
    if n == 0 then 1 else 10 * Pow10(n - 1)
  }

  const Dash: char := '-'

  /** The canonical text of a date: year to four digits, month and day to two. */
  function FormatYmd(d: Date): string
    requires 1 <= d.year && 1 <= d.month && 1 <= d.day
  {
    ZeroFill(NatToString(d.year), 4) + [Dash] + ZeroFill(NatToString(d.month), 2) + [Dash] +
    ZeroFill(NatToString(d.day), 2)
  }

  /** Every existing date of years 1 to 9999, written YYYY-MM-DD, reads back as itself. */
  lemma ParseFormatYmd(d: Date)
    requires ValidDate(d) && 1 <= d.year <= 9999
    ensures ParseYmd(FormatYmd(d)) == Some(d)
  {
    var y, m, dd := ZeroFill(NatToString(d.year), 4), ZeroFill(NatToString(d.month), 2), ZeroFill(NatToString(d.day), 2);
    ParseZeroFill(d.year, 4);
    ParseZeroFill(d.month, 2);
    ParseZeroFill(d.day, 2);
    NatToStringLength(d.year, 4);
    NatToStringLength(d.month, 2);
    NatToStringLength(d.day, 2);
    ParseFields(y, m, dd, d);
  }

  /** Three digit fields of widths 4, 2 and 2 that spell an existing date parse to it. */
  lemma ParseFields(y: string, m: string, dd: string, d: Date)
    requires |y| == 4 && |m| == 2 && |dd| == 2 && AllDigits(y) && AllDigits(m) && AllDigits(dd)
    requires ParseNat(y) == d.year && ParseNat(m) == d.month && ParseNat(dd) == d.day
    requires ValidDate(d) && 1 <= d.year
    ensures ParseYmd(y + [Dash] + m + [Dash] + dd) == Some(d)
  {
    SplitFields(y, m, dd);
    assert MonthField(m);
    assert DayField(dd);
    assert DayValue(dd) == d.day;
  }

  /** How ParseYmd takes apart a text made of three digit fields joined by dashes. */
  lemma SplitFields(y: string, m: string, dd: string)
    requires |y| == 4 && |m| == 2 && |dd| == 2 && AllDigits(y) && AllDigits(m) && AllDigits(dd)
    ensures var s := y + [Dash] + m + [Dash] + dd;
      |s| >= 5 && s[..4] == y && s[4] == Dash && IndexOf(s[5..], Dash) == Some(2) &&
      s[5..][..2] == m && s[5..][3..] == dd
  {
    var s := y + [Dash] + m + [Dash] + dd;
    var rest := m + [Dash] + dd;
    assert s[5..] == rest;
    assert IndexOf(rest[2..], Dash) == Some(0);
    assert IndexOf(rest[1..], Dash) == Some(1) by {
      assert rest[1..][1..] == rest[2..];
    }
  }

  /** A number below 10^w has at most w digits. */
  lemma {:induction false} NatToStringLength(n: nat, w: nat)
    requires 1 <= w && n < Pow10(w)
    ensures |NatToString(n)| <= w
  {
    if n >= 10 {
      assert w >= 2 && Pow10(w) == 10 * Pow10(w - 1);
      NatToStringLength(n / 10, w - 1);
    }
  }

  /**
   * `date.fromisoformat(s)` on the calendar form: exactly YYYY-MM-DD with
   * two-digit month and day, naming an existing date; None where it
   * raises ValueError.
   */
  function ParseIsoDate(s: string): (r: Option<Date>)
    ensures r.Some? ==> ValidDate(r.value) && 1 <= r.value.year
    ensures r.Some? ==> |s| == 10 && s[4] == Dash && s[7] == Dash
  {
    if |s| != 10 || s[4] != Dash || s[7] != Dash || !AllDigits(s[..4]) || !AllDigits(s[5..7]) || !AllDigits(s[8..])
    then None
    else
      var d := Date(ParseNat(s[..4]), ParseNat(s[5..7]), ParseNat(s[8..]));
      if d.year >= 1 && ValidDate(d) then Some(d) else None
  }

  /** `date.isoformat()` reads back through `date.fromisoformat` as the same date. */
  lemma ParseIsoFormat(d: Date)
    requires ValidDate(d) && 1 <= d.year <= 9999
    ensures |FormatYmd(d)| == 10
    ensures ParseIsoDate(FormatYmd(d)) == Some(d)
  {
    var y, m, dd := ZeroFill(NatToString(d.year), 4), ZeroFill(NatToString(d.month), 2), ZeroFill(NatToString(d.day), 2);
    ParseZeroFill(d.year, 4);
    ParseZeroFill(d.month, 2);
    ParseZeroFill(d.day, 2);
    NatToStringLength(d.year, 4);
    NatToStringLength(d.month, 2);
    NatToStringLength(d.day, 2);
    IsoFields(y, m, dd, d);
  }

  /** Three digit fields of widths 4, 2 and 2 that spell an existing date are its ISO text. */
  lemma IsoFields(y: string, m: string, dd: string, d: Date)
    requires |y| == 4 && |m| == 2 && |dd| == 2 && AllDigits(y) && AllDigits(m) && AllDigits(dd)
    requires ParseNat(y) == d.year && ParseNat(m) == d.month && ParseNat(dd) == d.day
    requires ValidDate(d) && 1 <= d.year
    ensures |y + [Dash] + m + [Dash] + dd| == 10
    ensures ParseIsoDate(y + [Dash] + m + [Dash] + dd) == Some(d)
  {
    IsoSlices(y, m, dd);
  }

  /** The ISO text of three fields cuts back into those fields. */
  lemma IsoSlices(y: string, m: string, dd: string)
    requires |y| == 4 && |m| == 2 && |dd| == 2
    ensures var s := y + [Dash] + m + [Dash] + dd;
      |s| == 10 && s[4] == Dash && s[7] == Dash && s[..4] == y && s[5..7] == m && s[8..] == dd
  {
    var s := y + [Dash] + m + [Dash] + dd;
    assert s[..4] == y;
    assert s[5..7] == m;
    assert s[8..] == dd;
  }

  /** A text whose separator is missing, or that carries anything after the day, is rejected. */
  lemma RejectsMissingSeparator(s: string)
    requires |s| >= 5 && s[4] != '-'
    ensures ParseYmd(s).None?
  {
  }
}
