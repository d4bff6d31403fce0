/**
 * The shared schemas of the second backend: pagination parameters and the
 * page count of a list response, the date-range filter, the time-slot
 * order check, and the blood-pressure text of a vital-signs record.
 */
module CommonSchemas {
  import opened Wrappers
  import opened Text
  import opened Calendar
  import DateText

  // ---------------------------------------------------------------------
  // Pagination
  // ---------------------------------------------------------------------

  const DefaultPage: int := 1
  const DefaultPageSize: int := 20
  const MaxPageSize: int := 100

  /** PaginationParams: `page >= 1` and `1 <= page_size <= 100`. */
  function ValidPagination(page: int, pageSize: int): (r: bool)
    ensures r ==> (page - 1) * pageSize >= 0 && 0 < pageSize <= MaxPageSize
    ensures page == DefaultPage && pageSize == DefaultPageSize ==> r
  {
    page >= 1 && 1 <= pageSize <= MaxPageSize
  }

  /** `(total + page_size - 1) // page_size`, with Python's floor division (page_size is positive). */
  function PageCount(total: int, pageSize: int): (r: int)
    requires pageSize > 0
    ensures total > 0 ==> r > 0
    ensures total <= 0 ==> r <= 0
  {
    var p := (total + pageSize - 1) / pageSize;
    assert total + pageSize - 1 == p * pageSize + (total + pageSize - 1) % pageSize;
    p
  }

  /** The page count is the ceiling of total / page_size: the fewest pages that hold every item. */
  lemma PageCountIsCeiling(total: int, pageSize: int)
    requires pageSize > 0
    ensures (PageCount(total, pageSize) - 1) * pageSize < total <= PageCount(total, pageSize) * pageSize
  {
    var p := PageCount(total, pageSize);
    var r := (total + pageSize - 1) % pageSize;
    assert total + pageSize - 1 == p * pageSize + r && 0 <= r < pageSize;
  }

  /** Under valid pagination an empty list has no pages and a non-empty one at least one. */
  lemma PageCountOfValidSize(total: int, pageSize: int)
    requires 1 <= pageSize <= MaxPageSize && total >= 0
    ensures PageCount(total, pageSize) == 0 <==> total == 0
    ensures PageCount(total, pageSize) <= total
  {
    PageCountIsCeiling(total, pageSize);
    CeilingBounds(total, pageSize, PageCount(total, pageSize));
  }

  lemma CeilingBounds(total: int, pageSize: int, p: int)
    requires pageSize >= 1 && total >= 0 && (p - 1) * pageSize < total <= p * pageSize
    ensures p == 0 <==> total == 0
    ensures p <= total
  {
    ProductBounds(p, pageSize);
    ProductBounds(p - 1, pageSize);
  }

  /** Multiplying by a positive factor keeps the sign and does not shrink a natural number. */
  lemma ProductBounds(a: int, q: int)
    requires q >= 1
    ensures a >= 0 ==> a * q >= a
    ensures a < 0 ==> a * q < 0
  {
  }

  /** The paging fields of a ListResponse. */
  class ListResponse {
    var total: int
    var page: int
    var pageSize: int
    var totalPages: int

    /** The defaults: no items, page 1 of 20 items, one page. */
    constructor ()
      ensures total == 0 && page == DefaultPage && pageSize == DefaultPageSize && totalPages == 1
    {
      total := 0;
      page := DefaultPage;
      pageSize := DefaultPageSize;
      totalPages := 1;
    }

    /** calculate_total_pages: recomputed when page_size is positive, otherwise left as it was. */
    method CalculateTotalPages()
      modifies this
      ensures total == old(total) && page == old(page) && pageSize == old(pageSize)
      ensures old(pageSize) > 0 ==> totalPages == PageCount(total, pageSize)
      ensures old(pageSize) <= 0 ==> totalPages == old(totalPages)
    {
      if pageSize > 0 {
        totalPages := (total + pageSize - 1) / pageSize;
      }
    }
  }

  // ---------------------------------------------------------------------
  // Date range
  // ---------------------------------------------------------------------

  /** validate_date_range: true when a bound is missing, otherwise from_date <= to_date. */
  function ValidateDateRange(fromDate: Option<Date>, toDate: Option<Date>): (ok: bool)
    ensures fromDate.None? || toDate.None? ==> ok
  {
    if fromDate.Some? && toDate.Some? then AtOrBefore(fromDate.value, toDate.value) else true
  }

  /** For two real dates the check is chronological order: the first's day number is not after the second's. */
  lemma DateRangeIsChronological(fromDate: Date, toDate: Date)
    requires ValidDate(fromDate) && ValidDate(toDate) && 1 <= fromDate.year && 1 <= toDate.year
    ensures ValidateDateRange(Some(fromDate), Some(toDate)) <==> Ordinal(fromDate) <= Ordinal(toDate)
  {
    if Before(fromDate, toDate) {
      OrdinalMonotone(fromDate, toDate);
    } else if Before(toDate, fromDate) {
      OrdinalMonotone(toDate, fromDate);
    }
  }

  // ---------------------------------------------------------------------
  // Time slots
  // ---------------------------------------------------------------------

  const Colon: char := ':'

  /** `[0-5][0-9]`. */
  predicate MinuteText(m: string)
  {
    |m| == 2 && '0' <= m[0] <= '5' && IsDigit(m[1])
  }

  /** `[0-1]?[0-9]|2[0-3]`. */
  predicate HourText(h: string)
  {
    (|h| == 1 && IsDigit(h[0])) ||
    (|h| == 2 && (h[0] == '0' || h[0] == '1') && IsDigit(h[1])) ||
    (|h| == 2 && h[0] == '2' && '0' <= h[1] <= '3')
  }

  /** The TimeSlot pattern `^([0-1]?[0-9]|2[0-3]):[0-5][0-9]$`. */
  function MatchesTimePattern(s: string): (r: bool)
    ensures r ==> 4 <= |s| <= 5 && AllDigits(s[..|s| - 3]) && AllDigits(s[|s| - 2..])
  {
    |s| >= 4 && s[|s| - 3] == Colon && HourText(s[..|s| - 3]) && MinuteText(s[|s| - 2..])
  }

  /** `int(t)` for a one- or two-digit text. */
  function SmallValue(t: string): nat
    requires 1 <= |t| <= 2 && AllDigits(t)
  {
    if |t| == 1 then DigitValue(t[0]) else 10 * DigitValue(t[0]) + DigitValue(t[1])
  }

  /** The minutes after midnight a matching "H:MM" or "HH:MM" names. */
  function MinutesOfText(s: string): (m: int)
    requires MatchesTimePattern(s)
    ensures 0 <= m < 1440
  {
    SmallValue(s[..|s| - 3]) * 60 + SmallValue(s[|s| - 2..])
  }

  /** validate_time_order, as written: the two strings compared as strings. */
  function ValidateTimeOrder(startTime: string, endTime: string): (r: bool)
    ensures r <==> !StrLe(endTime, startTime)
    ensures r ==> startTime != endTime
  {
    StrLtIsNotGe(startTime, endTime);
    StrLt(startTime, endTime)
  }

  const NineThirty: string := "9:30"
  const Ten: string := "10:00"

  /** The pattern admits a one-digit hour, and then string order is not time order: 9:30 is not before 10:00. */
  lemma TimeOrderRejectsOneDigitHour()
    ensures MatchesTimePattern(NineThirty) && MatchesTimePattern(Ten)
    ensures MinutesOfText(NineThirty) < MinutesOfText(Ten)
    ensures !ValidateTimeOrder(NineThirty, Ten)
  {
    assert NineThirty[..1] == ['9'] && NineThirty[2..] == ['3', '0'];
    assert Ten[..2] == ['1', '0'] && Ten[3..] == ['0', '0'];
    assert !StrLe(NineThirty, Ten);
  }

  /** The order check as intended: the start is earlier in the day than the end. */
  function ValidateTimeOrderByClock(startTime: string, endTime: string): (r: bool)
    requires MatchesTimePattern(startTime) && MatchesTimePattern(endTime)
    ensures var sh, sm := SmallValue(startTime[..|startTime| - 3]), SmallValue(startTime[|startTime| - 2..]);
      var eh, em := SmallValue(endTime[..|endTime| - 3]), SmallValue(endTime[|endTime| - 2..]);
      r <==> sh < eh || (sh == eh && sm < em)
  {
    MinutesOfText(startTime) < MinutesOfText(endTime)
  }

  /** On zero-padded "HH:MM" texts the string comparison already is the clock comparison. */
  lemma PaddedTimesOrderByClock(a: string, b: string)
    requires MatchesTimePattern(a) && MatchesTimePattern(b) && |a| == 5 && |b| == 5
    ensures ValidateTimeOrder(a, b) <==> ValidateTimeOrderByClock(a, b)
  {
    assert a[..2] == [a[0], a[1]] && a[3..] == [a[3], a[4]];
    assert b[..2] == [b[0], b[1]] && b[3..] == [b[3], b[4]];
    StrLtFive(a, b);
  }

  /** Lexicographic order on two "DD:DD" texts is the order of their clock values. */
  lemma StrLtFive(a: string, b: string)
    requires |a| == 5 && |b| == 5 && a[2] == Colon && b[2] == Colon
    requires IsDigit(a[0]) && IsDigit(a[1]) && IsDigit(a[3]) && IsDigit(a[4])
    requires IsDigit(b[0]) && IsDigit(b[1]) && IsDigit(b[3]) && IsDigit(b[4])
    requires a[3] <= '5' && b[3] <= '5'
    ensures StrLt(a, b) <==>
      (DigitValue(a[0]) * 10 + DigitValue(a[1])) * 60 + DigitValue(a[3]) * 10 + DigitValue(a[4]) <
      (DigitValue(b[0]) * 10 + DigitValue(b[1])) * 60 + DigitValue(b[3]) * 10 + DigitValue(b[4])
  {
    assert StrLe(a, b) == (if a[0] != b[0] then a[0] < b[0] else StrLe(a[1..], b[1..]));
    assert StrLe(a[1..], b[1..]) == (if a[1] != b[1] then a[1] < b[1] else StrLe(a[2..], b[2..]));
    assert StrLe(a[2..], b[2..]) == StrLe(a[3..], b[3..]);
    assert StrLe(a[3..], b[3..]) == (if a[3] != b[3] then a[3] < b[3] else StrLe(a[4..], b[4..]));
    assert StrLe(a[4..], b[4..]) == (if a[4] != b[4] then a[4] < b[4] else StrLe(a[5..], b[5..]));
    if a[0] == b[0] && a[1] == b[1] && a[3] == b[3] && a[4] == b[4] {
      assert forall i :: 0 <= i < 5 ==> a[i] == b[i];
      assert a == b;
    }
  }

  // ---------------------------------------------------------------------
  // Vital signs
  // ---------------------------------------------------------------------

  const Slash: char := '/'

  /** `str(n)` for an int. */
  function IntText(n: int): string
  {
    if n < 0 then ['-'] + NatToString(-n) else NatToString(n)
  }

  /** blood_pressure: "systolic/diastolic" when both readings are set (non-zero), otherwise None. */
  function BloodPressure(systolic: Option<int>, diastolic: Option<int>): (r: Option<string>)
    ensures r.Some? <==> systolic.Some? && systolic.value != 0 && diastolic.Some? && diastolic.value != 0
  {
    if systolic.Some? && systolic.value != 0 && diastolic.Some? && diastolic.value != 0
    then Some(IntText(systolic.value) + [Slash] + IntText(diastolic.value))
    else None
  }

  /** The two readings can be read back from the text: it splits at its only '/' into their decimal forms. */
  lemma BloodPressureReadsBack(systolic: nat, diastolic: nat)
    requires systolic > 0 && diastolic > 0
    ensures var t := BloodPressure(Some(systolic), Some(diastolic)).value;
      var k := DateText.IndexOf(t, Slash);
      k.Some? && AllDigits(t[..k.value]) && AllDigits(t[k.value + 1..]) &&
      ParseNat(t[..k.value]) == systolic && ParseNat(t[k.value + 1..]) == diastolic
  {
    var s, d := NatToString(systolic), NatToString(diastolic);
    var t := s + [Slash] + d;
    assert t == BloodPressure(Some(systolic), Some(diastolic)).value;
    IndexOfAfterDigits(s, d);
    assert t[..|s|] == s && t[|s| + 1..] == d;
    ParseNatToString(systolic);
    ParseNatToString(diastolic);
  }

  lemma {:induction false} IndexOfAfterDigits(s: string, d: string)
    requires AllDigits(s)
    ensures DateText.IndexOf(s + [Slash] + d, Slash) == Some(|s|)
  {
    if s != [] {
      assert (s + [Slash] + d)[1..] == s[1..] + [Slash] + d;
      IndexOfAfterDigits(s[1..], d);
    }
  }
}
