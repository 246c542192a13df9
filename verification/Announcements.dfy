/** Publication dates of announcements that carry a day and a month but no year
    (src/arknights_mcp/importers/announcements.py). */
module Announcements {
  import opened Json
  import opened JsonText

  // ---------------------------------------------------------------- the calendar

  const MIN_YEAR := 1
  const MAX_YEAR := 9999

  /** The leap rule of Appendix C of RFC 3339. */
  predicate IsLeap(y: int) { y % 4 == 0 && (y % 100 != 0 || y % 400 == 0) }

  function DaysInMonth(y: int, m: int): int
    requires 1 <= m <= 12
  {
    if m == 2 then (if IsLeap(y) then 29 else 28)
    else if m == 4 || m == 6 || m == 9 || m == 11 then 30
    else 31
  }

  /** Whether `datetime.date(y, m, d)` exists. */
  predicate IsDate(y: int, m: int, d: int) {
    MIN_YEAR <= y <= MAX_YEAR && 1 <= m <= 12 && 1 <= d <= DaysInMonth(y, m)
  }

  datatype Day = Day(year: int, month: int, day: int) {
    predicate Valid() { IsDate(year, month, day) }
  }

  function DaysBeforeYear(y: int): int {
    365 * (y - 1) + (y - 1) / 4 - (y - 1) / 100 + (y - 1) / 400
  }

  function DaysBeforeMonth(y: int, m: int): int
    requires 1 <= m <= 12
    decreases m
  {
    if m == 1 then 0 else DaysBeforeMonth(y, m - 1) + DaysInMonth(y, m - 1)
  }

  /** `date.toordinal`. */
  function Ordinal(t: Day): int
    requires t.Valid()
  {
    DaysBeforeYear(t.year) + DaysBeforeMonth(t.year, t.month) + t.day
  }

  function Distance(a: Day, b: Day): int
    requires a.Valid() && b.Valid()
  {
    if Ordinal(a) >= Ordinal(b) then Ordinal(a) - Ordinal(b) else Ordinal(b) - Ordinal(a)
  }

  lemma By4(y: int)
    ensures y / 4 == (y - 1) / 4 + (if y % 4 == 0 then 1 else 0)
  {
  }

  lemma By100(y: int)
    ensures y / 100 == (y - 1) / 100 + (if y % 100 == 0 then 1 else 0)
    ensures y % 100 == 0 ==> y % 4 == 0
  {
  }

  lemma By400(y: int)
    ensures y / 400 == (y - 1) / 400 + (if y % 400 == 0 then 1 else 0)
    ensures y % 400 == 0 ==> y % 100 == 0
  {
  }

  lemma YearLength(y: int)
    ensures DaysBeforeYear(y + 1) == DaysBeforeYear(y) + 365 + (if IsLeap(y) then 1 else 0)
  {
    By4(y);
    By100(y);
    By400(y);
  }

  lemma {:induction false} YearsApart(y: int, z: int)
    requires y <= z
    ensures 365 * (z - y) <= DaysBeforeYear(z) - DaysBeforeYear(y) <= 366 * (z - y)
    decreases z - y
  {
    if y < z {
      YearLength(z - 1);
      YearsApart(y, z - 1);
    }
  }

  /** How far into a year a month starts; February decides the rest. */
  lemma MonthStart(y: int, m: int)
    requires 1 <= m <= 12
    ensures DaysBeforeMonth(y, m) == [0, 31, 59, 90, 120, 151, 181, 212, 243, 273, 304, 334][m - 1]
                                     + (if m > 2 && IsLeap(y) then 1 else 0)
  {
    if m > 1 {
      MonthStart(y, m - 1);
    }
  }

  /** The days have no gap: the day after one is its successor in the month, else the first of the next
      month, else New Year, and its number is the next one. */
  lemma NextDay(t: Day, u: Day)
    requires t.Valid()
    requires u == if IsDate(t.year, t.month, t.day + 1) then Day(t.year, t.month, t.day + 1)
                  else if t.month < 12 then Day(t.year, t.month + 1, 1) else Day(t.year + 1, 1, 1)
    ensures u.Valid() <==> t.year < MAX_YEAR || t.month < 12 || t.day < 31
    ensures u.Valid() ==> Ordinal(u) == Ordinal(t) + 1
  {
    MonthStart(t.year, t.month);
    YearLength(t.year);
  }

  // ---------------------------------------------------------------- the code

  /** What the loop knows after trying the years from ref.year-1 up to (not including) `until`: the
      first of the nearest candidates. */
  ghost predicate Nearest(month: int, day: int, ref: Day, until: int, best: Option<Day>)
    requires ref.Valid()
  {
    match best
    case None => forall y :: ref.year - 1 <= y < until ==> !IsDate(y, month, day)
    case Some(b) =>
      b.Valid() && b.month == month && b.day == day && ref.year - 1 <= b.year < until
      && forall y :: ref.year - 1 <= y < until && IsDate(y, month, day) ==>
           Distance(b, ref) <= Distance(Day(y, month, day), ref)
           && (y < b.year ==> Distance(b, ref) < Distance(Day(y, month, day), ref))
  }

  lemma NextYear(month: int, day: int, ref: Day, year: int, best: Option<Day>)
    requires ref.Valid() && year >= ref.year - 1
    ensures Nearest(month, day, ref, year, best) && !IsDate(year, month, day) ==>
              Nearest(month, day, ref, year + 1, best)
    ensures Nearest(month, day, ref, year, best) && IsDate(year, month, day) ==>
              Nearest(month, day, ref, year + 1, Nearer(best, Day(year, month, day), ref))
  {
    if !Nearest(month, day, ref, year, best) {
      return;
    }
    var all := if IsDate(year, month, day) then Nearer(best, Day(year, month, day), ref) else best;
    forall y | ref.year - 1 <= y < year + 1 && IsDate(y, month, day)
      ensures all.Some? && Distance(all.value, ref) <= Distance(Day(y, month, day), ref)
      ensures y < all.value.year ==> Distance(all.value, ref) < Distance(Day(y, month, day), ref)
    {
      if y < year {
        assert Distance(best.value, ref) <= Distance(Day(y, month, day), ref);
      }
    }
  }

  /** The candidate replaces the best one only if it is strictly nearer. */
  function Nearer(best: Option<Day>, candidate: Day, ref: Day): Option<Day>
    requires ref.Valid() && candidate.Valid() && (best.Some? ==> best.value.Valid())
  {
    if best.None? || Distance(candidate, ref) < Distance(best.value, ref) then Some(candidate) else best
  }

  /** Lines 133-144. */
  method InferDate(month: int, day: int, ref: Day) returns (best: Option<Day>)
    requires ref.Valid()
    ensures Nearest(month, day, ref, ref.year + 2, best)
  {
    best := None;
    var bestDistance := 0;
    for year := ref.year - 1 to ref.year + 2
      invariant Nearest(month, day, ref, year, best)
      invariant best.Some? ==> bestDistance == Distance(best.value, ref)
    {
      NextYear(month, day, ref, year, best);
      if !IsDate(year, month, day) {
        continue;
      }
      var candidate := Day(year, month, day);
      var distance := Distance(candidate, ref);
      if best.None? || distance < bestDistance {
        best, bestDistance := Some(candidate), distance;
      }
    }
  }

  function Padded(n: nat, width: nat): string
    decreases width
  {
    if width == 0 then "" else Padded(n / 10, width - 1) + [HexDigit(n % 10)]
  }

  function IsoFormat(t: Day): string
    requires t.Valid()
  {
    Padded(t.year, 4) + "-" + Padded(t.month, 2) + "-" + Padded(t.day, 2)
  }

  ghost predicate AllDigits(s: string) { forall c :: c in s ==> '0' <= c <= '9' }

  /** `YYYY-MM-DD`. */
  ghost predicate Spells(text: string, t: Day) {
    && |text| == 10 && text[4] == '-' && text[7] == '-'
    && AllDigits(text[..4]) && AllDigits(text[5..7]) && AllDigits(text[8..])
    && Number(text[..4]) == t.year && Number(text[5..7]) == t.month && Number(text[8..]) == t.day
  }

  function PowerOfTen(k: nat): nat { if k == 0 then 1 else 10 * PowerOfTen(k - 1) }

  lemma DigitCharacter(n: nat)
    requires n < 10
    ensures HexDigit(n) as int == '0' as int + n
  {
  }

  lemma {:induction false} PaddedReads(n: nat, width: nat)
    requires n < PowerOfTen(width)
    ensures |Padded(n, width)| == width && AllDigits(Padded(n, width)) && Number(Padded(n, width)) == n
  {
    if width > 0 {
      PaddedReads(n / 10, width - 1);
      DigitCharacter(n % 10);
      assert Padded(n, width)[..width - 1] == Padded(n / 10, width - 1);
    }
  }

  lemma IsoFormatSpells(t: Day)
    requires t.Valid()
    ensures Spells(IsoFormat(t), t)
  {
    assert PowerOfTen(2) == 100 && PowerOfTen(4) == 10000;
    PaddedReads(t.year, 4);
    PaddedReads(t.month, 2);
    PaddedReads(t.day, 2);
    assert IsoFormat(t)[..4] == Padded(t.year, 4);
    assert IsoFormat(t)[5..7] == Padded(t.month, 2);
    assert IsoFormat(t)[8..] == Padded(t.day, 2);
  }

  /** `_normalize_date`, lines 100-144; `canonical` is `canonical_iso_bound`, `None` for its error. */
  method NormalizeDate(explicit: Option<string>, canonical: string -> Option<string>,
                       month: Option<int>, day: Option<int>, ref: Day)
    returns (text: Option<string>)
    requires ref.Valid()
    ensures if explicit.Some? && canonical(explicit.value).Some? then
              var c := canonical(explicit.value).value;
              text == Some(if |c| > 10 then c[..10] else c)
            else if month.None? || day.None? then text == None
            else if text.None? then Nearest(month.value, day.value, ref, ref.year + 2, None)
            else exists t :: Nearest(month.value, day.value, ref, ref.year + 2, Some(t)) && Spells(text.value, t)
  {
    if explicit.Some? {
      var c := canonical(explicit.value);
      if c.Some? {
        return Some(if |c.value| > 10 then c.value[..10] else c.value);
      }
    }
    if month.None? || day.None? {
      return None;
    }
    var best := InferDate(month.value, day.value, ref);
    if best.None? {
      return None;
    }
    IsoFormatSpells(best.value);
    return Some(IsoFormat(best.value));
  }

  // ---------------------------------------------------------------- main results

  lemma IsDateInOtherYears(y: int, z: int, m: int, d: int)
    requires IsDate(y, m, d) && MIN_YEAR <= z <= MAX_YEAR
    ensures IsDate(z, m, d) <==> !(m == 2 && d == 29) || IsLeap(z)
  {
  }

  lemma InYear(t: Day)
    requires t.Valid()
    ensures DaysBeforeYear(t.year) < Ordinal(t) <= DaysBeforeYear(t.year + 1)
    ensures t.month == 2 && t.day == 29 ==> Ordinal(t) == DaysBeforeYear(t.year) + 60 && IsLeap(t.year)
  {
    MonthStart(t.year, t.month);
    YearLength(t.year);
  }

  lemma LeapYearsApart(y: int, z: int)
    requires y % 4 == 0 && z % 4 == 0 && y < z
    ensures z >= y + 4
  {
  }

  /** A leap day after next year is farther than the best one of the three years. */
  lemma LaterLeapDay(ref: Day, b: Day, far: Day)
    requires ref.Valid() && b.Valid() && far.Valid() && b.month == far.month == 2 && b.day == far.day == 29
    requires ref.year - 1 <= b.year <= ref.year + 1 && far.year >= ref.year + 2
    ensures Distance(b, ref) < Distance(far, ref)
  {
    InYear(ref);
    InYear(b);
    InYear(far);
    LeapYearsApart(b.year, far.year);
    YearsApart(ref.year, ref.year + 1);
    YearsApart(ref.year + 1, far.year);
    YearsApart(b.year, ref.year + 1);
  }

  lemma EarlierLeapDay(ref: Day, b: Day, far: Day)
    requires ref.Valid() && b.Valid() && far.Valid() && b.month == far.month == 2 && b.day == far.day == 29
    requires ref.year - 1 <= b.year <= ref.year + 1 && far.year <= ref.year - 2
    ensures Distance(b, ref) < Distance(far, ref)
  {
    InYear(ref);
    InYear(b);
    InYear(far);
    LeapYearsApart(far.year, b.year);
    YearsApart(ref.year, ref.year + 1);
    YearsApart(far.year, ref.year);
    if b.year <= ref.year {
      YearsApart(b.year, ref.year);
      YearsApart(far.year, b.year);
    }
  }

  lemma EarlierYear(a: Day, b: Day)
    requires a.Valid() && b.Valid() && a.year < b.year
    ensures Ordinal(a) < Ordinal(b)
  {
    InYear(a);
    InYear(b);
    YearsApart(a.year + 1, b.year);
  }

  lemma FartherOnTheSameSide(ref: Day, near: Day, far: Day)
    requires ref.Valid() && near.Valid() && far.Valid()
    requires ref.year < near.year < far.year || far.year < near.year < ref.year
    ensures Distance(near, ref) < Distance(far, ref)
  {
    if ref.year < far.year {
      EarlierYear(ref, near);
      EarlierYear(near, far);
    } else {
      EarlierYear(far, near);
      EarlierYear(near, ref);
    }
  }

  /** The inferred date is globally the nearest: no year at all gives a real date with this month and
      day closer to the fetch day, and a tie goes to the earlier year. */
  lemma NoYearIsNearer(m: int, d: int, ref: Day, b: Day, z: int)
    requires ref.Valid() && Nearest(m, d, ref, ref.year + 2, Some(b)) && IsDate(z, m, d)
    ensures Distance(b, ref) <= Distance(Day(z, m, d), ref)
    ensures z < b.year ==> Distance(b, ref) < Distance(Day(z, m, d), ref)
  {
    var far := Day(z, m, d);
    if ref.year - 1 <= z < ref.year + 2 {
    } else if m == 2 && d == 29 {
      if z > ref.year { LaterLeapDay(ref, b, far); } else { EarlierLeapDay(ref, b, far); }
    } else {
      var near := Day(if z > ref.year then ref.year + 1 else ref.year - 1, m, d);
      IsDateInOtherYears(z, near.year, m, d);
      FartherOnTheSameSide(ref, near, far);
      assert Distance(b, ref) <= Distance(near, ref);
    }
  }

  /** Except for 29 February it lies within 183 days of the fetch day, whenever both neighbouring
      years are supported. */
  lemma WithinHalfAYear(m: int, d: int, ref: Day, b: Day)
    requires ref.Valid() && Nearest(m, d, ref, ref.year + 2, Some(b))
    requires !(m == 2 && d == 29) && MIN_YEAR < ref.year < MAX_YEAR
    ensures Distance(b, ref) <= 183
  {
    IsDateInOtherYears(b.year, ref.year - 1, m, d);
    IsDateInOtherYears(b.year, ref.year, m, d);
    IsDateInOtherYears(b.year, ref.year + 1, m, d);
    OneIsNear(m, d, ref);
  }

  /** One of three consecutive anniversaries lies within half a year. */
  lemma OneIsNear(m: int, d: int, ref: Day)
    requires ref.Valid() && IsDate(ref.year - 1, m, d) && IsDate(ref.year, m, d) && IsDate(ref.year + 1, m, d)
    ensures Distance(Day(ref.year - 1, m, d), ref) <= 183 || Distance(Day(ref.year, m, d), ref) <= 183
            || Distance(Day(ref.year + 1, m, d), ref) <= 183
  {
    var p, q, r := Day(ref.year - 1, m, d), Day(ref.year, m, d), Day(ref.year + 1, m, d);
    Anniversary(ref.year - 1, m, d);
    Anniversary(ref.year, m, d);
    EarlierYear(p, ref);
    EarlierYear(ref, r);
  }

  lemma Anniversary(y: int, m: int, d: int)
    requires IsDate(y, m, d) && IsDate(y + 1, m, d)
    ensures 365 <= Ordinal(Day(y + 1, m, d)) - Ordinal(Day(y, m, d)) <= 366
  {
    YearLength(y);
    MonthStart(y, m);
    MonthStart(y + 1, m);
  }

  /** No date is published exactly when none of the three years has that day.  Any other month and
      day that exists in some year gets one. */
  lemma NoDateOnlyForLeapDays(m: int, d: int, ref: Day, z: int)
    requires ref.Valid() && Nearest(m, d, ref, ref.year + 2, None) && IsDate(z, m, d)
    ensures m == 2 && d == 29 && !IsLeap(ref.year)
  {
    IsDateInOtherYears(z, ref.year, m, d);
  }
}
