/** Gregorian Easter Sunday by the Meeus/Jones/Butcher ("anonymous
    Gregorian") algorithm. For a non-negative year every dividend below
    is non-negative, so Dafny's Euclidean `/` and `%` agree with
    `Math.floor` and `%` of the JavaScript code. */
module Easter {
  import opened Calendar

  /** The intermediate quantities of the algorithm, named as in the
      JavaScript code; Easter falls h + l - 7m days after 22 March. */
  datatype Steps = Steps(a: int, h: int, l: int, m: int)

  function EasterSteps(year: int): (s: Steps)
    requires year >= 0
    ensures 0 <= s.a < 19 && 0 <= s.h < 30 && 0 <= s.l < 7
  {
    var a := year % 19;
    var b := year / 100;
    var c := year % 100;
    var d := b / 4;
    var e := b % 4;
    var f := (b + 8) / 25;
    var g := (b - f + 1) / 3;
    var h := (19 * a + b - d - g + 15) % 30;
    var i := c / 4;
    var k := c % 4;
    var l := (32 + 2 * e + 2 * i - h - k) % 7;
    var m := (a + 11 * h + 22 * l) / 451;
    Steps(a, h, l, m)
  }

  function EasterDate(year: int): (dt: Date)
    requires year >= 0
    ensures dt.year == year
  {
    var s := EasterSteps(year);
    var month := (s.h + s.l - 7 * s.m + 114) / 31;
    var day := (s.h + s.l - 7 * s.m + 114) % 31 + 1;
    Date(year, month, day)
  }

  /** Easter Sunday falls between 22 March and 25 April inclusive. */
  lemma EasterInRange(year: int)
    requires year >= 0
    ensures var dt := EasterDate(year);
      || (dt.month == 3 && 22 <= dt.day <= 31)
      || (dt.month == 4 && 1 <= dt.day <= 25)
  {
    var s := EasterSteps(year);
    assert 0 <= s.a + 11 * s.h + 22 * s.l < 902;
    assert s.m == 0 || s.m == 1;
    assert s.m == 1 ==> s.h + s.l >= 7;
    assert s.m == 0 ==> s.h + s.l <= 34;
  }

  /** The day number of Easter, as 22 March plus the algorithm's offset. */
  lemma EasterDayNumber(year: int)
    requires year >= GregorianStart
    ensures ValidDate(EasterDate(year))
    ensures var s := EasterSteps(year);
      DayNumber(EasterDate(year)) ==
        DaysBeforeYear(year) + 59 + (if IsLeapYear(year) then 1 else 0) + 22 + s.h + s.l - 7 * s.m
  {
    EasterInRange(year);
  }

  /** Easter is the only date of its year with Easter's day number. */
  lemma EasterDayUnique(dt: Date)
    requires ValidDate(dt)
    ensures ValidDate(EasterDate(dt.year))
    ensures DayNumber(dt) == DayNumber(EasterDate(dt.year)) <==> dt == EasterDate(dt.year)
  {
    EasterInRange(dt.year);
    if DayNumber(dt) == DayNumber(EasterDate(dt.year)) {
      DayNumberInjective(dt, EasterDate(dt.year));
    }
  }

  /** The algorithm always lands on a Sunday. */
  lemma EasterIsSunday(year: int)
    requires year >= GregorianStart
    ensures ValidDate(EasterDate(year)) && DayOfWeek(EasterDate(year)) == 0
  {
    EasterDayNumber(year);
    var s := EasterSteps(year);
    var b, c := year / 100, year % 100;
    var d, e := b / 4, b % 4;
    var i, k := c / 4, c % 4;
    assert s.l == (32 + 2 * e + 2 * i - s.h - k) % 7;
    LeapYearsUpTo(year);
    SundayArithmetic(year, b, c, d, e, i, k, s.h, s.l, s.m);
  }

  /** Leap years in 1 .. y, counted two ways. */
  lemma LeapYearsUpTo(y: int)
    requires y >= 1
    ensures (y - 1) / 4 - (y - 1) / 100 + (y - 1) / 400 + (if IsLeapYear(y) then 1 else 0)
            == y / 4 - y / 100 + y / 400
  {
    assert y / 4 == (y - 1) / 4 + (if y % 4 == 0 then 1 else 0);
    assert y / 100 == (y - 1) / 100 + (if y % 100 == 0 then 1 else 0);
    assert y / 400 == (y - 1) / 400 + (if y % 400 == 0 then 1 else 0);
  }

  /** The weekday identity behind the term `l`: with year = 100 b + c,
      b = 4 d + e and c = 4 i + k, 22 March plus h + l is a Sunday. */
  lemma SundayArithmetic(year: int, b: int, c: int, d: int, e: int, i: int, k: int, h: int, l: int, m: int)
    requires year >= 1
    requires b == year / 100 && c == year % 100 && d == b / 4 && e == b % 4 && i == c / 4 && k == c % 4
    requires l == (32 + 2 * e + 2 * i - h - k) % 7
    ensures (365 * (year - 1) + year / 4 - year / 100 + year / 400 + 81 + h + l - 7 * m) % 7 == 0
  {
    var q := (32 + 2 * e + 2 * i - h - k) / 7;
    assert l == 32 + 2 * e + 2 * i - h - k - 7 * q;
    assert year == 400 * d + 100 * e + 4 * i + k;
    assert year / 4 == 100 * d + 25 * e + i;
    assert year / 100 == b;
    assert year / 400 == d;
    var n := 365 * (year - 1) + year / 4 - year / 100 + year / 400 + 81 + h + l - 7 * m;
    assert n == 7 * (20871 * d + 5218 * e + 209 * i + 52 * k - 36 - q - m);
  }

  /** Reference dates of the algorithm. */
  lemma EasterReferenceYears()
    ensures EasterDate(2000) == Date(2000, 4, 23)
    ensures EasterDate(2024) == Date(2024, 3, 31)
    ensures EasterDate(2025) == Date(2025, 4, 20)
    ensures EasterDate(2026) == Date(2026, 4, 5)
  {
    Easter2000();
    Easter2024();
    Easter2025();
    Easter2026();
  }

  lemma Easter2000() ensures EasterDate(2000) == Date(2000, 4, 23) { EasterOf(2000, 5, 29, 3); }
  lemma Easter2024() ensures EasterDate(2024) == Date(2024, 3, 31) { EasterOf(2024, 10, 4, 5); }
  lemma Easter2025() ensures EasterDate(2025) == Date(2025, 4, 20) { EasterOf(2025, 11, 23, 6); }
  lemma Easter2026() ensures EasterDate(2026) == Date(2026, 4, 5) { EasterOf(2026, 12, 12, 2); }

  lemma EasterOf(year: int, a: int, h: int, l: int)
    requires year >= 0 && a == year % 19
    requires var b := year / 100;
      h == (19 * a + b - b / 4 - (b - (b + 8) / 25 + 1) / 3 + 15) % 30
    requires l == (32 + 2 * (year / 100 % 4) + 2 * (year % 100 / 4) - h - year % 100 % 4) % 7
    requires a + 11 * h + 22 * l < 451
    ensures EasterDate(year) == Date(year, (h + l + 114) / 31, (h + l + 114) % 31 + 1)
  {
    var s := EasterSteps(year);
    assert s.a == a && s.h == h;
    assert s.l == l;
    assert s.m == 0;
  }
}
