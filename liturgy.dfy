/** The liturgical-day resolver: a date is mapped to its name, colour
    and rank by a cascade whose first matching rule wins: the table of
    fixed feasts, the seasons counted from Easter, the Advent window, the
    Christmas season and, as the fallback, Ordinary Time. */
module Liturgy {
  import opened Options
  import opened Calendar
  import opened Easter
  import opened Text

  /** The keys of the app's colour table. */
  datatype Color = Blanc | Vert | Violet | Rouge | Rose | Or | Noir

  datatype Rank =
    | Solennite      // 'solennité'
    | Fete           // 'fête'
    | Memoire        // 'mémoire'
    | Dimanche       // 'dimanche'
    | Ferie          // 'férie'
    | Careme         // 'carême'
    | SemaineSainte  // 'semaine sainte'
    | Triduum        // 'triduum'

  datatype Designation = Designation(name: string, color: Color, rank: Rank)

  /** Fixed feasts, keyed by (month, day); the app keys them by the
      string `${month}-${day}`, which is injective on such pairs. */
  const FixedFeasts: map<(int, int), Designation> := map[
    (1, 1) := Designation("Sainte Marie, Mère de Dieu", Blanc, Solennite),
    (1, 6) := Designation("Épiphanie du Seigneur", Blanc, Solennite),
    (2, 2) := Designation("Présentation du Seigneur", Blanc, Fete),
    (3, 19) := Designation("Saint Joseph", Blanc, Solennite),
    (3, 25) := Designation("Annonciation du Seigneur", Blanc, Solennite),
    (6, 24) := Designation("Nativité de Saint Jean-Baptiste", Blanc, Solennite),
    (6, 29) := Designation("Saints Pierre et Paul", Rouge, Solennite),
    (8, 6) := Designation("Transfiguration du Seigneur", Blanc, Fete),
    (8, 15) := Designation("Assomption de la Vierge Marie", Blanc, Solennite),
    (9, 14) := Designation("Croix Glorieuse", Rouge, Fete),
    (11, 1) := Designation("Toussaint", Blanc, Solennite),
    (11, 2) := Designation("Commémoration des fidèles défunts", Violet, Memoire),
    (12, 8) := Designation("Immaculée Conception", Blanc, Solennite),
    (12, 25) := Designation("Nativité du Seigneur", Blanc, Solennite),
    (12, 26) := Designation("Saint Étienne", Rouge, Fete),
    (12, 27) := Designation("Saint Jean, apôtre", Blanc, Fete),
    (12, 28) := Designation("Saints Innocents", Rouge, Fete)
  ]

  predicate IsFixedFeast(dt: Date) {
    (dt.month, dt.day) in FixedFeasts
  }

  /** Day number of Easter Sunday of `year`. */
  function EasterDay(year: int): (n: int)
    requires year >= GregorianStart
    ensures var base := DaysBeforeYear(year) + DaysBeforeMonth(year, 3);
      base + 22 <= n <= base + 56
  {
    EasterInRange(year);
    DayNumber(EasterDate(year))
  }

  /** `daysDiff`: signed whole days from Easter of the date's own year. */
  function DaysFromEaster(dt: Date): (r: int)
    requires ValidDate(dt)
    ensures r == 0 <==> dt == EasterDate(dt.year)
  {
    EasterDayUnique(dt);
    DayNumber(dt) - EasterDay(dt.year)
  }

  function WeekOfLent(daysDiff: int): (w: int)
    requires -46 <= daysDiff < -3
    ensures 1 <= w <= 7
  {
    (daysDiff + 46) / 7 + 1
  }

  function WeekOfEaster(daysDiff: int): (w: int)
    requires 0 < daysDiff < 49
    ensures 1 <= w <= 7
  {
    daysDiff / 7 + 1
  }

  function Ordinal(n: nat): string {
    NatToString(n) + "ᵉ"
  }

  /** A day of Lent other than Ash Wednesday (-46 <= daysDiff < -3). */
  function LentDay(daysDiff: int, dayOfWeek: int): (r: Designation)
    requires -46 <= daysDiff < -3
    ensures r.rank == Dimanche ==> dayOfWeek == 0
    ensures r.color == Rose <==> daysDiff == -21 && dayOfWeek == 0
    ensures r.color == Rouge <==> daysDiff == -7
    ensures r.color != Rose && r.color != Rouge ==> r.color == Violet
  {
    var week := WeekOfLent(daysDiff);
    if daysDiff == -21 && dayOfWeek == 0 then
      Designation("4ᵉ Dimanche de Carême (Laetare)", Rose, Dimanche)
    else if daysDiff == -7 then
      Designation("Dimanche des Rameaux", Rouge, SemaineSainte)
    else if dayOfWeek == 0 then
      Designation(Ordinal(week) + " Dimanche de Carême", Violet, Dimanche)
    else if -6 <= daysDiff <= -4 then
      Designation(["Lundi", "Mardi", "Mercredi"][daysDiff + 6] + " Saint", Violet, SemaineSainte)
    else
      Designation("Férie de Carême (" + Ordinal(week) + " semaine)", Violet, Ferie)
  }

  /** A day of the Easter season after Easter Sunday (0 < daysDiff <= 49). */
  function EastertideDay(daysDiff: int, dayOfWeek: int): (r: Designation)
    requires 0 < daysDiff <= 49
    ensures r.rank == Dimanche ==> dayOfWeek == 0
    ensures r.rank == Solennite <==> daysDiff == 39 || daysDiff == 49
    ensures r.color == (if daysDiff == 49 then Rouge else Blanc)
  {
    if daysDiff == 39 then Designation("Ascension du Seigneur", Blanc, Solennite)
    else if daysDiff == 49 then Designation("Pentecôte", Rouge, Solennite)
    else
      var week := WeekOfEaster(daysDiff);
      if dayOfWeek == 0 then Designation(Ordinal(week) + " Dimanche de Pâques", Blanc, Dimanche)
      else Designation("Temps Pascal (" + Ordinal(week) + " semaine)", Blanc, Ferie)
  }

  /** The rules counted from Easter; they apply exactly when the date is
      between Ash Wednesday and Pentecost. */
  function EasterRelative(daysDiff: int, dayOfWeek: int): (r: Option<Designation>)
    ensures r.Some? <==> -46 <= daysDiff <= 49
  {
    if daysDiff == -46 then Some(Designation("Mercredi des Cendres", Violet, Careme))
    else if -46 <= daysDiff < -3 then Some(LentDay(daysDiff, dayOfWeek))
    else if daysDiff == -3 then Some(Designation("Jeudi Saint", Blanc, Triduum))
    else if daysDiff == -2 then Some(Designation("Vendredi Saint", Rouge, Triduum))
    else if daysDiff == -1 then Some(Designation("Samedi Saint", Blanc, Triduum))
    else if daysDiff == 0 then Some(Designation("Dimanche de Pâques", Blanc, Solennite))
    else if 0 < daysDiff <= 49 then Some(EastertideDay(daysDiff, dayOfWeek))
    else None
  }

  function ChristmasDay(year: int): int
    requires year >= GregorianStart
  {
    DayNumber(Date(year, 12, 25))
  }

  /** Day number of the first Sunday of Advent: the Sunday before
      Christmas (a week earlier if Christmas is itself a Sunday), less
      three weeks. It is a Sunday 22 to 28 days before Christmas. */
  function AdventStart(year: int): (n: int)
    requires year >= GregorianStart
    ensures n % 7 == 0
    ensures ChristmasDay(year) - 28 <= n <= ChristmasDay(year) - 22
  {
    var christmas := ChristmasDay(year);
    var w := christmas % 7;
    var advent4 := christmas - w - (if w == 0 then 7 else 0);
    AdventSundayArithmetic(christmas);
    advent4 - 21
  }

  lemma AdventSundayArithmetic(x: int)
    ensures var w := x % 7;
      (x - w - (if w == 0 then 7 else 0) - 21) % 7 == 0
  {
    var w := x % 7;
    assert x == 7 * (x / 7) + w;
    assert x - w - (if w == 0 then 7 else 0) - 21 == 7 * (x / 7 - (if w == 0 then 1 else 0) - 3);
  }

  function WeekOfAdvent(daysIntoAdvent: int): (w: int)
    requires 0 <= daysIntoAdvent < 28
    ensures 1 <= w <= 4
  {
    daysIntoAdvent / 7 + 1
  }

  predicate InAdvent(dt: Date)
    requires ValidDate(dt)
  {
    AdventStart(dt.year) <= DayNumber(dt) < ChristmasDay(dt.year)
  }

  function AdventDay(dt: Date): (r: Designation)
    requires ValidDate(dt) && InAdvent(dt)
    ensures r.rank == Dimanche <==> DayOfWeek(dt) == 0
    ensures r.color == Rose ==> r.rank == Dimanche
    ensures r.color == Rose || r.color == Violet
  {
    var week := WeekOfAdvent(DayNumber(dt) - AdventStart(dt.year));
    if week == 3 && DayOfWeek(dt) == 0 then
      Designation("3ᵉ Dimanche de l'Avent (Gaudete)", Rose, Dimanche)
    else if DayOfWeek(dt) == 0 then
      Designation(Ordinal(week) + " Dimanche de l'Avent", Violet, Dimanche)
    else
      Designation("Temps de l'Avent (" + Ordinal(week) + " semaine)", Violet, Ferie)
  }

  /** Day number of the Baptism of the Lord as the app computes it:
      always in January of the FOLLOWING year, on 7 January when 6
      January is a Sunday and otherwise on the Sunday after 6 January. */
  function BaptismOfLord(year: int): (n: int)
    requires year >= GregorianStart
    ensures DayNumber(Date(year + 1, 1, 7)) <= n <= DayNumber(Date(year + 1, 1, 12))
    ensures var j6 := DayNumber(Date(year + 1, 1, 6));
      && (j6 % 7 == 0 ==> n == j6 + 1)
      && (j6 % 7 != 0 ==> n % 7 == 0 && j6 < n <= j6 + 6)
  {
    var jan6 := Date(year + 1, 1, 6);
    SameMonth(jan6, Date(year + 1, 1, 7));
    SameMonth(jan6, Date(year + 1, 1, 12));
    SameMonth(jan6, Date(year + 1, 1, 6 + (7 - DayOfWeek(jan6))));
    NextSunday(DayNumber(jan6));
    if DayOfWeek(jan6) == 0 then DayNumber(Date(year + 1, 1, 7))
    else DayNumber(Date(year + 1, 1, 6 + (7 - DayOfWeek(jan6))))
  }

  /** Adding 7 - (x mod 7) days to `x` reaches a Sunday. */
  lemma NextSunday(x: int)
    ensures (x + (7 - x % 7)) % 7 == 0
  {
    assert x == 7 * (x / 7) + x % 7;
    assert x + (7 - x % 7) == 7 * (x / 7 + 1);
  }

  predicate InChristmastide(dt: Date)
    requires ValidDate(dt)
  {
    (dt.month == 12 && dt.day >= 25) || (dt.month == 1 && DayNumber(dt) <= BaptismOfLord(dt.year))
  }

  function ChristmastideDay(dt: Date): (r: Designation)
    requires ValidDate(dt)
    ensures r.color == Blanc
    ensures r.rank == Dimanche <==> DayOfWeek(dt) == 0
  {
    if DayOfWeek(dt) == 0 then Designation("Dimanche du Temps de Noël", Blanc, Dimanche)
    else Designation("Temps de Noël", Blanc, Ferie)
  }

  /** Whole days since 1 January of the date's year. */
  function DaysIntoYear(dt: Date): (n: int)
    requires ValidDate(dt)
    ensures 0 <= n <= 365
  {
    DayNumber(dt) - DayNumber(Date(dt.year, 1, 1))
  }

  /** `Math.ceil(days / 7)` for whole days. */
  function WeekOfYear(dt: Date): (w: nat)
    requires ValidDate(dt)
    ensures 7 * (w - 1) < DaysIntoYear(dt) <= 7 * w
  {
    (DaysIntoYear(dt) + 6) / 7
  }

  function OrdinaryTimeDay(dt: Date): (r: Designation)
    requires ValidDate(dt)
    ensures r.color == Vert
    ensures r.rank == Dimanche <==> DayOfWeek(dt) == 0
  {
    var week := Ordinal(WeekOfYear(dt));
    if DayOfWeek(dt) == 0 then Designation(week + " Dimanche du Temps Ordinaire", Vert, Dimanche)
    else Designation(week + " semaine du Temps Ordinaire", Vert, Ferie)
  }

  /** `getLiturgicalInfo`. A day ranked as a Sunday is a Sunday. */
  function LiturgicalInfo(dt: Date): (r: Designation)
    requires ValidDate(dt)
    ensures r.rank == Dimanche ==> DayOfWeek(dt) == 0
  {
    if IsFixedFeast(dt) then FixedFeasts[(dt.month, dt.day)]
    else match EasterRelative(DaysFromEaster(dt), DayOfWeek(dt))
      case Some(r) => r
      case None =>
        if InAdvent(dt) then AdventDay(dt)
        else if InChristmastide(dt) then ChristmastideDay(dt)
        else OrdinaryTimeDay(dt)
  }
}
