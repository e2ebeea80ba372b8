/** What the resolver guarantees: the priority of the fixed feasts, the
    exact days counted from Easter, the Advent window, the Christmas
    season (as written) and Ordinary Time as the only green days. */
module LiturgyProperties {
  import opened Options
  import opened Calendar
  import opened Easter
  import opened Liturgy

  /** The day of the week follows from the distance to Easter, which is
      always a Sunday. */
  lemma WeekdayFromEaster(dt: Date)
    requires ValidDate(dt)
    ensures DayOfWeek(dt) == DaysFromEaster(dt) % 7
  {
    EasterIsSunday(dt.year);
    ModShift(DayNumber(dt), EasterDay(dt.year));
  }

  lemma ModShift(n: int, e: int)
    requires e % 7 == 0
    ensures n % 7 == (n - e) % 7
  {
    assert n == e + (n - e);
    assert e == 7 * (e / 7);
  }

  /** Outside the table, between Ash Wednesday and Pentecost the rules
      counted from Easter decide. */
  lemma CascadeEasterRelative(dt: Date)
    requires ValidDate(dt) && !IsFixedFeast(dt)
    requires -46 <= DaysFromEaster(dt) <= 49
    ensures LiturgicalInfo(dt) == EasterRelative(DaysFromEaster(dt), DayOfWeek(dt)).value
  {
  }

  /** A date of the fixed-feast table gets that entry, whatever its place
      in Lent, Advent or the Easter season. */
  lemma FixedFeastsWin(dt: Date)
    requires ValidDate(dt) && IsFixedFeast(dt)
    ensures LiturgicalInfo(dt) == FixedFeasts[(dt.month, dt.day)]
    ensures dt.month == 12 && dt.day == 25 ==>
      LiturgicalInfo(dt) == Designation("Nativité du Seigneur", Blanc, Solennite)
    ensures dt.month == 1 && dt.day == 1 ==>
      LiturgicalInfo(dt) == Designation("Sainte Marie, Mère de Dieu", Blanc, Solennite)
  {
  }

  /** Saint Joseph and the Annunciation override Lent, and the Immaculate
      Conception overrides Advent, in 2026. */
  lemma FixedFeastsOverrideSeasons()
    ensures ValidDate(Date(2026, 3, 19)) && -46 <= DaysFromEaster(Date(2026, 3, 19)) < -3
    ensures LiturgicalInfo(Date(2026, 3, 19)).name == "Saint Joseph"
    ensures ValidDate(Date(2026, 3, 25)) && -46 <= DaysFromEaster(Date(2026, 3, 25)) < -3
    ensures LiturgicalInfo(Date(2026, 3, 25)).name == "Annonciation du Seigneur"
    ensures ValidDate(Date(2026, 12, 8)) && InAdvent(Date(2026, 12, 8))
    ensures LiturgicalInfo(Date(2026, 12, 8)).name == "Immaculée Conception"
  {
    EasterReferenceYears();
  }

  /** Outside the table, the named days counted from Easter. */
  lemma EasterOffsets(dt: Date)
    requires ValidDate(dt) && !IsFixedFeast(dt)
    ensures var r, dd := LiturgicalInfo(dt), DaysFromEaster(dt);
      && (dd == -46 ==> r == Designation("Mercredi des Cendres", Violet, Careme))
      && (dd == -21 ==> r == Designation("4ᵉ Dimanche de Carême (Laetare)", Rose, Dimanche))
      && (dd == -7 ==> r == Designation("Dimanche des Rameaux", Rouge, SemaineSainte))
      && (dd == -6 ==> r == Designation("Lundi Saint", Violet, SemaineSainte))
      && (dd == -5 ==> r == Designation("Mardi Saint", Violet, SemaineSainte))
      && (dd == -4 ==> r == Designation("Mercredi Saint", Violet, SemaineSainte))
      && (dd == -3 ==> r == Designation("Jeudi Saint", Blanc, Triduum))
      && (dd == -2 ==> r == Designation("Vendredi Saint", Rouge, Triduum))
      && (dd == -1 ==> r == Designation("Samedi Saint", Blanc, Triduum))
      && (dd == 0 ==> r == Designation("Dimanche de Pâques", Blanc, Solennite))
      && (dd == 39 ==> r == Designation("Ascension du Seigneur", Blanc, Solennite))
      && (dd == 49 ==> r == Designation("Pentecôte", Rouge, Solennite))
  {
    var dd := DaysFromEaster(dt);
    if -46 <= dd <= 49 {
      WeekdayFromEaster(dt);
      CascadeEasterRelative(dt);
      LentOffsets(dd, DayOfWeek(dt));
      EastertideOffsets(dd, DayOfWeek(dt));
    }
  }

  /** The named days of Lent and Holy Week, on day offsets alone. */
  lemma LentOffsets(dd: int, dow: int)
    requires dow == dd % 7
    ensures var r := EasterRelative(dd, dow);
      && (dd == -46 ==> r == Some(Designation("Mercredi des Cendres", Violet, Careme)))
      && (dd == -21 ==> r == Some(Designation("4ᵉ Dimanche de Carême (Laetare)", Rose, Dimanche)))
      && (dd == -7 ==> r == Some(Designation("Dimanche des Rameaux", Rouge, SemaineSainte)))
      && (dd == -6 ==> r == Some(Designation("Lundi Saint", Violet, SemaineSainte)))
      && (dd == -5 ==> r == Some(Designation("Mardi Saint", Violet, SemaineSainte)))
      && (dd == -4 ==> r == Some(Designation("Mercredi Saint", Violet, SemaineSainte)))
  {
    if -6 <= dd <= -4 {
      assert ["Lundi", "Mardi", "Mercredi"][dd + 6] + " Saint" ==
        if dd == -6 then "Lundi Saint" else if dd == -5 then "Mardi Saint" else "Mercredi Saint";
    }
  }

  /** Triduum, Easter, Ascension and Pentecost, on day offsets alone. */
  lemma EastertideOffsets(dd: int, dow: int)
    ensures var r := EasterRelative(dd, dow);
      && (dd == -3 ==> r == Some(Designation("Jeudi Saint", Blanc, Triduum)))
      && (dd == -2 ==> r == Some(Designation("Vendredi Saint", Rouge, Triduum)))
      && (dd == -1 ==> r == Some(Designation("Samedi Saint", Blanc, Triduum)))
      && (dd == 0 ==> r == Some(Designation("Dimanche de Pâques", Blanc, Solennite)))
      && (dd == 39 ==> r == Some(Designation("Ascension du Seigneur", Blanc, Solennite)))
      && (dd == 49 ==> r == Some(Designation("Pentecôte", Rouge, Solennite)))
  {
  }

  /** The other Sundays of Lent are numbered from the first Sunday of
      Lent (42 days before Easter), those of the Easter season from Easter
      Sunday; as Easter is a Sunday, these are exactly the Sundays. */
  lemma SeasonSundays(dt: Date)
    requires ValidDate(dt) && !IsFixedFeast(dt)
    ensures var r, dd := LiturgicalInfo(dt), DaysFromEaster(dt);
      && (-46 <= dd < -3 && dd % 7 == 0 && dd != -21 && dd != -7 ==>
            r == Designation(Ordinal((dd + 49) / 7) + " Dimanche de Carême", Violet, Dimanche))
      && (0 < dd < 49 && dd % 7 == 0 ==>
            r == Designation(Ordinal(dd / 7 + 1) + " Dimanche de Pâques", Blanc, Dimanche))
      && (-46 <= dd <= 49 && DayOfWeek(dt) == 0 <==> -42 <= dd <= 49 && dd % 7 == 0)
  {
    WeekdayFromEaster(dt);
    var dd := DaysFromEaster(dt);
    if -46 <= dd <= 49 {
      CascadeEasterRelative(dt);
    }
  }

  /** From November on, a date is far past Pentecost. */
  lemma LateInYearAfterPentecost(dt: Date)
    requires ValidDate(dt) && dt.month >= 11
    ensures DaysFromEaster(dt) > 49
  {
  }

  /** January dates come before Ash Wednesday and before Advent. */
  lemma JanuaryBeforeSeasons(dt: Date)
    requires ValidDate(dt) && dt.month == 1
    ensures DaysFromEaster(dt) < -46
    ensures !InAdvent(dt)
  {
  }

  /** The Advent window: a date between the first Sunday of Advent and
      Christmas is violet, except the third Sunday (Gaudete, exactly 14
      days after the first), which is rose; the Sundays are numbered. */
  lemma AdventWindow(dt: Date)
    requires ValidDate(dt) && !IsFixedFeast(dt) && InAdvent(dt)
    ensures var r, days := LiturgicalInfo(dt), DayNumber(dt) - AdventStart(dt.year);
      && (r.color == Rose <==> days == 14)
      && (r.color == Rose ==> r == Designation("3ᵉ Dimanche de l'Avent (Gaudete)", Rose, Dimanche))
      && (r.color != Rose ==> r.color == Violet)
      && (days % 7 == 0 && days != 14 ==>
            r == Designation(Ordinal(days / 7 + 1) + " Dimanche de l'Avent", Violet, Dimanche))
      && (days % 7 != 0 ==> r.rank == Ferie)
  {
    assert dt.month >= 11;
    LateInYearAfterPentecost(dt);
    AdventSundays(dt);
  }

  lemma AdventSundays(dt: Date)
    requires ValidDate(dt) && InAdvent(dt)
    ensures DayOfWeek(dt) == (DayNumber(dt) - AdventStart(dt.year)) % 7
  {
    ModShift(DayNumber(dt), AdventStart(dt.year));
  }

  /** As written, the Baptism of the Lord is taken in the following year,
      so every January date outside the table is in the Christmas season. */
  lemma JanuaryIsChristmastide(dt: Date)
    requires ValidDate(dt) && !IsFixedFeast(dt) && dt.month == 1
    ensures LiturgicalInfo(dt) ==
      if DayOfWeek(dt) == 0 then Designation("Dimanche du Temps de Noël", Blanc, Dimanche)
      else Designation("Temps de Noël", Blanc, Ferie)
  {
    JanuaryBeforeSeasons(dt);
    DayNumberMonotone(dt, Date(dt.year + 1, 1, 7));
  }

  /** 29 to 31 December are in the Christmas season. */
  lemma LateDecemberIsChristmastide(dt: Date)
    requires ValidDate(dt) && dt.month == 12 && dt.day >= 29
    ensures LiturgicalInfo(dt) ==
      if DayOfWeek(dt) == 0 then Designation("Dimanche du Temps de Noël", Blanc, Dimanche)
      else Designation("Temps de Noël", Blanc, Ferie)
  {
    LateInYearAfterPentecost(dt);
  }

  /** Green is the colour of Ordinary Time and of nothing else: a date is
      green exactly when no earlier rule applies, and then it is named
      after ceil(days since 1 January / 7). */
  lemma OrdinaryTimeFallback(dt: Date)
    requires ValidDate(dt)
    ensures var r := LiturgicalInfo(dt);
      && (r.color == Vert <==>
            !IsFixedFeast(dt) && !(-46 <= DaysFromEaster(dt) <= 49) && !InAdvent(dt) && !InChristmastide(dt))
      && (r.color == Vert ==>
            r == if DayOfWeek(dt) == 0 then Designation(Ordinal(WeekOfYear(dt)) + " Dimanche du Temps Ordinaire", Vert, Dimanche)
                 else Designation(Ordinal(WeekOfYear(dt)) + " semaine du Temps Ordinaire", Vert, Ferie))
  {
    if !IsFixedFeast(dt) && -46 <= DaysFromEaster(dt) <= 49 {
      CascadeEasterRelative(dt);
      NoGreenFromEaster(DaysFromEaster(dt), DayOfWeek(dt));
    }
  }

  lemma NoGreenFromEaster(dd: int, dow: int)
    requires -46 <= dd <= 49
    ensures EasterRelative(dd, dow).value.color != Vert
  {
  }

  /** Ordinary Time weeks as computed run from 5 to 48: January belongs to
      the Christmas season and Advent starts by 3 December. */
  lemma OrdinaryWeekBounds(dt: Date)
    requires ValidDate(dt) && LiturgicalInfo(dt).color == Vert
    ensures 5 <= WeekOfYear(dt) <= 48
  {
    OrdinaryTimeFallback(dt);
    if dt.month == 1 {
      JanuaryIsChristmastide(dt);
    }
    assert DayNumber(dt) < AdventStart(dt.year);
  }

  /** Every date gets one of the five colours the resolver uses; gold and
      black never occur. */
  lemma ResolverColours(dt: Date)
    requires ValidDate(dt)
    ensures LiturgicalInfo(dt).color in {Blanc, Vert, Violet, Rouge, Rose}
  {
    if !IsFixedFeast(dt) && -46 <= DaysFromEaster(dt) <= 49 {
      CascadeEasterRelative(dt);
      EasterColours(DaysFromEaster(dt), DayOfWeek(dt));
    }
  }

  lemma EasterColours(dd: int, dow: int)
    requires -46 <= dd <= 49
    ensures EasterRelative(dd, dow).value.color in {Blanc, Violet, Rouge, Rose}
  {
  }

  /** Boundary days of 2026, when Easter is on 5 April. */
  lemma Scenarios2026()
    ensures LiturgicalInfo(Date(2026, 2, 18)) == Designation("Mercredi des Cendres", Violet, Careme)
    ensures LiturgicalInfo(Date(2026, 3, 29)) == Designation("Dimanche des Rameaux", Rouge, SemaineSainte)
    ensures LiturgicalInfo(Date(2026, 4, 5)) == Designation("Dimanche de Pâques", Blanc, Solennite)
    ensures LiturgicalInfo(Date(2026, 5, 14)) == Designation("Ascension du Seigneur", Blanc, Solennite)
    ensures LiturgicalInfo(Date(2026, 5, 24)) == Designation("Pentecôte", Rouge, Solennite)
    ensures LiturgicalInfo(Date(2026, 12, 25)) == Designation("Nativité du Seigneur", Blanc, Solennite)
    ensures LiturgicalInfo(Date(2026, 1, 1)) == Designation("Sainte Marie, Mère de Dieu", Blanc, Solennite)
  {
    EasterReferenceYears();
    assert DaysFromEaster(Date(2026, 2, 18)) == -46;
    assert DaysFromEaster(Date(2026, 3, 29)) == -7;
    assert DaysFromEaster(Date(2026, 5, 14)) == 39;
    assert DaysFromEaster(Date(2026, 5, 24)) == 49;
    EasterOffsets(Date(2026, 2, 18));
    EasterOffsets(Date(2026, 3, 29));
    EasterOffsets(Date(2026, 4, 5));
    EasterOffsets(Date(2026, 5, 14));
    EasterOffsets(Date(2026, 5, 24));
  }
}
