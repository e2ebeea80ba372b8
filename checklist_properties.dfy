/** What the daily list holds on the days the resolver singles out. */
module ChecklistProperties {
  import opened Calendar
  import opened Text
  import opened Liturgy
  import opened LiturgyProperties
  import opened Checklists

  lemma AshWednesdayTriggers()
    ensures TriggersOf("Mercredi des Cendres") == Triggers(true, false, false, false, false)
  {
    assert Contains("Mercredi des Cendres", "Cendres") by { ContainsAt("Mercredi des Cendres", "Cendres", 13); }
    assert !Contains("Mercredi des Cendres", "Rameaux") by { MissingChar("Mercredi des Cendres", "Rameaux", 'R'); }
    assert !Contains("Mercredi des Cendres", "Jeudi Saint") by { MissingChar("Mercredi des Cendres", "Jeudi Saint", 'J'); }
    assert !Contains("Mercredi des Cendres", "Vendredi Saint") by { MissingChar("Mercredi des Cendres", "Vendredi Saint", 'V'); }
    assert !Contains("Mercredi des Cendres", "Vigile") by { MissingChar("Mercredi des Cendres", "Vigile", 'V'); }
    assert !Contains("Mercredi des Cendres", "Pâques") by { MissingChar("Mercredi des Cendres", "Pâques", 'â'); }
  }
  lemma AshWednesdayChecklist()
    ensures Ids(DailyChecklist(Designation("Mercredi des Cendres", Violet, Careme))) == BaselineIds + ["violet", "cendres"]
  {
    AshWednesdayTriggers();
    DailyChecklistIdsWith(Designation("Mercredi des Cendres", Violet, Careme), Triggers(true, false, false, false, false));
  }


  lemma PalmSundayTriggers()
    ensures TriggersOf("Dimanche des Rameaux") == Triggers(false, true, false, false, false)
  {
    assert !Contains("Dimanche des Rameaux", "Cendres") by { MissingChar("Dimanche des Rameaux", "Cendres", 'C'); }
    assert Contains("Dimanche des Rameaux", "Rameaux") by { ContainsAt("Dimanche des Rameaux", "Rameaux", 13); }
    assert !Contains("Dimanche des Rameaux", "Jeudi Saint") by { MissingChar("Dimanche des Rameaux", "Jeudi Saint", 'J'); }
    assert !Contains("Dimanche des Rameaux", "Vendredi Saint") by { MissingChar("Dimanche des Rameaux", "Vendredi Saint", 'V'); }
    assert !Contains("Dimanche des Rameaux", "Vigile") by { MissingChar("Dimanche des Rameaux", "Vigile", 'V'); }
    assert !Contains("Dimanche des Rameaux", "Pâques") by { MissingChar("Dimanche des Rameaux", "Pâques", 'â'); }
  }
  lemma PalmSundayChecklist()
    ensures Ids(DailyChecklist(Designation("Dimanche des Rameaux", Rouge, SemaineSainte))) == BaselineIds + ["rouge", "rameaux"]
  {
    PalmSundayTriggers();
    DailyChecklistIdsWith(Designation("Dimanche des Rameaux", Rouge, SemaineSainte), Triggers(false, true, false, false, false));
  }


  lemma HolyThursdayTriggers()
    ensures TriggersOf("Jeudi Saint") == Triggers(false, false, true, false, false)
  {
    assert !Contains("Jeudi Saint", "Cendres") by { MissingChar("Jeudi Saint", "Cendres", 'C'); }
    assert !Contains("Jeudi Saint", "Rameaux") by { MissingChar("Jeudi Saint", "Rameaux", 'R'); }
    assert Contains("Jeudi Saint", "Jeudi Saint") by { ContainsAt("Jeudi Saint", "Jeudi Saint", 0); }
    assert !Contains("Jeudi Saint", "Vendredi Saint") by { MissingChar("Jeudi Saint", "Vendredi Saint", 'V'); }
    assert !Contains("Jeudi Saint", "Vigile") by { MissingChar("Jeudi Saint", "Vigile", 'V'); }
    assert !Contains("Jeudi Saint", "Pâques") by { MissingChar("Jeudi Saint", "Pâques", 'â'); }
  }
  lemma HolyThursdayChecklist()
    ensures Ids(DailyChecklist(Designation("Jeudi Saint", Blanc, Triduum))) == BaselineIds + ["blanc", "lavement"]
  {
    HolyThursdayTriggers();
    DailyChecklistIdsWith(Designation("Jeudi Saint", Blanc, Triduum), Triggers(false, false, true, false, false));
  }


  lemma GoodFridayTriggers()
    ensures TriggersOf("Vendredi Saint") == Triggers(false, false, false, true, false)
  {
    assert !Contains("Vendredi Saint", "Cendres") by { MissingChar("Vendredi Saint", "Cendres", 'C'); }
    assert !Contains("Vendredi Saint", "Rameaux") by { MissingChar("Vendredi Saint", "Rameaux", 'R'); }
    assert !Contains("Vendredi Saint", "Jeudi Saint") by { MissingChar("Vendredi Saint", "Jeudi Saint", 'J'); }
    assert Contains("Vendredi Saint", "Vendredi Saint") by { ContainsAt("Vendredi Saint", "Vendredi Saint", 0); }
    assert !Contains("Vendredi Saint", "Vigile") by { MissingChar("Vendredi Saint", "Vigile", 'g'); }
    assert !Contains("Vendredi Saint", "Pâques") by { MissingChar("Vendredi Saint", "Pâques", 'â'); }
  }
  lemma GoodFridayChecklist()
    ensures Ids(DailyChecklist(Designation("Vendredi Saint", Rouge, Triduum))) == BaselineIds + ["rouge", "croix"]
  {
    GoodFridayTriggers();
    DailyChecklistIdsWith(Designation("Vendredi Saint", Rouge, Triduum), Triggers(false, false, false, true, false));
  }


  lemma HolySaturdayTriggers()
    ensures TriggersOf("Samedi Saint") == Triggers(false, false, false, false, false)
  {
    assert !Contains("Samedi Saint", "Cendres") by { MissingChar("Samedi Saint", "Cendres", 'C'); }
    assert !Contains("Samedi Saint", "Rameaux") by { MissingChar("Samedi Saint", "Rameaux", 'R'); }
    assert !Contains("Samedi Saint", "Jeudi Saint") by { MissingChar("Samedi Saint", "Jeudi Saint", 'J'); }
    assert !Contains("Samedi Saint", "Vendredi Saint") by { MissingChar("Samedi Saint", "Vendredi Saint", 'V'); }
    assert !Contains("Samedi Saint", "Vigile") by { MissingChar("Samedi Saint", "Vigile", 'V'); }
    assert !Contains("Samedi Saint", "Pâques") by { MissingChar("Samedi Saint", "Pâques", 'â'); }
  }
  lemma HolySaturdayChecklist()
    ensures Ids(DailyChecklist(Designation("Samedi Saint", Blanc, Triduum))) == BaselineIds + ["blanc"]
  {
    HolySaturdayTriggers();
    DailyChecklistIdsWith(Designation("Samedi Saint", Blanc, Triduum), Triggers(false, false, false, false, false));
  }


  lemma EasterSundayTriggers()
    ensures TriggersOf("Dimanche de Pâques") == Triggers(false, false, false, false, true)
  {
    assert !Contains("Dimanche de Pâques", "Cendres") by { MissingChar("Dimanche de Pâques", "Cendres", 'C'); }
    assert !Contains("Dimanche de Pâques", "Rameaux") by { MissingChar("Dimanche de Pâques", "Rameaux", 'R'); }
    assert !Contains("Dimanche de Pâques", "Jeudi Saint") by { MissingChar("Dimanche de Pâques", "Jeudi Saint", 'J'); }
    assert !Contains("Dimanche de Pâques", "Vendredi Saint") by { MissingChar("Dimanche de Pâques", "Vendredi Saint", 'V'); }
    assert Contains("Dimanche de Pâques", "Pâques") by { ContainsAt("Dimanche de Pâques", "Pâques", 12); }
  }
  lemma EasterSundayChecklist()
    ensures Ids(DailyChecklist(Designation("Dimanche de Pâques", Blanc, Solennite))) == BaselineIds + ["blanc", "cierge_pascal"]
  {
    EasterSundayTriggers();
    DailyChecklistIdsWith(Designation("Dimanche de Pâques", Blanc, Solennite), Triggers(false, false, false, false, true));
  }


  /** The lists of Ash Wednesday and of Holy Week as the resolver names
      those days: the baseline, the vestment task of the day's colour and
      the one special task of the day; Holy Saturday has none, so the
      paschal candle first appears on Easter Sunday. */
  lemma HolyWeekChecklists(dt: Date)
    requires ValidDate(dt) && !IsFixedFeast(dt)
    ensures var ids, dd := Ids(DailyChecklist(LiturgicalInfo(dt))), DaysFromEaster(dt);
      && (dd == -46 ==> ids == BaselineIds + ["violet", "cendres"])
      && (dd == -7 ==> ids == BaselineIds + ["rouge", "rameaux"])
      && (dd == -3 ==> ids == BaselineIds + ["blanc", "lavement"])
      && (dd == -2 ==> ids == BaselineIds + ["rouge", "croix"])
      && (dd == -1 ==> ids == BaselineIds + ["blanc"])
      && (dd == 0 ==> ids == BaselineIds + ["blanc", "cierge_pascal"])
  {
    var dd := DaysFromEaster(dt);
    var l := LiturgicalInfo(dt);
    if dd == -46 {
      assert l == Designation("Mercredi des Cendres", Violet, Careme) by { EasterOffsets(dt); }
      AshWednesdayChecklist();
    } else if dd == -7 {
      assert l == Designation("Dimanche des Rameaux", Rouge, SemaineSainte) by { EasterOffsets(dt); }
      PalmSundayChecklist();
    } else if dd == -3 {
      assert l == Designation("Jeudi Saint", Blanc, Triduum) by { EasterOffsets(dt); }
      HolyThursdayChecklist();
    } else if dd == -2 {
      assert l == Designation("Vendredi Saint", Rouge, Triduum) by { EasterOffsets(dt); }
      GoodFridayChecklist();
    } else if dd == -1 {
      assert l == Designation("Samedi Saint", Blanc, Triduum) by { EasterOffsets(dt); }
      HolySaturdayChecklist();
    } else if dd == 0 {
      assert l == Designation("Dimanche de Pâques", Blanc, Solennite) by { EasterOffsets(dt); }
      EasterSundayChecklist();
    }
  }

  /** Every day the resolver names has a colour the list knows, so its
      list holds exactly one vestment task, right after the baseline. */
  lemma ResolverChecklistVestment(dt: Date)
    requires ValidDate(dt)
    ensures var l := LiturgicalInfo(dt); var r := DailyChecklist(l);
      && ColorId(l.color).Some?
      && |r| >= 7 && r[6].id == ColorId(l.color).value
      && |r| == 7 + SpecialCount(TriggersOf(l.name))
  {
    ResolverColours(dt);
    DailyChecklistShape(LiturgicalInfo(dt));
  }

  /** The only capital C of a Lent weekday's name starts "Carême", not
      "Cendres". */
  lemma LentWeekdayNoAshes(d: string)
    requires forall c :: c in d ==> IsDigit(c)
    ensures !Contains("Férie de Carême (" + d + "ᵉ semaine)", "Cendres")
  {
    OnlyCandidateAround("Férie de Carême (", d, "ᵉ semaine)", "Cendres", 9, 1);
  }

  /** The name of a Lent weekday calls for no special task. */
  lemma LentWeekdayTriggers(w: nat)
    ensures TriggersOf("Férie de Carême (" + Ordinal(w) + " semaine)") == Triggers(false, false, false, false, false)
  {
    var d := NatToString(w);
    var s := "Férie de Carême (" + Ordinal(w) + " semaine)";
    assert s == "Férie de Carême (" + d + "ᵉ semaine)";
    assert forall c :: c in d ==> IsDigit(c);
    assert !Contains(s, "Cendres") by { LentWeekdayNoAshes(d); }
    assert !Contains(s, "Rameaux") by { MissingCharAround("Férie de Carême (", d, "ᵉ semaine)", "Rameaux", 'R'); }
    assert !Contains(s, "Jeudi Saint") by { MissingCharAround("Férie de Carême (", d, "ᵉ semaine)", "Jeudi Saint", 'J'); }
    assert !Contains(s, "Vendredi Saint") by { MissingCharAround("Férie de Carême (", d, "ᵉ semaine)", "Vendredi Saint", 'V'); }
    assert !Contains(s, "Vigile") by { MissingCharAround("Férie de Carême (", d, "ᵉ semaine)", "Vigile", 'V'); }
    assert !Contains(s, "Pâques") by { MissingCharAround("Férie de Carême (", d, "ᵉ semaine)", "Pâques", 'â'); }
  }

  /** A weekday of Lent before Holy Week has the seven items of the
      baseline and the violet vestments, and nothing else. */
  lemma LentWeekdayChecklist(dt: Date)
    requires ValidDate(dt) && !IsFixedFeast(dt)
    requires -46 < DaysFromEaster(dt) < -7 && DayOfWeek(dt) != 0
    ensures Ids(DailyChecklist(LiturgicalInfo(dt))) == BaselineIds + ["violet"]
  {
    var dd := DaysFromEaster(dt);
    var w := WeekOfLent(dd);
    assert LiturgicalInfo(dt) == Designation("Férie de Carême (" + Ordinal(w) + " semaine)", Violet, Ferie) by {
      CascadeEasterRelative(dt);
    }
    LentWeekdayTriggers(w);
    DailyChecklistIdsWith(LiturgicalInfo(dt), Triggers(false, false, false, false, false));
  }

  /** The name of a Sunday of the Easter season mentions no word of the
      other special tasks. */
  lemma EasterSundayNameOthers(d: string)
    requires forall c :: c in d ==> IsDigit(c)
    ensures var s := "" + d + "ᵉ Dimanche de Pâques";
      !Contains(s, "Cendres") && !Contains(s, "Rameaux") && !Contains(s, "Jeudi Saint") && !Contains(s, "Vendredi Saint")
  {
    var b := "ᵉ Dimanche de Pâques";
    assert !Contains("" + d + b, "Cendres") by { MissingCharAround("", d, b, "Cendres", 'C'); }
    assert !Contains("" + d + b, "Rameaux") by { MissingCharAround("", d, b, "Rameaux", 'R'); }
    assert !Contains("" + d + b, "Jeudi Saint") by { MissingCharAround("", d, b, "Jeudi Saint", 'J'); }
    assert !Contains("" + d + b, "Vendredi Saint") by { MissingCharAround("", d, b, "Vendredi Saint", 'V'); }
  }

  /** Every Sunday of the Easter season names "Pâques", so the paschal
      candle closes its list. */
  lemma EasterSundayNameTriggers(w: nat)
    ensures TriggersOf(Ordinal(w) + " Dimanche de Pâques") == Triggers(false, false, false, false, true)
  {
    var d := NatToString(w);
    var s := Ordinal(w) + " Dimanche de Pâques";
    assert s == "" + d + "ᵉ Dimanche de Pâques" == (d + "ᵉ Dimanche de ") + "Pâques";
    EasterSundayNameOthers(d);
    ContainsEnd(d + "ᵉ Dimanche de ", "Pâques");
  }

  lemma EastertideSundayChecklist(dt: Date)
    requires ValidDate(dt) && !IsFixedFeast(dt)
    requires 0 < DaysFromEaster(dt) < 49 && DayOfWeek(dt) == 0
    ensures Ids(DailyChecklist(LiturgicalInfo(dt))) == BaselineIds + ["blanc", "cierge_pascal"]
  {
    var dd := DaysFromEaster(dt);
    SeasonSundays(dt);
    EasterSundayNameTriggers(dd / 7 + 1);
    DailyChecklistIdsWith(LiturgicalInfo(dt), Triggers(false, false, false, false, true));
  }
}
