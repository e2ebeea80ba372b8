/** The outline of the day's readings (`getDailyReadings`): which of the
    four reading slots are filled. */
module Readings {
  import opened Calendar
  import opened Liturgy
  import opened LiturgyProperties

  /** The four slots; an unfilled slot is the empty string. */
  datatype DayReadings = DayReadings(premiere: string, psaume: string, deuxieme: string, evangile: string)

  /** A second reading is read on Sundays and solemnities only; the first
      reading, the psalm and the gospel are always there. */
  function DailyReadings(dt: Date): (r: DayReadings)
    requires ValidDate(dt)
    ensures r.premiere == "Première lecture" && r.psaume == "Psaume responsorial" && r.evangile == "Évangile"
    ensures r.deuxieme != "" <==> DayOfWeek(dt) == 0 || LiturgicalInfo(dt).rank == Solennite
    ensures r.deuxieme != "" ==> r.deuxieme == "Deuxième lecture"
  {
    var liturgy := LiturgicalInfo(dt);
    if DayOfWeek(dt) == 0 || liturgy.rank == Solennite then
      DayReadings("Première lecture", "Psaume responsorial", "Deuxième lecture", "Évangile")
    else
      DayReadings("Première lecture", "Psaume responsorial", "", "Évangile")
  }

  /** Ascension Thursday and Pentecost have a second reading as
      solemnities; Ash Wednesday, Holy Thursday and Good Friday, weekdays
      of lower rank, have none. */
  lemma ReadingsOfFeasts(dt: Date)
    requires ValidDate(dt) && !IsFixedFeast(dt)
    ensures var dd, r := DaysFromEaster(dt), DailyReadings(dt);
      && (dd == 0 || dd == 39 || dd == 49 ==> r.deuxieme == "Deuxième lecture")
      && (dd == -46 || dd == -3 || dd == -2 ==> r.deuxieme == "")
  {
    EasterOffsets(dt);
    WeekdayFromEaster(dt);
  }
}
