# Sacristy assistant: liturgical calendar engine

This project models the computational core of a sacristy helper used by a
parish team. For any calendar day it works out:

- when Easter falls;
- the liturgical designation of the day (name, vestment colour, rank);
- whether the day has a second reading;
- the ordered preparation checklist for the day.

It also models the small list transforms behind the team's screens:

- ticking and unticking checklist items;
- building a celebration's checklist from the default templates;
- deleting celebrations, team members, inventory items and notes by id;
- adjusting stock quantities;
- the low-stock and category lists.

Modules:

- `Calendar`: Gregorian dates at whole-day granularity. It has an absolute
  day number (day 1 is 1 January of year 1) and the weekday, with 0 for Sunday.
- `Easter`: the Meeus/Jones/Butcher computation of Easter Sunday.
- `Liturgy`: the first-match-wins resolver. It tries, in order, the
  fixed-feast table, the days counted from Easter, the Advent window, the
  Christmas season and Ordinary Time.
- `LiturgyProperties`: what the resolver guarantees.
- `Readings`: the reading slots of a day.
- `Text`: decimal rendering of numbers and substring containment, which the
  checklist uses for its triggers.
- `Checklists` and `ChecklistProperties`: the daily checklist and the
  daily toggle.
- `Celebrations`: celebration records, their template checklists and the
  per-celebration toggle.
- `Inventory` and `Team`: the inventory, team and notes transforms.
- `Lists`: the generic map-where, filter, remove-by-id and distinct helpers
  shared by the above.

The code builds the daily list by pushing items in a fixed order. Here it is
a function that concatenates the same groups in the same order. The
resolver's mutation of its `Date` objects (`setDate`/`setTime`) becomes
arithmetic on day numbers.

The resolver is modelled as the code is written. The Baptism of the Lord is
computed in the following year, so every January day outside the
fixed-feast table falls in the Christmas season. Ordinary Time therefore
never reaches January. `LiturgyProperties.JanuaryIsChristmastide` states
this, and `LiturgyProperties.OrdinaryWeekBounds` states its consequence.

## Model

| member | source | states |
|---|---|---|
| Easter.EasterInRange | App.js:16-32 | for every non-negative year, Easter falls between 22 March and 25 April |
| Easter.EasterIsSunday | App.js:16-32 | for every Gregorian year, the date computed is a valid date and a Sunday |
| Easter.EasterDayNumber | App.js:16-32 | Easter's day number is 22 March plus h + l − 7m, the algorithm's offset |
| Easter.EasterReferenceYears | App.js:16-32 | Easter is 23 April 2000, 31 March 2024, 20 April 2025 and 5 April 2026 |
| Calendar.DayNumberMonotone | App.js:43-44 | a later date has a larger day number, so `daysDiff` is a difference of day numbers |
| Calendar.DayNumberInjective | App.js:43-44 | two valid dates with the same day number are the same date |
| Calendar.NextDayStep | App.js:43-44 | the next calendar day is valid, has the next day number and the next weekday, so day numbers count days across month and year ends |
| Calendar.DayOfWeek | App.js:39 | the weekday is 0 to 6; with NextDayStep it advances by one each day, and with Easter.EasterIsSunday 0 is Sunday |
| Easter.EasterDate | App.js:16-32 | the date is in the requested year; EasterInRange, EasterIsSunday and EasterReferenceYears state where it falls |
| Easter.EasterDayUnique | App.js:41-44 | Easter is a valid date and the only date of its year with Easter's day number |
| Liturgy.DaysFromEaster | App.js:41-44 | `daysDiff` is 0 exactly on Easter Sunday; LiturgyProperties.WeekdayFromEaster ties it to the weekday |
| Liturgy.LentDay | App.js:80-97 | a Lent day is rose iff it is the Laetare Sunday, rouge iff it is Palm Sunday, violet otherwise; a day ranked dimanche is a Sunday |
| Liturgy.EastertideDay | App.js:115-126 | an Easter-season day is rouge iff it is Pentecost and blanc otherwise; it is a solennité iff it is Ascension or Pentecost; a day ranked dimanche is a Sunday |
| Liturgy.AdventDay | App.js:137-147 | an Advent day is rose or violet; it is ranked dimanche iff it is a Sunday; a rose day is a Sunday |
| Liturgy.ChristmastideDay | App.js:160-165 | a Christmas-season day is blanc and is ranked dimanche iff it is a Sunday |
| Liturgy.OrdinaryTimeDay | App.js:168-172 | an Ordinary Time day is vert and is ranked dimanche iff it is a Sunday |
| Liturgy.LiturgicalInfo | App.js:35-173 | every day ranked dimanche is a Sunday; the LiturgyProperties lemmas state the cascade's results |
| Liturgy.WeekOfLent | App.js:80-81 | in Lent (−46 ≤ daysDiff < −3) the week of Lent is 1 to 7 |
| Liturgy.WeekOfEaster | App.js:115-122 | in the Easter season (0 < daysDiff < 49) the week of Easter is 1 to 7 |
| Liturgy.EasterRelative | App.js:75-127 | the rules counted from Easter produce a designation exactly when −46 ≤ daysDiff ≤ 49 |
| Liturgy.AdventStart | App.js:130-135 | the first Sunday of Advent is a Sunday 22 to 28 days before Christmas |
| Liturgy.WeekOfAdvent | App.js:137-139 | inside the Advent window the week of Advent is 1 to 4 |
| Liturgy.BaptismOfLord | App.js:151-158 | the Baptism of the Lord is taken in the following year: 7 January when 6 January is a Sunday, otherwise the Sunday within six days after 6 January; it falls between 7 and 12 January |
| Liturgy.WeekOfYear | App.js:168 | the Ordinary Time week is the ceiling of the days since 1 January divided by 7 |
| LiturgyProperties.FixedFeastsWin | App.js:47-70 | a date in the fixed-feast table gets exactly its entry; 25 December is Nativité/blanc and 1 January is Sainte Marie/blanc |
| LiturgyProperties.FixedFeastsOverrideSeasons | App.js:47-70 | in 2026, 19 and 25 March fall in Lent and 8 December falls in Advent; the table entry still wins on each |
| LiturgyProperties.CascadeEasterRelative | App.js:68-127 | outside the table, from Ash Wednesday to Pentecost, the rules counted from Easter decide |
| LiturgyProperties.EasterOffsets | App.js:75-121 | outside the table, days −46, −21, −7, −6..−4, −3, −2, −1, 0, 39 and 49 get exactly their named designation, colour and rank |
| LiturgyProperties.LentOffsets | App.js:75-96 | the Lent and Holy Week offsets on day counts alone; the Holy Week name index stays within Lundi/Mardi/Mercredi |
| LiturgyProperties.EastertideOffsets | App.js:101-121 | the Triduum, Easter, Ascension and Pentecost offsets on day counts alone |
| LiturgyProperties.SeasonSundays | App.js:80-125 | outside the fixed-feast table, the Lent and Easter-season Sundays are named by their week; between −46 and 49, a day is a Sunday iff daysDiff is a multiple of 7 from −42 |
| LiturgyProperties.WeekdayFromEaster | App.js:39-44 | the weekday equals daysDiff mod 7, since Easter is a Sunday |
| LiturgyProperties.LateInYearAfterPentecost | App.js:115 | from November on, a date is past Pentecost |
| LiturgyProperties.JanuaryBeforeSeasons | App.js:75-137 | January dates are before Ash Wednesday and outside the Advent window |
| LiturgyProperties.AdventWindow | App.js:137-147 | outside the fixed-feast table, in the Advent window a day is rose iff it is 14 days after the first Sunday (Gaudete); every other day is violet; Sundays are numbered; weekdays are féries |
| LiturgyProperties.AdventSundays | App.js:137-145 | in the Advent window the weekday equals the days since the first Sunday mod 7 |
| LiturgyProperties.JanuaryIsChristmastide | App.js:151-164 | as written, every January date outside the table is Temps de Noël, or Dimanche du Temps de Noël on a Sunday |
| LiturgyProperties.LateDecemberIsChristmastide | App.js:160-164 | 29 to 31 December are Temps de Noël, or Dimanche du Temps de Noël on a Sunday |
| LiturgyProperties.OrdinaryTimeFallback | App.js:168-172 | a day is green iff no earlier rule applies, and it is then named after its Ordinary Time week |
| LiturgyProperties.NoGreenFromEaster | App.js:75-127 | no rule counted from Easter yields green |
| LiturgyProperties.OrdinaryWeekBounds | App.js:151-172 | at whole-day granularity, Ordinary Time weeks run from 5 to 48 |
| LiturgyProperties.ResolverColours | App.js:35-173 | every date gets one of blanc, vert, violet, rouge, rose; never or or noir |
| LiturgyProperties.EasterColours | App.js:75-127 | the rules counted from Easter use only blanc, violet, rouge and rose |
| LiturgyProperties.Scenarios2026 | App.js:75-121 | in 2026: 18 February is Ash Wednesday, 29 March Palm Sunday, 5 April Easter, 14 May Ascension, 24 May Pentecost |
| Readings.DailyReadings | App.js:176-201 | the first reading, psalm and gospel are always set; the second reading is present iff the day is a Sunday or a solennité |
| Readings.ReadingsOfFeasts | App.js:176-201 | outside the fixed-feast table, Easter, Ascension and Pentecost have a second reading; Ash Wednesday, Holy Thursday and Good Friday do not |
| Text.NatToString | App.js:91 | a week number renders as a non-empty string of decimal digits, one digit iff it is below 10 |
| Text.NatToStringValue | App.js:91 | the digits spell the number in base 10 |
| Text.NatToStringInjective | App.js:91 | different numbers render differently |
| Checklists.Baseline | App.js:281-288 | the six baseline items, unticked, in their fixed order |
| Checklists.ColorItems | App.js:291-305 | the colour items are exactly the one item of that colour, unticked; gold and black give none |
| Checklists.TriggersOf | App.js:308-322 | the five substring tests; a name shorter than six characters triggers nothing, and one without " Saint" triggers neither the foot-washing nor the cross |
| Checklists.SpecialItems | App.js:308-322 | the special items are the triggered ones, unticked, in the order cendres, rameaux, lavement, croix, cierge_pascal |
| Checklists.DailyChecklist | App.js:280-325 | the list has 6 + colour + special items and every item is unticked |
| Checklists.DailyChecklistShape | App.js:280-305 | the list starts with the six baseline items, followed by the colour item |
| Checklists.DailyChecklistIds | App.js:280-325 | the ids are the baseline ids, then the colour id, then the triggered special ids in order |
| Checklists.ChecklistIdsOf | App.js:280-325 | the ids are pairwise distinct for every colour and every combination of triggers |
| Checklists.DailyChecklistTasks | App.js:280-325 | the ids are unique, and each special item is present iff its substring occurs in the name |
| Checklists.ToggleDaily | App.js:684-695 | length, order and every id are kept; items with the id flip `done`, and `doneBy` becomes the user iff now done; other items are unchanged |
| Checklists.ToggleDailyRecorded | App.js:684-695 | toggling keeps "ticked iff someone is recorded" true of every item |
| Checklists.ToggleDailyTwice | App.js:684-695 | when every item with that id is ticked iff recorded, and ticked only by the same user, toggling it twice by that user restores the list |
| ChecklistProperties.AshWednesdayChecklist | App.js:308-310 | Mercredi des Cendres triggers only the ashes item |
| ChecklistProperties.PalmSundayChecklist | App.js:311-313 | Dimanche des Rameaux triggers only the palms item |
| ChecklistProperties.HolyThursdayChecklist | App.js:314-316 | Jeudi Saint triggers only the foot-washing item |
| ChecklistProperties.GoodFridayChecklist | App.js:317-319 | Vendredi Saint triggers only the cross item |
| ChecklistProperties.HolySaturdayChecklist | App.js:308-322 | Samedi Saint triggers no special item |
| ChecklistProperties.EasterSundayChecklist | App.js:320-322 | Dimanche de Pâques triggers only the paschal candle item |
| ChecklistProperties.HolyWeekChecklists | App.js:75-112 | outside the table, the checklists of Ash Wednesday, Palm Sunday and the Triduum days have exactly their ids (Good Friday: 8 items with rouge and croix; Easter: 8 items ending in cierge_pascal) |
| ChecklistProperties.ResolverChecklistVestment | App.js:291-305 | for every resolved date there is exactly one colour item, in seventh place |
| ChecklistProperties.LentWeekdayChecklist | App.js:97 | a Lent weekday outside the table and Holy Week has 7 items: the baseline and violet |
| ChecklistProperties.EastertideSundayChecklist | App.js:123-124 | a Sunday of the Easter season has the baseline, blanc and the paschal candle |
| Celebrations.Template | App.js:903 | a type has a non-empty template iff it has a default checklist; every such type is a selectable celebration type with at most eight lines |
| Celebrations.ItemIdInjective | App.js:904 | distinct (stamp, index) pairs give distinct item ids |
| Celebrations.BuildChecklist | App.js:903-908 | the checklist has one unticked item per template line, in order, with pairwise distinct ids |
| Celebrations.NewCelebration | App.js:897-909 | no celebration iff date or time is empty; otherwise the form's fields are copied and the checklist follows the type's template, or is empty for other types |
| Celebrations.AddCelebration | App.js:897-923 | an empty date or time leaves the list and the form unchanged; otherwise the new celebration is appended and the form is reset |
| Celebrations.DeleteCelebration | App.js:925-927 | exactly the celebrations with other ids remain, with their multiplicities |
| Celebrations.ToggleCelebrationItem | App.js:1129-1149 | only the matching item of the matching celebration flips; `doneBy` and `doneAt` are set iff now done; everything else is kept |
| Celebrations.ToggleCelebrationStamped | App.js:1129-1149 | toggling keeps "ticked iff user and time are recorded" true of every item |
| Celebrations.ToggleCelebrationTwice | App.js:1129-1149 | when every targeted item is unticked with no user and no time recorded, ticking and unticking it with the same user and time restores the celebrations |
| Team.RemoveMember | App.js:1240-1242 | exactly the members with other ids remain, with their multiplicities |
| Team.DeleteNote | App.js:1563-1565 | exactly the notes with other ids remain, with their multiplicities |
| Inventory.UpdateQuantity | App.js:1376-1383 | the matching items get max(0, quantity + delta); all others are unchanged |
| Inventory.UpdateQuantityNonNegative | App.js:1376-1383 | non-negative quantities stay non-negative |
| Inventory.UpdateQuantityUndo | App.js:1376-1383 | without clamping, adding −delta after delta restores the inventory |
| Inventory.DeleteItem | App.js:1392-1394 | exactly the items with other ids remain, with their multiplicities |
| Inventory.CategoryOf | App.js:1397 | an item's category is never empty: its own category, or "Autre" when that is empty |
| Inventory.Categories | App.js:1397 | the categories are distinct, are exactly those of the items, with "Autre" for an empty one, and never the empty string |
| Inventory.LowStock | App.js:1399 | exactly the items with quantity ≤ minimum, with their multiplicities |
| Inventory.LowStockStaysLow | App.js:1376-1399 | after a non-positive adjustment, a low-stock item with a non-negative quantity stays low |
| Lists.FilterConcat | App.js:1393 | filtering distributes over concatenation, so order is preserved |
| Lists.FilterIdempotent | App.js:1393 | filtering twice is filtering once |
| Lists.RemoveIdSettles | App.js:1392-1394 | deleting an absent id changes nothing; deleting twice is deleting once; deletion distributes over concatenation |
| Lists.MapWhereTwice | App.js:685-694 | a per-item change that is its own inverse, applied twice, restores the list |
| Lists.NoDuplicatesAppend | App.js:280-325 | a concatenation has no duplicate iff neither part has one and the parts are disjoint |
| Lists.Distinct | App.js:1397 | the de-duplicated list has no duplicates and the same members |
| Lists.DistinctOfDistinct | App.js:1397 | de-duplicating a duplicate-free list returns it unchanged |

## Left out

- Rendering, component state, effects, the tab shell and all JSX are user interface.
- Loading and saving data through `window.storage`, `localStorage` and JSON is persistence I/O.
- `fetchAELFReadings` and the static `TODAYS_READINGS` data are left out. The first is a network call and the second is data.
- `service-worker.js` is offline-caching plumbing and is not part of this model.
- Clock times, milliseconds and daylight-saving drift are left out. Dates are whole days, so comparisons, `Math.round` and `Math.ceil` over milliseconds become exact day counts.
- Liturgy.WeekOfYear: the app resolves the current moment, so the difference at App.js:168 includes the time of day. After midnight `Math.ceil` then gives floor(n / 7) + 1, which differs from the whole-day ceil(n / 7) whenever n is a multiple of 7. At such call times Ordinary Time also reaches week 49 (2 December 2028), beyond the 48 that LiturgyProperties.OrdinaryWeekBounds states for whole days.
- Years before 1583 are excluded. `ValidDate` requires a Gregorian year, and the two-digit year mapping of JavaScript `Date` is not modelled.
- `Date.now()` and `new Date().toISOString()` become parameters: the `now` and `stamps` of `Celebrations.NewCelebration` and the `at` of `Celebrations.ToggleCelebrationItem`.
- The "upcoming" filters compare against the clock and are left out.
- Celebrations.AddCelebration: appends without sorting by date and time. The sort key parses date-time strings.
- Adding a team member, an inventory item or a note is not modelled; only their deletion is. These adds are form guards on trimmed text plus a clock id.
- `getDailyChecklist`'s unused second parameter is dropped.
- `LITURGICAL_COLORS` keeps only its keys, as the `Color` datatype; the CSS classes are presentation.
- A missing `doneBy` or `doneAt` becomes `None`, and JavaScript `null` is the same `None`.
- Inventory.CategoryOf: JavaScript's `||` also maps `null` and `undefined` to "Autre"; only the empty string is modelled.
- Lists.Distinct: the first-occurrence order is in the definition but not stated in the contract.
- Inventory.Categories: the first-occurrence order of `[...new Set(...)]` is not stated; only distinctness and the set of categories are.
- Inventory.LowStockStaysLow: holds only for items with a non-negative quantity; the app accepts negative quantities, and a negative one below a negative minimum is clamped up to 0 and may leave the low-stock list.
- Checklists.DailyChecklist: a function that concatenates the groups in push order, not a method that pushes item by item.
