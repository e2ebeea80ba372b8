/** Checklist items, the daily preparation list generated from the day's
    designation, and ticking an item off. */
module Checklists {
  import opened Options
  import opened Text
  import opened Liturgy
  import opened Lists

  /** `{id, text, done, doneBy, doneAt}`; `doneBy` and `doneAt` are
      `null` (or absent) until the item is ticked. */
  datatype Item = Item(id: string, text: string, done: bool, doneBy: Option<string>, doneAt: Option<string>)

  function NewItem(id: string, text: string): Item {
    Item(id, text, false, None, None)
  }

  /** The ids of a list of items, in order. */
  function Ids(items: seq<Item>): (r: seq<string>)
    ensures |r| == |items|
    ensures forall i :: 0 <= i < |items| ==> r[i] == items[i].id
  {
    if items == [] then [] else [items[0].id] + Ids(items[1..])
  }

  lemma {:induction false} IdsAppend(a: seq<Item>, b: seq<Item>)
    ensures Ids(a + b) == Ids(a) + Ids(b)
  {
    assert |Ids(a + b)| == |Ids(a) + Ids(b)|;
    forall i | 0 <= i < |a + b| ensures Ids(a + b)[i] == (Ids(a) + Ids(b))[i] {
      if i < |a| {
        assert (a + b)[i] == a[i];
      } else {
        assert (a + b)[i] == b[i - |a|];
      }
    }
  }

  /** No two items of the list share an id. */
  predicate UniqueIds(items: seq<Item>) {
    NoDuplicates(Ids(items))
  }

  predicate HasId(items: seq<Item>, id: string) {
    id in Ids(items)
  }

  /** The six tasks of every day, in their fixed order. */
  function Baseline(): (r: seq<Item>)
    ensures |r| == 6 && Ids(r) == BaselineIds && Unticked(r)
  {
    [ NewItem("linges", "Vérifier les linges d'autel"),
      NewItem("burettes", "Préparer les burettes (vin et eau)"),
      NewItem("cierges", "Vérifier les cierges"),
      NewItem("missel", "Marquer le missel aux bons endroits"),
      NewItem("hosties", "Préparer les hosties"),
      NewItem("micro", "Vérifier le micro") ]
  }

  /** The id of the vestment task of each colour the list knows. */
  function ColorId(c: Color): Option<string> {
    match c
    case Violet => Some("violet")
    case Blanc => Some("blanc")
    case Rouge => Some("rouge")
    case Rose => Some("rose")
    case Vert => Some("vert")
    case Or => None
    case Noir => None
  }

  function ColorItems(c: Color): (r: seq<Item>)
    ensures Ids(r) == ColorIds(c) && Unticked(r)
  {
    match c
    case Violet => [NewItem("violet", "Installer les ornements violets")]
    case Blanc => [NewItem("blanc", "Installer les ornements blancs")]
    case Rouge => [NewItem("rouge", "Installer les ornements rouges")]
    case Rose => [NewItem("rose", "Installer les ornements roses")]
    case Vert => [NewItem("vert", "Installer les ornements verts")]
    case Or => []
    case Noir => []
  }

  /** Which special tasks the designation's name calls for: ashes for
      "Cendres", palms for "Rameaux", the washing of feet for "Jeudi
      Saint", the cross for "Vendredi Saint", the paschal candle for
      "Vigile" or "Pâques". */
  datatype Triggers = Triggers(ashes: bool, palms: bool, washing: bool, cross: bool, paschal: bool)

  function TriggersOf(name: string): (t: Triggers)
    ensures |name| < 6 ==> t == Triggers(false, false, false, false, false)
    ensures !Contains(name, " Saint") ==> !t.washing && !t.cross
  {
    assert "Jeudi" + " Saint" == "Jeudi Saint";
    assert "Vendredi" + " Saint" == "Vendredi Saint";
    ContainsTail(name, "Jeudi", " Saint");
    ContainsTail(name, "Vendredi", " Saint");
    Triggers(Contains(name, "Cendres"), Contains(name, "Rameaux"), Contains(name, "Jeudi Saint"),
             Contains(name, "Vendredi Saint"), Contains(name, "Vigile") || Contains(name, "Pâques"))
  }

  /** `[x]` when `b` holds, else nothing. */
  function Optional<T(!new)>(b: bool, x: T): (r: seq<T>)
    ensures |r| == (if b then 1 else 0)
    ensures forall y :: y in r <==> b && y == x
  {
    if b then [x] else []
  }

  /** No item has been ticked. */
  predicate Unticked(items: seq<Item>) {
    forall i :: 0 <= i < |items| ==> !items[i].done && items[i].doneBy == None && items[i].doneAt == None
  }

  lemma UntickedAppend(a: seq<Item>, b: seq<Item>)
    requires Unticked(a) && Unticked(b)
    ensures Unticked(a + b)
  {
    forall i | 0 <= i < |a + b|
      ensures !(a + b)[i].done && (a + b)[i].doneBy == None && (a + b)[i].doneAt == None
    {
      if i >= |a| {
        assert (a + b)[i] == b[i - |a|];
      }
    }
  }

  /** The task `id` when `wanted`, as a list of at most one fresh item. */
  function Task(wanted: bool, id: string, text: string): (r: seq<Item>)
    ensures |r| == (if wanted then 1 else 0)
    ensures Ids(r) == Optional(wanted, id)
    ensures Unticked(r)
  {
    Optional(wanted, NewItem(id, text))
  }

  function SpecialIds(t: Triggers): seq<string> {
    Optional(t.ashes, "cendres") + Optional(t.palms, "rameaux") + Optional(t.washing, "lavement")
    + Optional(t.cross, "croix") + Optional(t.paschal, "cierge_pascal")
  }

  function SpecialCount(t: Triggers): nat {
    (if t.ashes then 1 else 0) + (if t.palms then 1 else 0) + (if t.washing then 1 else 0)
    + (if t.cross then 1 else 0) + (if t.paschal then 1 else 0)
  }

  /** Ids and untouched items of five lists joined end to end. */
  lemma Join5(c1: seq<Item>, c2: seq<Item>, c3: seq<Item>, c4: seq<Item>, c5: seq<Item>)
    requires Unticked(c1) && Unticked(c2) && Unticked(c3) && Unticked(c4) && Unticked(c5)
    ensures Ids(c1 + c2 + c3 + c4 + c5) == Ids(c1) + Ids(c2) + Ids(c3) + Ids(c4) + Ids(c5)
    ensures Unticked(c1 + c2 + c3 + c4 + c5)
  {
    IdsAppend(c1, c2);
    IdsAppend(c1 + c2, c3);
    IdsAppend(c1 + c2 + c3, c4);
    IdsAppend(c1 + c2 + c3 + c4, c5);
    UntickedAppend(c1, c2);
    UntickedAppend(c1 + c2, c3);
    UntickedAppend(c1 + c2 + c3, c4);
    UntickedAppend(c1 + c2 + c3 + c4, c5);
  }

  /** The special tasks, in the order the name is checked: their ids are
      those of the triggers that hold, and none is ticked. */
  function SpecialItems(t: Triggers): (r: seq<Item>)
    ensures |r| == SpecialCount(t)
    ensures Ids(r) == SpecialIds(t)
    ensures Unticked(r)
  {
    var c1 := Task(t.ashes, "cendres", "Préparer les cendres bénites");
    var c2 := Task(t.palms, "rameaux", "Préparer les rameaux");
    var c3 := Task(t.washing, "lavement", "Préparer le nécessaire pour le lavement des pieds");
    var c4 := Task(t.cross, "croix", "Préparer la croix pour la vénération");
    var c5 := Task(t.paschal, "cierge_pascal", "Préparer le cierge pascal");
    Join5(c1, c2, c3, c4, c5);
    c1 + c2 + c3 + c4 + c5
  }

  const BaselineIds: seq<string> := ["linges", "burettes", "cierges", "missel", "hosties", "micro"]

  /** `getDailyChecklist`: the six baseline tasks, then the vestment task
      of the colour, then the special tasks the name calls for; no item is
      ticked. */
  function DailyChecklist(liturgy: Designation): (r: seq<Item>)
    ensures |r| == 6 + |ColorIds(liturgy.color)| + SpecialCount(TriggersOf(liturgy.name))
    ensures Unticked(r)
  {
    var base, colour, special := Baseline(), ColorItems(liturgy.color), SpecialItems(TriggersOf(liturgy.name));
    UntickedAppend(base, colour);
    UntickedAppend(base + colour, special);
    base + colour + special
  }

  /** The list opens with the six baseline tasks, followed by the vestment
      task of the colour when the colour has one. */
  lemma DailyChecklistShape(liturgy: Designation)
    ensures var r := DailyChecklist(liturgy);
      && r[..6] == Baseline()
      && (ColorId(liturgy.color).Some? ==> r[6].id == ColorId(liturgy.color).value)
  {
    var r := DailyChecklist(liturgy);
    var base, colour, special := Baseline(), ColorItems(liturgy.color), SpecialItems(TriggersOf(liturgy.name));
    assert r == base + colour + special;
    if ColorId(liturgy.color).Some? {
      assert Ids(colour)[0] == colour[0].id;
      assert r[6] == colour[0];
    }
  }

  function ColorIds(c: Color): seq<string> {
    if ColorId(c).Some? then [ColorId(c).value] else []
  }

  /** The ids of the daily list: the baseline ids, the colour's id, then
      each special id whose trigger holds, in check order. */
  lemma DailyChecklistIds(liturgy: Designation)
    ensures Ids(DailyChecklist(liturgy)) ==
      BaselineIds + ColorIds(liturgy.color) + SpecialIds(TriggersOf(liturgy.name))
  {
    var t := TriggersOf(liturgy.name);
    IdsAppend(Baseline(), ColorItems(liturgy.color));
    IdsAppend(Baseline() + ColorItems(liturgy.color), SpecialItems(t));
  }

  /** `DailyChecklistIds` once the triggers of the name are known. */
  lemma DailyChecklistIdsWith(liturgy: Designation, t: Triggers)
    requires TriggersOf(liturgy.name) == t
    ensures Ids(DailyChecklist(liturgy)) == BaselineIds + ColorIds(liturgy.color) + SpecialIds(t)
  {
    DailyChecklistIds(liturgy);
  }

  const AllColourIds: seq<string> := ["violet", "blanc", "rouge", "rose", "vert"]
  const SpecialOrder: seq<string> := ["cendres", "rameaux", "lavement", "croix", "cierge_pascal"]

  lemma ColorIdsFacts(c: Color)
    ensures NoDuplicates(ColorIds(c))
    ensures forall x :: x in ColorIds(c) ==> x in AllColourIds
  {
  }

  lemma SpecialIdsFacts(t: Triggers)
    ensures NoDuplicates(SpecialIds(t))
    ensures forall x :: x in SpecialIds(t) ==> x in SpecialOrder
    ensures "cendres" in SpecialIds(t) <==> t.ashes
    ensures "rameaux" in SpecialIds(t) <==> t.palms
    ensures "lavement" in SpecialIds(t) <==> t.washing
    ensures "croix" in SpecialIds(t) <==> t.cross
    ensures "cierge_pascal" in SpecialIds(t) <==> t.paschal
  {
    var o1, o2, o3 := Optional(t.ashes, "cendres"), Optional(t.palms, "rameaux"), Optional(t.washing, "lavement");
    var o4, o5 := Optional(t.cross, "croix"), Optional(t.paschal, "cierge_pascal");
    NoDuplicatesAppend(o1, o2);
    NoDuplicatesAppend(o1 + o2, o3);
    NoDuplicatesAppend(o1 + o2 + o3, o4);
    NoDuplicatesAppend(o1 + o2 + o3 + o4, o5);
  }

  /** The three id groups of a daily list are pairwise disjoint. */
  lemma IdGroupsDisjoint()
    ensures NoDuplicates(BaselineIds + AllColourIds + SpecialOrder)
  {
  }

  /** The ids of a daily list are distinct, and a special id is among them
      exactly when its trigger holds. */
  lemma ChecklistIdsOf(c: Color, t: Triggers)
    ensures var ids := BaselineIds + ColorIds(c) + SpecialIds(t);
      && NoDuplicates(ids)
      && ("cendres" in ids <==> t.ashes)
      && ("rameaux" in ids <==> t.palms)
      && ("lavement" in ids <==> t.washing)
      && ("croix" in ids <==> t.cross)
      && ("cierge_pascal" in ids <==> t.paschal)
  {
    ColorIdsFacts(c);
    SpecialIdsFacts(t);
    IdGroupsDisjoint();
    NoDuplicatesAppend(BaselineIds, AllColourIds);
    NoDuplicatesAppend(BaselineIds + AllColourIds, SpecialOrder);
    NoDuplicatesAppend(BaselineIds, ColorIds(c));
    NoDuplicatesAppend(BaselineIds + ColorIds(c), SpecialIds(t));
  }

  /** No two tasks of the daily list share an id, and each special task
      is on it exactly when its word occurs in the designation's name. */
  lemma DailyChecklistTasks(liturgy: Designation)
    ensures var r, t := DailyChecklist(liturgy), TriggersOf(liturgy.name);
      && UniqueIds(r)
      && (HasId(r, "cendres") <==> t.ashes)
      && (HasId(r, "rameaux") <==> t.palms)
      && (HasId(r, "lavement") <==> t.washing)
      && (HasId(r, "croix") <==> t.cross)
      && (HasId(r, "cierge_pascal") <==> t.paschal)
  {
    DailyChecklistIds(liturgy);
    ChecklistIdsOf(liturgy.color, TriggersOf(liturgy.name));
  }

  /** Whether an item's `doneBy` agrees with its `done` flag. */
  predicate Recorded(it: Item) {
    it.done <==> it.doneBy.Some?
  }

  /** The item after a tick or untick by `user`: `done` flips, `doneBy`
      names the user when the item becomes done and is cleared when it is
      undone; the rest is kept. */
  function Flip(it: Item, user: string): Item {
    it.(done := !it.done, doneBy := if !it.done then Some(user) else None)
  }

  /** `toggleCheckItem` of the day's list: the items with id `itemId` flip
      their `done` flag and record or clear who ticked them; every other
      item, and the order and ids of the list, stay as they were. */
  function ToggleDaily(items: seq<Item>, itemId: string, user: string): (r: seq<Item>)
    ensures |r| == |items| && Ids(r) == Ids(items)
    ensures forall i :: 0 <= i < |items| && items[i].id == itemId ==>
      && r[i].done == !items[i].done
      && r[i].doneBy == (if r[i].done then Some(user) else None)
      && r[i].text == items[i].text && r[i].doneAt == items[i].doneAt
    ensures forall i :: 0 <= i < |items| && items[i].id != itemId ==> r[i] == items[i]
  {
    MapWhere(items, (it: Item) => it.id == itemId, (it: Item) => Flip(it, user))
  }

  /** Toggling keeps every item's `doneBy` in agreement with its flag. */
  lemma ToggleDailyRecorded(items: seq<Item>, itemId: string, user: string)
    ensures var r := ToggleDaily(items, itemId, user);
      forall i :: 0 <= i < |r| && r[i].id == itemId ==> Recorded(r[i])
    ensures (forall i :: 0 <= i < |items| ==> Recorded(items[i])) ==>
      forall i :: 0 <= i < |items| ==> Recorded(ToggleDaily(items, itemId, user)[i])
  {
  }

  /** Toggling the same item twice as the same user gives back the list,
      when that user is the one recorded on each ticked item of that id. */
  lemma ToggleDailyTwice(items: seq<Item>, itemId: string, user: string)
    requires forall i :: 0 <= i < |items| && items[i].id == itemId ==>
      Recorded(items[i]) && (items[i].done ==> items[i].doneBy == Some(user))
    ensures ToggleDaily(ToggleDaily(items, itemId, user), itemId, user) == items
  {
    var hit, f := (it: Item) => it.id == itemId, (it: Item) => Flip(it, user);
    forall x | x in items && hit(x) ensures hit(f(x)) && f(f(x)) == x {
      var i :| 0 <= i < |items| && items[i] == x;
    }
    MapWhereTwice(items, hit, f);
  }
}
