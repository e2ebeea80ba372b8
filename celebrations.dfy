/** Planned celebrations: the form that creates one, the checklist built
    from the default template of its type, deleting one, and ticking an
    item of its checklist. */
module Celebrations {
  import opened Options
  import opened Text
  import opened Lists
  import opened Checklists

  /** A planned celebration; `color` is a key of the colour palette such
      as "vert". */
  datatype Celebration = Celebration(
    id: string, kind: string, date: string, time: string,
    color: string, notes: string, assignedTo: string, checklist: seq<Item>)

  /** The fields the creation form collects. */
  datatype Form = Form(kind: string, date: string, time: string, color: string, notes: string, assignedTo: string)

  /** The form as it is shown, and as it is reset after a creation. */
  const BlankForm: Form := Form("Messe dominicale", "", "", "vert", "", "")

  const CelebrationTypes: seq<string> := [
    "Messe dominicale", "Messe de semaine", "Mariage", "Baptême", "Funérailles",
    "Première communion", "Confirmation", "Adoration", "Vêpres", "Autre"]

  /** The default checklist of the four types that have one. */
  const DefaultChecklists: map<string, seq<string>> := map[
    "Messe dominicale" := [
      "Vérifier les linges d'autel", "Préparer les burettes (vin et eau)", "Disposer les cierges",
      "Préparer le missel", "Vérifier le micro", "Préparer les hosties",
      "Disposer les livres de chant", "Allumer le chauffage/climatisation"],
    "Mariage" := [
      "Décoration florale", "Préparer les alliances (coussin)", "Vérifier la sono", "Tapis rouge",
      "Cierges supplémentaires", "Préparer le registre", "Livrets de cérémonie"],
    "Baptême" := [
      "Préparer les fonts baptismaux", "Huile des catéchumènes", "Saint Chrême",
      "Cierge pascal accessible", "Vêtement blanc", "Préparer le registre"],
    "Funérailles" := [
      "Préparer le catafalque", "Cierges funéraires", "Eau bénite et goupillon",
      "Encensoir et navette", "Livrets de cérémonie", "Vérifier la sono"]]

  /** `DEFAULT_CHECKLISTS[type] || []`: a type has a non-empty template
      exactly when it has a default checklist, and every such type is
      one of the selectable celebration types. */
  function Template(kind: string): (r: seq<string>)
    ensures r != [] <==> kind in DefaultChecklists
    ensures r != [] ==> kind in CelebrationTypes && |r| <= 8
  {
    if kind in DefaultChecklists then DefaultChecklists[kind] else []
  }

  /** The id `${stamp}-${idx}` of the checklist item at index `idx`, made
      when the clock read `stamp` milliseconds. */
  function ItemId(stamp: nat, idx: nat): string {
    NatToString(stamp) + "-" + NatToString(idx)
  }

  /** The dash is the only non-digit of an item id, so the id gives back
      both the clock reading and the index. */
  lemma ItemIdInjective(a: nat, i: nat, b: nat, j: nat)
    requires ItemId(a, i) == ItemId(b, j)
    ensures a == b && i == j
  {
    var sa, sb := NatToString(a), NatToString(b);
    var s := ItemId(a, i);
    assert s[|sa|] == '-' && ItemId(b, j)[|sb|] == '-';
    assert forall k :: 0 <= k < |sa| ==> IsDigit(s[k]);
    assert forall k :: 0 <= k < |sb| ==> IsDigit(s[k]);
    assert sa == s[..|sa|] == sb;
    assert NatToString(i) == s[|sa| + 1..] == NatToString(j);
    NatToStringInjective(a, b);
    NatToStringInjective(i, j);
  }

  /** The checklist of a new celebration: one untouched item per template
      line, in order, with the line as its text and the clock reading
      taken for it in its id; the ids are pairwise distinct whatever the
      readings. */
  function BuildChecklist(template: seq<string>, stamps: seq<nat>): (r: seq<Item>)
    requires |stamps| == |template|
    ensures |r| == |template|
    ensures forall i :: 0 <= i < |r| ==> r[i].text == template[i] && r[i].id == ItemId(stamps[i], i)
    ensures Unticked(r)
    ensures UniqueIds(r)
  {
    var r := seq(|template|, i requires 0 <= i < |template| => NewItem(ItemId(stamps[i], i), template[i]));
    assert forall i, j | 0 <= i < j < |r| :: Ids(r)[i] != Ids(r)[j] by {
      forall i, j | 0 <= i < j < |r| ensures Ids(r)[i] != Ids(r)[j] {
        if Ids(r)[i] == Ids(r)[j] {
          ItemIdInjective(stamps[i], i, stamps[j], j);
        }
      }
    }
    r
  }

  /** `addCelebration`'s new record: nothing when the date or the time is
      empty, otherwise the form's fields, the id `${now}` and the checklist
      of the form's type (empty for a type without a template). */
  function NewCelebration(form: Form, now: nat, stamps: seq<nat>): (r: Option<Celebration>)
    requires |stamps| == |Template(form.kind)|
    ensures r.None? <==> form.date == "" || form.time == ""
    ensures r.Some? ==> var c := r.value;
      && c.id == NatToString(now)
      && c.kind == form.kind && c.date == form.date && c.time == form.time
      && c.color == form.color && c.notes == form.notes && c.assignedTo == form.assignedTo
      && |c.checklist| == |Template(form.kind)|
      && (forall i :: 0 <= i < |c.checklist| ==> c.checklist[i].text == Template(form.kind)[i])
      && Unticked(c.checklist) && UniqueIds(c.checklist)
  {
    if form.date == "" || form.time == "" then None
    else
      Some(Celebration(NatToString(now), form.kind, form.date, form.time, form.color, form.notes,
                       form.assignedTo, BuildChecklist(Template(form.kind), stamps)))
  }

  /** `addCelebration` on the list and the form: refused input leaves both
      as they were; otherwise the new celebration joins the list and the
      form is reset. The list is then sorted by date and time, which this
      model does not capture: the result holds the same celebrations. */
  function AddCelebration(cels: seq<Celebration>, form: Form, now: nat, stamps: seq<nat>): (r: (seq<Celebration>, Form))
    requires |stamps| == |Template(form.kind)|
    ensures (form.date == "" || form.time == "") ==> r == (cels, form)
    ensures !(form.date == "" || form.time == "") ==>
      && r.1 == BlankForm
      && |r.0| == |cels| + 1 && r.0[..|cels|] == cels
      && Some(r.0[|cels|]) == NewCelebration(form, now, stamps)
  {
    match NewCelebration(form, now, stamps)
    case None => (cels, form)
    case Some(c) => (cels + [c], BlankForm)
  }

  /** `deleteCelebration`: exactly the celebrations with another id stay, in
      their order. */
  function DeleteCelebration(cels: seq<Celebration>, id: string): (r: seq<Celebration>)
    ensures forall c :: c in r <==> c in cels && c.id != id
    ensures forall c :: multiset(r)[c] == if c.id != id then multiset(cels)[c] else 0
  {
    RemoveId(cels, (c: Celebration) => c.id, id)
  }

  /** Ticking or unticking a celebration's item also stamps or clears the
      moment it was done. */
  function FlipAt(it: Item, user: string, at: string): Item {
    it.(done := !it.done, doneBy := if !it.done then Some(user) else None,
        doneAt := if !it.done then Some(at) else None)
  }

  function ToggleItems(items: seq<Item>, itemId: string, user: string, at: string): seq<Item> {
    MapWhere(items, (it: Item) => it.id == itemId, (it: Item) => FlipAt(it, user, at))
  }

  /** `toggleCheckItem` of the checklist view: in the celebrations with id
      `celebId`, the items with id `itemId` flip `done` and record or clear
      who ticked them and when; everything else is unchanged. */
  function ToggleCelebrationItem(cels: seq<Celebration>, celebId: string, itemId: string, user: string, at: string)
    : (r: seq<Celebration>)
    ensures |r| == |cels|
    ensures forall k :: 0 <= k < |cels| && cels[k].id != celebId ==> r[k] == cels[k]
    ensures forall k :: 0 <= k < |cels| && cels[k].id == celebId ==>
      && r[k] == cels[k].(checklist := r[k].checklist)
      && |r[k].checklist| == |cels[k].checklist|
      && forall i :: 0 <= i < |cels[k].checklist| ==>
           var old_, new_ := cels[k].checklist[i], r[k].checklist[i];
           if old_.id == itemId then
             && new_.done == !old_.done
             && new_.doneBy == (if new_.done then Some(user) else None)
             && new_.doneAt == (if new_.done then Some(at) else None)
             && new_.id == old_.id && new_.text == old_.text
           else new_ == old_
  {
    MapWhere(cels, (c: Celebration) => c.id == celebId,
      (c: Celebration) => c.(checklist := ToggleItems(c.checklist, itemId, user, at)))
  }

  /** An item whose `doneBy` and `doneAt` both agree with its flag. */
  predicate Stamped(it: Item) {
    (it.done <==> it.doneBy.Some?) && (it.done <==> it.doneAt.Some?)
  }

  /** Ticking keeps every item of every checklist stamped. */
  lemma ToggleCelebrationStamped(cels: seq<Celebration>, celebId: string, itemId: string, user: string, at: string)
    requires forall k, i :: 0 <= k < |cels| && 0 <= i < |cels[k].checklist| ==> Stamped(cels[k].checklist[i])
    ensures var r := ToggleCelebrationItem(cels, celebId, itemId, user, at);
      forall k, i :: 0 <= k < |r| && 0 <= i < |r[k].checklist| ==> Stamped(r[k].checklist[i])
  {
  }

  /** Ticking an untouched item and unticking it again gives back the
      celebrations as they were. */
  lemma ToggleCelebrationTwice(cels: seq<Celebration>, celebId: string, itemId: string, user: string, at: string)
    requires forall k, i ::
      0 <= k < |cels| && cels[k].id == celebId && 0 <= i < |cels[k].checklist| && cels[k].checklist[i].id == itemId ==>
      !cels[k].checklist[i].done && cels[k].checklist[i].doneBy == None && cels[k].checklist[i].doneAt == None
    ensures ToggleCelebrationItem(ToggleCelebrationItem(cels, celebId, itemId, user, at), celebId, itemId, user, at) == cels
  {
    var hit := (c: Celebration) => c.id == celebId;
    var f := (c: Celebration) => c.(checklist := ToggleItems(c.checklist, itemId, user, at));
    forall c | c in cels && hit(c) ensures hit(f(c)) && f(f(c)) == c {
      var k :| 0 <= k < |cels| && cels[k] == c;
      var ihit := (it: Item) => it.id == itemId;
      var g := (it: Item) => FlipAt(it, user, at);
      forall x | x in c.checklist && ihit(x) ensures ihit(g(x)) && g(g(x)) == x {
        var i :| 0 <= i < |c.checklist| && c.checklist[i] == x;
      }
      MapWhereTwice(c.checklist, ihit, g);
    }
    MapWhereTwice(cels, hit, f);
  }
}
