/** The outfit-planning store: the slot-by-slot selection being put
    together, the outfit confirmed for today, and the user's items grouped
    into the four slots by their free-text category. */
module OutfitStore {

  import opened Wrappers
  import opened Strings
  import ItemTable

  /** `ClothingCategory`: the four slots of an outfit. */
  datatype Slot = Top | Bottom | Shoes | Accessories

  /** The client's `Item` record. */
  datatype Item = Item(
    id: string,
    name: string,
    description: Option<string>,
    category: string,
    color: string,
    size: string,
    imageUrl: Option<string>,
    userId: string,
    createdAt: string,
    updatedAt: string)

  /** `OutfitSelection`: at most one item per slot. */
  type Selection = map<Slot, Item>

  /** `{ ...selection, [slot]: item }`. */
  function Select(sel: Selection, slot: Slot, item: Item): (r: Selection)
    ensures slot in r && r[slot] == item
    ensures forall s :: s != slot ==> (s in r <==> s in sel)
    ensures forall s :: s != slot && s in sel ==> r[s] == sel[s]
  {
    sel[slot := item]
  }

  /** A copy of the selection with `slot` deleted. */
  function Deselect(sel: Selection, slot: Slot): (r: Selection)
    ensures slot !in r
    ensures forall s :: s != slot ==> (s in r <==> s in sel)
    ensures forall s :: s != slot && s in sel ==> r[s] == sel[s]
  {
    sel - {slot}
  }

  /** Deselecting an empty slot changes nothing, so deselecting twice is
      deselecting once. */
  lemma DeselectIdempotent(sel: Selection, slot: Slot)
    ensures slot !in sel ==> Deselect(sel, slot) == sel
    ensures Deselect(Deselect(sel, slot), slot) == Deselect(sel, slot)
  {
    if slot !in sel {
      assert Deselect(sel, slot).Keys == sel.Keys;
    }
  }

  /** Filling an empty slot and emptying it again gives the selection back. */
  lemma SelectThenDeselect(sel: Selection, slot: Slot, item: Item)
    requires slot !in sel
    ensures Deselect(Select(sel, slot, item), slot) == sel
  {
    assert Deselect(Select(sel, slot, item), slot).Keys == sel.Keys;
  }

  /** The lower-cased categories each slot collects. */
  function Synonyms(slot: Slot): set<string> {
    match slot
    case Top => {"top", "tops", "shirt", "blouse"}
    case Bottom => {"bottom", "bottoms", "pants", "jeans", "shorts"}
    case Shoes => {"shoes", "shoe", "footwear"}
    case Accessories => {"accessories", "accessory", "belt", "watch", "jewelry"}
  }

  predicate InSlot(slot: Slot, item: Item) {
    ToLower(item.category) in Synonyms(slot)
  }

  /** `items.filter(...)` with the slot's test. */
  function Filter(items: seq<Item>, slot: Slot): (r: seq<Item>)
    ensures |r| <= |items|
    ensures forall x :: x in r <==> x in items && InSlot(slot, x)
  {
    if items == [] then []
    else (if InSlot(slot, items[0]) then [items[0]] else []) + Filter(items[1..], slot)
  }

  /** `a` is `b` with some elements left out, the rest in their order. */
  ghost predicate IsSubsequence(a: seq<Item>, b: seq<Item>)
    decreases |b|
  {
    if a == [] then true
    else if b == [] then false
    else (a[0] == b[0] && IsSubsequence(a[1..], b[1..])) || IsSubsequence(a, b[1..])
  }

  /** Each group keeps the input's order. */
  lemma {:induction false} FilterIsSubsequence(items: seq<Item>, slot: Slot)
    ensures IsSubsequence(Filter(items, slot), items)
    decreases |items|
  {
    if items != [] {
      FilterIsSubsequence(items[1..], slot);
      var rest := Filter(items[1..], slot);
      if InSlot(slot, items[0]) {
        assert Filter(items, slot) == [items[0]] + rest;
        assert ([items[0]] + rest)[1..] == rest;
      } else {
        assert Filter(items, slot) == rest;
        if rest != [] {
          assert IsSubsequence(rest, items[1..]);
        }
      }
    }
  }

  /** `availableItems`. */
  datatype Groups = Groups(top: seq<Item>, bottom: seq<Item>, shoes: seq<Item>, accessories: seq<Item>) {
    function Get(slot: Slot): seq<Item> {
      match slot
      case Top => top
      case Bottom => bottom
      case Shoes => shoes
      case Accessories => accessories
    }
  }

  const NoGroups := Groups([], [], [], [])

  /** The grouping `setAvailableItems` computes. */
  function GroupItems(items: seq<Item>): (g: Groups)
    ensures forall slot :: g.Get(slot) == Filter(items, slot)
  {
    Groups(Filter(items, Top), Filter(items, Bottom), Filter(items, Shoes), Filter(items, Accessories))
  }

  /** No word is a synonym of two slots. */
  lemma SynonymsDisjoint(s1: Slot, s2: Slot)
    requires s1 != s2
    ensures Synonyms(s1) !! Synonyms(s2)
  {
  }

  /** No item lands in two groups. */
  lemma NoItemInTwoGroups(items: seq<Item>, x: Item, s1: Slot, s2: Slot)
    requires x in GroupItems(items).Get(s1) && x in GroupItems(items).Get(s2)
    ensures s1 == s2
  {
    if s1 != s2 {
      SynonymsDisjoint(s1, s2);
      assert false;
    }
  }

  function GroupedCount(g: Groups): nat {
    |g.top| + |g.bottom| + |g.shoes| + |g.accessories|
  }

  /** The groups together hold no more items than the input. */
  lemma {:induction false} GroupedCountBounded(items: seq<Item>)
    ensures GroupedCount(GroupItems(items)) <= |items|
    decreases |items|
  {
    if items != [] {
      GroupedCountBounded(items[1..]);
      var x := items[0];
      if InSlot(Top, x) && InSlot(Bottom, x) { SynonymsDisjoint(Top, Bottom); }
      if InSlot(Top, x) && InSlot(Shoes, x) { SynonymsDisjoint(Top, Shoes); }
      if InSlot(Top, x) && InSlot(Accessories, x) { SynonymsDisjoint(Top, Accessories); }
      if InSlot(Bottom, x) && InSlot(Shoes, x) { SynonymsDisjoint(Bottom, Shoes); }
      if InSlot(Bottom, x) && InSlot(Accessories, x) { SynonymsDisjoint(Bottom, Accessories); }
      if InSlot(Shoes, x) && InSlot(Accessories, x) { SynonymsDisjoint(Shoes, Accessories); }
    }
  }

  /** An item whose category lower-cases to "outerwear" is in no group. */
  lemma OuterwearInNoGroup(items: seq<Item>, x: Item)
    requires ToLower(x.category) == "outerwear"
    ensures forall slot :: x !in GroupItems(items).Get(slot)
  {
  }

  /** Items carrying the server's category names land as follows: TOP in
      top, BOTTOM in bottom, FOOTWEAR in shoes, ACCESSORY in accessories,
      OUTERWEAR nowhere. */
  lemma ServerCategoryGroups(x: Item, c: ItemTable.Category, slot: Slot)
    requires x.category == ItemTable.CategoryName(c)
    ensures InSlot(slot, x) <==>
      match c
      case TOP => slot == Top
      case BOTTOM => slot == Bottom
      case FOOTWEAR => slot == Shoes
      case ACCESSORY => slot == Accessories
      case OUTERWEAR => false
  {
    match c
    case TOP => assert ToLower(x.category) == "top";
    case BOTTOM => assert ToLower(x.category) == "bottom";
    case FOOTWEAR => assert ToLower(x.category) == "footwear";
    case ACCESSORY => assert ToLower(x.category) == "accessory";
    case OUTERWEAR => assert ToLower(x.category) == "outerwear";
  }

  /** The zustand store. */
  class OutfitStore {
    var currentSelection: Selection
    var todaysOutfit: Option<Selection>
    var availableItems: Groups
    var isLoading: bool
    var error: Option<string>

    constructor ()
      ensures currentSelection == map[] && todaysOutfit.None? && availableItems == NoGroups
      ensures !isLoading && error.None?
    {
      currentSelection := map[];
      todaysOutfit := None;
      availableItems := NoGroups;
      isLoading := false;
      error := None;
    }

    method SelectItem(slot: Slot, item: Item)
      modifies this
      ensures currentSelection == Select(old(currentSelection), slot, item)
      ensures todaysOutfit == old(todaysOutfit) && availableItems == old(availableItems)
      ensures isLoading == old(isLoading) && error == old(error)
    {
      currentSelection := Select(currentSelection, slot, item);
    }

    method DeselectItem(slot: Slot)
      modifies this
      ensures currentSelection == Deselect(old(currentSelection), slot)
      ensures todaysOutfit == old(todaysOutfit) && availableItems == old(availableItems)
      ensures isLoading == old(isLoading) && error == old(error)
    {
      var newSelection := currentSelection;
      newSelection := newSelection - {slot};
      currentSelection := newSelection;
    }

    /** Today's outfit becomes a copy of the current selection. */
    method ConfirmTodaysOutfit()
      modifies this
      ensures todaysOutfit == Some(old(currentSelection))
      ensures currentSelection == old(currentSelection) && availableItems == old(availableItems)
      ensures isLoading == old(isLoading) && error == old(error)
    {
      todaysOutfit := Some(currentSelection);
    }

    method ResetTodaysOutfit()
      modifies this
      ensures todaysOutfit.None?
      ensures currentSelection == old(currentSelection) && availableItems == old(availableItems)
      ensures isLoading == old(isLoading) && error == old(error)
    {
      todaysOutfit := None;
    }

    method ResetCurrentSelection()
      modifies this
      ensures currentSelection == map[]
      ensures todaysOutfit == old(todaysOutfit) && availableItems == old(availableItems)
      ensures isLoading == old(isLoading) && error == old(error)
    {
      currentSelection := map[];
    }

    method SetAvailableItems(items: seq<Item>)
      modifies this
      ensures availableItems == GroupItems(items)
      ensures currentSelection == old(currentSelection) && todaysOutfit == old(todaysOutfit)
      ensures isLoading == old(isLoading) && error == old(error)
    {
      availableItems := GroupItems(items);
    }

    method SetLoading(loading: bool)
      modifies this
      ensures isLoading == loading
      ensures currentSelection == old(currentSelection) && todaysOutfit == old(todaysOutfit)
      ensures availableItems == old(availableItems) && error == old(error)
    {
      isLoading := loading;
    }

    method SetError(e: Option<string>)
      modifies this
      ensures error == e
      ensures currentSelection == old(currentSelection) && todaysOutfit == old(todaysOutfit)
      ensures availableItems == old(availableItems) && isLoading == old(isLoading)
    {
      error := e;
    }
  }
}
