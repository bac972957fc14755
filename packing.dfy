/** The packing-list screen: packing and unpacking items, adding a custom item,
    the grouping by category and the progress ratios. */
module Packing {
  import opened Wrappers
  import Lists

  datatype PackingItem = PackingItem(
    id: string,
    name: string,
    category: string,
    essential: bool,
    packed: bool,
    quantity: Option<int>,
    notes: Option<string>)

  /** The add-item form. */
  datatype NewItem = NewItem(name: string, category: string)

  /** The screen's state slots. */
  datatype PackingState = PackingState(packingList: seq<PackingItem>, showAddDialog: bool, newItem: NewItem)

  function Essential(id: string, name: string, category: string, packed: bool, quantity: int): PackingItem {
    PackingItem(id, name, category, true, packed, Some(quantity), None)
  }

  /** The list the screen starts with: seventeen essential items. */
  const InitialList: seq<PackingItem> := [
    Essential("1", "Quick-dry shirts", "clothing", false, 5),
    Essential("2", "Lightweight pants", "clothing", true, 2),
    Essential("3", "Swimwear", "clothing", false, 2),
    Essential("4", "Hiking boots", "clothing", false, 1),
    Essential("5", "Phone charger", "electronics", true, 1),
    Essential("6", "Power bank", "electronics", false, 1),
    Essential("7", "Universal adapter", "electronics", false, 1),
    Essential("8", "Passport", "documents", true, 1),
    Essential("9", "Travel insurance", "documents", true, 1),
    Essential("10", "Vaccination certificate", "documents", false, 1),
    Essential("11", "Sunscreen SPF 50+", "toiletries", false, 1),
    Essential("12", "Insect repellent", "toiletries", false, 1),
    Essential("13", "Anti-diarrheal medication", "medicine", false, 1),
    Essential("14", "Pain relievers", "medicine", true, 1),
    Essential("15", "Daypack", "gear", false, 1),
    Essential("16", "Water bottle", "gear", false, 1),
    Essential("17", "Padlock", "gear", true, 2)
  ]

  const Initial: PackingState := PackingState(InitialList, false, NewItem("", "clothing"))

  /** `togglePacked(itemId)`: the items with that id change `packed` and
      nothing else; the other items, the length and the order are kept. */
  function TogglePacked(items: seq<PackingItem>, itemId: string): (r: seq<PackingItem>)
    ensures |r| == |items|
    ensures forall k :: 0 <= k < |items| && items[k].id != itemId ==> r[k] == items[k]
    ensures forall k :: 0 <= k < |items| && items[k].id == itemId ==>
              r[k].packed == !items[k].packed && r[k].(packed := items[k].packed) == items[k]
    decreases |items|
  {
    if items == [] then []
    else [if items[0].id == itemId then items[0].(packed := !items[0].packed) else items[0]]
         + TogglePacked(items[1..], itemId)
  }

  /** Packing and unpacking the same item restores the list. */
  lemma TogglePackedTwice(items: seq<PackingItem>, itemId: string)
    ensures TogglePacked(TogglePacked(items, itemId), itemId) == items
  {
    var r := TogglePacked(TogglePacked(items, itemId), itemId);
    assert forall k :: 0 <= k < |items| ==> r[k] == items[k];
  }

  predicate IsEssential(item: PackingItem) { item.essential }
  predicate IsPacked(item: PackingItem) { item.packed }
  predicate IsPackedEssential(item: PackingItem) { item.essential && item.packed }

  /** Toggling never changes how many items are essential. */
  lemma {:induction false} TogglePackedKeepsEssentials(items: seq<PackingItem>, itemId: string)
    ensures Lists.Count(TogglePacked(items, itemId), IsEssential) == Lists.Count(items, IsEssential)
    decreases |items|
  {
    if items != [] {
      var r := TogglePacked(items, itemId);
      TogglePackedKeepsEssentials(items[1..], itemId);
      assert r[1..] == TogglePacked(items[1..], itemId);
      assert r[0].essential == items[0].essential;
    }
  }

  /** `addCustomItem` with a fresh id: nothing when the name is empty; otherwise
      a non-essential, unpacked item of quantity 1 with the form's name and
      category is appended, the form reset to an empty name in 'clothing' and
      the dialog closed. */
  function AddCustomItem(s: PackingState, freshId: string): (r: PackingState)
    ensures s.newItem.name == "" ==> r == s
    ensures s.newItem.name != "" ==>
      && |r.packingList| == |s.packingList| + 1
      && r.packingList[..|s.packingList|] == s.packingList
      && r.packingList[|s.packingList|] == PackingItem(freshId, s.newItem.name, s.newItem.category, false, false, Some(1), None)
      && r.newItem == NewItem("", "clothing") && !r.showAddDialog
  {
    if s.newItem.name != "" then
      var item := PackingItem(freshId, s.newItem.name, s.newItem.category, false, false, Some(1), None);
      PackingState(s.packingList + [item], false, NewItem("", "clothing"))
    else s
  }

  /** A custom item is never essential, so adding one keeps the essential count. */
  lemma AddCustomItemKeepsEssentials(s: PackingState, freshId: string)
    ensures Lists.Count(AddCustomItem(s, freshId).packingList, IsEssential) == Lists.Count(s.packingList, IsEssential)
  {
    var r := AddCustomItem(s, freshId);
    if s.newItem.name != "" {
      assert r.packingList == s.packingList + [r.packingList[|s.packingList|]];
      Lists.FilterConcat(s.packingList, [r.packingList[|s.packingList|]], IsEssential);
      Lists.FilterKeepsOrMisses(r.packingList[|s.packingList|], IsEssential);
    }
  }

  /** The list is never empty and always holds an essential item: it starts
      with seventeen and no handler removes or demotes one, so neither ratio
      divides by zero. */
  predicate HasEssentials(s: PackingState) {
    Lists.Count(s.packingList, IsEssential) >= 1
  }

  lemma InitialHasEssentials()
    ensures Lists.Count(InitialList, IsEssential) == 17
  {
    assert forall k :: 0 <= k < |InitialList| ==> InitialList[k].essential;
    Lists.FilterAllPass(InitialList, IsEssential);
  }

  lemma HandlersKeepEssentials(s: PackingState, itemId: string, freshId: string)
    requires HasEssentials(s)
    ensures HasEssentials(s.(packingList := TogglePacked(s.packingList, itemId)))
    ensures HasEssentials(AddCustomItem(s, freshId))
  {
    TogglePackedKeepsEssentials(s.packingList, itemId);
    AddCustomItemKeepsEssentials(s, freshId);
  }

  /** `getCategoryIcon` and `getCategoryColor`: the six known categories have
      their own icon and colour, any other gets 'package-variant' and '#666'. */
  predicate KnownCategory(c: string) {
    c in {"clothing", "electronics", "toiletries", "documents", "gear", "medicine"}
  }

  function CategoryIcon(category: string): (icon: string)
    ensures !KnownCategory(category) <==> icon == "package-variant"
  {
    match category
    case "clothing" => "tshirt-crew"
    case "electronics" => "cellphone"
    case "toiletries" => "toothbrush"
    case "documents" => "file-document"
    case "gear" => "bag-personal"
    case "medicine" => "medical-bag"
    case _ => "package-variant"
  }

  function CategoryColor(category: string): (color: string)
    ensures !KnownCategory(category) <==> color == "#666"
  {
    match category
    case "clothing" => "#2196F3"
    case "electronics" => "#FF9800"
    case "toiletries" => "#4CAF50"
    case "documents" => "#F44336"
    case "gear" => "#9C27B0"
    case "medicine" => "#E91E63"
    case _ => "#666"
  }

  function CategoryOf(item: PackingItem): string { item.category }

  /** The items of one category, in list order. */
  function InCategory(items: seq<PackingItem>, c: string): seq<PackingItem> {
    Lists.ByKey(items, CategoryOf, c)
  }

  /** The categories in order of first appearance: the key order of the
      grouping object. */
  function CategoryOrder(items: seq<PackingItem>): seq<string> {
    Lists.KeysInOrder(items, CategoryOf)
  }

  /** The `groupedItems` reduce: for every item in turn, a group is created
      for its category when missing and the item pushed onto it. */
  method GroupItems(items: seq<PackingItem>) returns (keys: seq<string>, groups: map<string, seq<PackingItem>>)
    ensures keys == CategoryOrder(items)
    ensures forall c :: c in groups <==> c in keys
    ensures forall c :: c in groups ==> groups[c] == InCategory(items, c)
  {
    keys := [];
    groups := map[];
    for i := 0 to |items|
      invariant keys == CategoryOrder(items[..i])
      invariant forall c :: c in groups <==> c in keys
      invariant forall c :: c in groups ==> groups[c] == InCategory(items[..i], c)
    {
      var item := items[i];
      Lists.KeysInOrderExtend(items, CategoryOf, i);
      if item.category !in groups {
        Lists.AbsentKeyIsEmpty(items[..i], CategoryOf, item.category);
        groups := groups[item.category := []];
        keys := keys + [item.category];
      }
      groups := groups[item.category := groups[item.category] + [item]];
      forall c | c in groups
        ensures groups[c] == InCategory(items[..i + 1], c)
      {
        Lists.ByKeyExtend(items, CategoryOf, i, c);
      }
    }
    assert items[..|items|] == items;
  }

  /** Every item is in the group of its own category and in no other. */
  lemma ItemInItsGroup(items: seq<PackingItem>, k: int, c: string)
    requires 0 <= k < |items|
    ensures items[k] in InCategory(items, items[k].category)
    ensures c != items[k].category ==> items[k] !in InCategory(items, c)
  {
    Lists.ByKeyMembers(items, CategoryOf, items[k].category);
    Lists.ByKeyMembers(items, CategoryOf, c);
  }

  /** The sum of the group sizes over a list of keys. */
  function GroupSizes(keys: seq<string>, items: seq<PackingItem>): nat
    decreases |keys|
  {
    if keys == [] then 0 else |InCategory(items, keys[0])| + GroupSizes(keys[1..], items)
  }

  function One(item: PackingItem): int { 1 }

  lemma {:induction false} GroupSizesCountOnes(keys: seq<string>, items: seq<PackingItem>)
    ensures GroupSizes(keys, items) == Lists.SumOverKeys(keys, items, CategoryOf, One)
    decreases |keys|
  {
    if keys != [] {
      Lists.SumOfOnes(InCategory(items, keys[0]), One);
      GroupSizesCountOnes(keys[1..], items);
    }
  }

  /** The groups partition the list: their sizes sum to its length. */
  lemma GroupingPartitions(items: seq<PackingItem>)
    ensures GroupSizes(CategoryOrder(items), items) == |items|
  {
    var keys := CategoryOrder(items);
    GroupSizesCountOnes(keys, items);
    Lists.PartitionSum(keys, items, CategoryOf, One);
    Lists.SumOfOnes(items, One);
  }

  /** The header chip of a group: packed items over group size. */
  function HeaderCount(group: seq<PackingItem>): (r: (nat, nat))
    ensures r.0 == Lists.Count(group, IsPacked) && r.1 == |group|
    ensures r.0 <= r.1
  {
    (Lists.Count(group, IsPacked), |group|)
  }

  /** One more item in a group adds one to its size, and one to its packed
      count exactly when that item is packed. */
  lemma HeaderCountAppend(group: seq<PackingItem>, item: PackingItem)
    ensures HeaderCount(group + [item]).1 == HeaderCount(group).1 + 1
    ensures HeaderCount(group + [item]).0 == HeaderCount(group).0 + (if item.packed then 1 else 0)
  {
    Lists.FilterSplits(group, [item], item, IsPacked);
  }

  /** `num / den` in floating point, where 0/0 is NaN (None). */
  function Ratio(num: nat, den: nat): (r: Option<real>)
    requires num <= den
    ensures r.None? <==> den == 0
    ensures r.Some? ==> 0.0 <= r.value <= 1.0 && r.value * den as real == num as real
  {
    if den == 0 then None else Some(num as real / den as real)
  }

  /** `packingProgress`: packed items over all items. */
  function PackingProgress(items: seq<PackingItem>): (r: Option<real>)
    ensures r.None? <==> items == []
    ensures r.Some? ==> 0.0 <= r.value <= 1.0
    ensures r.Some? ==> r.value * |items| as real == Lists.Count(items, IsPacked) as real
  {
    Ratio(Lists.Count(items, IsPacked), |items|)
  }

  /** `essentialProgress`: packed essential items over essential items. */
  function EssentialProgress(items: seq<PackingItem>): (r: Option<real>)
    ensures r.None? <==> Lists.Count(items, IsEssential) == 0
    ensures r.Some? ==> 0.0 <= r.value <= 1.0
    ensures r.Some? ==> r.value * Lists.Count(items, IsEssential) as real == Lists.Count(items, IsPackedEssential) as real
  {
    Lists.CountMonotone(items, IsPackedEssential, IsEssential);
    Ratio(Lists.Count(items, IsPackedEssential), Lists.Count(items, IsEssential))
  }

  /** Packing everything makes both ratios 1. */
  lemma AllPackedIsComplete(items: seq<PackingItem>)
    requires items != []
    requires forall k :: 0 <= k < |items| ==> items[k].packed
    ensures PackingProgress(items) == Some(1.0)
  {
    Lists.FilterAllPass(items, IsPacked);
    assert Lists.Count(items, IsPacked) == |items|;
    RatioOfWhole(|items|);
  }

  lemma RatioOfWhole(n: nat)
    requires n > 0
    ensures Ratio(n, n) == Some(1.0)
  {
    var d := n as real;
    assert d / d == 1.0;
  }
}
