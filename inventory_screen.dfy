/**
 * `InventoryView`: the stock list, grouped by storage location, one
 * section per location in ascending order of its name.
 */
module InventoryScreen {
  import opened Wrappers
  import opened Text
  import opened Models

  /** The section of items without a location. */
  const Unset := "未設定"
  const FailurePrefix := "在庫の取得に失敗しました。\n"

  /** The grouping key: the item's location when it has a non-empty one, else "未設定". */
  function LocationKey(item: InventoryItem): (k: string)
    ensures k != []
    ensures item.location.Some? && item.location.value != [] ==> k == item.location.value
    ensures item.location.None? || item.location.value == [] ==> k == Unset
  {
    if item.location.Some? && item.location.value != [] then item.location.value else Unset
  }

  /** The items filed under `key`, in list order. */
  function ItemsAt(items: seq<InventoryItem>, key: string): (r: seq<InventoryItem>)
    ensures forall x :: x in r <==> x in items && LocationKey(x) == key
  {
    if items == [] then []
    else
      var init, last := items[..|items| - 1], items[|items| - 1];
      assert items == init + [last];
      ItemsAt(init, key) + (if LocationKey(last) == key then [last] else [])
  }

  /** Every key of the list, with repetitions, in list order. */
  function Keys(items: seq<InventoryItem>): (r: seq<string>)
    ensures |r| == |items| && forall i :: 0 <= i < |items| ==> r[i] == LocationKey(items[i])
  {
    seq(|items|, i requires 0 <= i < |items| => LocationKey(items[i]))
  }

  /**
   * `groupedByLocation`: `Dictionary(grouping:by:)` over the location key;
   * each group keeps list order.
   */
  function GroupedByLocation(items: seq<InventoryItem>): (m: map<string, seq<InventoryItem>>)
    ensures forall k :: k in m <==> exists i :: 0 <= i < |items| && LocationKey(items[i]) == k
    ensures forall k :: k in m ==> m[k] == ItemsAt(items, k) && m[k] != []
  {
    var keys := Keys(items);
    var m := map k | k in keys :: ItemsAt(items, k);
    forall k | k in m ensures m[k] != [] && exists i :: 0 <= i < |items| && LocationKey(items[i]) == k {
      var i :| 0 <= i < |keys| && keys[i] == k;
      assert items[i] in m[k];
    }
    forall k | exists i :: 0 <= i < |items| && LocationKey(items[i]) == k ensures k in m {
      var i :| 0 <= i < |items| && LocationKey(items[i]) == k;
      assert keys[i] == k;
    }
    m
  }

  /** `groupedByLocation.keys.sorted()` */
  function SectionKeys(items: seq<InventoryItem>): (r: seq<string>)
    ensures StrictlySorted(r)
    ensures forall k :: k in r <==> k in GroupedByLocation(items)
  {
    var keys := Keys(items);
    assert forall k :: k in keys <==> exists i :: 0 <= i < |items| && LocationKey(items[i]) == k by {
      forall k | k in keys ensures exists i :: 0 <= i < |items| && LocationKey(items[i]) == k {
        var i :| 0 <= i < |keys| && keys[i] == k;
      }
    }
    SortedDistinct(keys)
  }

  /** One heading and its cards. */
  datatype Section = Section(title: string, items: seq<InventoryItem>)

  function SectionsFor(keys: seq<string>, items: seq<InventoryItem>): (r: seq<Section>)
    ensures |r| == |keys|
    ensures forall i :: 0 <= i < |keys| ==> r[i] == Section(keys[i], ItemsAt(items, keys[i]))
  {
    if keys == [] then [] else [Section(keys[0], ItemsAt(items, keys[0]))] + SectionsFor(keys[1..], items)
  }

  /** The sections the list shows, top to bottom. */
  function Sections(items: seq<InventoryItem>): seq<Section> {
    SectionsFor(SectionKeys(items), items)
  }

  /** Every card of the sections, top to bottom. */
  function Flatten(sections: seq<Section>): seq<InventoryItem> {
    if sections == [] then [] else sections[0].items + Flatten(sections[1..])
  }

  /** Each section is the dictionary's group for its title, never empty, and holds only items of that key. */
  lemma SectionsAreGroups(items: seq<InventoryItem>)
    ensures forall s :: s in Sections(items) ==>
      s.title in GroupedByLocation(items) && s.items == GroupedByLocation(items)[s.title] && s.items != []
    ensures forall s, x :: s in Sections(items) && x in s.items ==> LocationKey(x) == s.title
  {
    var keys, ss := SectionKeys(items), Sections(items);
    forall s | s in ss
      ensures s.title in GroupedByLocation(items) && s.items == GroupedByLocation(items)[s.title] && s.items != []
    {
      var i :| 0 <= i < |ss| && ss[i] == s;
      assert keys[i] in keys;
    }
  }

  predicate Distinct(keys: seq<string>) {
    forall i, j :: 0 <= i < j < |keys| ==> keys[i] != keys[j]
  }

  lemma SortedIsDistinct(keys: seq<string>)
    requires StrictlySorted(keys)
    ensures Distinct(keys)
  {
    forall i, j | 0 <= i < j < |keys| ensures keys[i] != keys[j] {
      LessIrreflexive(keys[i]);
    }
  }

  lemma ItemsAtSnoc(items: seq<InventoryItem>, x: InventoryItem, key: string)
    ensures ItemsAt(items + [x], key) == ItemsAt(items, key) + (if LocationKey(x) == key then [x] else [])
  {
    assert (items + [x])[..|items|] == items;
  }

  lemma {:induction false} FlattenNoItems(keys: seq<string>)
    ensures Flatten(SectionsFor(keys, [])) == []
  {
    if keys != [] {
      FlattenNoItems(keys[1..]);
    }
  }

  /** Adding one item to the list adds it to exactly the section of its key, if that section is shown. */
  lemma {:induction false} FlattenSnoc(keys: seq<string>, items: seq<InventoryItem>, x: InventoryItem)
    requires Distinct(keys)
    ensures multiset(Flatten(SectionsFor(keys, items + [x]))) ==
      multiset(Flatten(SectionsFor(keys, items))) + (if LocationKey(x) in keys then multiset{x} else multiset{})
  {
    if keys != [] {
      var rest := keys[1..];
      assert Distinct(rest);
      FlattenSnoc(rest, items, x);
      ItemsAtSnoc(items, x, keys[0]);
      assert LocationKey(x) == keys[0] ==> LocationKey(x) !in rest;
      assert LocationKey(x) in keys <==> LocationKey(x) == keys[0] || LocationKey(x) in rest;
    }
  }

  /** Over distinct keys covering every item, the sections hold each item exactly as often as the list. */
  lemma {:induction false} FlattenPartition(keys: seq<string>, items: seq<InventoryItem>)
    requires Distinct(keys)
    requires forall i :: 0 <= i < |items| ==> LocationKey(items[i]) in keys
    ensures multiset(Flatten(SectionsFor(keys, items))) == multiset(items)
  {
    if items == [] {
      FlattenNoItems(keys);
    } else {
      var init, last := items[..|items| - 1], items[|items| - 1];
      assert items == init + [last];
      FlattenPartition(keys, init);
      FlattenSnoc(keys, init, last);
    }
  }

  /**
   * Grouping loses nothing and duplicates nothing: the sections, read top
   * to bottom, are a permutation of the stock list.
   */
  lemma SectionsPartition(items: seq<InventoryItem>)
    ensures multiset(Flatten(Sections(items))) == multiset(items)
  {
    var keys := SectionKeys(items);
    SortedIsDistinct(keys);
    forall i | 0 <= i < |items| ensures LocationKey(items[i]) in keys {
      assert LocationKey(items[i]) in GroupedByLocation(items);
    }
    FlattenPartition(keys, items);
  }

  /** What the screen shows. */
  datatype Screen = Spinner | ErrorCard(message: string) | NoStock | Shelves(sections: seq<Section>)

  class InventoryModel {
    var items: seq<InventoryItem>
    var isLoading: bool
    var errorMessage: Option<string>

    /** `body`: spinner, then error card, then the empty notice, then the sections. */
    function Shown(): (s: Screen)
      reads this
      ensures isLoading ==> s == Spinner
      ensures !isLoading && errorMessage.Some? ==> s == ErrorCard(errorMessage.value)
      ensures !isLoading && errorMessage.None? && items == [] ==> s == NoStock
      ensures !isLoading && errorMessage.None? && items != [] ==> s == Shelves(Sections(items))
    {
      if isLoading then Spinner
      else if errorMessage.Some? then ErrorCard(errorMessage.value)
      else if items == [] then NoStock
      else Shelves(Sections(items))
    }

    constructor()
      ensures items == [] && isLoading && errorMessage == None
    {
      items, isLoading, errorMessage := [], true, None;
    }

    /**
     * `load()`: `fetched` is the provider's answer, the items or the
     * failure's localized description; a failure keeps the old items.
     */
    method Load(fetched: Result<seq<InventoryItem>, string>)
      modifies this
      ensures !isLoading
      ensures fetched.Ok? ==> items == fetched.value && errorMessage == None
      ensures fetched.Err? ==> items == old(items) && errorMessage == Some(FailurePrefix + fetched.error)
    {
      isLoading := true;
      errorMessage := None;
      match fetched {
        case Ok(list) =>
          items := list;
          isLoading := false;
        case Err(description) =>
          errorMessage := Some(FailurePrefix + description);
          isLoading := false;
      }
    }
  }
}
