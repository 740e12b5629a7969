/**
 * The records of the catalog and log store and the pure list transforms that compute each
 * new state: every store operation replaces its list wholesale with the result of a `map`,
 * a `filter` or a spread-and-append, modelled here as functions over sequences.
 * Identifiers and ISO timestamps are inputs (`id`, `now`), standing for `Date.now()` and
 * `new Date().toISOString()`.
 */
module Catalog {
  import opened Wrappers

  datatype TrackItem = TrackItem(
    id: string,
    name: string,
    enabled: bool,
    unit: Option<string>,
    createdAt: string,
    updatedAt: string)

  datatype Category = Category(
    id: string,
    name: string,
    items: seq<TrackItem>,
    createdAt: string,
    updatedAt: string)

  /** A permanent record; the store's value field is always the captured text in this model. */
  datatype LogEntry = LogEntry(
    id: string,
    categoryId: string,
    itemId: string,
    value: string,
    timestamp: string,
    note: Option<string>)

  /**
   * A `Partial<TrackItem>`: None is a key that is absent from the object. For `unit`,
   * Some(None) is the key present with the value `undefined`, which the spread copies over.
   * `updatedAt` is left out because the update overwrites it anyway.
   */
  datatype ItemPatch = ItemPatch(
    id: Option<string>,
    name: Option<string>,
    enabled: Option<bool>,
    unit: Option<Option<string>>,
    createdAt: Option<string>)

  /** The catalog the store starts with, every timestamp being the moment of start-up. */
  function InitialCategories(now: string): seq<Category>
  {
    [ Category("1", "Fitness",
        [ TrackItem("101", "Steps", true, Some("steps"), now, now),
          TrackItem("102", "Weight", true, Some("kg"), now, now) ],
        now, now),
      Category("2", "Nutrition",
        [ TrackItem("201", "Calories", true, Some("kcal"), now, now),
          TrackItem("202", "Protein", true, Some("g"), now, now),
          TrackItem("203", "Carbs", true, Some("g"), now, now) ],
        now, now) ]
  }

  // ---------------------------------------------------------------- categories

  /** `[...categories, newCategory]`: one new, empty category at the end. */
  function AddCategory(cats: seq<Category>, id: string, name: string, now: string): (r: seq<Category>)
    ensures |r| == |cats| + 1 && r[..|cats|] == cats
    ensures r[|cats|].id == id && r[|cats|].name == name && r[|cats|].items == []
    ensures r[|cats|].createdAt == now && r[|cats|].updatedAt == now
  {
    cats + [Category(id, name, [], now, now)]
  }

  /** The `map` of `updateCategory`: categories with the id get the new name and a new stamp. */
  function UpdateCategory(cats: seq<Category>, id: string, name: string, now: string): (r: seq<Category>)
    ensures |r| == |cats|
    ensures forall i :: 0 <= i < |cats| ==>
              && r[i].id == cats[i].id
              && r[i].items == cats[i].items
              && r[i].createdAt == cats[i].createdAt
    ensures forall i :: 0 <= i < |cats| && cats[i].id == id ==> r[i].name == name && r[i].updatedAt == now
    ensures forall i :: 0 <= i < |cats| && cats[i].id != id ==> r[i] == cats[i]
  {
    seq(|cats|, i requires 0 <= i < |cats| =>
      if cats[i].id == id then cats[i].(name := name, updatedAt := now) else cats[i])
  }

  /** Renaming the same id twice is renaming it once with the later name and stamp. */
  lemma UpdateCategoryTwice(cats: seq<Category>, id: string, n1: string, t1: string, n2: string, t2: string)
    ensures UpdateCategory(UpdateCategory(cats, id, n1, t1), id, n2, t2) == UpdateCategory(cats, id, n2, t2)
  {
    var once := UpdateCategory(cats, id, n1, t1);
    assert forall i :: 0 <= i < |cats| ==> once[i].id == cats[i].id;
  }

  /** The `filter` of `deleteCategory`. */
  function DeleteCategory(cats: seq<Category>, id: string): (r: seq<Category>)
    ensures |r| <= |cats|
    decreases |cats|
  {
    if cats == [] then []
    else (if cats[0].id == id then [] else [cats[0]]) + DeleteCategory(cats[1..], id)
  }

  /** Deleting keeps exactly the categories whose id differs. */
  lemma {:induction false} DeleteCategoryMembers(cats: seq<Category>, id: string)
    ensures forall c :: c in DeleteCategory(cats, id) <==> c in cats && c.id != id
    decreases |cats|
  {
    if cats != [] {
      DeleteCategoryMembers(cats[1..], id);
      assert cats == [cats[0]] + cats[1..];
    }
  }

  /**
   * Deleting works element by element and keeps order: on a concatenation it is the
   * concatenation of the two deletions.
   */
  lemma {:induction false} DeleteCategoryKeepsOrder(a: seq<Category>, b: seq<Category>, id: string)
    ensures DeleteCategory(a + b, id) == DeleteCategory(a, id) + DeleteCategory(b, id)
    decreases |a|
  {
    if a != [] {
      DeleteCategoryKeepsOrder(a[1..], b, id);
      assert (a + b)[0] == a[0] && (a + b)[1..] == a[1..] + b;
      var head := if a[0].id == id then [] else [a[0]];
      calc {
        DeleteCategory(a + b, id);
        head + DeleteCategory(a[1..] + b, id);
        head + (DeleteCategory(a[1..], id) + DeleteCategory(b, id));
        (head + DeleteCategory(a[1..], id)) + DeleteCategory(b, id);
        DeleteCategory(a, id) + DeleteCategory(b, id);
      }
    } else {
      assert a + b == b;
    }
  }

  /** A list holding no category with the id is left exactly as it is. */
  lemma {:induction false} DeleteCategoryAbsent(cats: seq<Category>, id: string)
    requires forall c :: c in cats ==> c.id != id
    ensures DeleteCategory(cats, id) == cats
    decreases |cats|
  {
    if cats != [] {
      assert cats[0] in cats;
      assert forall c :: c in cats[1..] ==> c in cats;
      DeleteCategoryAbsent(cats[1..], id);
    }
  }

  /** Deleting a freshly added category (whose id was unused) gives back the catalog. */
  lemma DeleteUndoesAddCategory(cats: seq<Category>, id: string, name: string, now: string)
    requires forall c :: c in cats ==> c.id != id
    ensures DeleteCategory(AddCategory(cats, id, name, now), id) == cats
  {
    DeleteCategoryKeepsOrder(cats, [Category(id, name, [], now, now)], id);
    DeleteCategoryAbsent(cats, id);
    assert DeleteCategory([Category(id, name, [], now, now)], id) == [];
  }

  // ---------------------------------------------------------------- items

  /** `{ ...item, ...updates, updatedAt }`. */
  function ApplyPatch(item: TrackItem, p: ItemPatch, now: string): TrackItem
  {
    TrackItem(
      if p.id.Some? then p.id.value else item.id,
      if p.name.Some? then p.name.value else item.name,
      if p.enabled.Some? then p.enabled.value else item.enabled,
      if p.unit.Some? then p.unit.value else item.unit,
      if p.createdAt.Some? then p.createdAt.value else item.createdAt,
      now)
  }

  /** The item `map` of `updateTrackItem`. */
  function PatchItems(items: seq<TrackItem>, itemId: string, p: ItemPatch, now: string): (r: seq<TrackItem>)
    ensures |r| == |items|
    ensures forall j :: 0 <= j < |items| && items[j].id == itemId ==> r[j] == ApplyPatch(items[j], p, now)
    ensures forall j :: 0 <= j < |items| && items[j].id != itemId ==> r[j] == items[j]
  {
    seq(|items|, j requires 0 <= j < |items| =>
      if items[j].id == itemId then ApplyPatch(items[j], p, now) else items[j])
  }

  /** The item `filter` of `deleteTrackItem`. */
  function RemoveItems(items: seq<TrackItem>, itemId: string): (r: seq<TrackItem>)
    ensures |r| <= |items|
    decreases |items|
  {
    if items == [] then []
    else (if items[0].id == itemId then [] else [items[0]]) + RemoveItems(items[1..], itemId)
  }

  /** The item `map` of `toggleTrackItem`. */
  function ToggleItems(items: seq<TrackItem>, itemId: string, now: string): (r: seq<TrackItem>)
    ensures |r| == |items|
    ensures forall j :: 0 <= j < |items| && items[j].id == itemId ==>
              r[j] == items[j].(enabled := !items[j].enabled, updatedAt := now)
    ensures forall j :: 0 <= j < |items| && items[j].id != itemId ==> r[j] == items[j]
  {
    seq(|items|, j requires 0 <= j < |items| =>
      if items[j].id == itemId then items[j].(enabled := !items[j].enabled, updatedAt := now) else items[j])
  }

  /** `addTrackItem`: one enabled item appended to every category with the id, nothing else. */
  function AddTrackItem(cats: seq<Category>, categoryId: string, itemId: string, name: string,
                        unit: Option<string>, now: string): (r: seq<Category>)
    ensures |r| == |cats|
    ensures forall i :: 0 <= i < |cats| && cats[i].id == categoryId ==>
              r[i] == cats[i].(items := cats[i].items + [TrackItem(itemId, name, true, unit, now, now)],
                               updatedAt := now)
    ensures forall i :: 0 <= i < |cats| && cats[i].id != categoryId ==> r[i] == cats[i]
  {
    var item := TrackItem(itemId, name, true, unit, now, now);
    seq(|cats|, i requires 0 <= i < |cats| =>
      if cats[i].id == categoryId then cats[i].(items := cats[i].items + [item], updatedAt := now)
      else cats[i])
  }

  /** `updateTrackItem`: only the items with the id, inside the categories with the id, change. */
  function UpdateTrackItem(cats: seq<Category>, categoryId: string, itemId: string, p: ItemPatch,
                           now: string): (r: seq<Category>)
    ensures |r| == |cats|
    ensures forall i :: 0 <= i < |cats| && cats[i].id == categoryId ==>
              r[i] == cats[i].(items := PatchItems(cats[i].items, itemId, p, now), updatedAt := now)
    ensures forall i :: 0 <= i < |cats| && cats[i].id != categoryId ==> r[i] == cats[i]
  {
    seq(|cats|, i requires 0 <= i < |cats| =>
      if cats[i].id == categoryId
      then cats[i].(items := PatchItems(cats[i].items, itemId, p, now), updatedAt := now)
      else cats[i])
  }

  /** `deleteTrackItem`: only the items with the id, inside the categories with the id, go. */
  function DeleteTrackItem(cats: seq<Category>, categoryId: string, itemId: string, now: string): (r: seq<Category>)
    ensures |r| == |cats|
    ensures forall i :: 0 <= i < |cats| && cats[i].id == categoryId ==>
              r[i] == cats[i].(items := RemoveItems(cats[i].items, itemId), updatedAt := now)
    ensures forall i :: 0 <= i < |cats| && cats[i].id != categoryId ==> r[i] == cats[i]
  {
    seq(|cats|, i requires 0 <= i < |cats| =>
      if cats[i].id == categoryId
      then cats[i].(items := RemoveItems(cats[i].items, itemId), updatedAt := now)
      else cats[i])
  }

  /** `toggleTrackItem`: only the `enabled` flags (and stamps) of the targeted items change. */
  function ToggleTrackItem(cats: seq<Category>, categoryId: string, itemId: string, now: string): (r: seq<Category>)
    ensures |r| == |cats|
    ensures forall i :: 0 <= i < |cats| && cats[i].id == categoryId ==>
              r[i] == cats[i].(items := ToggleItems(cats[i].items, itemId, now), updatedAt := now)
    ensures forall i :: 0 <= i < |cats| && cats[i].id != categoryId ==> r[i] == cats[i]
  {
    seq(|cats|, i requires 0 <= i < |cats| =>
      if cats[i].id == categoryId
      then cats[i].(items := ToggleItems(cats[i].items, itemId, now), updatedAt := now)
      else cats[i])
  }

  // ---------------------------------------------------------------- equality up to timestamps

  function EraseItemStamp(t: TrackItem): TrackItem
  {
    t.(updatedAt := "")
  }

  function EraseItemStamps(items: seq<TrackItem>): seq<TrackItem>
  {
    seq(|items|, j requires 0 <= j < |items| => EraseItemStamp(items[j]))
  }

  /** The catalog with every `updatedAt` blanked: what is left when timestamps are set aside. */
  function EraseStamps(cats: seq<Category>): seq<Category>
  {
    seq(|cats|, i requires 0 <= i < |cats| =>
      cats[i].(items := EraseItemStamps(cats[i].items), updatedAt := ""))
  }

  /** Toggling the same item twice restores the catalog, timestamps aside. */
  lemma ToggleTwiceRestores(cats: seq<Category>, categoryId: string, itemId: string, t1: string, t2: string)
    ensures EraseStamps(ToggleTrackItem(ToggleTrackItem(cats, categoryId, itemId, t1), categoryId, itemId, t2))
         == EraseStamps(cats)
  {
    var once := ToggleTrackItem(cats, categoryId, itemId, t1);
    var twice := ToggleTrackItem(once, categoryId, itemId, t2);
    forall i | 0 <= i < |cats| && cats[i].id == categoryId
      ensures EraseItemStamps(twice[i].items) == EraseItemStamps(cats[i].items)
    {
      var items := cats[i].items;
      assert once[i].items == ToggleItems(items, itemId, t1);
      assert twice[i].items == ToggleItems(ToggleItems(items, itemId, t1), itemId, t2);
    }
  }

  /** A patch that sets no key changes nothing but timestamps. */
  lemma EmptyPatchOnlyStamps(cats: seq<Category>, categoryId: string, itemId: string, now: string)
    ensures EraseStamps(UpdateTrackItem(cats, categoryId, itemId, ItemPatch(None, None, None, None, None), now))
         == EraseStamps(cats)
  {
    var p := ItemPatch(None, None, None, None, None);
    var r := UpdateTrackItem(cats, categoryId, itemId, p, now);
    forall i | 0 <= i < |cats| && cats[i].id == categoryId
      ensures EraseItemStamps(r[i].items) == EraseItemStamps(cats[i].items)
    {
      assert r[i].items == PatchItems(cats[i].items, itemId, p, now);
    }
  }

  /** Removing keeps exactly the items whose id differs. */
  lemma {:induction false} RemoveItemsMembers(items: seq<TrackItem>, itemId: string)
    ensures forall t :: t in RemoveItems(items, itemId) <==> t in items && t.id != itemId
    decreases |items|
  {
    if items != [] {
      RemoveItemsMembers(items[1..], itemId);
      assert items == [items[0]] + items[1..];
    }
  }

  /** Removing works element by element and keeps order. */
  lemma {:induction false} RemoveItemsKeepsOrder(a: seq<TrackItem>, b: seq<TrackItem>, itemId: string)
    ensures RemoveItems(a + b, itemId) == RemoveItems(a, itemId) + RemoveItems(b, itemId)
    decreases |a|
  {
    if a != [] {
      RemoveItemsKeepsOrder(a[1..], b, itemId);
      assert (a + b)[0] == a[0] && (a + b)[1..] == a[1..] + b;
      var head := if a[0].id == itemId then [] else [a[0]];
      calc {
        RemoveItems(a + b, itemId);
        head + RemoveItems(a[1..] + b, itemId);
        head + (RemoveItems(a[1..], itemId) + RemoveItems(b, itemId));
        (head + RemoveItems(a[1..], itemId)) + RemoveItems(b, itemId);
        RemoveItems(a, itemId) + RemoveItems(b, itemId);
      }
    } else {
      assert a + b == b;
    }
  }

  lemma {:induction false} RemoveItemsAbsent(items: seq<TrackItem>, itemId: string)
    requires forall t :: t in items ==> t.id != itemId
    ensures RemoveItems(items, itemId) == items
    decreases |items|
  {
    if items != [] {
      assert items[0] in items;
      assert forall t :: t in items[1..] ==> t in items;
      RemoveItemsAbsent(items[1..], itemId);
    }
  }

  /**
   * Deleting an item just added under an unused id gives back the catalog, timestamps aside.
   */
  lemma DeleteUndoesAddTrackItem(cats: seq<Category>, categoryId: string, itemId: string, name: string,
                                 unit: Option<string>, t1: string, t2: string)
    requires forall i, t :: 0 <= i < |cats| && cats[i].id == categoryId && t in cats[i].items ==> t.id != itemId
    ensures EraseStamps(DeleteTrackItem(AddTrackItem(cats, categoryId, itemId, name, unit, t1), categoryId, itemId, t2))
         == EraseStamps(cats)
  {
    var added := AddTrackItem(cats, categoryId, itemId, name, unit, t1);
    var r := DeleteTrackItem(added, categoryId, itemId, t2);
    var item := TrackItem(itemId, name, true, unit, t1, t1);
    forall i | 0 <= i < |cats| && cats[i].id == categoryId
      ensures r[i].items == cats[i].items
    {
      RemoveItemsKeepsOrder(cats[i].items, [item], itemId);
      RemoveItemsAbsent(cats[i].items, itemId);
      assert RemoveItems([item], itemId) == [];
    }
  }

  // ---------------------------------------------------------------- logs

  /** `[...logs, newLog]`: exactly one record, at the end, with the given fields. */
  function AddLogEntry(logs: seq<LogEntry>, id: string, categoryId: string, itemId: string, value: string,
                       note: Option<string>, now: string): (r: seq<LogEntry>)
    ensures |r| == |logs| + 1 && r[..|logs|] == logs
    ensures r[|logs|].id == id && r[|logs|].timestamp == now
    ensures r[|logs|].categoryId == categoryId && r[|logs|].itemId == itemId
    ensures r[|logs|].value == value && r[|logs|].note == note
  {
    logs + [LogEntry(id, categoryId, itemId, value, now, note)]
  }
}
