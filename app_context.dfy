/**
 * The provider's state: the two lists `categories` and `logs`. Every operation replaces one
 * of them with the value the matching `Catalog` function computes and leaves the other alone.
 * Unlike React state, each call here starts from the current value of the field.
 */
module AppContext {
  import opened Wrappers
  import Catalog

  class AppStore {
    var categories: seq<Catalog.Category>
    var logs: seq<Catalog.LogEntry>

    constructor (now: string)
      ensures categories == Catalog.InitialCategories(now) && logs == []
    {
      categories := Catalog.InitialCategories(now);
      logs := [];
    }

    method AddCategory(id: string, name: string, now: string)
      modifies this
      ensures categories == Catalog.AddCategory(old(categories), id, name, now)
      ensures logs == old(logs)
    {
      categories := Catalog.AddCategory(categories, id, name, now);
    }

    method UpdateCategory(id: string, name: string, now: string)
      modifies this
      ensures categories == Catalog.UpdateCategory(old(categories), id, name, now)
      ensures logs == old(logs)
    {
      categories := Catalog.UpdateCategory(categories, id, name, now);
    }

    method DeleteCategory(id: string)
      modifies this
      ensures categories == Catalog.DeleteCategory(old(categories), id)
      ensures logs == old(logs)
    {
      categories := Catalog.DeleteCategory(categories, id);
    }

    method AddTrackItem(categoryId: string, itemId: string, name: string, unit: Option<string>, now: string)
      modifies this
      ensures categories == Catalog.AddTrackItem(old(categories), categoryId, itemId, name, unit, now)
      ensures logs == old(logs)
    {
      categories := Catalog.AddTrackItem(categories, categoryId, itemId, name, unit, now);
    }

    method UpdateTrackItem(categoryId: string, itemId: string, updates: Catalog.ItemPatch, now: string)
      modifies this
      ensures categories == Catalog.UpdateTrackItem(old(categories), categoryId, itemId, updates, now)
      ensures logs == old(logs)
    {
      categories := Catalog.UpdateTrackItem(categories, categoryId, itemId, updates, now);
    }

    method DeleteTrackItem(categoryId: string, itemId: string, now: string)
      modifies this
      ensures categories == Catalog.DeleteTrackItem(old(categories), categoryId, itemId, now)
      ensures logs == old(logs)
    {
      categories := Catalog.DeleteTrackItem(categories, categoryId, itemId, now);
    }

    method ToggleTrackItem(categoryId: string, itemId: string, now: string)
      modifies this
      ensures categories == Catalog.ToggleTrackItem(old(categories), categoryId, itemId, now)
      ensures logs == old(logs)
    {
      categories := Catalog.ToggleTrackItem(categories, categoryId, itemId, now);
    }

    method AddLogEntry(id: string, categoryId: string, itemId: string, value: string,
                       note: Option<string>, now: string)
      modifies this
      ensures logs == Catalog.AddLogEntry(old(logs), id, categoryId, itemId, value, note, now)
      ensures categories == old(categories)
    {
      logs := Catalog.AddLogEntry(logs, id, categoryId, itemId, value, note, now);
    }
  }
}
