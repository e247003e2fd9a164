/** The saved-items (wishlist) list kept in the browser's local storage under
    `savedItems` (source/utils/saved-manager.js). Every operation reads the
    stored list, changes it and writes it back, announcing the change with a
    `savedItemsChanged` event; the store and the events it has sent are the
    fields of `SavedList`. */
module SavedManager {
  import opened Wrappers

  /** One saved entry: the item's id, its note and the date picked for it. */
  datatype SavedItem = SavedItem(itemId: string, note: Option<string>, selectedDate: Option<string>)

  /** What local storage holds under `savedItems`, as `JSON.parse` reads it:
      nothing (or the empty string), text that is not JSON, JSON that is not
      an array, or a list of entries. */
  datatype Stored = Absent | Unparsable | NotArray | List(items: seq<SavedItem>)

  /** The detail of a `savedItemsChanged` event. */
  datatype Change = FullRefresh | Remove(itemId: string) | Add(itemId: string)

  /** The list `getSavedItems` reads from what is stored. */
  function Items(stored: Stored): seq<SavedItem> {
    if stored.List? then stored.items else []
  }

  /** Some entry carries the id. */
  predicate Saved(items: seq<SavedItem>, itemId: string) {
    exists i :: 0 <= i < |items| && items[i].itemId == itemId
  }

  /** The entry `toggleSavedItem` adds. */
  function NewEntry(itemId: string): SavedItem {
    SavedItem(itemId, Some(""), None)
  }

  /** `items.filter(item => item.itemId !== itemId)`. */
  function Unsaved(items: seq<SavedItem>, itemId: string): seq<SavedItem> {
    if |items| == 0 then []
    else (if items[0].itemId == itemId then [] else [items[0]]) + Unsaved(items[1..], itemId)
  }

  /** The filter drops exactly the entries with the id, and so shortens the
      list exactly when the id is saved. */
  lemma {:induction false} UnsavedSpec(items: seq<SavedItem>, itemId: string)
    ensures !Saved(Unsaved(items, itemId), itemId)
    ensures forall e :: e in Unsaved(items, itemId) <==> e in items && e.itemId != itemId
    ensures |Unsaved(items, itemId)| < |items| <==> Saved(items, itemId)
    ensures !Saved(items, itemId) ==> Unsaved(items, itemId) == items
    decreases |items|
  {
    if |items| > 0 {
      var tail := items[1..];
      UnsavedSpec(tail, itemId);
      assert items == [items[0]] + tail;
      SavedCons(items, itemId);
      var r := Unsaved(items, itemId);
      if items[0].itemId != itemId {
        assert r == [items[0]] + Unsaved(tail, itemId);
        assert r[1..] == Unsaved(tail, itemId);
        SavedCons(r, itemId);
      }
    }
  }

  /** An id is saved when the first entry carries it or a later one does. */
  lemma SavedCons(items: seq<SavedItem>, itemId: string)
    requires |items| > 0
    ensures Saved(items, itemId) <==> items[0].itemId == itemId || Saved(items[1..], itemId)
  {
    var tail := items[1..];
    if Saved(tail, itemId) {
      var i :| 0 <= i < |tail| && tail[i].itemId == itemId;
      assert items[i + 1].itemId == itemId;
    }
    if Saved(items, itemId) && items[0].itemId != itemId {
      var i :| 0 <= i < |items| && items[i].itemId == itemId;
      assert tail[i - 1].itemId == itemId;
    }
  }

  /** `items.findIndex(item => item.itemId === itemId)`, `None` for -1. */
  function FindIndex(items: seq<SavedItem>, itemId: string): (r: Option<nat>)
    ensures r.Some? ==> r.value < |items| && items[r.value].itemId == itemId
    ensures r.Some? ==> forall j :: 0 <= j < r.value ==> items[j].itemId != itemId
    ensures r.None? <==> !Saved(items, itemId)
    decreases |items|
  {
    if |items| == 0 then None
    else if items[0].itemId == itemId then Some(0)
    else
      match FindIndex(items[1..], itemId)
      case None =>
        assert forall i :: 1 <= i < |items| ==> items[i].itemId == items[1..][i - 1].itemId;
        None
      case Some(k) => Some(k + 1)
  }

  /** The list `updateSavedItemNote` writes back: the first entry with the id
      gets the note. */
  function WithNote(items: seq<SavedItem>, k: nat, note: string): seq<SavedItem>
    requires k < |items|
  {
    items[k := items[k].(note := Some(note))]
  }

  /** The list `updateSavedItemDate` writes back: the first entry with the id
      gets the date. */
  function WithDate(items: seq<SavedItem>, k: nat, date: string): seq<SavedItem>
    requires k < |items|
  {
    items[k := items[k].(selectedDate := Some(date))]
  }

  /** A note or date update touches the first entry with the id and nothing
      else: the ids stay where they are, every other entry is kept, and of
      the updated entry only the one field changes. */
  lemma FieldUpdateOnlyFirst(items: seq<SavedItem>, itemId: string, text: string)
    requires Saved(items, itemId)
    ensures var k := FindIndex(items, itemId).value;
      && |WithNote(items, k, text)| == |items|
      && (forall i :: 0 <= i < |items| ==> WithNote(items, k, text)[i].itemId == items[i].itemId)
      && (forall i :: 0 <= i < |items| && i != k ==> WithNote(items, k, text)[i] == items[i])
      && (forall i :: 0 <= i < k ==> items[i].itemId != itemId)
      && WithNote(items, k, text)[k] == SavedItem(itemId, Some(text), items[k].selectedDate)
      && WithDate(items, k, text)[k] == SavedItem(itemId, items[k].note, Some(text))
      && (forall i :: 0 <= i < |items| && i != k ==> WithDate(items, k, text)[i] == items[i])
  {
  }

  /** Toggling an unsaved id twice gives back the list it started from. */
  lemma {:induction false} ToggleTwice(items: seq<SavedItem>, itemId: string)
    requires !Saved(items, itemId)
    ensures Saved(items + [NewEntry(itemId)], itemId)
    ensures Unsaved(items + [NewEntry(itemId)], itemId) == items
    decreases |items|
  {
    var added := items + [NewEntry(itemId)];
    assert added[|items|].itemId == itemId;
    if |items| > 0 {
      ToggleTwice(items[1..], itemId);
      assert added[1..] == items[1..] + [NewEntry(itemId)];
      assert items[0].itemId != itemId;
    } else {
      assert added[1..] == [];
    }
  }

  class SavedList {
    /** What local storage holds under `savedItems`. */
    var stored: Stored
    /** The details of the `savedItemsChanged` events sent, oldest first. */
    var events: seq<Change>

    constructor (stored: Stored)
      ensures this.stored == stored && events == []
    {
      this.stored := stored;
      events := [];
    }

    /** `getSavedItems()`: anything but a stored array reads as no entries. */
    method GetSavedItems() returns (items: seq<SavedItem>)
      ensures stored.List? ==> items == stored.items
      ensures !stored.List? ==> items == []
    {
      if stored.List? {
        items := stored.items;
      } else {
        items := [];
      }
    }

    /** `saveItemsToLocalStorage(items, change)`. */
    method Save(items: seq<SavedItem>, change: Change)
      modifies this
      ensures stored == List(items) && events == old(events) + [change]
    {
      stored := List(items);
      events := events + [change];
    }

    /** `isItemSaved(itemId)`. */
    method IsItemSaved(itemId: string) returns (saved: bool)
      ensures saved <==> Saved(Items(stored), itemId)
    {
      var items := GetSavedItems();
      var i := 0;
      while i < |items|
        invariant 0 <= i <= |items|
        invariant forall j :: 0 <= j < i ==> items[j].itemId != itemId
      {
        if items[i].itemId == itemId {
          return true;
        }
        i := i + 1;
      }
      return false;
    }

    /** `unsaveItem(itemId)`: the list without the id is written back, with a
        `remove` event, only when that removed something. */
    method UnsaveItem(itemId: string)
      modifies this
      ensures Saved(old(Items(stored)), itemId) ==>
        stored == List(Unsaved(old(Items(stored)), itemId)) && events == old(events) + [Remove(itemId)]
      ensures !Saved(old(Items(stored)), itemId) ==> stored == old(stored) && events == old(events)
    {
      var items := GetSavedItems();
      var initialLength := |items|;
      UnsavedSpec(items, itemId);
      items := Unsaved(items, itemId);
      if |items| < initialLength {
        Save(items, Remove(itemId));
      }
    }

    /** `toggleSavedItem(itemId)`: a saved id is unsaved; any other id is
        appended with an empty note and an `add` event. */
    method ToggleSavedItem(itemId: string)
      modifies this
      ensures Saved(old(Items(stored)), itemId) ==>
        stored == List(Unsaved(old(Items(stored)), itemId)) && events == old(events) + [Remove(itemId)]
      ensures !Saved(old(Items(stored)), itemId) ==>
        stored == List(old(Items(stored)) + [NewEntry(itemId)]) && events == old(events) + [Add(itemId)]
    {
      var items := GetSavedItems();
      var saved := IsItemSaved(itemId);
      if saved {
        UnsaveItem(itemId);
      } else {
        items := items + [NewEntry(itemId)];
        Save(items, Add(itemId));
      }
    }

    /** `updateSavedItemNote(itemId, note)`: the first entry with the id gets
        the note and the list is written back; a missing id changes nothing. */
    method UpdateSavedItemNote(itemId: string, note: string)
      modifies this
      ensures FindIndex(old(Items(stored)), itemId).Some? ==>
        stored == List(WithNote(old(Items(stored)), FindIndex(old(Items(stored)), itemId).value, note))
        && events == old(events) + [FullRefresh]
      ensures FindIndex(old(Items(stored)), itemId).None? ==> stored == old(stored) && events == old(events)
    {
      var items := GetSavedItems();
      var itemIndex := FindIndex(items, itemId);
      if itemIndex.Some? {
        var k := itemIndex.value;
        items := items[k := items[k].(note := Some(note))];
        Save(items, FullRefresh);
      }
    }

    /** `updateSavedItemDate(itemId, date)`: the first entry with the id gets
        the date and the list is written back; a missing id changes nothing. */
    method UpdateSavedItemDate(itemId: string, date: string)
      modifies this
      ensures FindIndex(old(Items(stored)), itemId).Some? ==>
        stored == List(WithDate(old(Items(stored)), FindIndex(old(Items(stored)), itemId).value, date))
        && events == old(events) + [FullRefresh]
      ensures FindIndex(old(Items(stored)), itemId).None? ==> stored == old(stored) && events == old(events)
    {
      var items := GetSavedItems();
      var itemIndex := FindIndex(items, itemId);
      if itemIndex.Some? {
        var k := itemIndex.value;
        items := items[k := items[k].(selectedDate := Some(date))];
        Save(items, FullRefresh);
      }
    }
  }
}
