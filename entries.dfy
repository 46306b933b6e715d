/**
 * The rows of the notifications list: the rule items the list shows and the
 * list entries that wrap them, with the index lookup the editor uses to find
 * an entry again after the list was rebuilt.
 */
module Entries {

  /** Template id shared by every notification row. */
  const NotificationEntryTemplateId: string := "notification.entry.template"

  /** One notification suppression rule, as the editor model hands it over (`labelText` is the item's `label`, a reserved word in Dafny). */
  datatype NotificationItem = NotificationItem(labelText: string, when: string, neverShowAgain: bool)

  /**
   * A list entry. It is an object, so two entries can carry the same `id`
   * and still be different references (an entry rebuilt by a reload).
   */
  class ListEntry {
    const id: string
    const templateId: string
    const notificationItem: NotificationItem

    constructor (id: string, templateId: string, notificationItem: NotificationItem)
      ensures this.id == id && this.templateId == templateId
      ensures this.notificationItem == notificationItem
    {
      this.id := id;
      this.templateId := templateId;
      this.notificationItem := notificationItem;
    }
  }

  /** The first index holding the very same entry object, or -1 (`Array.prototype.indexOf`). */
  function FirstRef(entries: seq<ListEntry>, entry: ListEntry): (index: int)
    ensures -1 <= index < |entries|
    ensures index >= 0 ==> entries[index] == entry
    ensures index >= 0 ==> forall k :: 0 <= k < index ==> entries[k] != entry
    ensures index == -1 ==> forall k :: 0 <= k < |entries| ==> entries[k] != entry
  {
    if entries == [] then -1
    else if entries[0] == entry then 0
    else
      var rest := FirstRef(entries[1..], entry);
      if rest == -1 then -1 else rest + 1
  }

  /** The first index whose entry has the given id, or -1. */
  function FirstId(entries: seq<ListEntry>, id: string): (index: int)
    ensures -1 <= index < |entries|
    ensures index >= 0 ==> entries[index].id == id
    ensures index >= 0 ==> forall k :: 0 <= k < index ==> entries[k].id != id
    ensures index == -1 ==> forall k :: 0 <= k < |entries| ==> entries[k].id != id
  {
    if entries == [] then -1
    else if entries[0].id == id then 0
    else
      var rest := FirstId(entries[1..], id);
      if rest == -1 then -1 else rest + 1
  }

  /**
   * Where the editor finds `entry` in the list: the first position of the same
   * object, else the first position of an entry with the same id, else -1.
   */
  function EntryIndex(entries: seq<ListEntry>, entry: ListEntry): (index: int)
    ensures -1 <= index < |entries|
    ensures (exists k :: 0 <= k < |entries| && entries[k] == entry) ==>
      index >= 0 && entries[index] == entry &&
      forall k :: 0 <= k < index ==> entries[k] != entry
    ensures (forall k :: 0 <= k < |entries| ==> entries[k] != entry) && index >= 0 ==>
      entries[index].id == entry.id && forall k :: 0 <= k < index ==> entries[k].id != entry.id
    ensures index == -1 <==> forall k :: 0 <= k < |entries| ==> entries[k].id != entry.id
  {
    var byRef := FirstRef(entries, entry);
    if byRef != -1 then byRef else FirstId(entries, entry.id)
  }

  /** Ids are unique in the list, as the list's identity provider assumes. */
  ghost predicate UniqueIds(entries: seq<ListEntry>)
  {
    forall i, j :: 0 <= i < j < |entries| ==> entries[i].id != entries[j].id
  }

  /**
   * Selection survives a reload: when ids are unique, an entry is found at
   * the position of its id, whether or not the list still holds the same
   * object, so an entry that moved from one index to another is found at
   * its new index.
   */
  lemma EntryIndexFollowsId(entries: seq<ListEntry>, entry: ListEntry, i: int)
    requires UniqueIds(entries)
    requires 0 <= i < |entries| && entries[i].id == entry.id
    ensures EntryIndex(entries, entry) == i
  {
  }
}
