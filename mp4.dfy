/** The MP4 handler: the playtag is the first string of the freeform iTunes item
    `----:com.apple.iTunes:PlayTag` in the tag's item list map. */
module Mp4 {
  import opened Common

  const PLAYTAG_ITEM: string := "----:com.apple.iTunes:PlayTag"

  /** The item list map: item key to the item's string list. */
  type ItemMap = map<string, seq<string>>

  /** What `read` finds: the first string of the PlayTag item, nothing when the item
      is absent or has no strings. */
  function FirstString(items: ItemMap): (r: Option<string>)
    ensures r.Some? <==> PLAYTAG_ITEM in items && |items[PLAYTAG_ITEM]| > 0
    ensures r.Some? ==> r.value == items[PLAYTAG_ITEM][0]
  {
    if PLAYTAG_ITEM in items && |items[PLAYTAG_ITEM]| > 0 then Some(items[PLAYTAG_ITEM][0]) else None
  }

  /** The item map after a write: a blank value erases the PlayTag item if present,
      any other value sets it to exactly `[value]`; no other key changes. */
  function WriteItems(items: ItemMap, value: Option<string>): (r: ItemMap)
    ensures Blank(value) ==> PLAYTAG_ITEM !in r
    ensures !Blank(value) ==> PLAYTAG_ITEM in r && r[PLAYTAG_ITEM] == [value.value]
    ensures forall k :: k != PLAYTAG_ITEM ==> (k in r <==> k in items)
    ensures forall k :: k in r && k != PLAYTAG_ITEM ==> r[k] == items[k]
  {
    if Blank(value) then
      (if PLAYTAG_ITEM in items then items - {PLAYTAG_ITEM} else items)
    else items[PLAYTAG_ITEM := [value.value]]
  }

  /** Reading back a write returns the value; a blank write reads as nil. */
  lemma ReadAfterWrite(items: ItemMap, value: Option<string>)
    ensures FirstString(WriteItems(items, value)) == if Blank(value) then None else value
  {
  }

  /** Writing twice is writing once: the PlayTag item is overwritten, never doubled. */
  lemma WriteItemsReplaces(items: ItemMap, first: Option<string>, second: Option<string>)
    ensures WriteItems(WriteItems(items, first), second) == WriteItems(items, second)
  {
    var once := WriteItems(items, second);
    var twice := WriteItems(WriteItems(items, first), second);
    assert twice.Keys == once.Keys;
  }

  /** An MP4 file held open by TagLib: its tag's item map in memory (None when the
      file has no tag) and the one on disk. */
  class Mp4File {
    var tag: Option<ItemMap>
    var stored: Option<ItemMap>

    constructor Open(disk: Option<ItemMap>)
      ensures tag == disk && stored == disk
    {
      tag := disk;
      stored := disk;
    }

    /** `@file.save`, succeeding as the oracle `ok` says. */
    method Save(ok: bool) returns (saved: bool)
      modifies this
      ensures saved == ok && tag == old(tag)
      ensures stored == if ok then tag else old(stored)
    {
      saved := ok;
      if ok {
        stored := tag;
      }
    }
  }

  class MP4Tag {
    const file: Mp4File

    constructor (file: Mp4File)
      ensures this.file == file
    {
      this.file := file;
    }

    /** `read` through `item_list_map`: nil without a tag, otherwise the first string
        of the PlayTag item. */
    method Read() returns (value: Option<string>)
      ensures file.tag.None? ==> value.None?
      ensures file.tag.Some? ==> value == FirstString(file.tag.value)
    {
      if file.tag.None? {
        return None;
      }
      var itemListMap := file.tag.value;
      if PLAYTAG_ITEM in itemListMap {
        var strings := itemListMap[PLAYTAG_ITEM];
        if |strings| > 0 {
          return Some(strings[0]);
        }
      }
      return None;
    }

    /** `write` through `item_list_map`: false without a tag; otherwise erase or set
        the PlayTag item and return the save result. */
    method Write(value: Option<string>, saveOk: bool) returns (ok: bool)
      modifies file
      ensures old(file.tag).None? ==> !ok && file.tag == old(file.tag)
      ensures old(file.tag).Some? ==> file.tag == Some(WriteItems(old(file.tag).value, value))
      ensures ok == (old(file.tag).Some? && saveOk)
      ensures file.stored == if ok then file.tag else old(file.stored)
    {
      if file.tag.None? {
        return false;
      }
      var itemListMap := file.tag.value;
      if Blank(value) {
        if PLAYTAG_ITEM in itemListMap {
          file.tag := Some(itemListMap - {PLAYTAG_ITEM});
        }
      } else {
        file.tag := Some(itemListMap[PLAYTAG_ITEM := [value.value]]);
      }
      ok := file.Save(saveOk);
    }
  }

  /** Whether `write` on a freshly opened file returns true. */
  function WriteSucceeds(disk: Option<ItemMap>, saveOk: bool): bool
  {
    disk.Some? && saveOk
  }

  /** The tag stored on disk after that `write`. */
  function StoredAfterWrite(disk: Option<ItemMap>, value: Option<string>, saveOk: bool): (r: Option<ItemMap>)
    ensures !WriteSucceeds(disk, saveOk) ==> r == disk
    ensures WriteSucceeds(disk, saveOk) ==> r.Some? && FirstString(r.value) == (if Blank(value) then None else value)
  {
    if WriteSucceeds(disk, saveOk) then Some(WriteItems(disk.value, value)) else disk
  }
}
