/**
 * src/hooks/useReadStatus.ts: which announcements this browser has opened,
 * kept in `localStorage` under one key. A read time is the instant (ms) the
 * ISO string denotes; JSON text is abstracted to what parsing it yields.
 */
module UseReadStatus {
  import opened Wrappers

  const StorageKey := "readAnnouncements"

  /** Announcement id (as a property key) to the time it was read. */
  type ReadStatus = map<string, int>

  /** What `localStorage.getItem(StorageKey)` holds. */
  datatype StoredItem =
    | Absent              // null: never written
    | EmptyText           // ""
    | Statuses(statuses: ReadStatus)
    | Malformed           // text `JSON.parse` rejects

  /** The browser's `localStorage`, as far as this key goes; `hasWindow` is false during server rendering. */
  class LocalStorage {
    const hasWindow: bool
    var item: StoredItem

    constructor (hasWindow: bool, item: StoredItem)
      ensures this.hasWindow == hasWindow && this.item == item
    {
      this.hasWindow := hasWindow;
      this.item := item;
    }

    /** `setReadStatuses`: nothing without a window; a failed write is swallowed. */
    method Write(statuses: ReadStatus, writeFails: bool)
      modifies this
      ensures item == (if hasWindow && !writeFails then Statuses(statuses) else old(item))
    {
      if hasWindow && !writeFails {
        item := Statuses(statuses);
      }
    }
  }

  /** `getReadStatuses`: `{}` without a window, without a stored item, or when it does not parse. */
  function GetReadStatuses(hasWindow: bool, item: StoredItem): (r: ReadStatus)
    ensures r != map[] ==> hasWindow && item == Statuses(r)
    ensures hasWindow && item.Statuses? ==> r == item.statuses
  {
    if !hasWindow then map[]
    else match item
      case Statuses(m) => m
      case _ => map[]
  }

  /** `{ ...stored, [id]: now }`. */
  function Marked(stored: ReadStatus, id: string, now: int): (r: ReadStatus)
    ensures id in r && r[id] == now
    ensures forall k :: k != id ==> (k in r <==> k in stored)
    ensures forall k :: k != id && k in stored ==> r[k] == stored[k]
  {
    stored[id := now]
  }

  /** Marking twice keeps only the later time: the entry is overwritten, not kept. */
  lemma MarkOverwrites(stored: ReadStatus, id: string, first: int, second: int)
    ensures Marked(Marked(stored, id, first), id, second) == Marked(stored, id, second)
  {
  }

  /** A persisted map reads back as itself. */
  lemma WrittenReadsBack(statuses: ReadStatus)
    ensures GetReadStatuses(true, Statuses(statuses)) == statuses
  {
  }

  class ReadStatusHook {
    var readStatuses: ReadStatus

    /** `useState(getReadStatuses())`. */
    constructor (storage: LocalStorage)
      ensures readStatuses == GetReadStatuses(storage.hasWindow, storage.item)
    {
      readStatuses := GetReadStatuses(storage.hasWindow, storage.item);
    }

    /** The mount effect and the `storage` event handler: state becomes what storage holds. */
    method Reload(storage: LocalStorage)
      modifies this
      ensures readStatuses == GetReadStatuses(storage.hasWindow, storage.item)
    {
      readStatuses := GetReadStatuses(storage.hasWindow, storage.item);
    }

    /**
     * `markAsRead`: built from what storage holds, not from the state, then
     * persisted (unless the write fails) and made the state.
     */
    method MarkAsRead(storage: LocalStorage, id: string, now: int, writeFails: bool)
      modifies this, storage
      ensures readStatuses == Marked(GetReadStatuses(storage.hasWindow, old(storage.item)), id, now)
      ensures storage.item == (if storage.hasWindow && !writeFails then Statuses(readStatuses) else old(storage.item))
    {
      var newStatuses := Marked(GetReadStatuses(storage.hasWindow, storage.item), id, now);
      storage.Write(newStatuses, writeFails);
      readStatuses := newStatuses;
    }

    /** `getRelativeReadTime`, as the elapsed time `fromNow` would word; null without an entry. */
    function RelativeReadTime(id: string, now: int): (r: Option<int>)
      reads this
      ensures r.None? <==> id !in readStatuses
      ensures r.Some? ==> readStatuses[id] + r.value == now
    {
      if id in readStatuses then Some(now - readStatuses[id]) else None
    }
  }
}
