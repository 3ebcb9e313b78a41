/**
 * src/app/page.tsx: the home page's modal selection. An announcement is
 * marked read when its modal is closed, never when it is opened.
 */
module HomePage {
  import opened Wrappers
  import opened Text
  import opened Types
  import opened UseReadStatus

  /** The property key `markAsRead(announcement.id)` writes under. */
  function ReadKey(a: Announcement): string {
    IntToString(a.id)
  }

  /** Distinct announcement ids are distinct keys. */
  lemma ReadKeysDistinct(a: Announcement, b: Announcement)
    requires a.id != b.id
    ensures ReadKey(a) != ReadKey(b)
  {
    ParseIntRoundTrip(a.id);
    ParseIntRoundTrip(b.id);
  }

  class Home {
    var selected: Option<Announcement>
    var modalVisible: bool

    constructor ()
      ensures selected == None && !modalVisible
    {
      selected := None;
      modalVisible := false;
    }

    /** `showModal`: selects and opens; read statuses are not touched. */
    method ShowModal(a: Announcement)
      modifies this
      ensures selected == Some(a) && modalVisible
    {
      selected := Some(a);
      modalVisible := true;
    }

    /** `handleCancel`: marks the selection read, if there is one, then closes and clears it. */
    method HandleCancel(hook: ReadStatusHook, storage: LocalStorage, now: int, writeFails: bool)
      modifies this, hook, storage
      ensures selected == None && !modalVisible
      ensures old(selected).Some? ==>
                hook.readStatuses == Marked(GetReadStatuses(storage.hasWindow, old(storage.item)), ReadKey(old(selected).value), now)
      ensures old(selected).Some? ==>
                storage.item == (if storage.hasWindow && !writeFails then Statuses(hook.readStatuses) else old(storage.item))
      ensures old(selected).None? ==> hook.readStatuses == old(hook.readStatuses) && storage.item == old(storage.item)
    {
      if selected.Some? {
        hook.MarkAsRead(storage, ReadKey(selected.value), now, writeFails);
      }
      modalVisible := false;
      selected := None;
    }
  }
}
