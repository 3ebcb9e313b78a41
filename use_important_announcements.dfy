/**
 * src/hooks/useImportantAnnouncements.ts: the client-side state of the pinned
 * announcement list. The same replace-or-append state machine as
 * useAnnouncements.ts, except that `hasMore` only says whether the last page
 * brought anything, and a request carries nothing but the page.
 */
module UseImportantAnnouncements {
  import opened Wrappers
  import opened Text
  import opened Json
  import opened Feed
  import IR = ImportantAnnouncementsRoute

  /** `/api/important-announcements?page=…`: no limit is sent. */
  datatype Request = Request(pageNum: int)

  function PageParam(pageNum: int): string {
    IntToString(pageNum)
  }

  /**
   * The endpoint reads back the page the hook asked for and, with no `limit`
   * parameter, pages by its default of 15.
   */
  lemma ServerPaging(pageNum: int)
    ensures IR.LimitOf(None) == Some(15)
    ensures IR.OffsetFor(Some(PageParam(pageNum)), None) == Some((pageNum - 1) * 15)
  {
    ParseIntRoundTrip(pageNum);
  }

  class ImportantAnnouncementsHook {
    var announcements: seq<Object>
    var page: int
    var hasMore: bool
    var isLoading: bool

    /** The page counter starts at 1 and only grows, so a load-more fetch is never a page-1 fetch. */
    ghost predicate Valid()
      reads this
    {
      page >= 1
    }

    constructor ()
      ensures Valid()
      ensures announcements == [] && page == 1 && hasMore && isLoading
    {
      announcements := [];
      page := 1;
      hasMore := true;
      isLoading := true;
    }

    method StartFetch(pageNum: int) returns (request: Request)
      modifies this
      ensures request == Request(pageNum)
      ensures isLoading == (pageNum == 1 || old(isLoading))
      ensures announcements == old(announcements) && page == old(page) && hasMore == old(hasMore)
    {
      if pageNum == 1 {
        isLoading := true;
      }
      request := Request(pageNum);
    }

    /**
     * A page-1 response replaces the list and a later page appends; `hasMore`
     * is whether the page brought any item, whatever the server's `has_more`
     * says; a failure clears `hasMore` and keeps the list.
     */
    method FinishFetch(pageNum: int, outcome: Outcome)
      modifies this
      ensures var items := Received(outcome);
              && (items.Some? ==> announcements == Merge(old(announcements), pageNum, items.value)
                                  && hasMore == (|items.value| > 0))
              && (items.None? ==> announcements == old(announcements) && !hasMore)
      ensures announcements == Replay(old(announcements), [Delivery(pageNum, Received(outcome))])
      ensures isLoading == (pageNum != 1 && old(isLoading))
      ensures page == old(page)
    {
      var newNotices := Received(outcome);
      if newNotices.Some? {
        announcements := Merge(announcements, pageNum, newNotices.value);
        hasMore := |newNotices.value| > 0;
      } else {
        hasMore := false;
      }
      if pageNum == 1 {
        isLoading := false;
      }
    }

    /** The mount effect: only page 1 is fetched. */
    method Mount() returns (request: Request)
      modifies this
      ensures request == Request(1) && isLoading
      ensures announcements == old(announcements) && page == old(page) && hasMore == old(hasMore)
    {
      request := StartFetch(1);
    }

    /** `loadMore`: the page advances before the outcome is known. */
    method LoadMore() returns (request: Request)
      requires Valid()
      modifies this
      ensures Valid()
      ensures page == old(page) + 1 && request == Request(old(page) + 1)
      ensures announcements == old(announcements) && hasMore == old(hasMore) && isLoading == old(isLoading)
    {
      var nextPage := page + 1;
      page := nextPage;
      request := StartFetch(nextPage);
    }
  }
}
