/**
 * src/hooks/useAnnouncements.ts: the client-side state of the infinite
 * announcement list. A fetch is split into the part that runs before the
 * request (`StartFetch`) and the part that runs when its outcome is known
 * (`FinishFetch`); outcomes are applied in the order given.
 */
module UseAnnouncements {
  import opened Wrappers
  import opened Text
  import opened Json
  import opened Feed
  import AR = AnnouncementsRoute

  /** `/api/announcements?page=…&search=…&category=…` as data. */
  datatype Request = Request(pageNum: int, search: string, categories: seq<int>)

  /** The `page` query parameter the hook sends. */
  function PageParam(pageNum: int): string {
    IntToString(pageNum)
  }

  /** The listing endpoint reads back exactly the page the hook asked for. */
  lemma ServerReadsPage(pageNum: int)
    ensures AR.PageOf(Some(PageParam(pageNum))) == Some(pageNum)
  {
    ParseIntRoundTrip(pageNum);
  }

  class AnnouncementsHook {
    var announcements: seq<Object>
    var page: int
    /** `data.has_more` as received, so any JSON value. */
    var hasMore: Value
    var isLoading: bool

    /** The page counter starts at 1 and only grows, so a load-more fetch is never a page-1 fetch. */
    ghost predicate Valid()
      reads this
    {
      page >= 1
    }

    constructor ()
      ensures Valid()
      ensures announcements == [] && page == 1 && hasMore == Bool(true) && isLoading
    {
      announcements := [];
      page := 1;
      hasMore := Bool(true);
      isLoading := true;
    }

    /** The start of `fetchAnnouncements`: only a page-1 fetch shows the loading state. */
    method StartFetch(pageNum: int, search: string, categories: seq<int>) returns (request: Request)
      modifies this
      ensures request == Request(pageNum, search, categories)
      ensures isLoading == (pageNum == 1 || old(isLoading))
      ensures announcements == old(announcements) && page == old(page) && hasMore == old(hasMore)
    {
      if pageNum == 1 {
        isLoading := true;
      }
      request := Request(pageNum, search, categories);
    }

    /**
     * The rest of `fetchAnnouncements`: a page-1 response replaces the list and
     * a later page appends; `has_more` is taken as sent; a failure clears
     * `hasMore` and keeps the list; only a page-1 fetch ends the loading state.
     */
    method FinishFetch(pageNum: int, outcome: Outcome)
      modifies this
      ensures var items := Received(outcome);
              && (items.Some? ==> announcements == Merge(old(announcements), pageNum, items.value)
                                  && hasMore == Property(outcome.value, "has_more"))
              && (items.None? ==> announcements == old(announcements) && hasMore == Bool(false))
      ensures announcements == Replay(old(announcements), [Delivery(pageNum, Received(outcome))])
      ensures isLoading == (pageNum != 1 && old(isLoading))
      ensures page == old(page)
    {
      var items := Received(outcome);
      if items.Some? {
        announcements := Merge(announcements, pageNum, items.value);
        hasMore := Property(outcome.value, "has_more");
      } else {
        hasMore := Bool(false);
      }
      if pageNum == 1 {
        isLoading := false;
      }
    }

    /** The effect on a new search term or category selection: back to page 1, and fetch it. */
    method FiltersChanged(search: string, categories: seq<int>) returns (request: Request)
      modifies this
      ensures Valid()
      ensures page == 1 && request == Request(1, search, categories) && isLoading
      ensures announcements == old(announcements) && hasMore == old(hasMore)
    {
      page := 1;
      request := StartFetch(1, search, categories);
    }

    /** `loadMoreAnnouncements`: the page advances before the outcome is known, whatever it is. */
    method LoadMore(search: string, categories: seq<int>) returns (request: Request)
      requires Valid()
      modifies this
      ensures Valid()
      ensures page == old(page) + 1 && request == Request(old(page) + 1, search, categories)
      ensures announcements == old(announcements) && hasMore == old(hasMore) && isLoading == old(isLoading)
    {
      var nextPage := page + 1;
      page := nextPage;
      request := StartFetch(nextPage, search, categories);
    }
  }
}
