/**
 * What src/hooks/useAnnouncements.ts and src/hooks/useImportantAnnouncements.ts
 * have in common: turning a response body into list items, and the rule
 * that a page-1 response replaces the list while any other page appends.
 */
module Feed {
  import opened Wrappers
  import opened Json

  /**
   * `data.announcements || []`, or None where reading it throws: a nullish
   * body has no properties, and a truthy value that is not an array has no
   * `map`.
   */
  function Items(data: Value): (r: Option<seq<Value>>)
    ensures Nullish(data) ==> r.None?
    ensures !Nullish(data) && !Truthy(Property(data, "announcements")) ==> r == Some([])
    ensures !Nullish(data) && Truthy(Property(data, "announcements")) ==>
              && (r.Some? <==> Property(data, "announcements").Arr?)
              && (r.Some? ==> r.value == Property(data, "announcements").items)
  {
    if Nullish(data) then None
    else
      var announcements := Property(data, "announcements");
      if !Truthy(announcements) then Some([])
      else if announcements.Arr? then Some(announcements.items)
      else None
  }

  /**
   * `{ ...item, images: item.notice_images ?? [], files: item.notice_files ?? [] }`,
   * or None where `item.notice_images` throws on a nullish item. Spreading a
   * value that is not an object contributes no keys here.
   */
  function NormalizeItem(item: Value): (r: Option<Object>)
    ensures r.None? <==> Nullish(item)
    ensures r.Some? ==>
              && Get(r.value, "images") == Coalesce(Property(item, "notice_images"), Arr([]))
              && Get(r.value, "files") == Coalesce(Property(item, "notice_files"), Arr([]))
              && (forall k :: k != "images" && k != "files" ==>
                    Get(r.value, k) == (if item.Obj? then Get(item.fields, k) else Undefined))
  {
    if Nullish(item) then None
    else
      var spread := if item.Obj? then item.fields else map[];
      Some(spread["images" := Coalesce(Property(item, "notice_images"), Arr([]))]
                 ["files" := Coalesce(Property(item, "notice_files"), Arr([]))])
  }

  /** `.map(normalize)`: the whole page, or None when one item throws. */
  function NormalizeAll(items: seq<Value>): (r: Option<seq<Object>>)
    ensures r.Some? <==> forall i :: 0 <= i < |items| ==> !Nullish(items[i])
    ensures r.Some? ==> |r.value| == |items|
    ensures r.Some? ==> forall i :: 0 <= i < |items| ==> Some(r.value[i]) == NormalizeItem(items[i])
  {
    if items == [] then Some([])
    else
      var first := NormalizeItem(items[0]);
      var rest := NormalizeAll(items[1..]);
      if first.None? || rest.None? then None else Some([first.value] + rest.value)
  }

  /**
   * The new items a response body yields, or None when reading it throws:
   * one normalised item per listed item, in order.
   */
  function PageItems(data: Value): (r: Option<seq<Object>>)
    ensures r.Some? ==> !Nullish(data)
    ensures r.Some? <==> Items(data).Some? && forall i :: 0 <= i < |Items(data).value| ==> !Nullish(Items(data).value[i])
    ensures r.Some? ==>
              && |r.value| == |Items(data).value|
              && forall i :: 0 <= i < |r.value| ==> Some(r.value[i]) == NormalizeItem(Items(data).value[i])
  {
    var items := Items(data);
    if items.None? then None else NormalizeAll(items.value)
  }

  /**
   * A fetch's outcome as the hook sees it: the decoded body, or None when the
   * request threw, the response was not ok, or the body was not JSON.
   */
  type Outcome = Option<Value>

  /** What a finished fetch contributes to the list, None when it ends in the `catch`. */
  function Received(outcome: Outcome): (r: Option<seq<Object>>)
    ensures outcome.None? ==> r.None?
    ensures outcome.Some? ==> r == PageItems(outcome.value)
  {
    if outcome.None? then None else PageItems(outcome.value)
  }

  /**
   * `pageNum === 1 ? newItems : [...prev, ...newItems]`: the new page always
   * ends the list, and the old list is kept in front of it unless this is page 1.
   */
  function Merge(prev: seq<Object>, pageNum: int, newItems: seq<Object>): (r: seq<Object>)
    ensures |r| == |newItems| + (if pageNum == 1 then 0 else |prev|)
    ensures r[|r| - |newItems|..] == newItems
    ensures pageNum != 1 ==> r[..|prev|] == prev
  {
    if pageNum == 1 then newItems else prev + newItems
  }

  /** A response as the hook applies it: the page it was for and its items, None on failure. */
  datatype Delivery = Delivery(pageNum: int, items: Option<seq<Object>>)

  /**
   * The list after applying `ds` in order: a failed delivery leaves the list as
   * it was. The list never holds more than it started with plus everything
   * delivered.
   */
  function Replay(list: seq<Object>, ds: seq<Delivery>): (r: seq<Object>)
    ensures |r| <= |list| + |Delivered(ds)|
  {
    if ds == [] then list
    else
      var before := Replay(list, ds[..|ds| - 1]);
      var d := ds[|ds| - 1];
      if d.items.Some? then Merge(before, d.pageNum, d.items.value) else before
  }

  predicate Resets(d: Delivery) {
    d.pageNum == 1 && d.items.Some?
  }

  /** All items the successful deliveries brought, in order. */
  function Delivered(ds: seq<Delivery>): seq<Object> {
    if ds == [] then []
    else Delivered(ds[..|ds| - 1]) + (if ds[|ds| - 1].items.Some? then ds[|ds| - 1].items.value else [])
  }

  /** Whatever came before, the last page delivered ends the list. */
  lemma LastPageEndsList(list: seq<Object>, ds: seq<Delivery>)
    requires ds != [] && ds[|ds| - 1].items.Some?
    ensures var last := ds[|ds| - 1].items.value;
            var r := Replay(list, ds);
            |last| <= |r| && r[|r| - |last|..] == last
  {
  }

  /** Without a successful page-1 response, every delivered page is appended in order. */
  lemma {:induction false} ReplayAppends(list: seq<Object>, ds: seq<Delivery>)
    requires forall i :: 0 <= i < |ds| ==> !Resets(ds[i])
    ensures Replay(list, ds) == list + Delivered(ds)
  {
    if ds != [] {
      var init, last := ds[..|ds| - 1], ds[|ds| - 1];
      assert forall i :: 0 <= i < |init| ==> !Resets(init[i]) by {
        forall i | 0 <= i < |init|
          ensures !Resets(init[i])
        {
          assert init[i] == ds[i];
        }
      }
      ReplayAppends(list, init);
      if last.items.Some? {
        assert last.pageNum != 1 by {
          assert !Resets(ds[|ds| - 1]);
        }
        assert list + Delivered(init) + last.items.value == list + (Delivered(init) + last.items.value);
      }
    }
  }

  /** A successful page-1 response makes everything delivered before it irrelevant. */
  lemma {:induction false} ReplayForgets(list: seq<Object>, ds: seq<Delivery>, i: nat)
    requires i < |ds| && Resets(ds[i])
    ensures Replay(list, ds) == Replay([], ds[i..])
  {
    if i == |ds| - 1 {
      assert ds[i..][..0] == [];
    } else {
      ReplayForgets(list, ds[..|ds| - 1], i);
      assert ds[i..][..|ds[i..]| - 1] == ds[..|ds| - 1][i..];
    }
  }

  /**
   * The list holds the items of the last successful page-1 response followed
   * by every page delivered after it.
   */
  lemma ListSinceLastReset(list: seq<Object>, ds: seq<Delivery>, i: nat)
    requires i < |ds| && Resets(ds[i])
    requires forall j :: i < j < |ds| ==> !Resets(ds[j])
    ensures Replay(list, ds) == ds[i].items.value + Delivered(ds[i + 1..])
  {
    ReplayForgets(list, ds, i);
    var tail := ds[i + 1..];
    assert ds[i..] == [ds[i]] + tail;
    ReplayAfterFirst([], ds[i], tail);
    ReplayAppends(ds[i].items.value, tail);
  }

  lemma {:induction false} ReplayAfterFirst(list: seq<Object>, d: Delivery, ds: seq<Delivery>)
    ensures Replay(list, [d] + ds) == Replay(Replay(list, [d]), ds)
  {
    if ds != [] {
      ReplayAfterFirst(list, d, ds[..|ds| - 1]);
      assert ([d] + ds)[..|ds|] == [d] + ds[..|ds| - 1];
    } else {
      assert [d] + ds == [d];
    }
  }
}
