/**
 * src/components/AnnouncementModal.tsx: what the announcement modal shows
 * for the selected announcement, when it swallows wheel events, and the page
 * scroll lock it holds while open.
 */
module AnnouncementModal {
  import opened Wrappers
  import opened Types

  /** `files.filter(file => file.id)`: the files with a truthy id, in their order. */
  function ListedFiles(files: seq<AttachmentFile>): (r: seq<AttachmentFile>)
    ensures |r| <= |files|
    ensures forall f :: f in r <==> f in files && f.id != 0
    ensures |files| == 1 ==> r == (if files[0].id != 0 then files else [])
  {
    if files == [] then []
    else (if files[0].id != 0 then [files[0]] else []) + ListedFiles(files[1..])
  }

  /** Filtering keeps order and repeats: it distributes over concatenation. */
  lemma {:induction false} ListedFilesAppend(a: seq<AttachmentFile>, b: seq<AttachmentFile>)
    ensures ListedFiles(a + b) == ListedFiles(a) + ListedFiles(b)
  {
    if a != [] {
      assert (a + b)[1..] == a[1..] + b;
      ListedFilesAppend(a[1..], b);
    } else {
      assert a + b == b;
    }
  }

  /**
   * `images.some(img => img.id)`; no announcement reads as falsy. It holds
   * exactly when some image slot shows a picture.
   */
  predicate HasImages(a: Option<Announcement>)
    ensures HasImages(a) <==> a.Some? && exists i :: 0 <= i < |a.value.images| && ImageSlots(a.value.images)[i].Picture?
  {
    if a.Some? then
      PicturesAreTruthyIds(a.value.images);
      exists i :: 0 <= i < |a.value.images| && a.value.images[i].id != 0
    else false
  }

  lemma PicturesAreTruthyIds(images: seq<AttachmentImage>)
    ensures (exists i :: 0 <= i < |images| && images[i].id != 0) <==>
            (exists i :: 0 <= i < |images| && ImageSlots(images)[i].Picture?)
  {
    var slots := ImageSlots(images);
    if i :| 0 <= i < |images| && images[i].id != 0 {
      assert slots[i].Picture?;
    }
    if i :| 0 <= i < |images| && slots[i].Picture? {
      assert images[i].id != 0;
    }
  }

  /** `files.some(file => file.id)`: true exactly when the filtered file list is not empty. */
  predicate HasFiles(a: Option<Announcement>)
    ensures HasFiles(a) <==> a.Some? && ListedFiles(a.value.files) != []
  {
    if a.Some? then
      FilesShownWhenListed(a.value.files);
      exists i :: 0 <= i < |a.value.files| && a.value.files[i].id != 0
    else false
  }

  /** Some file has a truthy id exactly when the filter keeps something. */
  lemma {:induction false} FilesShownWhenListed(files: seq<AttachmentFile>)
    ensures (exists i :: 0 <= i < |files| && files[i].id != 0) <==> ListedFiles(files) != []
  {
    if i :| 0 <= i < |files| && files[i].id != 0 {
      assert files[i] in ListedFiles(files);
    }
    if ListedFiles(files) != [] {
      var f := ListedFiles(files)[0];
      assert f in files;
      var i :| 0 <= i < |files| && files[i] == f;
    }
  }

  /**
   * What `images.map(image => image.id && <Image/>)` renders per image: the
   * picture, or for a zero id the number 0 itself, which React prints.
   */
  datatype ImageSlot = Picture(url: string) | ZeroText

  function ImageSlots(images: seq<AttachmentImage>): (r: seq<ImageSlot>)
    ensures |r| == |images|
    ensures forall i :: 0 <= i < |images| ==> (r[i] == ZeroText <==> images[i].id == 0)
    ensures forall i :: 0 <= i < |images| && images[i].id != 0 ==> r[i] == Picture(images[i].url)
  {
    seq(|images|, i requires 0 <= i < |images| => if images[i].id != 0 then Picture(images[i].url) else ZeroText)
  }

  /** The modal title: `ai_summary_title || title`; none without an announcement. */
  function Title(a: Option<Announcement>): (r: Option<string>)
    ensures r.None? <==> a.None?
    ensures a.Some? && a.value.aiSummaryTitle.Some? && a.value.aiSummaryTitle.value != "" ==>
              r == a.value.aiSummaryTitle
    ensures a.Some? && (a.value.aiSummaryTitle.None? || a.value.aiSummaryTitle.value == "") ==>
              r == Some(a.value.title)
  {
    if a.None? then None
    else if a.value.aiSummaryTitle.Some? && a.value.aiSummaryTitle.value != "" then a.value.aiSummaryTitle
    else Some(a.value.title)
  }

  /** The footer's "원본글 보기" link, only for a non-empty original url. */
  function OriginalLink(a: Option<Announcement>): (r: Option<string>)
    ensures r.Some? <==> a.Some? && a.value.originalUrl != ""
    ensures r.Some? ==> r.value == a.value.originalUrl
  {
    if a.Some? && a.value.originalUrl != "" then Some(a.value.originalUrl) else None
  }

  /** The category tag: only for a non-null category the table knows. */
  function CategoryTag(a: Announcement): (r: Option<CategoryInfo>)
    ensures r.Some? <==> a.category.Some? && 0 <= a.category.value <= 3
    ensures r.Some? ==> r.value == CategoryMapping[a.category.value]
  {
    if a.category.None? then None else LookupCategory(a.category.value)
  }

  /** The divider above the attachments: shown exactly when a picture or a listed file follows it. */
  predicate ShowDivider(a: Option<Announcement>)
    ensures ShowDivider(a) <==>
              a.Some? && ((exists i :: 0 <= i < |a.value.images| && ImageSlots(a.value.images)[i].Picture?)
                          || ListedFiles(a.value.files) != [])
  {
    HasImages(a) || HasFiles(a)
  }

  /**
   * `handleWheel`: stop a wheel event that would scroll past the top or the
   * bottom. Only a moving event at one of the two ends is ever stopped.
   */
  predicate PreventWheel(scrollTop: int, scrollHeight: int, clientHeight: int, deltaY: int)
    ensures PreventWheel(scrollTop, scrollHeight, clientHeight, deltaY) ==>
              deltaY != 0 && (scrollTop == 0 || scrollTop + clientHeight >= scrollHeight - 1)
  {
    (scrollTop == 0 && deltaY < 0) || (scrollTop + clientHeight >= scrollHeight - 1 && deltaY > 0)
  }

  /**
   * A wheel event is left alone when it does not move, when the content is
   * scrolled strictly between its ends, or when it scrolls away from the end
   * it is at.
   */
  lemma WheelPassesThrough(scrollTop: int, scrollHeight: int, clientHeight: int, deltaY: int)
    ensures deltaY == 0 ==> !PreventWheel(scrollTop, scrollHeight, clientHeight, deltaY)
    ensures 0 < scrollTop && scrollTop + clientHeight < scrollHeight - 1 ==>
              !PreventWheel(scrollTop, scrollHeight, clientHeight, deltaY)
    ensures scrollTop == 0 && clientHeight < scrollHeight - 1 && deltaY > 0 ==>
              !PreventWheel(scrollTop, scrollHeight, clientHeight, deltaY)
    ensures 0 < scrollTop && scrollTop + clientHeight >= scrollHeight - 1 && deltaY < 0 ==>
              !PreventWheel(scrollTop, scrollHeight, clientHeight, deltaY)
  {
  }

  /** `document.body.style`. */
  class Body {
    var overflow: string

    constructor (overflow: string)
      ensures this.overflow == overflow
    {
      this.overflow := overflow;
    }
  }

  /** The overflow effect: locks page scrolling while the modal is open and undoes it on cleanup. */
  class ScrollLock {
    /** `originalOverflow`, held by the cleanup closure; None when no cleanup is pending. */
    var saved: Option<string>

    constructor ()
      ensures saved == None
    {
      saved := None;
    }

    method Effect(isOpen: bool, body: Body)
      modifies this, body
      ensures isOpen ==> saved == Some(old(body.overflow)) && body.overflow == "hidden"
      ensures !isOpen ==> saved == None && body.overflow == old(body.overflow)
    {
      if isOpen {
        saved := Some(body.overflow);
        body.overflow := "hidden";
      } else {
        saved := None;
      }
    }

    method Cleanup(body: Body)
      modifies this, body
      ensures old(saved).Some? ==> body.overflow == old(saved).value
      ensures old(saved).None? ==> body.overflow == old(body.overflow)
      ensures saved == None
    {
      if saved.Some? {
        body.overflow := saved.value;
      }
      saved := None;
    }
  }

  /** Opening and then closing the modal leaves the page's overflow as it found it. */
  method OpenThenClose(lock: ScrollLock, body: Body)
    modifies lock, body
    ensures body.overflow == old(body.overflow)
  {
    lock.Effect(true, body);
    lock.Cleanup(body);
  }
}
