/** The record shapes shared by the client and the category table (src/types/index.ts). */
module Types {
  import opened Wrappers

  datatype AttachmentFile = AttachmentFile(id: int, filename: string, url: string)

  datatype AttachmentImage = AttachmentImage(id: int, url: string)

  /** Timestamps are milliseconds since the epoch (the source keeps ISO strings). */
  datatype Announcement = Announcement(
    id: int,
    title: string,
    aiSummaryTitle: Option<string>,
    aiSummaryContent: Option<string>,
    markdownContent: string,
    writer: string,
    createdAt: int,
    publishDate: int,
    category: Option<int>,
    originalUrl: string,
    images: seq<AttachmentImage>,
    files: seq<AttachmentFile>)

  datatype CategoryInfo = CategoryInfo(name: string, color: string)

  /** `categoryMapping`: the category tag shown for each category number. */
  const CategoryMapping: map<int, CategoryInfo> := map[
    0 := CategoryInfo("학사", "blue"),
    1 := CategoryInfo("교내", "green"),
    2 := CategoryInfo("사업단", "orange"),
    3 := CategoryInfo("학부News", "purple")]

  /** `categoryMapping[key]`: `undefined` (None) for a key the table lacks. */
  function LookupCategory(key: int): (r: Option<CategoryInfo>)
    ensures r.Some? <==> 0 <= key <= 3
    ensures r.Some? ==> r.value == CategoryMapping[key]
  {
    if key in CategoryMapping then Some(CategoryMapping[key]) else None
  }

  /** The table defines exactly the keys 0..3, with these names and colours. */
  lemma CategoryTable()
    ensures CategoryMapping.Keys == {0, 1, 2, 3}
    ensures LookupCategory(0) == Some(CategoryInfo("학사", "blue"))
    ensures LookupCategory(1) == Some(CategoryInfo("교내", "green"))
    ensures LookupCategory(2) == Some(CategoryInfo("사업단", "orange"))
    ensures LookupCategory(3) == Some(CategoryInfo("학부News", "purple"))
  {
  }
}
