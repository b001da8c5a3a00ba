/** The page records of src/page.rs and their small constructors. */
module Pages {
  import opened Wrappers

  /** `chrono::DateTime<Utc>`, kept abstract: only its identity matters here. */
  datatype DateTime = DateTime(instant: int)

  /** A page as the server describes it. Rust's `i64` and `i32` fields are
      unbounded integers here. */
  datatype Page = Page(
    id: int,
    space: string,
    parentId: int,
    title: string,
    url: string,
    version: int,
    content: string,
    created: DateTime,
    creator: string,
    modified: DateTime,
    modifier: string,
    homePage: bool,
    contentStatus: string,
    current: bool)

  datatype PageSummary = PageSummary(
    id: int,
    space: string,
    parentId: int,
    title: string,
    url: string)

  /** The page object sent to create or update a page. An absent `id` and
      `version` mean "create"; an absent `parentId` means "no parent". */
  datatype UpdatePage = UpdatePage(
    id: Option<int>,
    space: string,
    title: string,
    content: string,
    version: Option<int>,
    parentId: Option<int>)

  datatype PageUpdateOptions = PageUpdateOptions(
    versionComment: Option<string>,
    minorEdit: bool)

  /** `PageUpdateOptions::new_minor`. */
  function NewMinor(): (r: PageUpdateOptions)
    ensures r.versionComment.None? && r.minorEdit
  {
    PageUpdateOptions(None, true)
  }

  /** `PageUpdateOptions::new_minor_with_comment`. */
  function NewMinorWithComment(comment: string): (r: PageUpdateOptions)
    ensures r.versionComment == Some(comment) && r.minorEdit
  {
    PageUpdateOptions(Some(comment), true)
  }

  /** An update page that asks for creation: no id and no version. */
  predicate IsCreate(u: UpdatePage) {
    u.id.None? && u.version.None?
  }

  /** `UpdatePage::with_create_fields`. */
  function WithCreateFields(parentId: Option<int>, space: string, title: string, content: string): (r: UpdatePage)
    ensures IsCreate(r)
    ensures r.parentId == parentId && r.space == space && r.title == title && r.content == content
  {
    UpdatePage(None, space, title, content, None, parentId)
  }

  /** The parent id as the server encodes it: 0 for "no parent". */
  function ParentIdOrZero(u: UpdatePage): int {
    match u.parentId
    case None => 0
    case Some(p) => p
  }

  /** `From<Page> for UpdatePage`. */
  function FromPage(p: Page): (r: UpdatePage)
    ensures r.id == Some(p.id) && r.version == Some(p.version)
    ensures r.space == p.space && r.title == p.title && r.content == p.content
    ensures r.parentId.None? <==> p.parentId == 0
    ensures r.parentId.Some? ==> r.parentId.value == p.parentId
  {
    UpdatePage(Some(p.id), p.space, p.title, p.content, Some(p.version),
               if p.parentId == 0 then None else Some(p.parentId))
  }

  /** The conversion loses nothing about the parent: re-encoding "no parent"
      as 0 gives the page's parent id back, and a converted page is never a
      creation request. */
  lemma FromPageKeepsParent(p: Page)
    ensures ParentIdOrZero(FromPage(p)) == p.parentId
    ensures !IsCreate(FromPage(p))
    ensures FromPage(p).parentId != Some(0)
  {
  }
}
