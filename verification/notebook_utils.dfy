/** Notebook persistence (lib/notebook-utils.ts): the list of notebook metadata kept under one
    key of the browser's key-value store, and each notebook's content (its pages and the
    current page) under `notebook-<id>`.

    The store is the class `NotebookStore`, whose map the operations read and rewrite. A
    stored value is kept as the shape it parses to (`Stored`), so JSON text itself is not
    modelled. `Date.now()` is a parameter: `loadNow` is the reading taken inside
    getNotebookContent, `now` the one the operation takes for its own ids and timestamps.
    The page edits are pure functions on `NotebookContent`; the methods load, edit and save
    as the source does. */
module NotebookUtils {
  import opened Basics

  datatype TodoEntry = TodoEntry(id: string, text: string, checked: bool)

  datatype BlockKind = EquationBlock | TextBlock | TodoBlock

  datatype Position = Position(x: real, y: real)

  datatype Block = Block(
    id: string, kind: BlockKind, content: Option<string>, items: Option<seq<TodoEntry>>,
    position: Position, scale: real)

  datatype NotebookPage = NotebookPage(id: string, title: string, blocks: seq<Block>, createdAt: nat)

  datatype NotebookContent = NotebookContent(pages: seq<NotebookPage>, currentPageId: string)

  datatype NotebookMetadata = NotebookMetadata(
    id: string, title: string, subject: string, description: string,
    createdAt: nat, updatedAt: nat, colorTheme: string)

  /** `Partial<NotebookMetadata>`: the fields an update overrides. */
  datatype MetadataPatch = MetadataPatch(
    id: Option<string>, title: Option<string>, subject: Option<string>,
    description: Option<string>, createdAt: Option<nat>, updatedAt: Option<nat>,
    colorTheme: Option<string>)

  /** What a stored string parses to: the metadata list, content with pages, a legacy flat
      block array, or text JSON.parse rejects. */
  datatype Stored =
    | MetadataList(notebooks: seq<NotebookMetadata>)
    | PagedContent(content: NotebookContent)
    | LegacyBlocks(blocks: seq<Block>)
    | Unparsable

  /** A result or the message of a thrown Error. */
  datatype Outcome<T> = Returned(value: T) | Threw(message: string)

  const NotebooksKey: string := "stem-notebooks-list"

  function ContentKey(id: string): (k: string)
    ensures k != NotebooksKey
  {
    assert ("notebook-" + id)[0] == 'n';
    "notebook-" + id
  }

  lemma ContentKeyInjective(a: string, b: string)
    requires ContentKey(a) == ContentKey(b)
    ensures a == b
  {
    assert a == ContentKey(a)[9..] && b == ContentKey(b)[9..];
  }

  /** The ids `page-${Date.now()}` and `notebook-${Date.now()}`. */
  function PageIdAt(now: nat): string
  {
    "page-" + NatToString(now)
  }

  function NotebookIdAt(now: nat): string
  {
    "notebook-" + NatToString(now)
  }

  // ----- metadata list -----

  /** getAllNotebooks: the stored list, or [] when the key is missing or unreadable. */
  function NotebookList(items: map<string, Stored>): seq<NotebookMetadata>
  {
    if NotebooksKey in items && items[NotebooksKey].MetadataList? then items[NotebooksKey].notebooks
    else []
  }

  function NotebookIndex(list: seq<NotebookMetadata>, id: string): int
  {
    FirstIndex(list, (n: NotebookMetadata) => n.id == id)
  }

  /** getNotebook: the first entry with the id. */
  function FindNotebook(list: seq<NotebookMetadata>, id: string): (r: Option<NotebookMetadata>)
    ensures r.None? <==> forall k :: 0 <= k < |list| ==> list[k].id != id
    ensures r.Some? ==>
      exists k :: 0 <= k < |list| && r.value == list[k] && list[k].id == id &&
        forall j :: 0 <= j < k ==> list[j].id != id
  {
    var k := NotebookIndex(list, id);
    if k == -1 then None else Some(list[k])
  }

  /** `{ ...notebook, ...updates, updatedAt: Date.now() }`. */
  function Merge(n: NotebookMetadata, patch: MetadataPatch, now: nat): (m: NotebookMetadata)
    ensures m.updatedAt == now
    ensures m.id == (if patch.id.Some? then patch.id.value else n.id)
    ensures m.title == (if patch.title.Some? then patch.title.value else n.title)
    ensures m.subject == (if patch.subject.Some? then patch.subject.value else n.subject)
    ensures m.description == (if patch.description.Some? then patch.description.value else n.description)
    ensures m.createdAt == (if patch.createdAt.Some? then patch.createdAt.value else n.createdAt)
    ensures m.colorTheme == (if patch.colorTheme.Some? then patch.colorTheme.value else n.colorTheme)
    ensures patch == MetadataPatch(None, None, None, None, None, None, None) ==> m == n.(updatedAt := now)
  {
    NotebookMetadata(
      if patch.id.Some? then patch.id.value else n.id,
      if patch.title.Some? then patch.title.value else n.title,
      if patch.subject.Some? then patch.subject.value else n.subject,
      if patch.description.Some? then patch.description.value else n.description,
      if patch.createdAt.Some? then patch.createdAt.value else n.createdAt,
      now,
      if patch.colorTheme.Some? then patch.colorTheme.value else n.colorTheme)
  }

  /** The patch saveNotebookContent passes: only a new updatedAt. */
  function TimestampPatch(now: nat): MetadataPatch
  {
    MetadataPatch(None, None, None, None, None, Some(now), None)
  }

  /** updateNotebook on the list: nothing to write (None) exactly when no entry has the id;
      otherwise exactly the first entry with the id is replaced by the merge, stamped with
      the time, and the length and every other entry are kept. */
  function UpdatedList(list: seq<NotebookMetadata>, id: string, patch: MetadataPatch, now: nat)
    : (r: Option<seq<NotebookMetadata>>)
    ensures r.None? <==> forall k :: 0 <= k < |list| ==> list[k].id != id
    ensures r.Some? ==>
      |r.value| == |list| &&
      exists k :: 0 <= k < |list| && list[k].id == id && (forall j :: 0 <= j < k ==> list[j].id != id) &&
        r.value[k] == Merge(list[k], patch, now) && r.value[k].updatedAt == now &&
        forall j :: 0 <= j < |list| && j != k ==> r.value[j] == list[j]
  {
    var k := NotebookIndex(list, id);
    if k == -1 then None else Some(list[k := Merge(list[k], patch, now)])
  }

  /** The store after updateNotebook: rewritten only when the id is found. */
  function Updated(items: map<string, Stored>, id: string, patch: MetadataPatch, now: nat): map<string, Stored>
  {
    match UpdatedList(NotebookList(items), id, patch, now)
    case None => items
    case Some(list) => items[NotebooksKey := MetadataList(list)]
  }

  /** The list deleteNotebook writes: every entry with the id removed, the others kept in
      order. */
  function ListWithout(list: seq<NotebookMetadata>, id: string): (r: seq<NotebookMetadata>)
    ensures forall k :: 0 <= k < |r| ==> r[k].id != id && r[k] in list
    ensures forall k :: 0 <= k < |list| && list[k].id != id ==> list[k] in r
  {
    Filter(list, (n: NotebookMetadata) => n.id != id)
  }

  /** Deleting a notebook just created under an id no other entry has restores the list. */
  lemma DeleteAfterCreate(list: seq<NotebookMetadata>, n: NotebookMetadata)
    requires forall k :: 0 <= k < |list| ==> list[k].id != n.id
    ensures ListWithout(list + [n], n.id) == list
  {
    var keep := (m: NotebookMetadata) => m.id != n.id;
    FilterAppend(list, [n], keep);
    FilterKeepsAll(list, keep);
    assert Filter([n], keep) == [];
  }

  // ----- content -----

  /** A content with one page "Page 1" holding `blocks`, current, named after the clock. */
  function FirstPageContent(blocks: seq<Block>, now: nat): NotebookContent
  {
    NotebookContent([NotebookPage(PageIdAt(now), "Page 1", blocks, now)], PageIdAt(now))
  }

  /** getNotebookContent's answer: the default one-page content when the key is missing, the
      stored content, the legacy block array migrated onto one page, or null when the text
      does not parse. */
  function LoadedContent(items: map<string, Stored>, id: string, loadNow: nat): Option<NotebookContent>
  {
    var key := ContentKey(id);
    if key !in items then Some(FirstPageContent([], loadNow))
    else
      match items[key]
      case PagedContent(c) => Some(c)
      case LegacyBlocks(blocks) => Some(FirstPageContent(blocks, loadNow))
      case _ => None
  }

  /** The store after getNotebookContent: a migrated legacy array is written back. */
  function AfterLoad(items: map<string, Stored>, id: string, loadNow: nat): map<string, Stored>
  {
    var key := ContentKey(id);
    if key in items && items[key].LegacyBlocks? then
      items[key := PagedContent(FirstPageContent(items[key].blocks, loadNow))]
    else items
  }

  /** The store after saveNotebookContent: the content written, then the notebook's entry
      (if any) stamped with the time. */
  function Saved(items: map<string, Stored>, id: string, c: NotebookContent, now: nat): map<string, Stored>
  {
    Updated(items[ContentKey(id) := PagedContent(c)], id, TimestampPatch(now), now)
  }

  /** The current page names one of the pages. */
  predicate CurrentIsValid(c: NotebookContent)
  {
    exists k :: 0 <= k < |c.pages| && c.pages[k].id == c.currentPageId
  }

  /** Loading yields a content whose current page exists, unless the stored content already
      broke that; migration keeps every legacy block on the one page it creates. */
  lemma LoadedContentSpec(items: map<string, Stored>, id: string, loadNow: nat)
    ensures ContentKey(id) !in items ==>
      LoadedContent(items, id, loadNow) == Some(FirstPageContent([], loadNow)) &&
      AfterLoad(items, id, loadNow) == items
    ensures (LoadedContent(items, id, loadNow).Some? && ContentKey(id) in items &&
      items[ContentKey(id)].PagedContent?) ==>
      AfterLoad(items, id, loadNow) == items &&
      LoadedContent(items, id, loadNow).value == items[ContentKey(id)].content
    ensures ContentKey(id) in items && items[ContentKey(id)].LegacyBlocks? ==>
      var c := LoadedContent(items, id, loadNow).value;
      |c.pages| == 1 && c.pages[0].blocks == items[ContentKey(id)].blocks &&
      c.pages[0].title == "Page 1" && CurrentIsValid(c) &&
      AfterLoad(items, id, loadNow)[ContentKey(id)] == PagedContent(c)
    ensures LoadedContent(items, id, loadNow).None? <==>
      ContentKey(id) in items && (items[ContentKey(id)].Unparsable? || items[ContentKey(id)].MetadataList?)
    ensures forall key :: key in items && key != ContentKey(id) ==>
      key in AfterLoad(items, id, loadNow) && AfterLoad(items, id, loadNow)[key] == items[key]
  {
    var c := FirstPageContent([], loadNow);
    assert c.pages[0].id == c.currentPageId;
  }

  /** Loading twice at the same time loads the same content: a migrated array is read back
      as the content it was migrated to. */
  lemma LoadIsStable(items: map<string, Stored>, id: string, loadNow: nat, later: nat)
    requires LoadedContent(items, id, loadNow).Some? && ContentKey(id) in items
    ensures LoadedContent(AfterLoad(items, id, loadNow), id, later) == LoadedContent(items, id, loadNow)
  {
  }

  function PageIndex(pages: seq<NotebookPage>, pageId: string): int
  {
    FirstIndex(pages, (p: NotebookPage) => p.id == pageId)
  }

  /** `title || \`Page ${n}\``: an absent or empty title falls back to "Page n". */
  function PageTitle(title: Option<string>, n: nat): string
  {
    if title.Some? && title.value != "" then title.value else "Page " + NatToString(n)
  }

  /** The page createPage builds. */
  function NewPage(c: NotebookContent, title: Option<string>, now: nat): NotebookPage
  {
    NotebookPage(PageIdAt(now), PageTitle(title, |c.pages| + 1), [], now)
  }

  /** createPage's content: the page appended and made current. */
  function WithNewPage(c: NotebookContent, page: NotebookPage): NotebookContent
  {
    NotebookContent(c.pages + [page], page.id)
  }

  /** deletePage's content, or None when it refuses: on the last page, or when no page has
      the id. The first page with the id goes; if it was current the first remaining page
      becomes current. */
  function WithoutPage(c: NotebookContent, pageId: string): Option<NotebookContent>
  {
    if |c.pages| == 1 then None
    else
      var k := PageIndex(c.pages, pageId);
      if k == -1 then None
      else
        var pages := c.pages[..k] + c.pages[k + 1..];
        Some(NotebookContent(pages, if c.currentPageId == pageId then pages[0].id else c.currentPageId))
  }

  /** renamePage's content: refused exactly when no page has the id; otherwise the first
      page with the id is retitled and nothing else changes. */
  function Renamed(c: NotebookContent, pageId: string, title: string): (r: Option<NotebookContent>)
    ensures r.None? <==> forall k :: 0 <= k < |c.pages| ==> c.pages[k].id != pageId
    ensures r.Some? ==>
      r.value.currentPageId == c.currentPageId && |r.value.pages| == |c.pages| &&
      exists k :: 0 <= k < |c.pages| && c.pages[k].id == pageId &&
        (forall j :: 0 <= j < k ==> c.pages[j].id != pageId) &&
        r.value.pages[k] == c.pages[k].(title := title) &&
        forall j :: 0 <= j < |c.pages| && j != k ==> r.value.pages[j] == c.pages[j]
  {
    var k := PageIndex(c.pages, pageId);
    if k == -1 then None
    else Some(c.(pages := c.pages[k := c.pages[k].(title := title)]))
  }

  /** savePageBlocks's content: refused exactly when no page has the id; otherwise the
      first page with the id holds the blocks, which getPageBlocks then returns, and nothing
      else changes. */
  function WithPageBlocks(c: NotebookContent, pageId: string, blocks: seq<Block>): (r: Option<NotebookContent>)
    ensures r.None? <==> forall k :: 0 <= k < |c.pages| ==> c.pages[k].id != pageId
    ensures r.Some? ==>
      r.value.currentPageId == c.currentPageId && |r.value.pages| == |c.pages| &&
      PageBlocks(r, pageId) == blocks &&
      exists k :: 0 <= k < |c.pages| && c.pages[k].id == pageId &&
        (forall j :: 0 <= j < k ==> c.pages[j].id != pageId) &&
        r.value.pages[k] == c.pages[k].(blocks := blocks) &&
        forall j :: 0 <= j < |c.pages| && j != k ==> r.value.pages[j] == c.pages[j]
  {
    var k := PageIndex(c.pages, pageId);
    if k == -1 then None
    else
      var pages := c.pages[k := c.pages[k].(blocks := blocks)];
      assert pages[k].id == pageId && forall j :: 0 <= j < k ==> pages[j] == c.pages[j];
      Some(c.(pages := pages))
  }

  /** switchToPage's content: the id made current, when a page has it. */
  function SwitchedTo(c: NotebookContent, pageId: string): Option<NotebookContent>
  {
    if PageIndex(c.pages, pageId) == -1 then None else Some(c.(currentPageId := pageId))
  }

  /** getPageBlocks: the blocks of the first page with the id, or []. */
  function PageBlocks(c: Option<NotebookContent>, pageId: string): seq<Block>
  {
    if c.None? then []
    else
      var k := PageIndex(c.value.pages, pageId);
      if k == -1 then [] else c.value.pages[k].blocks
  }

  /** getPageCount: `content?.pages.length || 0`. */
  function PageCount(c: Option<NotebookContent>): nat
  {
    if c.None? then 0 else |c.value.pages|
  }

  /** The reduce in getNotebookBlockCount, from the left. */
  function SumBlocks(pages: seq<NotebookPage>): nat
  {
    if pages == [] then 0 else SumBlocks(DropLast(pages)) + |Last(pages).blocks|
  }

  function BlockCount(c: Option<NotebookContent>): nat
  {
    if c.None? then 0 else SumBlocks(c.value.pages)
  }

  /** Every block of every page, page by page. */
  function AllBlocks(pages: seq<NotebookPage>): seq<Block>
  {
    if pages == [] then [] else pages[0].blocks + AllBlocks(pages[1..])
  }

  lemma {:induction false} AllBlocksAppend(a: seq<NotebookPage>, b: seq<NotebookPage>)
    ensures AllBlocks(a + b) == AllBlocks(a) + AllBlocks(b)
  {
    if a == [] {
      assert a + b == b;
    } else {
      assert (a + b)[1..] == a[1..] + b;
      AllBlocksAppend(a[1..], b);
    }
  }

  /** The block count is the number of blocks on all pages together. */
  lemma {:induction false} SumBlocksCountsAll(pages: seq<NotebookPage>)
    ensures SumBlocks(pages) == |AllBlocks(pages)|
    decreases |pages|
  {
    if pages != [] {
      SumBlocksCountsAll(DropLast(pages));
      assert pages == DropLast(pages) + [Last(pages)];
      AllBlocksAppend(DropLast(pages), [Last(pages)]);
      assert AllBlocks([Last(pages)]) == Last(pages).blocks + AllBlocks([]);
    }
  }

  /** The count splits over a split of the pages. */
  lemma SumBlocksAppend(a: seq<NotebookPage>, b: seq<NotebookPage>)
    ensures SumBlocks(a + b) == SumBlocks(a) + SumBlocks(b)
  {
    SumBlocksCountsAll(a + b);
    SumBlocksCountsAll(a);
    SumBlocksCountsAll(b);
    AllBlocksAppend(a, b);
  }

  // ----- what the page edits promise -----

  /** createPage appends exactly one empty page, titled as given or "Page n" with n the new
      page count, makes it current, and leaves the existing pages and the block count as
      they were. */
  lemma CreatePageSpec(c: NotebookContent, title: Option<string>, now: nat)
    ensures var r := WithNewPage(c, NewPage(c, title, now));
      |r.pages| == |c.pages| + 1 && r.pages[..|c.pages|] == c.pages &&
      r.pages[|c.pages|].blocks == [] && r.pages[|c.pages|].id == r.currentPageId &&
      CurrentIsValid(r) && SumBlocks(r.pages) == SumBlocks(c.pages)
    ensures title.Some? && title.value != [] ==> NewPage(c, title, now).title == title.value
    ensures title.None? || title == Some([]) ==>
      NewPage(c, title, now).title == "Page " + NatToString(|c.pages| + 1)
  {
    var r := WithNewPage(c, NewPage(c, title, now));
    assert r.pages[|c.pages|].id == r.currentPageId;
    SumBlocksAppend(c.pages, [NewPage(c, title, now)]);
    assert DropLast([NewPage(c, title, now)]) == [];
  }

  lemma RemoveAt<T>(s: seq<T>, k: nat)
    requires k < |s|
    ensures |s[..k] + s[k + 1..]| == |s| - 1
    ensures forall j :: 0 <= j < k ==> (s[..k] + s[k + 1..])[j] == s[j]
    ensures forall j :: k < j < |s| ==> (s[..k] + s[k + 1..])[j - 1] == s[j]
  {
  }

  /** deletePage refuses exactly on a one-page notebook or an unknown id. Otherwise it removes
      the first page with the id, keeps the others in order, leaves at least one page, and
      keeps the current page unless that was the one removed, in which case the first
      remaining page becomes current; a valid current page stays valid. */
  lemma DeletePageSpec(c: NotebookContent, pageId: string)
    ensures WithoutPage(c, pageId).None? <==>
      |c.pages| == 1 || forall k :: 0 <= k < |c.pages| ==> c.pages[k].id != pageId
    ensures WithoutPage(c, pageId).Some? ==>
      var r := WithoutPage(c, pageId).value;
      |r.pages| == |c.pages| - 1 >= 1 &&
      (exists k :: 0 <= k < |c.pages| && c.pages[k].id == pageId &&
        (forall j :: 0 <= j < k ==> c.pages[j].id != pageId) &&
        r.pages == c.pages[..k] + c.pages[k + 1..]) &&
      (c.currentPageId == pageId ==> r.currentPageId == r.pages[0].id) &&
      (c.currentPageId != pageId ==> r.currentPageId == c.currentPageId) &&
      (CurrentIsValid(c) ==> CurrentIsValid(r))
  {
    if WithoutPage(c, pageId).Some? {
      var k := PageIndex(c.pages, pageId);
      var r := WithoutPage(c, pageId).value;
      RemoveAt(c.pages, k);
      if c.currentPageId == pageId {
        assert r.pages[0].id == r.currentPageId;
      } else if CurrentIsValid(c) {
        var m :| 0 <= m < |c.pages| && c.pages[m].id == c.currentPageId;
        assert m != k;
        if m < k {
          assert r.pages[m].id == r.currentPageId;
        } else {
          assert r.pages[m - 1].id == r.currentPageId;
        }
      }
    }
  }

  /** Deleting the page just created, under an id no older page has, gives back the old
      pages and makes the first of them current. */
  lemma DeleteCreatedPage(c: NotebookContent, title: Option<string>, now: nat)
    requires |c.pages| >= 1
    requires forall k :: 0 <= k < |c.pages| ==> c.pages[k].id != PageIdAt(now)
    ensures WithoutPage(WithNewPage(c, NewPage(c, title, now)), PageIdAt(now))
      == Some(NotebookContent(c.pages, c.pages[0].id))
  {
    var r := WithNewPage(c, NewPage(c, title, now));
    var n := |c.pages|;
    assert forall k :: 0 <= k < n ==> r.pages[k] == c.pages[k];
    assert r.pages[n].id == PageIdAt(now);
    var i := PageIndex(r.pages, PageIdAt(now));
    assert i == n;
    assert r.pages[..n] + r.pages[n + 1..] == c.pages;
  }

  /** Renaming back to the old title restores the content. */
  lemma RenameBack(c: NotebookContent, pageId: string, title: string)
    requires Renamed(c, pageId, title).Some?
    ensures var k := PageIndex(c.pages, pageId);
      Renamed(Renamed(c, pageId, title).value, pageId, c.pages[k].title) == Some(c)
  {
    var k := PageIndex(c.pages, pageId);
    var r := Renamed(c, pageId, title).value;
    assert forall j :: 0 <= j < |r.pages| ==> r.pages[j].id == c.pages[j].id;
    assert PageIndex(r.pages, pageId) == k;
    assert r.pages[k := r.pages[k].(title := c.pages[k].title)] == c.pages;
  }

  /** Saving blocks to a page changes the block count by the difference in that page. */
  lemma SaveBlocksCount(c: NotebookContent, pageId: string, blocks: seq<Block>)
    requires WithPageBlocks(c, pageId, blocks).Some?
    ensures var k := PageIndex(c.pages, pageId);
      SumBlocks(WithPageBlocks(c, pageId, blocks).value.pages) + |c.pages[k].blocks|
        == SumBlocks(c.pages) + |blocks|
  {
    var k := PageIndex(c.pages, pageId);
    var p := c.pages[k].(blocks := blocks);
    assert WithPageBlocks(c, pageId, blocks).value.pages == c.pages[k := p];
    SumBlocksUpdate(c.pages, k, p);
  }

  /** The count of a list with one page replaced. */
  lemma SumBlocksUpdate(pages: seq<NotebookPage>, k: nat, p: NotebookPage)
    requires k < |pages|
    ensures SumBlocks(pages[k := p]) + |pages[k].blocks| == SumBlocks(pages) + |p.blocks|
  {
    assert pages == pages[..k] + [pages[k]] + pages[k + 1..];
    assert pages[k := p] == pages[..k] + [p] + pages[k + 1..];
    SumBlocksSplice(pages[..k], pages[k], pages[k + 1..]);
    SumBlocksSplice(pages[..k], p, pages[k + 1..]);
  }

  /** The count of a list with one page in the middle. */
  lemma SumBlocksSplice(before: seq<NotebookPage>, p: NotebookPage, after: seq<NotebookPage>)
    ensures SumBlocks(before + [p] + after) == SumBlocks(before) + |p.blocks| + SumBlocks(after)
  {
    SumBlocksAppend(before + [p], after);
    SumBlocksAppend(before, [p]);
    assert DropLast([p]) == [];
  }

  /** switchToPage makes the id current exactly when a page has it, and that is valid. */
  lemma SwitchSpec(c: NotebookContent, pageId: string)
    ensures SwitchedTo(c, pageId).Some? <==> exists k :: 0 <= k < |c.pages| && c.pages[k].id == pageId
    ensures SwitchedTo(c, pageId).Some? ==>
      SwitchedTo(c, pageId).value.pages == c.pages &&
      SwitchedTo(c, pageId).value.currentPageId == pageId &&
      CurrentIsValid(SwitchedTo(c, pageId).value)
  {
    if SwitchedTo(c, pageId).Some? {
      var k := PageIndex(c.pages, pageId);
      assert c.pages[k].id == pageId;
    }
  }

  /** Page ids come from the clock: a page created in the same millisecond as the default
      page of a notebook with nothing stored gets that page's id, and deleting it by that id
      then removes the default page and keeps the new one. */
  lemma SameInstantPagesShareId(items: map<string, Stored>, id: string, title: Option<string>, now: nat)
    requires ContentKey(id) !in items
    ensures var c := LoadedContent(items, id, now).value;
      var r := WithNewPage(c, NewPage(c, title, now));
      |r.pages| == 2 && r.pages[0].id == r.pages[1].id == PageIdAt(now) &&
      WithoutPage(r, PageIdAt(now)) == Some(NotebookContent([r.pages[1]], PageIdAt(now)))
  {
    var c := LoadedContent(items, id, now).value;
    var r := WithNewPage(c, NewPage(c, title, now));
    assert r.pages[..0] + r.pages[1..] == [r.pages[1]];
  }

  // ----- the store -----

  class NotebookStore {
    var items: map<string, Stored>

    constructor()
      ensures items == map[]
    {
      items := map[];
    }

    function AllNotebooks(): seq<NotebookMetadata>
      reads this
    {
      NotebookList(items)
    }

    /** getNotebook. */
    function Notebook(id: string): (r: Option<NotebookMetadata>)
      reads this
      ensures r == FindNotebook(NotebookList(items), id)
    {
      var list := AllNotebooks();
      var k := NotebookIndex(list, id);
      if k == -1 then None else Some(list[k])
    }

    method CreateNotebook(
      now: nat, title: string, subject: string := "General", description: string := "",
      colorTheme: string := "default")
      returns (n: NotebookMetadata)
      modifies this
      ensures n == NotebookMetadata(NotebookIdAt(now), title, subject, description, now, now, colorTheme)
      ensures items == old(items)[NotebooksKey := MetadataList(NotebookList(old(items)) + [n])]
    {
      var notebooks := AllNotebooks();
      n := NotebookMetadata(NotebookIdAt(now), title, subject, description, now, now, colorTheme);
      notebooks := notebooks + [n];
      items := items[NotebooksKey := MetadataList(notebooks)];
    }

    method UpdateNotebook(id: string, patch: MetadataPatch, now: nat)
      modifies this
      ensures items == Updated(old(items), id, patch, now)
    {
      var notebooks := AllNotebooks();
      var index := FirstIndex(notebooks, (n: NotebookMetadata) => n.id == id);
      if index != -1 {
        notebooks := notebooks[index := Merge(notebooks[index], patch, now)];
        items := items[NotebooksKey := MetadataList(notebooks)];
      }
    }

    method DeleteNotebook(id: string)
      modifies this
      ensures items == old(items)[NotebooksKey := MetadataList(ListWithout(NotebookList(old(items)), id))]
        - {ContentKey(id)}
    {
      var notebooks := AllNotebooks();
      var filtered := Filter(notebooks, (n: NotebookMetadata) => n.id != id);
      items := items[NotebooksKey := MetadataList(filtered)];
      items := items - {ContentKey(id)};
    }

    /** duplicateNotebook: a new entry titled "<title> (Copy)" with the same subject,
        description and theme, and the stored content copied as it is. */
    method DuplicateNotebook(id: string, now: nat) returns (r: Option<NotebookMetadata>)
      modifies this
      ensures r.None? <==> FindNotebook(NotebookList(old(items)), id).None?
      ensures r.None? ==> items == old(items)
      ensures r.Some? ==>
        var n := FindNotebook(NotebookList(old(items)), id).value;
        r.value == NotebookMetadata(NotebookIdAt(now), n.title + " (Copy)", n.subject, n.description,
          now, now, n.colorTheme) &&
        var listed := old(items)[NotebooksKey := MetadataList(NotebookList(old(items)) + [r.value])];
        items == if ContentKey(id) in old(items)
          then listed[ContentKey(r.value.id) := old(items)[ContentKey(id)]]
          else listed
    {
      var notebook := Notebook(id);
      if notebook.None? {
        return None;
      }
      var n := notebook.value;
      ghost var before := items;
      var created := CreateNotebook(now, n.title + " (Copy)", n.subject, n.description, n.colorTheme);
      if ContentKey(id) in items {
        items := items[ContentKey(created.id) := items[ContentKey(id)]];
      }
      return Some(created);
    }

    /** getNotebookContent. */
    method GetNotebookContent(id: string, loadNow: nat) returns (r: Option<NotebookContent>)
      modifies this
      ensures r == LoadedContent(old(items), id, loadNow)
      ensures items == AfterLoad(old(items), id, loadNow)
    {
      var key := ContentKey(id);
      if key !in items {
        var pageId := PageIdAt(loadNow);
        return Some(NotebookContent([NotebookPage(pageId, "Page 1", [], loadNow)], pageId));
      }
      var stored := items[key];
      if stored.LegacyBlocks? {
        var pageId := PageIdAt(loadNow);
        var migrated := NotebookContent([NotebookPage(pageId, "Page 1", stored.blocks, loadNow)], pageId);
        items := items[key := PagedContent(migrated)];
        return Some(migrated);
      }
      if stored.PagedContent? {
        return Some(stored.content);
      }
      return None;
    }

    /** saveNotebookContent. */
    method SaveNotebookContent(id: string, content: NotebookContent, now: nat)
      modifies this
      ensures items == Saved(old(items), id, content, now)
    {
      items := items[ContentKey(id) := PagedContent(content)];
      UpdateNotebook(id, TimestampPatch(now), now);
    }

    /** getNotebookBlockCount. */
    method NotebookBlockCount(id: string, loadNow: nat) returns (count: nat)
      modifies this
      ensures count == BlockCount(LoadedContent(old(items), id, loadNow))
      ensures items == AfterLoad(old(items), id, loadNow)
    {
      var content := GetNotebookContent(id, loadNow);
      if content.None? {
        return 0;
      }
      var pages := content.value.pages;
      count := 0;
      for i := 0 to |pages|
        invariant count == SumBlocks(pages[..i])
      {
        assert DropLast(pages[..i + 1]) == pages[..i];
        count := count + |pages[i].blocks|;
      }
      assert pages[..|pages|] == pages;
    }

    /** createPage: throws "Notebook not found" when the content does not load. */
    method CreatePage(notebookId: string, title: Option<string>, loadNow: nat, now: nat)
      returns (r: Outcome<NotebookPage>)
      modifies this
      ensures var c := LoadedContent(old(items), notebookId, loadNow);
        var loaded := AfterLoad(old(items), notebookId, loadNow);
        if c.None? then r == Threw("Notebook not found") && items == loaded
        else (r == Returned(NewPage(c.value, title, now)) &&
          items == Saved(loaded, notebookId, WithNewPage(c.value, r.value), now))
    {
      var content := GetNotebookContent(notebookId, loadNow);
      if content.None? {
        return Threw("Notebook not found");
      }
      var pageNumber := |content.value.pages| + 1;
      var pageTitle := if title.Some? && title.value != "" then title.value else "Page " + NatToString(pageNumber);
      var newPage := NotebookPage(PageIdAt(now), pageTitle, [], now);
      var pages := content.value.pages + [newPage];
      SaveNotebookContent(notebookId, NotebookContent(pages, newPage.id), now);
      return Returned(newPage);
    }

    method DeletePage(notebookId: string, pageId: string, loadNow: nat, now: nat) returns (ok: bool)
      modifies this
      ensures var c := LoadedContent(old(items), notebookId, loadNow);
        var loaded := AfterLoad(old(items), notebookId, loadNow);
        ok == (c.Some? && WithoutPage(c.value, pageId).Some?) &&
        items == if ok then Saved(loaded, notebookId, WithoutPage(c.value, pageId).value, now) else loaded
    {
      var content := GetNotebookContent(notebookId, loadNow);
      if content.None? {
        return false;
      }
      var pages := content.value.pages;
      if |pages| == 1 {
        return false;
      }
      var pageIndex := FirstIndex(pages, (p: NotebookPage) => p.id == pageId);
      if pageIndex == -1 {
        return false;
      }
      pages := pages[..pageIndex] + pages[pageIndex + 1..];
      var current := content.value.currentPageId;
      if current == pageId {
        current := pages[0].id;
      }
      assert NotebookContent(pages, current) == WithoutPage(content.value, pageId).value;
      SaveNotebookContent(notebookId, NotebookContent(pages, current), now);
      return true;
    }

    method RenamePage(notebookId: string, pageId: string, newTitle: string, loadNow: nat, now: nat)
      returns (ok: bool)
      modifies this
      ensures var c := LoadedContent(old(items), notebookId, loadNow);
        var loaded := AfterLoad(old(items), notebookId, loadNow);
        ok == (c.Some? && Renamed(c.value, pageId, newTitle).Some?) &&
        items == if ok then Saved(loaded, notebookId, Renamed(c.value, pageId, newTitle).value, now) else loaded
    {
      var content := GetNotebookContent(notebookId, loadNow);
      if content.None? {
        return false;
      }
      var pages := content.value.pages;
      var k := FirstIndex(pages, (p: NotebookPage) => p.id == pageId);
      if k == -1 {
        return false;
      }
      pages := pages[k := pages[k].(title := newTitle)];
      SaveNotebookContent(notebookId, content.value.(pages := pages), now);
      return true;
    }

    /** getPageBlocks. */
    method GetPageBlocks(notebookId: string, pageId: string, loadNow: nat) returns (blocks: seq<Block>)
      modifies this
      ensures blocks == PageBlocks(LoadedContent(old(items), notebookId, loadNow), pageId)
      ensures items == AfterLoad(old(items), notebookId, loadNow)
    {
      var content := GetNotebookContent(notebookId, loadNow);
      if content.None? {
        return [];
      }
      var k := FirstIndex(content.value.pages, (p: NotebookPage) => p.id == pageId);
      blocks := if k == -1 then [] else content.value.pages[k].blocks;
    }

    method SavePageBlocks(notebookId: string, pageId: string, blocks: seq<Block>, loadNow: nat, now: nat)
      modifies this
      ensures var c := LoadedContent(old(items), notebookId, loadNow);
        var loaded := AfterLoad(old(items), notebookId, loadNow);
        items == if c.Some? && WithPageBlocks(c.value, pageId, blocks).Some?
          then Saved(loaded, notebookId, WithPageBlocks(c.value, pageId, blocks).value, now)
          else loaded
    {
      var content := GetNotebookContent(notebookId, loadNow);
      if content.None? {
        return;
      }
      var pages := content.value.pages;
      var k := FirstIndex(pages, (p: NotebookPage) => p.id == pageId);
      if k == -1 {
        return;
      }
      pages := pages[k := pages[k].(blocks := blocks)];
      SaveNotebookContent(notebookId, content.value.(pages := pages), now);
    }

    method SwitchToPage(notebookId: string, pageId: string, loadNow: nat, now: nat) returns (ok: bool)
      modifies this
      ensures var c := LoadedContent(old(items), notebookId, loadNow);
        var loaded := AfterLoad(old(items), notebookId, loadNow);
        ok == (c.Some? && SwitchedTo(c.value, pageId).Some?) &&
        items == if ok then Saved(loaded, notebookId, SwitchedTo(c.value, pageId).value, now) else loaded
    {
      var content := GetNotebookContent(notebookId, loadNow);
      if content.None? {
        return false;
      }
      var k := FirstIndex(content.value.pages, (p: NotebookPage) => p.id == pageId);
      if k == -1 {
        return false;
      }
      SaveNotebookContent(notebookId, content.value.(currentPageId := pageId), now);
      return true;
    }

    /** getPageCount. */
    method GetPageCount(id: string, loadNow: nat) returns (count: nat)
      modifies this
      ensures count == PageCount(LoadedContent(old(items), id, loadNow))
      ensures items == AfterLoad(old(items), id, loadNow)
    {
      var content := GetNotebookContent(id, loadNow);
      count := if content.None? then 0 else |content.value.pages|;
    }
  }

  // ----- the store across operations -----

  /** Saving content never touches another notebook's content, and leaves the metadata list
      as it was apart from the saved notebook's updatedAt. */
  lemma SavedSpec(items: map<string, Stored>, id: string, c: NotebookContent, now: nat)
    ensures var s := Saved(items, id, c, now);
      ContentKey(id) in s && s[ContentKey(id)] == PagedContent(c) &&
      LoadedContent(s, id, now) == Some(c) &&
      (forall key :: key in items && key != ContentKey(id) && key != NotebooksKey ==>
        key in s && s[key] == items[key])
    ensures var list := NotebookList(items);
      NotebookIndex(list, id) != -1 ==>
        NotebookList(Saved(items, id, c, now)) ==
          list[NotebookIndex(list, id) := list[NotebookIndex(list, id)].(updatedAt := now)]
  {
    var w := items[ContentKey(id) := PagedContent(c)];
    assert NotebookList(w) == NotebookList(items);
  }
}
