/** The study builder screen: a study title and description, and a nested
    editor of chapters, each holding pages of text, PDF or audio content. */
module UploadStudy {
  import opened Collections
  import opened Strings

  datatype FileType = Text | Pdf | Audio

  datatype Page = Page(
    id: string,
    title: string,
    content: string,
    fileType: FileType,
    fileName: Option<string>)

  datatype Chapter = Chapter(
    id: string,
    title: string,
    number: int,
    pages: seq<Page>)

  /** A `Partial<Page>`: each present field overwrites the page's. */
  datatype PageUpdate = PageUpdate(
    id: Option<string>,
    title: Option<string>,
    content: Option<string>,
    fileType: Option<FileType>,
    fileName: Option<string>)

  /** The file picked in a page's upload field: its name and MIME type. */
  datatype File = File(name: string, mimeType: string)

  predicate HasChapter(chapters: seq<Chapter>, id: string) {
    exists i :: 0 <= i < |chapters| && chapters[i].id == id
  }

  predicate HasPage(pages: seq<Page>, id: string) {
    exists i :: 0 <= i < |pages| && pages[i].id == id
  }

  // ---------------------------------------------------------------------------
  // Partial page update

  /** `{ ...page, ...updates }`. */
  function Merge(p: Page, u: PageUpdate): (q: Page)
    ensures q.id == u.id.GetOr(p.id) && q.title == u.title.GetOr(p.title)
    ensures q.content == u.content.GetOr(p.content) && q.fileType == u.fileType.GetOr(p.fileType)
    ensures q.fileName == (if u.fileName.Some? then u.fileName else p.fileName)
  {
    Page(u.id.GetOr(p.id), u.title.GetOr(p.title), u.content.GetOr(p.content),
         u.fileType.GetOr(p.fileType), if u.fileName.Some? then u.fileName else p.fileName)
  }

  /** `{ ...u, ...v }`: the later update wins field by field. */
  function Then(u: PageUpdate, v: PageUpdate): PageUpdate {
    PageUpdate(if v.id.Some? then v.id else u.id,
               if v.title.Some? then v.title else u.title,
               if v.content.Some? then v.content else u.content,
               if v.fileType.Some? then v.fileType else u.fileType,
               if v.fileName.Some? then v.fileName else u.fileName)
  }

  /** An update with no field leaves the page as it is, applying the same
      update twice is applying it once, and two updates in a row are one
      combined update. */
  lemma MergeLaws(p: Page, u: PageUpdate, v: PageUpdate)
    ensures Merge(p, PageUpdate(None, None, None, None, None)) == p
    ensures Merge(Merge(p, u), u) == Merge(p, u)
    ensures Merge(Merge(p, u), v) == Merge(p, Then(u, v))
  {
  }

  // ---------------------------------------------------------------------------
  // Chapters

  function IdIs(id: string): Chapter -> bool {
    (c: Chapter) => c.id == id
  }

  function IdIsNot(id: string): Chapter -> bool {
    (c: Chapter) => c.id != id
  }

  function PageIdIs(id: string): Page -> bool {
    (p: Page) => p.id == id
  }

  function PageIdIsNot(id: string): Page -> bool {
    (p: Page) => p.id != id
  }

  /** The list `addChapter` stores: an untitled, empty chapter is appended,
      numbered one past the current count. */
  function WithNewChapter(chapters: seq<Chapter>, newId: string): (r: seq<Chapter>)
    ensures |r| == |chapters| + 1 && r[..|chapters|] == chapters
    ensures r[|chapters|].id == newId && r[|chapters|].title == "" && r[|chapters|].pages == []
    ensures r[|chapters|].number == |chapters| + 1
  {
    chapters + [Chapter(newId, "", |chapters| + 1, [])]
  }

  /** The list `updateChapter(id, title)` stores: only titles change. */
  function Retitled(chapters: seq<Chapter>, id: string, title: string): (r: seq<Chapter>)
    ensures |r| == |chapters|
    ensures forall i :: 0 <= i < |chapters| ==>
      && r[i].id == chapters[i].id && r[i].number == chapters[i].number && r[i].pages == chapters[i].pages
      && r[i].title == (if chapters[i].id == id then title else chapters[i].title)
  {
    MapWhere(IdIs(id), (c: Chapter) => c.(title := title), chapters)
  }

  /** The list `removeChapter(id)` stores; the remaining chapters keep their
      numbers. */
  function WithoutChapter(chapters: seq<Chapter>, id: string): (r: seq<Chapter>)
    ensures forall c :: c in r <==> c in chapters && c.id != id
    ensures !HasChapter(chapters, id) ==> r == chapters
  {
    Filter(IdIsNot(id), chapters)
  }

  /** Rewrites the pages of the chapters with the given id. */
  function MapPages(chapters: seq<Chapter>, id: string, f: seq<Page> -> seq<Page>): (r: seq<Chapter>)
    ensures |r| == |chapters|
    ensures forall i :: 0 <= i < |chapters| ==>
      r[i] == if chapters[i].id == id then chapters[i].(pages := f(chapters[i].pages)) else chapters[i]
  {
    MapWhere(IdIs(id), (c: Chapter) => c.(pages := f(c.pages)), chapters)
  }

  /** A fresh text page with no title and no content. */
  function BlankPage(id: string): Page {
    Page(id, "", "", Text, None)
  }

  function AppendPage(newId: string): seq<Page> -> seq<Page> {
    (ps: seq<Page>) => ps + [BlankPage(newId)]
  }

  function UpdatePages(pageId: string, u: PageUpdate): seq<Page> -> seq<Page> {
    (ps: seq<Page>) => MapWhere(PageIdIs(pageId), (p: Page) => Merge(p, u), ps)
  }

  function DropPages(pageId: string): seq<Page> -> seq<Page> {
    (ps: seq<Page>) => Filter(PageIdIsNot(pageId), ps)
  }

  /** The list `addPage(chapterId)` stores. */
  function WithNewPage(chapters: seq<Chapter>, chapterId: string, newId: string): (r: seq<Chapter>)
    ensures |r| == |chapters|
    ensures forall i :: 0 <= i < |chapters| ==>
      r[i] == if chapters[i].id == chapterId
              then chapters[i].(pages := chapters[i].pages + [BlankPage(newId)])
              else chapters[i]
    ensures !HasChapter(chapters, chapterId) ==> r == chapters
  {
    MapPages(chapters, chapterId, AppendPage(newId))
  }

  /** The list `updatePage(chapterId, pageId, updates)` stores. */
  function WithPageUpdate(chapters: seq<Chapter>, chapterId: string, pageId: string, u: PageUpdate)
    : (r: seq<Chapter>)
    ensures |r| == |chapters|
    ensures forall i :: 0 <= i < |chapters| ==>
      && r[i].id == chapters[i].id && r[i].title == chapters[i].title && r[i].number == chapters[i].number
      && |r[i].pages| == |chapters[i].pages|
      && (chapters[i].id != chapterId ==> r[i] == chapters[i])
      && (chapters[i].id == chapterId ==> forall j :: 0 <= j < |chapters[i].pages| ==>
            r[i].pages[j] == if chapters[i].pages[j].id == pageId
                             then Merge(chapters[i].pages[j], u)
                             else chapters[i].pages[j])
  {
    MapPages(chapters, chapterId, UpdatePages(pageId, u))
  }

  /** The list `removePage(chapterId, pageId)` stores. */
  function WithoutPage(chapters: seq<Chapter>, chapterId: string, pageId: string): (r: seq<Chapter>)
    ensures |r| == |chapters|
    ensures forall i :: 0 <= i < |chapters| ==>
      && r[i].id == chapters[i].id && r[i].title == chapters[i].title && r[i].number == chapters[i].number
      && (chapters[i].id != chapterId ==> r[i] == chapters[i])
      && (chapters[i].id == chapterId ==>
            forall p :: p in r[i].pages <==> p in chapters[i].pages && p.id != pageId)
  {
    MapPages(chapters, chapterId, DropPages(pageId))
  }

  /** Retitling a chapter twice keeps only the second title. */
  lemma RetitleOverwrites(chapters: seq<Chapter>, id: string, title1: string, title2: string)
    ensures Retitled(Retitled(chapters, id, title1), id, title2) == Retitled(chapters, id, title2)
  {
  }

  /** Applying the same page update twice (typing the same text, uploading the
      same file) is the same as applying it once. */
  lemma PageUpdateIdempotent(chapters: seq<Chapter>, chapterId: string, pageId: string, u: PageUpdate)
    ensures WithPageUpdate(WithPageUpdate(chapters, chapterId, pageId, u), chapterId, pageId, u)
         == WithPageUpdate(chapters, chapterId, pageId, u)
  {
    var once := WithPageUpdate(chapters, chapterId, pageId, u);
    var twice := WithPageUpdate(once, chapterId, pageId, u);
    forall i | 0 <= i < |chapters| ensures twice[i] == once[i] {
      if chapters[i].id == chapterId {
        forall j | 0 <= j < |chapters[i].pages| ensures twice[i].pages[j] == once[i].pages[j] {
          MergeLaws(chapters[i].pages[j], u, u);
        }
      }
    }
  }

  /** Adding a chapter under a fresh id and removing it again gives back the
      original list. */
  lemma RemoveUndoesAdd(chapters: seq<Chapter>, newId: string)
    requires !HasChapter(chapters, newId)
    ensures WithoutChapter(WithNewChapter(chapters, newId), newId) == chapters
  {
    var added := WithNewChapter(chapters, newId);
    var p := IdIsNot(newId);
    assert added == chapters + [added[|chapters|]];
    FilterAppend(p, chapters, [added[|chapters|]]);
  }

  /** Removing a chapter does not renumber the others: a surviving chapter
      keeps its number. */
  lemma RemoveKeepsNumbers(chapters: seq<Chapter>, id: string, c: Chapter)
    requires c in WithoutChapter(chapters, id)
    ensures c in chapters && c.id != id
  {
  }

  /** Because removal does not renumber and addition numbers by count, two
      chapters can end up with the same number: add "a" and "b", remove "a",
      add "c", and both remaining chapters are chapter 2. */
  lemma NumbersCanRepeat()
    ensures var r := WithNewChapter(WithoutChapter(WithNewChapter(WithNewChapter([], "a"), "b"), "a"), "c");
      |r| == 2 && r[0].number == 2 && r[1].number == 2
  {
    var two := WithNewChapter(WithNewChapter([], "a"), "b");
    assert two == [Chapter("a", "", 1, []), Chapter("b", "", 2, [])];
    var p := IdIsNot("a");
    assert two[1..] == [two[1]];
    assert Filter(p, two[1..][1..]) == [];
    assert WithoutChapter(two, "a") == [Chapter("b", "", 2, [])];
  }

  /** Adding a page under a fresh id and removing it again gives back the
      original chapters. */
  lemma RemovePageUndoesAdd(chapters: seq<Chapter>, chapterId: string, newId: string)
    requires forall i :: 0 <= i < |chapters| && chapters[i].id == chapterId ==> !HasPage(chapters[i].pages, newId)
    ensures WithoutPage(WithNewPage(chapters, chapterId, newId), chapterId, newId) == chapters
  {
    var added := WithNewPage(chapters, chapterId, newId);
    var r := WithoutPage(added, chapterId, newId);
    forall i | 0 <= i < |chapters| ensures r[i] == chapters[i] {
      if chapters[i].id == chapterId {
        var ps := chapters[i].pages;
        FilterAppend(PageIdIsNot(newId), ps, [BlankPage(newId)]);
        assert r[i].pages == DropPages(newId)(ps + [BlankPage(newId)]);
      }
    }
  }

  // ---------------------------------------------------------------------------
  // File upload and publishing

  /** The page type picked from the MIME type: "pdf" is tested first, then
      "audio"; anything else is text. */
  function ClassifyFile(mimeType: string): (t: FileType)
    ensures t == Pdf <==> Includes(mimeType, "pdf")
    ensures t == Audio <==> !Includes(mimeType, "pdf") && Includes(mimeType, "audio")
    ensures t == Text <==> !Includes(mimeType, "pdf") && !Includes(mimeType, "audio")
  {
    if Includes(mimeType, "pdf") then Pdf
    else if Includes(mimeType, "audio") then Audio
    else Text
  }

  /** The update `handleFileUpload` applies: the file name, the type, and a
      content line naming the file for PDF and audio files (empty otherwise). */
  function UploadUpdate(file: File): (u: PageUpdate)
    ensures u.id.None? && u.title.None?
    ensures u.fileName == Some(file.name) && u.fileType == Some(ClassifyFile(file.mimeType))
    ensures u.content == Some(if ClassifyFile(file.mimeType) == Text then "" else "File: " + file.name)
  {
    var fileType := ClassifyFile(file.mimeType);
    var content := if Includes(file.mimeType, "pdf") || Includes(file.mimeType, "audio")
                   then "File: " + file.name else "";
    PageUpdate(None, None, Some(content), Some(fileType), Some(file.name))
  }

  /** A MIME type mentioning both "pdf" and "audio" is classified as PDF. */
  lemma PdfTestedFirst(mimeType: string)
    requires Includes(mimeType, "pdf") && Includes(mimeType, "audio")
    ensures ClassifyFile(mimeType) == Pdf
  {
  }

  /** The MIME-type test is case-sensitive: an upper-case "PDF" is neither
      "pdf" nor "audio", so such a file becomes a text page. */
  lemma MimeTestIsCaseSensitive()
    ensures ClassifyFile("application/PDF") == Text
  {
    var mime := "application/PDF";
    assert forall i :: 0 <= i < |mime| ==> mime[i] != 'd' && mime[i] != 'u';
    assert "pdf"[1] == 'd' && "audio"[1] == 'u';
    MissingCharExcludes(mime, "pdf", 'd');
    MissingCharExcludes(mime, "audio", 'u');
  }

  /** The Publish button is enabled unless an upload is running or the title
      is blank. */
  function PublishEnabled(isUploading: bool, studyTitle: string): (b: bool)
    ensures b <==> !isUploading && exists i :: 0 <= i < |studyTitle| && !IsWhitespace(studyTitle[i])
  {
    !isUploading && Trim(studyTitle) != []
  }

  // ---------------------------------------------------------------------------
  // Screen state

  class Editor {
    var studyTitle: string
    var studyDescription: string
    var chapters: seq<Chapter>
    var isUploading: bool

    constructor ()
      ensures studyTitle == "" && studyDescription == "" && chapters == [] && !isUploading
    {
      studyTitle := "";
      studyDescription := "";
      chapters := [];
      isUploading := false;
    }

    function CanPublish(): (b: bool)
      reads this
      ensures b <==> !isUploading && exists i :: 0 <= i < |studyTitle| && !IsWhitespace(studyTitle[i])
    {
      PublishEnabled(isUploading, studyTitle)
    }

    method SetStudyTitle(title: string)
      modifies this
      ensures studyTitle == title
      ensures studyDescription == old(studyDescription) && chapters == old(chapters)
      ensures isUploading == old(isUploading)
    {
      studyTitle := title;
    }

    method SetStudyDescription(description: string)
      modifies this
      ensures studyDescription == description
      ensures studyTitle == old(studyTitle) && chapters == old(chapters)
      ensures isUploading == old(isUploading)
    {
      studyDescription := description;
    }

    /** `addChapter`, with the generated id passed in. */
    method AddChapter(newId: string)
      modifies this
      ensures chapters == WithNewChapter(old(chapters), newId)
      ensures studyTitle == old(studyTitle) && studyDescription == old(studyDescription)
      ensures isUploading == old(isUploading)
    {
      chapters := WithNewChapter(chapters, newId);
    }

    method UpdateChapter(chapterId: string, title: string)
      modifies this
      ensures chapters == Retitled(old(chapters), chapterId, title)
      ensures studyTitle == old(studyTitle) && studyDescription == old(studyDescription)
      ensures isUploading == old(isUploading)
    {
      chapters := Retitled(chapters, chapterId, title);
    }

    method RemoveChapter(chapterId: string)
      modifies this
      ensures chapters == WithoutChapter(old(chapters), chapterId)
      ensures studyTitle == old(studyTitle) && studyDescription == old(studyDescription)
      ensures isUploading == old(isUploading)
    {
      chapters := WithoutChapter(chapters, chapterId);
    }

    /** `addPage(chapterId)`, with the generated id passed in. */
    method AddPage(chapterId: string, newId: string)
      modifies this
      ensures chapters == WithNewPage(old(chapters), chapterId, newId)
      ensures studyTitle == old(studyTitle) && studyDescription == old(studyDescription)
      ensures isUploading == old(isUploading)
    {
      chapters := WithNewPage(chapters, chapterId, newId);
    }

    method UpdatePage(chapterId: string, pageId: string, u: PageUpdate)
      modifies this
      ensures chapters == WithPageUpdate(old(chapters), chapterId, pageId, u)
      ensures studyTitle == old(studyTitle) && studyDescription == old(studyDescription)
      ensures isUploading == old(isUploading)
    {
      chapters := WithPageUpdate(chapters, chapterId, pageId, u);
    }

    method RemovePage(chapterId: string, pageId: string)
      modifies this
      ensures chapters == WithoutPage(old(chapters), chapterId, pageId)
      ensures studyTitle == old(studyTitle) && studyDescription == old(studyDescription)
      ensures isUploading == old(isUploading)
    {
      chapters := WithoutPage(chapters, chapterId, pageId);
    }

    /** `handleFileUpload`: a partial update of the page from the file. */
    method HandleFileUpload(chapterId: string, pageId: string, file: File)
      modifies this
      ensures chapters == WithPageUpdate(old(chapters), chapterId, pageId, UploadUpdate(file))
      ensures studyTitle == old(studyTitle) && studyDescription == old(studyDescription)
      ensures isUploading == old(isUploading)
    {
      UpdatePage(chapterId, pageId, UploadUpdate(file));
    }

    /** The start of `handleSaveStudy`, reachable only through the enabled
        Publish button; while it runs the button is disabled, so no second
        save can start. */
    method BeginSave()
      requires CanPublish()
      modifies this
      ensures isUploading && !CanPublish()
      ensures studyTitle == old(studyTitle) && studyDescription == old(studyDescription)
      ensures chapters == old(chapters)
    {
      isUploading := true;
    }

    /** The end of `handleSaveStudy`, after the simulated delay: the data is
        unchanged and the button is enabled again. */
    method EndSave()
      requires isUploading
      modifies this
      ensures !isUploading
      ensures studyTitle == old(studyTitle) && studyDescription == old(studyDescription)
      ensures chapters == old(chapters)
    {
      isUploading := false;
    }
  }
}
