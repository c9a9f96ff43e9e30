/** The study catalogue screen: a list of studies that can be locked, unlocked
    and deleted (after a confirmation dialog), shown through a search box and a
    status filter. */
module ManageStudies {
  import opened Collections
  import opened Strings

  datatype PublishStatus = Published | Draft

  datatype Study = Study(
    id: string,
    title: string,
    description: string,
    chapters: int,
    enrolledUsers: int,
    isLocked: bool,
    createdAt: string,
    lastModified: string,
    status: PublishStatus)

  /** The choices of the status drop-down; `FilterLocked` is a pseudo-status
      tested against the lock flag rather than against `status`. */
  datatype StatusFilter = FilterAll | FilterPublished | FilterDraft | FilterLocked

  /** The badge text shown on a study card. */
  datatype Badge = LockedBadge | PublishedBadge | DraftBadge

  /** The badge colour (red, green or yellow Tailwind classes). */
  datatype BadgeColor = Red | Green | Yellow

  ghost predicate IdsDistinct(studies: seq<Study>) {
    forall i, j :: 0 <= i < j < |studies| ==> studies[i].id != studies[j].id
  }

  predicate HasId(studies: seq<Study>, id: string) {
    exists i :: 0 <= i < |studies| && studies[i].id == id
  }

  // ---------------------------------------------------------------------------
  // Mutations

  function IdIs(id: string): Study -> bool {
    (s: Study) => s.id == id
  }

  function IdIsNot(id: string): Study -> bool {
    (s: Study) => s.id != id
  }

  function FlipLock(s: Study): Study {
    s.(isLocked := !s.isLocked)
  }

  /** The new list `toggleLock(id)` stores. */
  function ToggledLock(studies: seq<Study>, id: string): (r: seq<Study>)
    ensures |r| == |studies|
    ensures forall i :: 0 <= i < |studies| ==>
      r[i].isLocked == (studies[i].isLocked != (studies[i].id == id))
    ensures forall i :: 0 <= i < |studies| ==> r[i] == studies[i].(isLocked := r[i].isLocked)
  {
    MapWhere(IdIs(id), FlipLock, studies)
  }

  /** The new list `deleteStudy(id)` stores. */
  function WithoutStudy(studies: seq<Study>, id: string): (r: seq<Study>)
    ensures |r| <= |studies|
    ensures forall s :: s in r <==> s in studies && s.id != id
    ensures !HasId(studies, id) ==> r == studies
  {
    Filter(IdIsNot(id), studies)
  }

  /** Toggling the same study twice restores the list. */
  lemma ToggleTwiceRestores(studies: seq<Study>, id: string)
    ensures ToggledLock(ToggledLock(studies, id), id) == studies
  {
    MapWhereInvolution(IdIs(id), FlipLock, studies);
  }

  /** Toggling an id no study has changes nothing. */
  lemma ToggleAbsentIsIdentity(studies: seq<Study>, id: string)
    requires !HasId(studies, id)
    ensures ToggledLock(studies, id) == studies
  {
  }

  /** The deleted list keeps the original order. */
  lemma DeleteKeepsOrder(studies: seq<Study>, id: string)
    ensures IsSubsequence(WithoutStudy(studies, id), studies)
  {
    FilterIsSubsequence(IdIsNot(id), studies);
  }

  /** With distinct ids, deleting removes exactly one study when the id is
      present and none when it is absent, and the ids stay distinct. */
  lemma {:induction false} DeleteRemovesAtMostOne(studies: seq<Study>, id: string)
    requires IdsDistinct(studies)
    ensures |WithoutStudy(studies, id)| == |studies| - (if HasId(studies, id) then 1 else 0)
    ensures IdsDistinct(WithoutStudy(studies, id))
  {
    if studies != [] {
      var t := studies[1..];
      assert studies == [studies[0]] + t;
      DeleteRemovesAtMostOne(t, id);
      if studies[0].id == id {
        assert !HasId(t, id);
        assert WithoutStudy(studies, id) == WithoutStudy(t, id);
      } else {
        assert HasId(studies, id) == HasId(t, id);
        assert WithoutStudy(studies, id) == [studies[0]] + WithoutStudy(t, id);
      }
    }
  }

  // ---------------------------------------------------------------------------
  // Derived view

  /** The search box matches the title or the description, ignoring case. */
  predicate MatchesSearch(s: Study, searchTerm: string) {
    IncludesIgnoringCase(s.title, searchTerm) || IncludesIgnoringCase(s.description, searchTerm)
  }

  /** The status drop-down: "locked" tests the lock flag, "published" and
      "draft" test the stored status whatever the lock flag. */
  predicate MatchesFilter(s: Study, filter: StatusFilter) {
    || filter == FilterAll
    || (filter == FilterLocked && s.isLocked)
    || (filter == FilterPublished && s.status == Published)
    || (filter == FilterDraft && s.status == Draft)
  }

  function Shown(searchTerm: string, filter: StatusFilter): Study -> bool {
    (s: Study) => MatchesSearch(s, searchTerm) && MatchesFilter(s, filter)
  }

  /** `filteredStudies`: the studies matching both the search and the filter. */
  function FilteredStudies(studies: seq<Study>, searchTerm: string, filter: StatusFilter): (r: seq<Study>)
    ensures forall s :: s in r <==> s in studies && MatchesSearch(s, searchTerm) && MatchesFilter(s, filter)
  {
    Filter(Shown(searchTerm, filter), studies)
  }

  /** The view is an order-preserving subsequence of the catalogue. */
  lemma FilteredStudiesKeepsOrder(studies: seq<Study>, searchTerm: string, filter: StatusFilter)
    ensures IsSubsequence(FilteredStudies(studies, searchTerm, filter), studies)
  {
    FilterIsSubsequence(Shown(searchTerm, filter), studies);
  }

  /** An empty search with filter "all" shows the whole catalogue, because
      the empty string is included in every string. */
  lemma EmptySearchShowsAll(studies: seq<Study>)
    ensures FilteredStudies(studies, "", FilterAll) == studies
  {
    forall i | 0 <= i < |studies| ensures Shown("", FilterAll)(studies[i]) {
      IncludesEmpty(ToLower(studies[i].title));
    }
  }

  /** With an empty search, filter "locked" shows exactly the locked studies,
      whatever their stored status (FilteredStudiesKeepsOrder gives the
      order). */
  lemma LockedFilterShowsLocked(studies: seq<Study>)
    ensures forall s :: s in FilteredStudies(studies, "", FilterLocked) <==> s in studies && s.isLocked
  {
    forall s | s in studies ensures MatchesSearch(s, "") {
      IncludesEmpty(ToLower(s.title));
    }
  }

  function StatusOnly(filter: StatusFilter): Study -> bool {
    (s: Study) => MatchesFilter(s, filter)
  }

  /** An empty search matches every study, so only the status filter acts. */
  lemma EmptySearchOnlyFilters(studies: seq<Study>, filter: StatusFilter)
    ensures FilteredStudies(studies, "", filter) == Filter(StatusOnly(filter), studies)
  {
    forall i | 0 <= i < |studies| ensures Shown("", filter)(studies[i]) == StatusOnly(filter)(studies[i]) {
      IncludesEmpty(ToLower(studies[i].title));
    }
    FilterCongruent(Shown("", filter), StatusOnly(filter), studies);
  }

  /** Filters "published" and "draft" ignore the lock flag: a locked study
      whose stored status is published is still listed under "published". */
  lemma PublishedFilterIgnoresLock(s: Study)
    requires s.isLocked && s.status == Published
    ensures MatchesFilter(s, FilterPublished) && MatchesFilter(s, FilterLocked)
    ensures !MatchesFilter(s, FilterDraft)
  {
  }

  /** Two search terms equal up to the case of ASCII letters give the same
      view. */
  lemma SearchIgnoresCase(studies: seq<Study>, term1: string, term2: string, filter: StatusFilter)
    requires ToLower(term1) == ToLower(term2)
    ensures FilteredStudies(studies, term1, filter) == FilteredStudies(studies, term2, filter)
  {
    FilterCongruent(Shown(term1, filter), Shown(term2, filter), studies);
  }

  /** A search term holding a character that no lower-cased title or
      description contains shows nothing, whatever the status filter. */
  lemma NoMatchShowsNothing(studies: seq<Study>, term: string, filter: StatusFilter, c: char)
    requires c in ToLower(term)
    requires forall i :: 0 <= i < |studies| ==>
      c !in ToLower(studies[i].title) && c !in ToLower(studies[i].description)
    ensures FilteredStudies(studies, term, filter) == []
  {
    forall i | 0 <= i < |studies| ensures !Shown(term, filter)(studies[i]) {
      MissingCharExcludes(ToLower(studies[i].title), ToLower(term), c);
      MissingCharExcludes(ToLower(studies[i].description), ToLower(term), c);
    }
    FilterEmptyIff(Shown(term, filter), studies);
  }

  // ---------------------------------------------------------------------------
  // Status badge

  /** `getStatusText`: Locked takes precedence over the stored status. */
  function StatusText(status: PublishStatus, isLocked: bool): (b: Badge)
    ensures b == LockedBadge <==> isLocked
    ensures b == PublishedBadge <==> !isLocked && status == Published
    ensures b == DraftBadge <==> !isLocked && status.Draft?
  {
    if isLocked then LockedBadge
    else if status == Published then PublishedBadge
    else DraftBadge
  }

  /** `getStatusColor`, with the same precedence. */
  function StatusColor(status: PublishStatus, isLocked: bool): (c: BadgeColor)
    ensures c == Red <==> isLocked
    ensures c == Green <==> !isLocked && status == Published
    ensures c == Yellow <==> !isLocked && status.Draft?
  {
    if isLocked then Red
    else if status == Published then Green
    else Yellow
  }

  /** The colour of each badge text. */
  function ColorOf(b: Badge): BadgeColor {
    match b
    case LockedBadge => Red
    case PublishedBadge => Green
    case DraftBadge => Yellow
  }

  /** The badge colour always matches the badge text. */
  lemma ColorMatchesText(status: PublishStatus, isLocked: bool)
    ensures StatusColor(status, isLocked) == ColorOf(StatusText(status, isLocked))
  {
  }

  // ---------------------------------------------------------------------------
  // Seed data

  function SeedStudies(): seq<Study> {
    [ Study("1", "Advanced React Patterns",
            "Master advanced " + "React concepts " + "including hooks, " + "context, and " + "performance optimization.",
            12, 234, false, "2024-01-15", "2024-01-20", Published),
      Study("2", "TypeScript Fundamentals",
            "Learn TypeScript " + "from basics to " + "advanced type " + "system features.",
            8, 156, true, "2024-01-10", "2024-01-18", Published),
      Study("3", "Node.js Backend " + "Development",
            "Build scalable " + "backend applications " + "with Node.js " + "and Express.",
            15, 89, false, "2024-01-12", "2024-01-19", Draft),
      Study("4", "CSS Grid and " + "Flexbox Mastery",
            "Modern CSS layout " + "techniques for " + "responsive web design.",
            6, 312, false, "2024-01-08", "2024-01-16", Published) ]
  }

  /** Deleting the absent id "999" from the seed catalogue changes nothing. */
  lemma SeedDeleteAbsent()
    ensures WithoutStudy(SeedStudies(), "999") == SeedStudies()
  {
    var seed := SeedStudies();
    assert seed[0].id == "1" && seed[1].id == "2" && seed[2].id == "3" && seed[3].id == "4";
    assert !HasId(seed, "999");
  }

  /** A search term containing a dash shows no study under any filter when
      no title or description contains a dash: lower-casing neither creates
      nor removes a dash. */
  lemma DashedSearchShowsNothing(studies: seq<Study>, term: string, filter: StatusFilter)
    requires '-' in term
    requires forall i :: 0 <= i < |studies| ==> NoDash(studies[i].title) && NoDash(studies[i].description)
    ensures FilteredStudies(studies, term, filter) == []
  {
    forall i | 0 <= i < |studies|
      ensures '-' !in ToLower(studies[i].title) && '-' !in ToLower(studies[i].description)
    {
      NonLetterSurvivesLower(studies[i].title, '-');
      NonLetterSurvivesLower(studies[i].description, '-');
    }
    var k :| 0 <= k < |term| && term[k] == '-';
    assert ToLower(term)[k] == '-';
    NoMatchShowsNothing(studies, term, filter, '-');
  }

  /** `t` holds no dash, stated position by position. */
  predicate NoDash(t: string) {
    forall i :: 0 <= i < |t| ==> t[i] != '-'
  }

  /** Searching for "nonexistent-zzz" shows no study under any filter when
      no title or description contains a dash. */
  lemma NonexistentSearchShowsNothing(studies: seq<Study>, filter: StatusFilter)
    requires forall i :: 0 <= i < |studies| ==> NoDash(studies[i].title) && NoDash(studies[i].description)
    ensures FilteredStudies(studies, "nonexistent-zzz", filter) == []
  {
    assert "nonexistent-zzz"[11] == '-';
    DashedSearchShowsNothing(studies, "nonexistent-zzz", filter);
  }

  /** Joining two dash-free texts gives a dash-free text. */
  lemma NoDashAppend(a: string, b: string)
    requires NoDash(a) && NoDash(b)
    ensures NoDash(a + b)
  {
    forall i | |a| <= i < |a + b| ensures (a + b)[i] != '-' {
      assert (a + b)[i] == b[i - |a|];
    }
  }

  /** Neither text of the first seed study holds a dash. */
  lemma FirstSeedHasNoDash()
    ensures NoDash(SeedStudies()[0].title) && NoDash(SeedStudies()[0].description)
  {
    var a, b, c, d, e := "Master advanced ", "React concepts ", "including hooks, ", "context, and ", "performance optimization.";
    assert NoDash("Advanced React Patterns");
    assert NoDash(a) && NoDash(b) && NoDash(c) && NoDash(d) && NoDash(e);
    NoDashAppend(a, b);
    NoDashAppend(a + b, c);
    NoDashAppend(a + b + c, d);
    NoDashAppend(a + b + c + d, e);
  }

  /** Neither text of the second seed study holds a dash. */
  lemma SecondSeedHasNoDash()
    ensures NoDash(SeedStudies()[1].title) && NoDash(SeedStudies()[1].description)
  {
    var a, b, c, d := "Learn TypeScript ", "from basics to ", "advanced type ", "system features.";
    assert NoDash("TypeScript Fundamentals");
    assert NoDash(a) && NoDash(b) && NoDash(c) && NoDash(d);
    NoDashAppend(a, b);
    NoDashAppend(a + b, c);
    NoDashAppend(a + b + c, d);
  }

  /** Neither text of the third seed study holds a dash. */
  lemma ThirdSeedHasNoDash()
    ensures NoDash(SeedStudies()[2].title) && NoDash(SeedStudies()[2].description)
  {
    var t1, t2 := "Node.js Backend ", "Development";
    var a, b, c, d := "Build scalable ", "backend applications ", "with Node.js ", "and Express.";
    assert NoDash(t1) && NoDash(t2);
    NoDashAppend(t1, t2);
    assert NoDash(a) && NoDash(b) && NoDash(c) && NoDash(d);
    NoDashAppend(a, b);
    NoDashAppend(a + b, c);
    NoDashAppend(a + b + c, d);
  }

  /** Neither text of the fourth seed study holds a dash. */
  lemma FourthSeedHasNoDash()
    ensures NoDash(SeedStudies()[3].title) && NoDash(SeedStudies()[3].description)
  {
    var t1, t2 := "CSS Grid and ", "Flexbox Mastery";
    var a, b, c := "Modern CSS layout ", "techniques for ", "responsive web design.";
    assert NoDash(t1) && NoDash(t2);
    NoDashAppend(t1, t2);
    assert NoDash(a) && NoDash(b) && NoDash(c);
    NoDashAppend(a, b);
    NoDashAppend(a + b, c);
  }

  /** No title or description of the seed catalogue holds a dash. */
  lemma SeedHasNoDash()
    ensures forall i :: 0 <= i < |SeedStudies()| ==>
      NoDash(SeedStudies()[i].title) && NoDash(SeedStudies()[i].description)
  {
    FirstSeedHasNoDash();
    SecondSeedHasNoDash();
    ThirdSeedHasNoDash();
    FourthSeedHasNoDash();
  }

  /** In the seed catalogue the search "nonexistent-zzz" shows no study
      under any filter. */
  lemma SeedNonexistentSearch(filter: StatusFilter)
    ensures FilteredStudies(SeedStudies(), "nonexistent-zzz", filter) == []
  {
    SeedHasNoDash();
    NonexistentSearchShowsNothing(SeedStudies(), filter);
  }

  /** In the seed catalogue, filter "locked" with an empty search shows the
      second study alone. */
  lemma SeedLockedView()
    ensures FilteredStudies(SeedStudies(), "", FilterLocked) == [SeedStudies()[1]]
  {
    FourStudyLockedView(SeedStudies());
  }

  /** A catalogue of four studies of which only the second is locked, like the
      seed catalogue: filter "locked" with an empty search shows that study
      alone. */
  lemma FourStudyLockedView(studies: seq<Study>)
    requires |studies| == 4
    requires !studies[0].isLocked && studies[1].isLocked && !studies[2].isLocked && !studies[3].isLocked
    ensures FilteredStudies(studies, "", FilterLocked) == [studies[1]]
  {
    EmptySearchOnlyFilters(studies, FilterLocked);
    FilterOnlySecond(StatusOnly(FilterLocked), studies[0], studies[1], studies[2], studies[3]);
    assert studies == [studies[0], studies[1], studies[2], studies[3]];
  }

  lemma FilterOnlySecond(p: Study -> bool, a: Study, b: Study, c: Study, d: Study)
    requires !p(a) && p(b) && !p(c) && !p(d)
    ensures Filter(p, [a, b, c, d]) == [b]
  {
    assert [a, b, c, d][1..] == [b, c, d];
    assert [b, c, d][1..] == [c, d];
    assert [c, d][1..] == [d];
    assert [d][1..] == [];
    FilterEmptyIff(p, [c, d]);
  }

  // ---------------------------------------------------------------------------
  // Screen state

  class Catalogue {
    var studies: seq<Study>
    /** The id of the study the confirmation dialog asks about, if any. */
    var showDeleteModal: Option<string>
    var searchTerm: string
    var filterStatus: StatusFilter

    /** Study ids are distinct, as in the seed data. */
    ghost predicate Valid()
      reads this
    {
      IdsDistinct(studies)
    }

    constructor ()
      ensures Valid()
      ensures studies == SeedStudies() && showDeleteModal == None
      ensures searchTerm == "" && filterStatus == FilterAll
    {
      studies := SeedStudies();
      showDeleteModal := None;
      searchTerm := "";
      filterStatus := FilterAll;
    }

    /** The dialog renders only while the pending id is a non-empty string
        (the empty string is falsy). */
    predicate ModalVisible()
      reads this
      ensures ModalVisible() ==> showDeleteModal.Some?
      ensures showDeleteModal == Some("") ==> !ModalVisible()
    {
      showDeleteModal.Some? && showDeleteModal.value != ""
    }

    /** The cards currently listed. */
    function Visible(): (r: seq<Study>)
      reads this
      ensures forall s :: s in r ==> s in studies
    {
      FilteredStudies(studies, searchTerm, filterStatus)
    }

    method SetSearchTerm(term: string)
      modifies this
      ensures searchTerm == term
      ensures studies == old(studies) && showDeleteModal == old(showDeleteModal)
      ensures filterStatus == old(filterStatus)
    {
      searchTerm := term;
    }

    method SetFilterStatus(filter: StatusFilter)
      modifies this
      ensures filterStatus == filter
      ensures studies == old(studies) && showDeleteModal == old(showDeleteModal)
      ensures searchTerm == old(searchTerm)
    {
      filterStatus := filter;
    }

    /** The lock button of a card. */
    method ToggleLock(id: string)
      requires Valid()
      modifies this
      ensures Valid()
      ensures studies == ToggledLock(old(studies), id)
      ensures showDeleteModal == old(showDeleteModal)
      ensures searchTerm == old(searchTerm) && filterStatus == old(filterStatus)
    {
      studies := ToggledLock(studies, id);
    }

    /** `deleteStudy(id)`: removes the study and closes the dialog. */
    method DeleteStudy(id: string)
      requires Valid()
      modifies this
      ensures Valid()
      ensures studies == WithoutStudy(old(studies), id)
      ensures |studies| == |old(studies)| - (if HasId(old(studies), id) then 1 else 0)
      ensures showDeleteModal == None
      ensures searchTerm == old(searchTerm) && filterStatus == old(filterStatus)
    {
      DeleteRemovesAtMostOne(studies, id);
      studies := WithoutStudy(studies, id);
      showDeleteModal := None;
    }

    /** The trash button of a card: only records the pending id. */
    method AskDelete(id: string)
      modifies this
      ensures showDeleteModal == Some(id)
      ensures studies == old(studies)
      ensures searchTerm == old(searchTerm) && filterStatus == old(filterStatus)
    {
      showDeleteModal := Some(id);
    }

    /** The Cancel button of the dialog: clears the pending id. */
    method CancelDelete()
      modifies this
      ensures showDeleteModal == None
      ensures studies == old(studies)
      ensures searchTerm == old(searchTerm) && filterStatus == old(filterStatus)
    {
      showDeleteModal := None;
    }

    /** The Delete Study button of the dialog: deletes exactly the pending id. */
    method ConfirmDelete()
      requires Valid() && ModalVisible()
      modifies this
      ensures Valid()
      ensures studies == WithoutStudy(old(studies), old(showDeleteModal).value)
      ensures showDeleteModal == None
      ensures searchTerm == old(searchTerm) && filterStatus == old(filterStatus)
    {
      DeleteStudy(showDeleteModal.value);
    }
  }
}
