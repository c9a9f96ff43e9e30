/** The user progress screen: a fixed table of enrolment rows, a search and
    study filter over it, a colour band per percentage and four summary
    figures. */
module ProgressReport {
  import opened Collections
  import opened Strings

  /** One enrolment row. `percentageComplete` is stored, not derived from the
      chapter counts. */
  datatype UserProgress = UserProgress(
    id: string,
    username: string,
    email: string,
    studyName: string,
    chaptersCompleted: int,
    totalChapters: int,
    percentageComplete: int,
    lastActivity: string,
    enrolledDate: string,
    timeSpent: string)

  /** The four progress bands. */
  datatype Band = Complete | High | Medium | Low

  /** Bar colours (`bg-*-500`) and text colours (`text-*-700`). */
  datatype BarColor = BarGreen | BarBlue | BarYellow | BarRed
  datatype TextColor = TextGreen | TextBlue | TextYellow | TextRed

  // ---------------------------------------------------------------------------
  // Filtered table

  /** The search box matches the user name, the email or the study name,
      ignoring case. */
  predicate MatchesSearch(u: UserProgress, searchTerm: string) {
    || IncludesIgnoringCase(u.username, searchTerm)
    || IncludesIgnoringCase(u.email, searchTerm)
    || IncludesIgnoringCase(u.studyName, searchTerm)
  }

  /** The study drop-down: "all" (the value of its first option) and
      "All Studies" accept every row, any other value needs the exact study
      name. */
  predicate MatchesStudy(u: UserProgress, filterStudy: string) {
    filterStudy == "all" || filterStudy == "All Studies" || u.studyName == filterStudy
  }

  function Shown(searchTerm: string, filterStudy: string): UserProgress -> bool {
    (u: UserProgress) => MatchesSearch(u, searchTerm) && MatchesStudy(u, filterStudy)
  }

  /** `filteredData`. */
  function FilteredData(rows: seq<UserProgress>, searchTerm: string, filterStudy: string): (r: seq<UserProgress>)
    ensures forall u :: u in r <==> u in rows && MatchesSearch(u, searchTerm) && MatchesStudy(u, filterStudy)
  {
    Filter(Shown(searchTerm, filterStudy), rows)
  }

  /** The filtered table keeps the order of the rows. */
  lemma FilteredDataKeepsOrder(rows: seq<UserProgress>, searchTerm: string, filterStudy: string)
    ensures IsSubsequence(FilteredData(rows, searchTerm, filterStudy), rows)
  {
    FilterIsSubsequence(Shown(searchTerm, filterStudy), rows);
  }

  /** With an empty search, both spellings of "every study" show every row. */
  lemma NoFilterShowsAll(rows: seq<UserProgress>)
    ensures FilteredData(rows, "", "all") == rows
    ensures FilteredData(rows, "", "All Studies") == rows
  {
    forall i | 0 <= i < |rows| ensures MatchesSearch(rows[i], "") {
      IncludesEmpty(ToLower(rows[i].username));
    }
  }

  /** With an empty search and a specific study, exactly that study's rows
      are shown (FilteredDataKeepsOrder gives the order). */
  lemma StudyFilterExact(rows: seq<UserProgress>, study: string)
    requires study != "all" && study != "All Studies"
    ensures forall u :: u in FilteredData(rows, "", study) <==> u in rows && u.studyName == study
  {
    forall u | u in rows ensures MatchesSearch(u, "") {
      IncludesEmpty(ToLower(u.username));
    }
  }

  /** Two search terms equal up to the case of ASCII letters give the same
      table. */
  lemma SearchIgnoresCase(rows: seq<UserProgress>, term1: string, term2: string, filterStudy: string)
    requires ToLower(term1) == ToLower(term2)
    ensures FilteredData(rows, term1, filterStudy) == FilteredData(rows, term2, filterStudy)
  {
    FilterCongruent(Shown(term1, filterStudy), Shown(term2, filterStudy), rows);
  }

  // ---------------------------------------------------------------------------
  // Colour bands

  /** The interval of percentages each band stands for; anything above 100
      other than 100 itself falls in the high band. */
  predicate InBand(percentage: int, b: Band) {
    match b
    case Complete => percentage == 100
    case High => percentage >= 75 && percentage != 100
    case Medium => 50 <= percentage < 75
    case Low => percentage < 50
  }

  /** Every percentage lies in exactly one band. */
  lemma BandsPartition(percentage: int, b1: Band, b2: Band)
    ensures exists b :: InBand(percentage, b)
    ensures InBand(percentage, b1) && InBand(percentage, b2) ==> b1 == b2
  {
    if percentage == 100 { assert InBand(percentage, Complete); }
    else if percentage >= 75 { assert InBand(percentage, High); }
    else if percentage >= 50 { assert InBand(percentage, Medium); }
    else { assert InBand(percentage, Low); }
  }

  function BarBand(c: BarColor): Band {
    match c
    case BarGreen => Complete
    case BarBlue => High
    case BarYellow => Medium
    case BarRed => Low
  }

  function TextBand(c: TextColor): Band {
    match c
    case TextGreen => Complete
    case TextBlue => High
    case TextYellow => Medium
    case TextRed => Low
  }

  /** `getProgressColor`. */
  function ProgressColor(percentage: int): (c: BarColor)
    ensures InBand(percentage, BarBand(c))
  {
    if percentage == 100 then BarGreen
    else if percentage >= 75 then BarBlue
    else if percentage >= 50 then BarYellow
    else BarRed
  }

  /** `getProgressTextColor`. */
  function ProgressTextColor(percentage: int): (c: TextColor)
    ensures InBand(percentage, TextBand(c))
  {
    if percentage == 100 then TextGreen
    else if percentage >= 75 then TextBlue
    else if percentage >= 50 then TextYellow
    else TextRed
  }

  /** The bar and the percentage label of a row always show the same band. */
  lemma ColorsAgree(percentage: int)
    ensures BarBand(ProgressColor(percentage)) == TextBand(ProgressTextColor(percentage))
  {
    BandsPartition(percentage, BarBand(ProgressColor(percentage)), TextBand(ProgressTextColor(percentage)));
  }

  /** Nothing caps a percentage at 100: every value above it falls in the
      high band, shown in blue like 75 to 99. */
  lemma AboveHundredIsHigh(percentage: int)
    requires percentage > 100
    ensures ProgressColor(percentage) == BarBlue && ProgressTextColor(percentage) == TextBlue
  {
    assert InBand(percentage, BarBand(ProgressColor(percentage)));
    assert InBand(percentage, TextBand(ProgressTextColor(percentage)));
  }

  // ---------------------------------------------------------------------------
  // Summary figures

  function IsComplete(): UserProgress -> bool {
    (u: UserProgress) => u.percentageComplete == 100
  }

  function ActiveWithinHours(): UserProgress -> bool {
    (u: UserProgress) => Includes(u.lastActivity, "hour")
  }

  /** `completedUsers`: rows at exactly 100 percent. */
  function CompletedUsers(rows: seq<UserProgress>): (n: nat)
    ensures n == Count(IsComplete(), rows)
    ensures n <= |rows|
    ensures n == |rows| <==> forall i :: 0 <= i < |rows| ==> rows[i].percentageComplete == 100
  {
    FilterCount(IsComplete(), rows);
    |Filter(IsComplete(), rows)|
  }

  /** `activeUsers`: rows whose last activity mentions "hour" (case
      sensitive). */
  function ActiveUsers(rows: seq<UserProgress>): (n: nat)
    ensures n == Count(ActiveWithinHours(), rows)
    ensures n <= |rows|
    ensures n == 0 <==> forall i :: 0 <= i < |rows| ==> !Includes(rows[i].lastActivity, "hour")
  {
    FilterCount(ActiveWithinHours(), rows);
    FilterEmptyIff(ActiveWithinHours(), rows);
    |Filter(ActiveWithinHours(), rows)|
  }

  /** The sum the `reduce` call accumulates: starting from 0, each row in
      turn, from the first to the last, adds its percentage. */
  function SumPercentages(rows: seq<UserProgress>): (sum: int)
    ensures rows == [] ==> sum == 0
    ensures rows != [] ==>
      sum == SumPercentages(rows[..|rows| - 1]) + rows[|rows| - 1].percentageComplete
  {
    if rows == [] then 0
    else
      var rest := SumPercentages(rows[1..]);
      assert rows[1..] != [] ==> rows[1..][..|rows| - 2] == rows[..|rows| - 1][1..];
      rows[0].percentageComplete + rest
  }

  /** Percentages within [0, 100] sum to at most 100 per row. */
  lemma {:induction false} SumBounds(rows: seq<UserProgress>)
    requires forall i :: 0 <= i < |rows| ==> 0 <= rows[i].percentageComplete <= 100
    ensures 0 <= SumPercentages(rows) <= 100 * |rows|
  {
    if rows != [] {
      SumBounds(rows[1..]);
    }
  }

  /** `Math.round(n / d)`, that is the floor of `n / d + 1/2`, for a positive
      divisor: the nearest integer, halves rounded up. */
  function RoundHalfUp(n: int, d: int): (r: int)
    requires d > 0
    ensures 2 * d * r - d <= 2 * n < 2 * d * r + d
  {
    (2 * n + d) / (2 * d)
  }

  /** `averageProgress`; dividing by an empty table gives NaN in the source,
      modelled as `None`. */
  function AverageProgress(rows: seq<UserProgress>): (avg: Option<int>)
    ensures avg.None? <==> rows == []
  {
    if rows == [] then None else Some(RoundHalfUp(SumPercentages(rows), |rows|))
  }

  /** If every percentage lies in [0, 100], so does the average. */
  lemma AverageInRange(rows: seq<UserProgress>)
    requires rows != []
    requires forall i :: 0 <= i < |rows| ==> 0 <= rows[i].percentageComplete <= 100
    ensures 0 <= AverageProgress(rows).value <= 100
  {
    SumBounds(rows);
    RoundedMeanInRange(SumPercentages(rows), |rows|);
  }

  /** Rounding a total of at most 100 per item, divided by the number of
      items, gives a value in [0, 100]. */
  lemma RoundedMeanInRange(total: int, count: int)
    requires count > 0 && 0 <= total <= 100 * count
    ensures 0 <= RoundHalfUp(total, count) <= 100
  {
    var r := RoundHalfUp(total, count);
    assert 2 * count * r - count == count * (2 * r - 1);
    assert 2 * count * r + count == count * (2 * r + 1);
    if r > 100 {
      assert false;
    }
    if r < 0 {
      assert false;
    }
  }

  // ---------------------------------------------------------------------------
  // Seed data

  function ProgressData(): seq<UserProgress> {
    [ UserProgress("1", "John Doe", "john@example.com", "Advanced React Patterns",
                   8, 12, 67, "2 hours ago", "2024-01-15", "24h 30m"),
      UserProgress("2", "Sarah Wilson", "sarah@example.com", "TypeScript Fundamentals",
                   6, 8, 75, "1 day ago", "2024-01-12", "18h 45m"),
      UserProgress("3", "Mike Johnson", "mike@example.com", "Node.js Backend Development",
                   15, 15, 100, "3 hours ago", "2024-01-10", "42h 15m"),
      UserProgress("4", "Emma Davis", "emma@example.com", "CSS Grid and Flexbox Mastery",
                   4, 6, 67, "5 hours ago", "2024-01-18", "12h 20m"),
      UserProgress("5", "Alex Chen", "alex@example.com", "Advanced React Patterns",
                   12, 12, 100, "1 hour ago", "2024-01-05", "38h 50m") ]
  }

  /** The seed table has five users, two of them at 100 percent. */
  lemma SeedCompleted()
    ensures |ProgressData()| == 5
    ensures CompletedUsers(ProgressData()) == 2
  {
    var rows := ProgressData();
    var p := IsComplete();
    assert rows[1..][1..][1..][1..][1..] == [];
  }

  /** The seed table averages 409 / 5 = 81.8 percent, shown as 82. */
  lemma SeedAverage()
    ensures AverageProgress(ProgressData()) == Some(82)
  {
    var rows := ProgressData();
    assert SumPercentages(rows) == 409;
  }

  /** Four seed users were active within hours; "1 day ago" does not count. */
  lemma SeedActive()
    ensures ActiveUsers(ProgressData()) == 4
  {
    var rows := ProgressData();
    SeedActivity(0);
    SeedActivity(1);
    SeedActivity(2);
    SeedActivity(3);
    SeedActivity(4);
    CountAllButSecond(ActiveWithinHours(), rows[0], rows[1], rows[2], rows[3], rows[4]);
    assert rows == [rows[0], rows[1], rows[2], rows[3], rows[4]];
  }

  /** Row by row, which seed users count as active. */
  lemma SeedActivity(k: nat)
    requires k < 5
    ensures ActiveWithinHours()(ProgressData()[k]) <==> k != 1
  {
    var text := ProgressData()[k].lastActivity;
    if k == 1 {
      MissingCharExcludes(text, "hour", 'h');
    } else {
      HourMentioned(text);
    }
  }

  lemma HourMentioned(text: string)
    requires |text| >= 6 && text[2..6] == "hour"
    ensures Includes(text, "hour")
  {
    IncludesAt(text, "hour", 2);
  }

  lemma CountAllButSecond(p: UserProgress -> bool, a: UserProgress, b: UserProgress, c: UserProgress,
                          d: UserProgress, e: UserProgress)
    requires p(a) && !p(b) && p(c) && p(d) && p(e)
    ensures |Filter(p, [a, b, c, d, e])| == 4
  {
    assert [a, b, c, d, e][1..] == [b, c, d, e];
    assert [b, c, d, e][1..] == [c, d, e];
    assert [c, d, e][1..] == [d, e];
    assert [d, e][1..] == [e];
  }
}
