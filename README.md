# Admin panel collection logic, in Dafny

This project models the in-memory data handling of four screens of a church
and study admin panel. It states the properties of that handling and proves
them.

- **Study catalogue** (`ManageStudies`). A list of studies that can be locked,
  unlocked and deleted. Deletion goes through a confirmation dialog driven by
  a pending-delete id. The cards are shown through a case-insensitive search
  and a status filter. In that filter, "locked" is a pseudo-status tested
  against the lock flag. Each card has a badge, and Locked takes precedence
  over Published or Draft.
- **Request inbox** (`SeeAllRequests`). Prayer requests and messages whose
  status is unread, read or responded. There is a point update of the
  status, a status filter, per-status counts, and the two card buttons,
  which only ever offer forward moves.
- **Progress report** (`ProgressReport`). A fixed table of enrolment rows
  with an OR-of-substrings search and an exact-match study filter. It also
  has four summary figures (total users, completed, rounded average, active) and a
  four-band colour scale for a percentage.
- **Study builder** (`UploadStudy`). A nested editor of chapters, each
  holding pages. Chapters can be added, retitled and removed, and pages can
  be added, partially updated and removed. A MIME-substring rule sets a
  page's type, and a guard enables the Publish button.

Two shared modules support them:

- `Collections`: JavaScript's `Array.prototype.filter`, the conditional `map`
  the point updates are written with, and order-preserving subsequences.
- `Strings`: `toLowerCase` on ASCII letters, `includes`, and `trim` with
  ECMAScript's whitespace set.

Three screens change their data through handlers: the study catalogue, the
request inbox and the study builder. Each of them is a class. Its fields
are the React state variables, and each handler is a `modifies this`
method. Each method's postcondition ties the new state to a pure function
of the old state, and the lemmas are proved about those functions. The
progress report never changes its table. Its only state is the search term
and the study filter (UserProgress.tsx lines 22-23), so it is modelled by
pure functions that take both as parameters. Derived values (filtered
views, counts, colours) are pure functions on every screen.

Ids produced by `Date.now()` are passed in as parameters. The seed data of
each screen is reproduced as a constant.

## Model

| member | source | states |
|---|---|---|
| Collections.Filter | src/components/ManageStudies.tsx:95-104 | The result contains only elements of the input that satisfy the predicate, and contains every element of the input that does. It is never longer than the input. It equals the input exactly when every element passes. |
| Collections.FilterEmptyIff | src/components/SeeAllRequests.tsx:89-95 | A filter gives the empty list exactly when no element satisfies the predicate. |
| Collections.FilterCount | src/components/SeeAllRequests.tsx:89-95 | The length of a filtered list is the number of elements that satisfy the predicate, counted one by one. |
| Collections.FilterMultiplicity | src/components/ManageStudies.tsx:95-104 | A filtered list holds every copy of each element that satisfies the predicate, and no copy of any other element. |
| Collections.FilterIsSubsequence | src/components/ManageStudies.tsx:95-104 | A filtered list is an order-preserving subsequence of its input (there is an increasing embedding of positions). |
| Collections.FilterCongruent | src/components/ManageStudies.tsx:96-97 | Two predicates that agree on every element of the list give the same filtered list. |
| Collections.FilterAppend | src/components/UploadStudy.tsx:46-48 | Filtering distributes over concatenation. |
| Collections.MapWhere | src/components/ManageStudies.tsx:84-88 | The conditional map keeps the length. It rewrites exactly the selected elements and leaves the others equal. |
| Collections.MapWhereInvolution | src/components/ManageStudies.tsx:84-88 | Suppose a rewrite is its own inverse and does not change the selection. Then applying the conditional map twice restores the list. |
| Collections.MapWhereIdempotent | src/components/SeeAllRequests.tsx:77-83 | Suppose a rewrite is idempotent and does not change the selection. Then the conditional map is idempotent. |
| Strings.ToLower | src/components/ManageStudies.tsx:96-97 | Lower-casing keeps the length. It maps each capital ASCII letter to its small letter and leaves every other character. |
| Strings.ToLowerIdempotent | src/components/ManageStudies.tsx:96-97 | Lower-casing twice is lower-casing once. |
| Strings.NonLetterSurvivesLower | src/components/ManageStudies.tsx:96-97 | Lower-casing never produces a character that is not a letter, if the text did not already contain it. |
| Strings.Includes | src/components/ManageStudies.tsx:96-97 | A text includes each of its prefixes. A pattern longer than the text is never included. |
| Strings.IncludesIffOccurs | src/components/ManageStudies.tsx:96-97 | `includes` holds exactly when the pattern occurs at some position of the text. |
| Strings.OccursShift | src/components/ManageStudies.tsx:96-97 | An occurrence after the first position of a text is an occurrence in its tail, one position earlier. |
| Strings.IncludesAt | src/components/UserProgress.tsx:118 | An occurrence at a known position makes `includes` hold. |
| Strings.IncludesEmpty | src/components/ManageStudies.tsx:96-97 | The empty string is included in every string. |
| Strings.MissingCharExcludes | src/components/UserProgress.tsx:118 | A pattern containing a character that the text lacks is not included in the text. |
| Strings.IgnoringCaseOnlyLowerMatters | src/components/ManageStudies.tsx:96-97 | Two search terms with the same lower-case form match the same texts. |
| Strings.TrimStart | src/components/UploadStudy.tsx:270 | The result is a suffix of the input. Everything dropped is whitespace. A non-empty result starts with a non-whitespace character. |
| Strings.TrimEnd | src/components/UploadStudy.tsx:270 | The result is a prefix of the input. Everything dropped is whitespace. A non-empty result ends with a non-whitespace character. |
| Strings.Trim | src/components/UploadStudy.tsx:270 | `trim()` gives the empty string exactly when every character is whitespace. Otherwise the result is a contiguous slice of the input that starts and ends with a non-whitespace character. |
| Strings.TrimDropsOnlyWhitespace | src/components/UploadStudy.tsx:270 | `trim()` removes only whitespace: its result is a slice of the input, and every character before and after that slice is whitespace. |
| ManageStudies.ToggledLock | src/components/ManageStudies.tsx:84-88 | The length is kept. Every study's lock flag is inverted exactly when its id matches. All other fields of every study are unchanged. |
| ManageStudies.ToggleTwiceRestores | src/components/ManageStudies.tsx:84-88 | Toggling the same id twice restores the list. |
| ManageStudies.ToggleAbsentIsIdentity | src/components/ManageStudies.tsx:84-88 | Toggling an id that no study has changes nothing. |
| ManageStudies.WithoutStudy | src/components/ManageStudies.tsx:90-93 | A study is kept exactly when it was present and its id differs. An absent id leaves the list unchanged. |
| ManageStudies.DeleteKeepsOrder | src/components/ManageStudies.tsx:90-93 | The list after deletion keeps the original order. |
| ManageStudies.DeleteRemovesAtMostOne | src/components/ManageStudies.tsx:90-93 | When ids are distinct, deletion removes exactly one study if the id is present and none if it is absent. The ids stay distinct. |
| ManageStudies.FilteredStudies | src/components/ManageStudies.tsx:95-104 | A study is shown exactly when it is in the catalogue, its title or description contains the term ignoring case, and it passes the status filter. |
| ManageStudies.FilteredStudiesKeepsOrder | src/components/ManageStudies.tsx:95-104 | The view is an order-preserving subsequence of the catalogue. |
| ManageStudies.EmptySearchShowsAll | src/components/ManageStudies.tsx:95-104 | An empty search with filter "all" shows the whole catalogue. |
| ManageStudies.LockedFilterShowsLocked | src/components/ManageStudies.tsx:99-101 | With an empty search, filter "locked" shows exactly the locked studies. |
| ManageStudies.EmptySearchOnlyFilters | src/components/ManageStudies.tsx:95-104 | With an empty search, the view is the status filter alone. |
| ManageStudies.PublishedFilterIgnoresLock | src/components/ManageStudies.tsx:99-101 | A locked study with stored status published is listed under both "published" and "locked", and not under "draft". |
| ManageStudies.SearchIgnoresCase | src/components/ManageStudies.tsx:96-97 | Search terms that differ only in letter case give the same view. |
| ManageStudies.NoMatchShowsNothing | src/components/ManageStudies.tsx:95-104 | Suppose the lower-cased term holds a character that no lower-cased title or description holds. Then no study is shown, under any status filter. |
| ManageStudies.DashedSearchShowsNothing | src/components/ManageStudies.tsx:95-104 | A search term with a dash shows no study, under any filter, when no title or description contains a dash. |
| ManageStudies.NonexistentSearchShowsNothing | src/components/ManageStudies.tsx:95-104 | The search "nonexistent-zzz" shows no study, under any filter, when no title or description contains a dash. |
| ManageStudies.SeedHasNoDash | src/components/ManageStudies.tsx:37-82 | No title or description of the seed catalogue contains a dash. |
| ManageStudies.SeedNonexistentSearch | src/components/ManageStudies.tsx:37-104 | In the seed catalogue, the search "nonexistent-zzz" shows no study under any filter. |
| ManageStudies.StatusText | src/components/ManageStudies.tsx:112-116 | The badge reads Locked exactly when the study is locked. Otherwise it reads Published or Draft according to the stored status. |
| ManageStudies.StatusColor | src/components/ManageStudies.tsx:106-110 | The badge is red exactly when locked. Otherwise it is green for published and yellow for draft. |
| ManageStudies.ColorMatchesText | src/components/ManageStudies.tsx:106-116 | The badge colour always matches the badge text. |
| ManageStudies.SeedDeleteAbsent | src/components/ManageStudies.tsx:37-82 | Deleting an id absent from the seed catalogue leaves it unchanged. |
| ManageStudies.FourStudyLockedView | src/components/ManageStudies.tsx:37-82 | Take a four-study catalogue in which only the second study is locked, as in the seed. Filter "locked" with an empty search shows that study alone. |
| ManageStudies.SeedLockedView | src/components/ManageStudies.tsx:37-82 | In the seed catalogue, filter "locked" with an empty search shows the second study alone. |
| ManageStudies.Catalogue.constructor | src/components/ManageStudies.tsx:33-82 | The screen starts with the seed catalogue, no pending delete, an empty search and filter "all". The seed ids are distinct. |
| ManageStudies.Catalogue.ModalVisible | src/components/ManageStudies.tsx:218 | The dialog shows only while a delete is pending. A pending id of `""` is falsy, so it does not show the dialog. |
| ManageStudies.Catalogue.Visible | src/components/ManageStudies.tsx:95-104 | Every listed card is a study of the catalogue. |
| ManageStudies.Catalogue.SetSearchTerm | src/components/ManageStudies.tsx:33 | Sets only the search term. |
| ManageStudies.Catalogue.SetFilterStatus | src/components/ManageStudies.tsx:34 | Sets only the status filter. |
| ManageStudies.Catalogue.ToggleLock | src/components/ManageStudies.tsx:84-88 | Replaces the studies with the toggled list. It keeps ids distinct and changes nothing else. |
| ManageStudies.Catalogue.DeleteStudy | src/components/ManageStudies.tsx:90-93 | Replaces the studies with the list without the id, whose length drops by one exactly when the id was present. It always clears the pending delete. |
| ManageStudies.Catalogue.AskDelete | src/components/ManageStudies.tsx:199 | Records the pending id only. The studies are untouched. |
| ManageStudies.Catalogue.CancelDelete | src/components/ManageStudies.tsx:226 | Clears the pending id only. The studies are untouched. |
| ManageStudies.Catalogue.ConfirmDelete | src/components/ManageStudies.tsx:218-229 | While the dialog shows, it deletes exactly the pending id and closes the dialog. |
| SeeAllRequests.WithStatus | src/components/SeeAllRequests.tsx:77-83 | The length is kept. The requests with the matching id get the new status. Every other request is unchanged. |
| SeeAllRequests.UpdateStatusIdempotent | src/components/SeeAllRequests.tsx:77-83 | Applying the same status update twice equals applying it once. |
| SeeAllRequests.UpdateStatusKeepsIds | src/components/SeeAllRequests.tsx:77-83 | A status update keeps distinct ids distinct. |
| SeeAllRequests.FilteredRequests | src/components/SeeAllRequests.tsx:85-87 | Filter "all" gives every request. Otherwise the view holds exactly the requests with that status. |
| SeeAllRequests.FilteredRequestsKeepsOrder | src/components/SeeAllRequests.tsx:85-87 | The view is an order-preserving subsequence of the requests. |
| SeeAllRequests.CountOf | src/components/SeeAllRequests.tsx:89-95 | A status count is the number of requests with that status, counted one by one. It is at most the number of requests, and zero exactly when no request has that status. |
| SeeAllRequests.CountsPartition | src/components/SeeAllRequests.tsx:13 | The three status counts add up to the number of requests. |
| SeeAllRequests.GetStatusCounts | src/components/SeeAllRequests.tsx:89-95 | The counts add up to the total. Each count is the length of the list the matching filter shows. |
| SeeAllRequests.GetStatusColor | src/components/SeeAllRequests.tsx:59-66 | Warning, gold and success correspond one to one with unread, read and responded. |
| SeeAllRequests.MarkAsReadOffered | src/components/SeeAllRequests.tsx:200 | "Mark as Read" is offered exactly when moving to read goes forward, that is on unread requests only. |
| SeeAllRequests.MarkAsRespondedOffered | src/components/SeeAllRequests.tsx:209 | "Mark as Responded" is offered exactly when moving to responded goes forward, that is on unread and read requests. |
| SeeAllRequests.Offered | src/components/SeeAllRequests.tsx:200-216 | A button is offered exactly for the moves that go strictly forward in the order unread < read < responded. |
| SeeAllRequests.ButtonMovesForward | src/components/SeeAllRequests.tsx:200-216 | When ids are distinct, an offered button moves its request strictly forward and leaves every other request unchanged. |
| SeeAllRequests.DuplicateIdsMoveBackward | src/components/SeeAllRequests.tsx:77-83 | When two requests share an id, "Mark as Read" on the unread one moves the responded one back to read. |
| SeeAllRequests.Inbox.constructor | src/components/SeeAllRequests.tsx:18-57 | The inbox starts with the seed requests and filter "all". The ids are distinct. |
| SeeAllRequests.Inbox.Visible | src/components/SeeAllRequests.tsx:85-87 | Every listed card is one of the requests. |
| SeeAllRequests.Inbox.Counts | src/components/SeeAllRequests.tsx:89-95 | The summary counts add up to the number of requests. |
| SeeAllRequests.Inbox.SetFilter | src/components/SeeAllRequests.tsx:57 | Sets only the filter. |
| SeeAllRequests.Inbox.UpdateStatus | src/components/SeeAllRequests.tsx:77-83 | Replaces the requests with the updated list and keeps ids distinct. |
| SeeAllRequests.Inbox.Press | src/components/SeeAllRequests.tsx:200-216 | The new requests are the old ones with the pressed card's id moved to the new status. The filter is kept and ids stay distinct. No request moves backward, and some request moves strictly forward. |
| ProgressReport.FilteredData | src/components/UserProgress.tsx:90-98 | A row is shown exactly when it matches the search (username, email or study name, ignoring case) and the study filter. |
| ProgressReport.FilteredDataKeepsOrder | src/components/UserProgress.tsx:90-98 | The view is an order-preserving subsequence of the table. |
| ProgressReport.NoFilterShowsAll | src/components/UserProgress.tsx:94 | With an empty search, both "all" and "All Studies" show every row. |
| ProgressReport.StudyFilterExact | src/components/UserProgress.tsx:94 | With an empty search, any other study value shows exactly the rows with that exact study name. |
| ProgressReport.SearchIgnoresCase | src/components/UserProgress.tsx:91-93 | Search terms that differ only in letter case give the same view. |
| ProgressReport.BandsPartition | src/components/UserProgress.tsx:100-112 | Every percentage lies in exactly one of the four bands. |
| ProgressReport.ProgressColor | src/components/UserProgress.tsx:100-105 | The bar colour is the colour of the band the percentage lies in. |
| ProgressReport.ProgressTextColor | src/components/UserProgress.tsx:107-112 | The text colour is the colour of the band the percentage lies in. |
| ProgressReport.ColorsAgree | src/components/UserProgress.tsx:100-112 | The bar colour and the text colour always show the same band. |
| ProgressReport.AboveHundredIsHigh | src/components/UserProgress.tsx:100-112 | Nothing caps a percentage at 100: any value above 100 gets the blue bar and the blue text of the 75-99 band. |
| ProgressReport.CompletedUsers | src/components/UserProgress.tsx:116 | The figure is the number of rows at exactly 100, counted one by one. It is at most the number of rows, and equals it exactly when every row is at 100. |
| ProgressReport.ActiveUsers | src/components/UserProgress.tsx:118 | The figure is the number of rows whose last-activity text contains "hour", counted one by one. It is at most the number of rows, and zero exactly when no such row exists. |
| ProgressReport.SumPercentages | src/components/UserProgress.tsx:117 | The sum is 0 for an empty table. Otherwise it is the sum of all rows but the last, plus the last row's percentage, as `reduce` accumulates from 0, first row to last. |
| ProgressReport.SumBounds | src/components/UserProgress.tsx:117 | Percentages in [0, 100] sum to between 0 and 100 times the number of rows. |
| ProgressReport.RoundHalfUp | src/components/UserProgress.tsx:117 | The result is the integer nearest to n / d, with halves rounded up. |
| ProgressReport.AverageProgress | src/components/UserProgress.tsx:117 | There is no average exactly when the table is empty. |
| ProgressReport.AverageInRange | src/components/UserProgress.tsx:117 | If every percentage lies in [0, 100], so does the rounded average. |
| ProgressReport.RoundedMeanInRange | src/components/UserProgress.tsx:117 | A total of at most 100 per item, divided by the item count and rounded, lies in [0, 100]. |
| ProgressReport.SeedCompleted | src/components/UserProgress.tsx:25-86 | The seed table has five users, two of them complete. |
| ProgressReport.SeedAverage | src/components/UserProgress.tsx:25-86 | The seed average is 82 (409 / 5 rounded). |
| ProgressReport.SeedActive | src/components/UserProgress.tsx:25-86 | Four seed users count as active. "1 day ago" does not mention "hour". |
| ProgressReport.SeedActivity | src/components/UserProgress.tsx:25-86 | Each seed row is active exactly when it is not the second row. |
| UploadStudy.Merge | src/components/UploadStudy.tsx:64-75 | Every field present in the update overwrites the page's field. Every absent field keeps the page's value. |
| UploadStudy.MergeLaws | src/components/UploadStudy.tsx:64-75 | An empty update changes nothing. An update applied twice equals one application. Two updates in a row equal one combined update in which the later fields win. |
| UploadStudy.WithNewChapter | src/components/UploadStudy.tsx:30-38 | Earlier chapters are unchanged. One chapter is appended, with the new id, an empty title, no pages and number = old count + 1. |
| UploadStudy.Retitled | src/components/UploadStudy.tsx:40-44 | The length, every id, number and page list are unchanged. Only the matching chapters get the new title. |
| UploadStudy.RetitleOverwrites | src/components/UploadStudy.tsx:40-44 | Retitling twice keeps only the second title. |
| UploadStudy.WithoutChapter | src/components/UploadStudy.tsx:46-48 | A chapter is kept exactly when it was present and its id differs. An absent id changes nothing. |
| UploadStudy.RemoveUndoesAdd | src/components/UploadStudy.tsx:30-48 | Adding a chapter under a fresh id and then removing it restores the list. |
| UploadStudy.RemoveKeepsNumbers | src/components/UploadStudy.tsx:46-48 | Every surviving chapter is an unchanged chapter of the old list, so it keeps its number. |
| UploadStudy.NumbersCanRepeat | src/components/UploadStudy.tsx:30-48 | Adding "a" and "b", removing "a" and then adding "c" leaves two chapters both numbered 2. |
| UploadStudy.MapPages | src/components/UploadStudy.tsx:50-83 | The length is kept. Only the matching chapters get their pages rewritten. |
| UploadStudy.WithNewPage | src/components/UploadStudy.tsx:50-62 | A blank text page is appended to the matching chapters only. An absent chapter id changes nothing. |
| UploadStudy.WithPageUpdate | src/components/UploadStudy.tsx:64-75 | Chapter ids, titles, numbers, page counts and other chapters are unchanged. In the matching chapter, exactly the matching pages are merged with the update. |
| UploadStudy.PageUpdateIdempotent | src/components/UploadStudy.tsx:64-75 | Applying the same page update twice equals applying it once. |
| UploadStudy.WithoutPage | src/components/UploadStudy.tsx:77-83 | The chapter count and other chapters are unchanged. In the matching chapter, a page is kept exactly when its id differs. |
| UploadStudy.RemovePageUndoesAdd | src/components/UploadStudy.tsx:50-83 | Adding a page under a fresh id and then removing it restores the chapters. |
| UploadStudy.ClassifyFile | src/components/UploadStudy.tsx:86 | Pdf exactly when the MIME type contains "pdf". Audio exactly when it contains "audio" and not "pdf". Text otherwise. |
| UploadStudy.PdfTestedFirst | src/components/UploadStudy.tsx:86 | A MIME type containing both "pdf" and "audio" is classified as pdf. |
| UploadStudy.MimeTestIsCaseSensitive | src/components/UploadStudy.tsx:86 | The MIME test is case-sensitive: "application/PDF" is classified as text. |
| UploadStudy.UploadUpdate | src/components/UploadStudy.tsx:85-91 | The update sets the file name and the classified type. Its content is "File: " + name for pdf and audio and empty for text. It leaves id and title alone. |
| UploadStudy.PublishEnabled | src/components/UploadStudy.tsx:270 | Publish is enabled exactly when no upload is running and the title has a non-whitespace character. |
| UploadStudy.Editor.constructor | src/components/UploadStudy.tsx:25-28 | The editor starts with an empty title and description, no chapters and no upload. |
| UploadStudy.Editor.CanPublish | src/components/UploadStudy.tsx:270 | The Publish button is enabled exactly when no upload is running and the title has a non-whitespace character. |
| UploadStudy.Editor.SetStudyTitle | src/components/UploadStudy.tsx:25 | Sets only the title. |
| UploadStudy.Editor.SetStudyDescription | src/components/UploadStudy.tsx:26 | Sets only the description. |
| UploadStudy.Editor.AddChapter | src/components/UploadStudy.tsx:30-38 | Replaces the chapters with the list with the new chapter appended, and changes nothing else. |
| UploadStudy.Editor.UpdateChapter | src/components/UploadStudy.tsx:40-44 | Replaces the chapters with the retitled list, and changes nothing else. |
| UploadStudy.Editor.RemoveChapter | src/components/UploadStudy.tsx:46-48 | Replaces the chapters with the list without the id, and changes nothing else. |
| UploadStudy.Editor.AddPage | src/components/UploadStudy.tsx:50-62 | Replaces the chapters with the list with the blank page added, and changes nothing else. |
| UploadStudy.Editor.UpdatePage | src/components/UploadStudy.tsx:64-75 | Replaces the chapters with the list with the page merged, and changes nothing else. |
| UploadStudy.Editor.RemovePage | src/components/UploadStudy.tsx:77-83 | Replaces the chapters with the list without the page, and changes nothing else. |
| UploadStudy.Editor.HandleFileUpload | src/components/UploadStudy.tsx:85-92 | Applies the file's update to the page, and changes nothing else. |
| UploadStudy.Editor.BeginSave | src/components/UploadStudy.tsx:94-96 | Starts only through an enabled Publish button. It sets the uploading flag, which disables the button, and leaves the data alone. |
| UploadStudy.Editor.EndSave | src/components/UploadStudy.tsx:97-98 | Clears the uploading flag and leaves the data alone. |

## Left out

- Rendering: JSX markup, icons (including `getStatusIcon` in SeeAllRequests.tsx) and Tailwind class strings. Colours and badge texts are enumerations.
- `Date.now()` ids: the new chapter and page ids are parameters. The source's ids come from the clock and two clicks in the same millisecond collide. The lemmas that need a fresh id say so in their preconditions.
- The timer and the `alert` in `handleSaveStudy`: the save is split into BeginSave and EndSave around the delay. The upload itself does nothing in the source.
- Strings.ToLower: lower-cases ASCII letters only, not full Unicode case mapping.
- ProgressReport.AverageProgress: models `Math.round` of a floating-point quotient by exact integer half-up rounding. Dividing by an empty table (NaN in JavaScript) is `None`.
- ProgressReport.UserProgress: `percentageComplete` is an independent stored field, as in the source, and is not derived from the chapter counts.
- Numbers (chapter counts, enrolments, percentages) are unbounded integers. JavaScript's floating-point numbers behave the same at the sizes these screens use.
- UploadStudy.PageUpdate: a field set to `undefined` in a JavaScript partial object would overwrite the page's field. The model treats it as absent. No caller of `updatePage` passes `undefined`.
- The file picker's `accept` list and the browser's MIME detection are left out. Only the MIME string reaches the model.
- The other screens (sermon and devotion upload forms, dashboard, layout and routing) are not part of this model. They hold no list logic.

## Observations

These follow from the code as written. Each is proved by the member named
after it:

- Chapter numbers can repeat after a chapter is removed (UploadStudy.NumbersCanRepeat). Removal does not renumber, and addition numbers by count.
- The request buttons only move forward when ids are distinct. With a shared id, a forward press on one request moves another backward (SeeAllRequests.DuplicateIdsMoveBackward).
- A pending-delete id of `""` is falsy, so the dialog would not show (ManageStudies.Catalogue.ModalVisible, in its postcondition).
- Any percentage above 100 falls in the blue "high" band, like 75 to 99 (ProgressReport.AboveHundredIsHigh).
- The MIME-type test is case-sensitive: "application/PDF" is classified as text (UploadStudy.MimeTestIsCaseSensitive).
