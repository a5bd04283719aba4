# NeuroMuseo documentation and form logic in Dafny

This project models the parts of the NeuroMuseo web site that hold program logic. The rest of the site is markup and animation.

- **The documentation query service** (`lib/docs.ts`) over the static content tree (`data/docs/index.ts`).
  - It sorts sections by `order`; `getAllSections` does this in place, on the module-level `docsData` array.
  - It looks up sections and articles by id, flattens the articles, and builds article paths.
  - It runs a case-insensitive substring search, and a stable newest-first listing cut with `slice(0, limit)`.
  - It steps to the next or previous article, crossing into the adjacent section at a section boundary.
- **The image gallery's modal cursor** (`components/docs/image-gallery.tsx`): opening, cyclic next/previous, keyboard dispatch, and the two-step close.
- **The documentation sidebar** (`components/docs/doc-sidebar.tsx`): the expanded-sections toggle, the initial list, the search gate and the icon fallback.
- **The faculty drop-down** (`components/feedback/faculty-selector.tsx`): the 21 faculties, the search filter, the reset on close and the result counter.
- **The feedback page** (`app/feedback/page.tsx`): the form, its change handlers, and the submit handler's validation and transitions.
- **The demo page** (`app/demo/page.tsx`): file validation, the three processing steps with their progress values, reset, and the download name.

## Project layout

- `wrappers.dfy` (`Wrappers`): `Option`.
- `seqs.dfy` (`Seqs`): `Array.prototype.filter` and the stable `Array.prototype.sort`. The sort is modelled as insertion sort, and is proved sorted, a permutation and stable.
- `text.dfy` (`Text`): `toLowerCase`, `includes`, `startsWith` and `trim`.
- `docs_data.dfy` (`DocsIndex`): the content types and the shipped store `DocsData`.
- `docs.dfy` (`Docs`): the query service.
  - Queries are functions of the store's current contents.
  - The class `DocStore` holds `docsData`. Its methods change the store where the source does.
- `docs_fixture.dfy` (`DocsFixture`): what the queries answer on the shipped store.
- One module per component:
  - `image_gallery.dfy`
  - `doc_sidebar.dfy`
  - `faculty_selector.dfy`
  - `feedback_page.dfy`
  - `demo_page.dfy`

Each component module has a class whose fields are the component's state and whose methods are its handlers.

Calls the model cannot see become parameters:
- whether the feedback insert succeeds (`insertSucceeds`);
- the restoration model's result (`aiResult`);
- the file reader's data URL (`PreviewLoaded`);
- the firing of the gallery's reset timer (`ResetTimerFires`).

## Where the model follows the code rather than the documented intent

- The documented intent is that article navigation continues into the next section. The code looks only at the immediately adjacent section in `order`. If that section is empty, `getNextArticle` and `getPreviousArticle` return `null` and do not skip ahead (`lib/docs.ts:52-59`, `lib/docs.ts:86-93`). The model does the same. `EmptyNeighbourStopsNext` and `EmptyNeighbourStopsPrevious` show it on a small store.
- `getAllSections` sorts `docsData` in place. The navigation functions call it only on the section-boundary path, so a call can reorder the store that later lookups and flattening see. `DocStore.GetNextArticle` and `DocStore.GetPreviousArticle` state the store they leave behind. The round-trip lemmas run the second call on that store.

## Model

| member | source | states |
|---|---|---|
| Seqs.Filter | lib/docs.ts:101-106 | the filter keeps exactly the elements satisfying the test, as an order-preserving subsequence |
| Seqs.FilterMonotone | components/feedback/faculty-selector.tsx:48 | filtering by a weaker test keeps a supersequence of what a stronger test keeps |
| Seqs.FilterKeepsAll | lib/docs.ts:101-106 | a filter whose test accepts every element returns its input |
| Seqs.FilterAppend | components/docs/doc-sidebar.tsx:52 | filtering a concatenation filters each part |
| Seqs.FilterOut | components/docs/doc-sidebar.tsx:52 | filtering out one value removes every copy of it and keeps every other element as often as it occurred |
| Seqs.FilterMultiplicity | components/docs/doc-sidebar.tsx:52 | the filter keeps every copy of an accepted element and no copy of a rejected one |
| Seqs.SortBy | lib/docs.ts:4 | the stable sort returns a permutation of its input of the same length |
| Seqs.SortBySorted | lib/docs.ts:4 | the sort's result is in non-decreasing key order |
| Seqs.SortByStable | lib/docs.ts:4 | for every key, the elements with that key keep their relative order (stability) |
| Seqs.SortByIdentity | lib/docs.ts:4 | an already sorted input is returned unchanged |
| Seqs.SortByIdempotent | lib/docs.ts:4 | sorting twice is sorting once |
| Seqs.SortByDistinct | lib/docs.ts:4 | sorting keeps distinct identifiers distinct |
| Text.LowerStr | lib/docs.ts:100 | lower-casing keeps the length and maps each character |
| Text.LowerStrIdempotent | lib/docs.ts:100-105 | lower-casing twice is lower-casing once |
| Text.Contains | lib/docs.ts:103-105 | `includes` holds exactly when the needle occurs at some position |
| Text.ContainsEmpty | lib/docs.ts:103-105 | every string includes the empty string |
| Text.ContainsTransitive | lib/docs.ts:103-105 | a string containing `b` contains everything `b` contains |
| Text.Trim | app/feedback/page.tsx:57 | trimming never lengthens a string, and a non-empty result neither starts nor ends with white space |
| Text.TrimSpec | app/feedback/page.tsx:57 | `trim` returns the piece between the leading and the trailing white space, and that piece neither starts nor ends with white space |
| Text.TrimEmptyIffBlank | app/feedback/page.tsx:57 | a string trims to empty exactly when it is all white space |
| Text.TrimIdempotent | app/feedback/page.tsx:66-71 | trimming a trimmed string changes nothing |
| DocsIndex.ParseKind | data/docs/index.ts:20-23 | a parsed content tag names the kind it was parsed as |
| DocsIndex.KindTagRoundTrip | data/docs/index.ts:20-23 | each of the six content kinds has a tag that parses back to it |
| DocsIndex.DayNumberOrder | lib/docs.ts:111 | on valid dates the day number orders dates chronologically and identifies equal dates |
| Docs.SortByOrder | lib/docs.ts:3-5 | the sections sorted by `order`: a permutation, non-decreasing in `order`, with equal-`order` sections in their original order |
| Docs.SortByOrderOfSorted | lib/docs.ts:3-5 | a store already in `order` is left unchanged |
| Docs.SortByOrderUnique | lib/docs.ts:3-5 | sorting keeps section ids distinct |
| Docs.SectionIndex | lib/docs.ts:51 | `findIndex` by section id: the first position with that id, or -1 exactly when no section has it |
| Docs.ArticleIndex | lib/docs.ts:38 | `findIndex` by article id: the first position with that id, or -1 exactly when no article has it |
| Docs.SectionIndexOfUnique | lib/docs.ts:51 | with distinct ids, a section's id finds that section's own position |
| Docs.ArticleIndexOfUnique | lib/docs.ts:38 | with distinct ids, an article's id finds that article's own position |
| Docs.SectionById | lib/docs.ts:7-9 | none exactly when no section has the id; otherwise the first section with it |
| Docs.SectionByIdOfMember | lib/docs.ts:7-9 | with distinct ids, looking up a stored section's id returns that section |
| Docs.ArticleById | lib/docs.ts:11-14 | none when the section is unknown or holds no such article, even if another section holds it; otherwise the article of that section at the first position whose id matches |
| Docs.AllArticles | lib/docs.ts:16-18 | the flattened list has one entry per article of every section, and holds exactly the articles of some section |
| Docs.AllArticlesAppend | lib/docs.ts:16-18 | flattening distributes over concatenation, and so do the article counts |
| Docs.AllArticlesAt | lib/docs.ts:16-18 | article `k` of section `i` sits after all articles of the sections before `i` |
| Docs.OwnerIndex | lib/docs.ts:21 | the position of the first section holding the article, or -1 exactly when none holds it |
| Docs.FindSectionByArticleId | lib/docs.ts:20-22 | none exactly when no stored article has the id; otherwise the first section, in current store order, holding it |
| Docs.ArticlePath | lib/docs.ts:24-28 | `/docs` exactly for an unknown article; otherwise `/docs/<owner id>/<article id>` |
| Docs.Matches | lib/docs.ts:101-106 | an article matches the lower-cased empty query whatever its title, description and tags |
| Docs.SearchArticles | lib/docs.ts:99-107 | an order-preserving subsequence of the flattened list holding exactly the articles whose lower-cased title, description or some tag contains the lower-cased query |
| Docs.SearchEmptyQuery | lib/docs.ts:99-107 | the empty query returns every article |
| Docs.SearchCaseInsensitive | lib/docs.ts:100 | queries equal up to letter case give the same result |
| Docs.SearchNarrows | lib/docs.ts:99-107 | a query containing another returns a subsequence of the other's results |
| Docs.SliceEnd | lib/docs.ts:112 | `slice(0, limit)` keeps `min(limit, len)` items for a non-negative limit, and drops the last `-limit` items for a negative one |
| Docs.RecentArticles | lib/docs.ts:109-113 | a prefix of the stable newest-first order of the flattened list, of length `min(limit, total)` for `limit >= 0`, holding stored articles newest first |
| Docs.RecentPrefix | lib/docs.ts:110-112 | every prefix of the recency order holds stored articles, newest first |
| Docs.RecentTiesKeepOrder | lib/docs.ts:111 | articles of the same date keep their flattened order |
| Docs.NextAcross | lib/docs.ts:50-60 | the section step forward answers exactly when the section is not last in the sorted store and the one after it has articles; the answer is that next sorted section with its first article |
| Docs.PreviousAcross | lib/docs.ts:84-94 | the section step backward answers exactly when the section is not first in the sorted store and the one before it has articles; the answer is that previous sorted section with its last article |
| Docs.NextArticle | lib/docs.ts:31-63 | none for an unknown section or article; before the section's last article, the following article of the same section; at the last article, the section step forward; a returned article always belongs to the returned stored section |
| Docs.PreviousArticle | lib/docs.ts:65-97 | none for an unknown section or article; after the section's first article, the preceding article of the same section; at the first article, the section step backward; a returned article always belongs to the returned stored section |
| Docs.StoreAfterNext | lib/docs.ts:50 | the store left by the forward step holds the same sections, and is untouched unless the step reached the section boundary |
| Docs.StoreAfterPrevious | lib/docs.ts:84 | the store left by the backward step holds the same sections, and is untouched unless the step reached the section boundary |
| Docs.SortedMembers | lib/docs.ts:4 | a section is in the sorted store exactly when it is in the store |
| Docs.SameIdSameSection | lib/docs.ts:7-9 | with distinct ids, two stored sections with the same id are the same section |
| Docs.NextThenPreviousWithin | lib/docs.ts:42-47 | inside one section, the step back from the next article returns the starting article and section |
| Docs.NextOfLast | lib/docs.ts:42-60 | at a section's last article, the forward step is the section step |
| Docs.PreviousOfFirst | lib/docs.ts:76-94 | at a section's first article, the backward step is the section step |
| Docs.NextAcrossSorted | lib/docs.ts:50-59 | on a sorted store, the section step forward lands on the next section's first article |
| Docs.PreviousAcrossSorted | lib/docs.ts:84-93 | on a sorted store, the section step backward lands on the previous section's last article |
| Docs.BackFromSectionStart | lib/docs.ts:65-97 | on the sorted store, the first article of a section steps back to the last article of the section before it |
| Docs.OnFromSectionEnd | lib/docs.ts:31-63 | on the sorted store, the last article of a section steps on to the first article of the section after it |
| Docs.NextAtSectionEnd | lib/docs.ts:50-59 | a successful forward step from a section's end lands on the first article of the section right after it in `order` |
| Docs.PreviousAtSectionStart | lib/docs.ts:84-93 | a successful backward step from a section's start lands on the last article of the section right before it in `order` |
| Docs.SortedAtIsById | lib/docs.ts:7-9 | the section at a position of the sorted store is the one its id looks up |
| Docs.NoNextAfterLastSection | lib/docs.ts:50-62 | the last article of the last section in `order` has no next article |
| Docs.NoPreviousBeforeFirstSection | lib/docs.ts:84-96 | the first article of the first section in `order` has no previous article |
| Docs.NextThenPreviousAcross | lib/docs.ts:50-93 | across a section boundary, the step back from the next article, on the store as left, returns the starting article and section |
| Docs.NextThenPrevious | lib/docs.ts:31-97 | with distinct ids, `getNextArticle(s, a) = (b, t)` implies `getPreviousArticle(t.id, b.id) = (a, s)` on the store the first call leaves |
| Docs.PreviousThenNextWithin | lib/docs.ts:76-81 | inside one section, the step on from the previous article returns the starting article and section |
| Docs.PreviousThenNextAcross | lib/docs.ts:50-93 | across a section boundary, the step on from the previous article, on the store as left, returns the starting article and section |
| Docs.PreviousThenNext | lib/docs.ts:31-97 | with distinct ids, `getPreviousArticle(s, a) = (b, t)` implies `getNextArticle(t.id, b.id) = (a, s)` on the store the first call leaves |
| Docs.DocStore.constructor | data/docs/index.ts:25 | the store starts as the shipped content tree |
| Docs.DocStore.GetAllSections | lib/docs.ts:3-5 | the store is replaced by its sort by `order`, and that same list is returned |
| Docs.DocStore.GetNextArticle | lib/docs.ts:31-63 | returns `NextArticle` of the old store; the store is sorted only when the section step was reached |
| Docs.DocStore.GetPreviousArticle | lib/docs.ts:65-97 | returns `PreviousArticle` of the old store; the store is sorted only when the section step was reached |
| DocsFixture.StoreIds | data/docs/index.ts:25-441 | the five section ids, in array order |
| DocsFixture.StoreOrders | data/docs/index.ts:25-441 | the sections carry `order` 1 to 5 in array order |
| DocsFixture.StoreIsInOrder | data/docs/index.ts:25-441 | sorting the shipped store by `order` leaves it unchanged |
| DocsFixture.ArticleCounts | data/docs/index.ts:25-441 | the article counts are 2, 2, 1, 1, 1, seven articles in all, in the listed flattened order |
| DocsFixture.StoreIdsUnique | data/docs/index.ts:25-441 | section ids are distinct, and so are all seven article ids across the store |
| DocsFixture.ArticleMetadata | data/docs/index.ts:25-441 | every article was updated on 2024-01-15 and has a positive reading time |
| DocsFixture.RecentIsFlattenedPrefix | lib/docs.ts:109-113 | on the shipped store, the recent list is the first `min(n, 7)` articles in flattened order |
| DocsFixture.RecentDefaultLimit | lib/docs.ts:109 | with the default limit, the recent list is the first five articles |
| DocsFixture.NextAcrossFirstBoundary | lib/docs.ts:50-59 | after `architecture` in `introduction` comes `dataset-preparation` in `training` |
| DocsFixture.PreviousAcrossFirstBoundary | lib/docs.ts:84-93 | before `dataset-preparation` in `training` comes `architecture` in `introduction` |
| DocsFixture.NothingAfterLast | lib/docs.ts:50-62 | `resources` in `downloads` has no next article |
| DocsFixture.NothingBeforeFirst | lib/docs.ts:84-96 | `what-is-neuro-museo` in `introduction` has no previous article |
| DocsFixture.ScopedLookupFinds | lib/docs.ts:11-14 | `architecture` is found in `introduction` |
| DocsFixture.ScopedLookupMisses | lib/docs.ts:11-14 | `architecture` is not found in `training`, although another section holds it |
| DocsFixture.ArchitectureOwner | lib/docs.ts:20-22 | `architecture` belongs to `introduction` |
| DocsFixture.PathOfKnownArticle | lib/docs.ts:24-28 | the path of `architecture` is `/docs/introduction/architecture` |
| DocsFixture.PathOfUnknownArticle | lib/docs.ts:26 | the path of an unknown article is `/docs` |
| DocsFixture.LowerQuery | lib/docs.ts:100 | the query "DATASET" lower-cases to "dataset" |
| DocsFixture.SearchIgnoresCase | lib/docs.ts:99-107 | the upper-case query "DATASET" finds the article tagged "dataset" |
| DocsFixture.GappedStore | lib/docs.ts:3-5 | a three-section store with an empty middle section, already in `order` |
| DocsFixture.EmptyNeighbourStopsNext | lib/docs.ts:52-62 | with an empty section after the current one, the forward step returns nothing even though a later section has articles |
| DocsFixture.EmptyNeighbourStopsPrevious | lib/docs.ts:86-96 | with an empty section before the current one, the backward step returns nothing even though an earlier section has articles |
| ImageGallery.NextIndex | components/docs/image-gallery.tsx:34-38 | the next index stays in range, is one further on, and wraps from the last image to the first |
| ImageGallery.PrevIndex | components/docs/image-gallery.tsx:40-44 | for a position in range, the previous position is in range and stepping forward from it returns to the start |
| ImageGallery.PrevIndexInRange | components/docs/image-gallery.tsx:40-44 | the previous index stays in range, is one back, and wraps from the first image to the last |
| ImageGallery.PrevAfterNext | components/docs/image-gallery.tsx:34-44 | "previous" undoes "next" |
| ImageGallery.NextAfterPrev | components/docs/image-gallery.tsx:34-44 | "next" undoes "previous" |
| ImageGallery.AdvanceWithinCycle | components/docs/image-gallery.tsx:34-38 | `k <= n` presses of "next" move `k` places, wrapping once past the end |
| ImageGallery.AdvanceFullCycle | components/docs/image-gallery.tsx:34-38 | one press of "next" per image returns to the starting image |
| ImageGallery.Gallery.constructor | components/docs/image-gallery.tsx:18-19 | the gallery starts with no selection and the modal closed |
| ImageGallery.Gallery.OpenModal | components/docs/image-gallery.tsx:21-24 | the clicked image is selected and the modal opens |
| ImageGallery.Gallery.CloseModal | components/docs/image-gallery.tsx:26-32 | the modal closes at once; clearing the selection is only scheduled |
| ImageGallery.Gallery.ResetTimerFires | components/docs/image-gallery.tsx:29-31 | a scheduled reset clears the selection whether or not the modal has been reopened |
| ImageGallery.Gallery.SetModalOpen | components/docs/image-gallery.tsx:177 | the dialog's own callback sets only the open flag |
| ImageGallery.Gallery.NextImage | components/docs/image-gallery.tsx:34-38 | a selection moves to the next index; no selection stays none |
| ImageGallery.Gallery.PrevImage | components/docs/image-gallery.tsx:40-44 | a selection moves to the previous index; no selection stays none |
| ImageGallery.Gallery.HandleKeyDown | components/docs/image-gallery.tsx:48-60 | keys are ignored while the modal is closed; Escape closes it; the arrows move the cursor only with more than one image; any other key leaves the modal open and schedules no reset; no key selects an image when none is selected |
| ImageGallery.ReopenBeforeResetClearsSelection | components/docs/image-gallery.tsx:21-32 | open, close, reopen, then the first timer fires: the modal is open with nothing selected |
| ImageGallery.Gallery.ResetTimerFiresGuarded | components/docs/image-gallery.tsx:28-31 | a reset that clears the selection only while the modal is closed keeps "an open modal has an image" |
| ImageGallery.ReopenBeforeResetKeepsSelection | components/docs/image-gallery.tsx:21-32 | with the guarded reset, the same sequence leaves the reopened modal on its image |
| DocSidebar.InitialExpanded | components/docs/doc-sidebar.tsx:45 | the initial list is the current section's id alone, or the empty id when there is none |
| DocSidebar.Toggle | components/docs/doc-sidebar.tsx:50-54 | after a toggle the id is expanded exactly when it was not before |
| DocSidebar.ToggleFlips | components/docs/doc-sidebar.tsx:50-54 | a toggle flips whether the id is expanded and leaves every other id's membership unchanged |
| DocSidebar.ToggleContents | components/docs/doc-sidebar.tsx:50-54 | collapsing removes every copy of the id and keeps all other entries in order; expanding appends one copy at the end |
| DocSidebar.CollapseOnce | components/docs/doc-sidebar.tsx:50-54 | collapsing an id expanded once removes exactly that entry and keeps the rest in order |
| DocSidebar.ToggleTwiceAbsent | components/docs/doc-sidebar.tsx:50-54 | toggling an absent id twice restores the exact list |
| DocSidebar.ToggleTwicePresentOnce | components/docs/doc-sidebar.tsx:50-54 | toggling a once-present id twice keeps it expanded but moves it to the end |
| DocSidebar.SearchResults | components/docs/doc-sidebar.tsx:48 | no results for the empty query; otherwise exactly the matching articles, as a subsequence of the flattened list |
| DocSidebar.EmptyQueryGated | components/docs/doc-sidebar.tsx:48 | the gate, not the search, hides the results of the empty query, which itself matches every article |
| DocSidebar.IconFor | components/docs/doc-sidebar.tsx:26-75 | a registered name gives its own icon; any other name gives `BookOpen` |
| DocSidebar.IconRoundTrip | components/docs/doc-sidebar.tsx:26-32 | every registered icon is found under its own key |
| DocSidebar.Sidebar.constructor | components/docs/doc-sidebar.tsx:44-45 | an empty search box and the initial expanded list |
| DocSidebar.Sidebar.SetSearchQuery | components/docs/doc-sidebar.tsx:107 | the query changes and the expanded list does not |
| DocSidebar.Sidebar.ToggleSection | components/docs/doc-sidebar.tsx:50-54 | the list becomes its toggle: the id's membership flips and every other id's stays |
| DocSidebar.Sidebar.Render | components/docs/doc-sidebar.tsx:47-48 | a render sorts the store in place and computes the gated results on the sorted store |
| FacultySelector.EmptyTermMatchesAll | components/feedback/faculty-selector.tsx:48 | every faculty name contains the empty term |
| FacultySelector.FilterFacultades | components/feedback/faculty-selector.tsx:46-49 | the full list for the empty term; otherwise an order-preserving subsequence holding exactly the faculties whose lower-cased name contains the lower-cased term |
| FacultySelector.ShortcutAgreesWithFilter | components/feedback/faculty-selector.tsx:46-48 | the empty-term shortcut returns what the filter itself would |
| FacultySelector.FilterIgnoresCase | components/feedback/faculty-selector.tsx:48 | terms equal up to letter case select the same faculties |
| FacultySelector.FilterNarrows | components/feedback/faculty-selector.tsx:46-49 | a term containing another selects a sub-list of the other's faculties |
| FacultySelector.NatToString | components/feedback/faculty-selector.tsx:146 | a count renders as a non-empty string of decimal digits |
| FacultySelector.NatToStringRoundTrip | components/feedback/faculty-selector.tsx:146 | reading the rendered count back gives the count |
| FacultySelector.CountLabel | components/feedback/faculty-selector.tsx:146-147 | "1 facultad encontrada" for one result; "<n> facultades encontradas" for every other count |
| FacultySelector.Counter | components/feedback/faculty-selector.tsx:139-147 | the counter is shown exactly while a term is typed, and counts the filtered list |
| FacultySelector.Selector.constructor | components/feedback/faculty-selector.tsx:42-43 | closed, with an empty search term |
| FacultySelector.Selector.SetSearchTerm | components/feedback/faculty-selector.tsx:94 | the term changes and the open state does not |
| FacultySelector.Selector.HandleOpenChange | components/feedback/faculty-selector.tsx:51-56 | records the new open state; closing clears the term, opening keeps it |
| FacultySelector.Selector.Visible | components/feedback/faculty-selector.tsx:46-49 | the offered list is the filter of the current term |
| FacultySelector.CloseThenReopenShowsAll | components/feedback/faculty-selector.tsx:51-56 | after a close, reopening offers all 21 faculties |
| FeedbackPage.WithField | app/feedback/page.tsx:43-46 | the named field gets the value and every other field, the opinion included, is unchanged |
| FeedbackPage.Complete | app/feedback/page.tsx:57 | the submit validation; a form that passes has no empty name, career or faculty |
| FeedbackPage.BlankFieldRejected | app/feedback/page.tsx:57 | a field that is empty or all white space fails the validation |
| FeedbackPage.CompleteIffNonBlank | app/feedback/page.tsx:57 | the form passes exactly when each text field has a non-blank character and an opinion is chosen |
| FeedbackPage.ToFeedback | app/feedback/page.tsx:66-71 | the sent record carries the trimmed name, career and faculty, none longer than typed, and the opinion as chosen |
| FeedbackPage.SentRecordIsClean | app/feedback/page.tsx:57-71 | a sent record has non-empty fields without surrounding white space, and the same form would send it unchanged |
| FeedbackPage.Page.constructor | app/feedback/page.tsx:23-31 | every field empty, no opinion, not submitting or submitted, no error, nothing sent |
| FeedbackPage.Page.HandleInputChange | app/feedback/page.tsx:43-46 | one field changes and the error is cleared |
| FeedbackPage.Page.HandleOpinionChange | app/feedback/page.tsx:48-51 | only the opinion changes and the error is cleared |
| FeedbackPage.Page.BeginSubmit | app/feedback/page.tsx:53-71 | an incomplete form only sets the "complete all fields" error; a complete one starts submitting, clears the error and sends the trimmed record |
| FeedbackPage.Page.FinishSubmit | app/feedback/page.tsx:73-82 | success marks the form submitted; failure sets the retry error; either way submitting ends |
| FeedbackPage.Page.HandleSubmit | app/feedback/page.tsx:53-83 | rejection sends nothing and leaves the flags alone; acceptance sends the trimmed record once and ends not submitting, submitted and error-free on success, with the retry error on failure |
| FeedbackPage.PaddedFormSendsTrimmed | app/feedback/page.tsx:43-83 | a form filled with padded values sends them trimmed and ends submitted |
| DemoPage.CheckFile | app/demo/page.tsx:73-81 | a file passes exactly when its type starts with `image/` and it is at most 10 MiB; the type verdict does not depend on the size |
| DemoPage.SizeLimitInclusive | app/demo/page.tsx:78-81 | an image of exactly 10 MiB passes and one byte more is too large |
| DemoPage.TypeCheckedFirst | app/demo/page.tsx:73-81 | a file of the wrong type is reported as such however large it is |
| DemoPage.SetStatus | app/demo/page.tsx:128-130 | a step update keeps the list's length and order, sets the status of the steps with that id, and leaves the others as they were |
| DemoPage.ResetStatuses | app/demo/page.tsx:120-125 | the reset sets every step pending and keeps everything else |
| DemoPage.SetStatusKeepsShape | app/demo/page.tsx:128-160 | updates keep the ids, names and descriptions of every step |
| DemoPage.SetStatusOverrides | app/demo/page.tsx:128-136 | a later update of a step overrides an earlier one |
| DemoPage.SetStatusCommutes | app/demo/page.tsx:134-141 | updates of different steps commute |
| DemoPage.SetStatusMissingId | app/demo/page.tsx:128-130 | an update naming no step changes nothing |
| DemoPage.ResetStatusesShape | app/demo/page.tsx:192-195 | the reset keeps the ids and makes every status pending |
| DemoPage.CheckMessage | app/demo/page.tsx:73-81 | a file check has no error message exactly when the file is accepted, and every rejection's message is non-empty |
| DemoPage.SetDetection | app/demo/page.tsx:128-160 | setting the detection step's status changes that step only |
| DemoPage.SetAnalysis | app/demo/page.tsx:128-160 | setting the analysis step's status changes that step only |
| DemoPage.SetReconstruction | app/demo/page.tsx:128-160 | setting the reconstruction step's status changes that step only |
| DemoPage.StepsWithUpdates | app/demo/page.tsx:128-160 | each update of the run touches only the step it names, and resetting gives the starting list |
| DemoPage.DownloadName | app/demo/page.tsx:177 | the download name starts with `restored-` and ends with `.png` |
| DemoPage.DownloadNameKeepsName | app/demo/page.tsx:177 | a non-empty file name can be read back out of the download name |
| DemoPage.DownloadNameFallback | app/demo/page.tsx:177 | without a file name the result is `restored-image.png` |
| DemoPage.Demo.constructor | app/demo/page.tsx:39-67 | no file, preview or result, not processing, progress 0, no error, the three steps pending |
| DemoPage.Demo.HandleFileSelect | app/demo/page.tsx:72-93 | a rejected file only sets its error; an accepted one becomes the selection and clears the error and the previous result |
| DemoPage.Demo.HandleDrop | app/demo/page.tsx:95-104 | the first dropped file, if any, goes through the same checks with the same outcome as a chosen file; a drop with no file, or a rejected file, changes nothing but the error; the preview, steps, progress and processing flags are untouched |
| DemoPage.Demo.PreviewLoaded | app/demo/page.tsx:88-92 | the reader's data URL becomes the preview and nothing else changes, so the step list stays valid |
| DemoPage.Demo.StartRun | app/demo/page.tsx:113-132 | processing starts, the error clears, the steps reset and detection runs at progress 20 |
| DemoPage.Demo.AfterDetection | app/demo/page.tsx:134-143 | detection completes and analysis runs at progress 50 |
| DemoPage.Demo.AfterAnalysis | app/demo/page.tsx:145-156 | analysis completes and reconstruction runs at progress 80 |
| DemoPage.Demo.Settle | app/demo/page.tsx:156-169 | success shows the result, completes reconstruction and reaches 100; failure shows the error; processing ends either way |
| DemoPage.Demo.ProcessImage | app/demo/page.tsx:110-170 | no file: nothing changes; success: progress 0, 20, 50, 80, 100 and all steps completed; failure: progress stops at 80 with reconstruction still processing and the error shown; processing ends on every path |
| DemoPage.Demo.DownloadResult | app/demo/page.tsx:172-181 | no link without a result; otherwise a link to the result under the download name |
| DemoPage.Demo.ResetDemo | app/demo/page.tsx:183-196 | file, preview, result and error cleared, not processing, progress 0, all steps pending |

## Left out

- Unicode case mapping: `toLowerCase` maps only the ASCII letters A-Z. Every other character is left as it is.
- `new Date(...)` parsing: dates are (year, month, day) triples compared by a day number. The behaviour on malformed date strings (a `NaN` comparator) is not modelled.
- Section `order` values are integers; JavaScript numbers with fractions are not modelled.
- Only the articles' content payloads (markdown bodies, code, images, downloads, metrics) are abstracted away: a content item carries only its kind. Titles, descriptions, ids, orders, icons, tags, dates and reading times are kept as shipped.
- `data/docs/types.ts` and `data/docs/sections/*.ts` are not part of this model. They repeat the types and hold content that the query service does not read.
- `getIconComponent` on property names inherited by a JavaScript object (such as `constructor`) is not modelled. Only the five registered names are distinguished.
- `handleInputChange` with a key other than `name`, `career` or `faculty` is not modelled. The form only calls it with these three.
- Timers, `window.scrollTo`, `document.body.style`, `FileReader`, the download anchor click, the shared store behind `setModelLoading` (kept as a field), the network client behind `insertFeedback` and the restoration model in `lib/ai-model.ts` are left out. Their effects or results appear as parameters or event methods.
- Concurrency between handlers is not modelled. Handlers run one at a time. In particular, the model does not cover a file chosen, or a reset, while `processImage` is waiting.
- The Dialog library's own Escape handling also calls `closeModal`. One Escape press can therefore schedule two resets. Each scheduled reset is a separate `ResetTimerFires` event, but the library's key handling itself is not modelled.
- Rendering, styling and animation in every component are left out.

## Findings

| source | as written | input that shows it | evidently intended | confidence | as-written member | corrected member |
|---|---|---|---|---|---|---|
| components/docs/image-gallery.tsx:26-32 | `closeModal` schedules `setSelectedImage(null)` unconditionally, 150 ms later | open image 0, close, open image 1 within 150 ms: the timer fires and the open modal shows no image | clear the cursor only once the close animation has finished, so the reset should not clear a modal that is open again | medium, not executed | ImageGallery.ReopenBeforeResetClearsSelection | ImageGallery.Gallery.ResetTimerFiresGuarded |
