# eLearner Uganda page logic in Dafny

eLearner Uganda is a learning portal whose pages talk directly to a hosted
document store, file storage and authentication service. This project models
the decisions those page scripts make:

- the admin and manager publication and resource lists: search, page slicing,
  the four-button pagination window, previous/next/go-to transitions, snapshot
  replacement and fetch-and-append loading, and deletion from the list;
- the resource and publication submit handlers: the `isSaving` guard, the file
  checks of `validateFile`, the URL, owner and creation-date merge, and the
  deletion of replaced storage objects;
- the public publication and resource pages: the null-safe search, the page
  clamp, the button states, and the sidebar insights (per-category and
  per-author tallies, the top entry, the latest post, the content statistics);
- the two user-management pages: row numbering and locked rows, the
  `saveUser` validation sequence, the new profile or record, and the delete
  and edit guards;
- the admin session manager: the role-based visibility, the session-storage
  profile cache and the `isSigningOut` redirect rule;
- the contact form: the required-field loop and how the response settles.

Every call into the document store, storage or authentication service is an
input to the model. The model takes a snapshot batch, a lookup result
(`LookupFailed`, `Missing` or `Found`), a flag saying that a write throws, or
the URL or uid a call returns. Each page's module-level `let` variables become
the fields of a class. Its handlers become methods that update those fields.
Each method is specified against pure functions. The pure functions carry
lemmas about filtering, paging, tallies and the submit sequences.

Shared modules:

- `Common`: `Option`, `Lookup` and JavaScript's `||` on strings.
- `Text`: `trim`, ASCII `toLowerCase`, `includes`, whitespace words, `getShortSummary`.
- `Lists`: `filter` and `slice`.
- `Paging`: `Math.ceil`, the page slice, the button window, click and
  previous/next transitions.
- `Uploads`: `validateFile` and the URL merge.
- `Roles`: `canEditOrDelete`.
- `Resources`, `Publications`, `UserAccounts`: the entities and submit logic
  shared by two pages.
- `Insights`: the sidebar counters.

## Model

| member | source | states |
|---|---|---|
| Common.OrElse | admin/js/resources.js:207-208 | `a \|\| b` on strings is `a` when non-empty, else `b`; it is empty only when both are |
| Common.OrDefault | components/js/displayresources.js:37-39 | a missing or empty field falls back; a non-empty one is kept |
| Text.Trim | admin/js/publications.js:240 | the trimmed string neither starts nor ends with whitespace |
| Text.TrimNonEmptyIff | contact-us/contact-us.js:14 | `value.trim()` is non-empty exactly when the value holds a non-whitespace character |
| Text.Lower | admin/js/publications.js:243-256 | lower-casing keeps the length |
| Text.ContainsIffOccursAt | admin/js/publications.js:243-256 | the recursive `includes` holds exactly when the needle occurs at some position of the haystack |
| Text.ContainsNoLonger | admin/js/publications.js:243-256 | a string only contains strings no longer than itself |
| Text.ContainedInEmpty | components/js/displayresources.js:37-43 | only the empty term is contained in an empty (missing) field |
| Text.Field | components/js/displaypublications.js:183-186 | `x?.toLowerCase() \|\| ""`: a missing field becomes "", a present one keeps its length |
| Text.Words | admin/js/publications.js:112 | `trim().split(/\s+/)` always yields at least one element |
| Text.TokensAreWords | admin/js/publications.js:112 | every token of the split is a non-empty run of non-whitespace |
| Text.TokensOfJoin | admin/js/publications.js:113 | splitting words joined by single spaces gives the words back |
| Text.ShortSummaryTruncates | admin/js/publications.js:111-114 | text with at most 40 words is unchanged; longer text becomes its first 40 words joined by spaces plus "...", and those are the words before the "..." |
| Text.ShortSummaryIdempotent | admin/manage-resources/js/publications.js:37-40 | shortening a shortened summary changes nothing |
| Lists.Keep | admin/js/publications.js:242-257 | a filter result is no longer than its input and every kept item passes the test |
| Lists.KeepIsSubseq | admin/js/publications.js:242-257 | a filter result is an order-preserving sublist of its input |
| Lists.KeepCounts | admin/js/resources.js:418-423 | a filter keeps every passing item as often as it occurs, and no failing one |
| Lists.KeepAppend | admin/manage-resources/js/publications.js:80-92 | filtering a concatenation is the concatenation of the filtered parts |
| Lists.KeepAll | admin/js/publications.js:242-257 | a filter every item passes returns the whole list |
| Lists.KeepIdempotent | admin/js/publications.js:242-257 | filtering twice with the same test is filtering once |
| Lists.SliceIndex | admin/js/publications.js:170-171 | a slice bound is clipped into `[0, length]` and an in-range bound is kept |
| Lists.JsSlice | admin/js/publications.js:170-171 | for non-negative bounds `slice` is the sub-sequence between the bounds clipped to the length |
| Paging.TotalPages | admin/js/publications.js:277 | `ceil(n/size)` is 0 exactly for no items and never exceeds the number of items |
| Paging.TotalPagesBounds | admin/js/publications.js:277 | `ceil(n/size)` pages hold all n items and the last of them is non-empty |
| Paging.PageSliceClipped | admin/js/publications.js:170-171 | the rendered page is `list[(page-1)*size .. page*size)` clipped to the list, so at most `size` items |
| Paging.PageHoldsItem | components/js/displaypublications.js:46-48 | item i appears on page `i/size + 1` at offset `i % size` |
| Paging.PageEmptyIffBeyond | components/js/displayresources.js:47-51 | a page (from 1) is empty exactly when it is beyond `TotalPages` |
| Paging.TotalPagesMono | components/js/displayresources.js:98-100 | more items never give fewer pages |
| Paging.WindowBounds | admin/js/publications.js:279-288 | the button window has at most four buttons, all within `[1, totalPages]`, and contains the current page when it is in range |
| Paging.PageButtons | admin/js/publications.js:284-288 | the loop produces the window `max(1, cur-2) .. min(total, start+3)` in order, active exactly on the current page |
| Paging.ClickTarget | admin/js/publications.js:302-310 | a click moves to the parsed page only when it is a number in `[1, totalPages]`, otherwise the page is kept |
| Paging.ClicksStayInRange | admin/js/publications.js:302-310 | after any sequence of clicks the page is either unchanged or within `[1, totalPages]` |
| Paging.ClicksInRangeStay | admin/manage-resources/js/publications.js:126-135 | clicks keep an in-range page in range |
| Paging.ChangePage | admin/js/resources.js:475-483 | "prev" decrements only above 1, "next" increments only below `totalPages`, anything else keeps the page |
| Paging.ChangePagesStayInRange | admin/manage-resources/js/resources.js:396-404 | any sequence of previous/next changes keeps an in-range page within `[1, max(1, totalPages)]` |
| Uploads.NatToString | admin/js/resources.js:116 | the size limit prints as a non-empty string of decimal digits |
| Uploads.ValidateFile | admin/js/resources.js:103-120 | valid exactly when the type is allowed and the size is at most `maxSizeMB*1024*1024`; the type is checked first, and each rejection carries its message |
| Uploads.MergeUrl | admin/js/resources.js:207-208 | `newURL \|\| oldURL \|\| ""`: a fresh non-empty URL wins, otherwise the stored one |
| Roles.CanEditOrDelete | admin/js/publications.js:95-97 | an Admin may edit or delete every item, a Manager only items carrying their own uid, any other role none |
| Roles.ControlFlags | admin/js/publications.js:89-109 | the loop over the rendered items yields one flag per item, equal to `canEditOrDelete` for that item's uid |
| Resources.Search | admin/js/resources.js:416-423 | the resource search (lower-cased, untrimmed input) is an order-preserving sublist, and an empty input keeps everything |
| Resources.SearchKeepsMatches | admin/js/resources.js:418-423 | an item is kept, as often as it occurs, exactly when its title, category or author contains the lower-cased input |
| Resources.Remove | admin/js/resources.js:370-371 | removing an id leaves an order-preserving sublist with no entry of that id |
| Resources.RemoveKeepsOthers | admin/manage-resources/js/resources.js:307-308 | removal drops every entry with the id and keeps every other entry as often as it occurred |
| Resources.DeleteCalls | admin/js/resources.js:361-368 | a delete removes the document first, then the stored image and file exactly when their URLs are non-empty |
| Resources.CallsMade | admin/js/resources.js:366-368 | awaited calls stop at the first rejection: the calls made are a prefix of the planned ones, all of them when none rejects, and otherwise exactly as many as reach the rejected one, which is included |
| Resources.DocId | admin/js/resources.js:135 | an edit keeps its id; a creation uses a fresh document id |
| Resources.OwnerOf | admin/js/resources.js:207-214 | the stored uid is kept when set, else the editor's; the editor is recorded as last editor; the manager page writes no owner fields |
| Resources.NewRecord | admin/js/resources.js:202-214 | the record holds the trimmed title and author, the merged image and file URLs, `dateCreated` only when no document existed, and the owner fields |
| Resources.Replace | admin/js/resources.js:170-175 | an upload is followed by the deletion of the old object exactly when its URL is non-empty and differs from the new one |
| Resources.SaveAsWritten | admin/js/resources.js:123-235 | the submit as written: a failed read of the stored document leaves `isSaving` set; the image is uploaded and the old image deleted before the document file is checked |
| Resources.AsWrittenDeletesWithoutWriting | admin/js/resources.js:157-201 | as written, a valid image with a rejected document deletes the stored image while no record is written, so the stored record names a deleted object |
| Resources.DeleteReplaced | admin/js/resources.js:173-175 | a replaced object is deleted only when it is non-empty and no longer recorded |
| Resources.UploadCalls | admin/js/resources.js:157-201 | the upload phase contains uploads only |
| Resources.Save | admin/js/resources.js:123-235 | the corrected submit: `isSaving` is always cleared; a failed read ends in the error toast; both files are checked before any upload; the record is written before any replaced object is deleted |
| Resources.CleanupAfterWrite | admin/js/resources.js:173-175 | every deletion in the corrected sequence comes after the write, never after a failed write, and targets a stored URL the new record no longer names |
| Resources.SaveDeletesOnlyReplaced | admin/manage-resources/js/resources.js:105-170 | whenever the corrected submit deletes an object, both files were accepted, the write succeeded before it, and the object was replaced |
| Resources.SlotEffects | admin/js/resources.js:170-175 | the as-written per-file deletion rule agrees with deleting whatever the new record no longer names |
| Resources.Reordered | admin/js/resources.js:157-216 | moving the deletions after the write keeps the same calls |
| Resources.SaveAgreesWhenAccepted | admin/js/resources.js:123-235 | when both files are accepted and the remote calls succeed, the corrected and the as-written submit make the same calls and show the same toast |
| AdminPublications.Search | admin/js/publications.js:238-257 | the search is an order-preserving sublist of `fullList`; a blank input keeps everything |
| AdminPublications.SearchKeepsMatches | admin/js/publications.js:242-257 | an item is kept exactly when the trimmed, lower-cased term occurs in its lower-cased title, author, category or summary |
| AdminPublications.SubmitPublication | admin/js/publications.js:326-430 | a failed read of the stored document stops the submit; an image over the limit is refused; a failed upload, outside the `try`, ends it with no alert and nothing written; a cancel before the write writes nothing; the record holds the trimmed fields, the uploaded or stored image URL, the stored or current uid, and `dateCreated` only on create |
| AdminPublications.StalePageAfterSearch | admin/js/publications.js:238-260 | since a search keeps `currentPage`, a page beyond the filtered page count renders empty |
| AdminPublications.PublicationsPage.constructor | admin/js/publications.js:40-48 | the page starts empty on page 1 with the default role "User" and no uid |
| AdminPublications.PublicationsPage.UpdateEditDeleteVisibility | admin/js/publications.js:89-109 | each rendered item's controls are shown exactly when `canEditOrDelete` holds for it |
| AdminPublications.PublicationsPage.Render | admin/js/publications.js:168-171 | the rendered items are the page slice of the list, with role-based controls |
| AdminPublications.PublicationsPage.UpdatePagination | admin/js/publications.js:276-312 | `totalPages = ceil(n/6)`, the button window, and the previous/next links with their disabled states |
| AdminPublications.PublicationsPage.FetchReset | admin/js/publications.js:124-129 | a reset clears the list, the rendered items and the cursor, and returns to page 1 |
| AdminPublications.PublicationsPage.OnSnapshot | admin/js/publications.js:140-154 | a snapshot replaces `fullList` wholesale and moves the cursor only for a non-empty batch; on the unchanged page it shows that page of the batch with the role gate applied, the button window, and the previous/next links disabled exactly on the first/last page |
| AdminPublications.PublicationsPage.SearchInput | admin/js/publications.js:238-274 | the search renders the filtered list without changing `currentPage` (items, role-gated controls, button window and previous/next links), and shows the no-results message exactly when nothing matches |
| AdminPublications.PublicationsPage.ClickPage | admin/js/publications.js:302-310 | a click on a parsed page in `[1, totalPages]` moves there and re-renders it with the button window and previous/next links; any other click changes nothing |
| AdminPublications.PublicationsPage.OnRoleSnapshot | admin/js/publications.js:68-87 | a stored profile's role replaces the current role and re-applies the controls; no profile changes nothing |
| AdminPublications.PublicationsPage.OnAuthState | admin/js/publications.js:68-86 | a signed-in user becomes the page's uid and the list is reset to page 1 before the fetch; no user changes nothing |
| AdminResources.ResourcesPage.constructor | admin/js/resources.js:37-46 | the page starts empty on page 1, not saving, with role "User" |
| AdminResources.ResourcesPage.UpdateEditDeleteVisibility | admin/js/resources.js:76-95 | each rendered item's controls are shown exactly when `canEditOrDelete` holds for it |
| AdminResources.ResourcesPage.Render | admin/js/resources.js:286-290 | the rendered items are the page slice of the list, with role-based controls |
| AdminResources.ResourcesPage.UpdatePagination | admin/js/resources.js:440-473 | the button window; previous disabled exactly on page 1, next exactly on the last page |
| AdminResources.ResourcesPage.FetchReset | admin/js/resources.js:244-249 | a reset clears the list and the cursor and returns to page 1 |
| AdminResources.ResourcesPage.OnSnapshot | admin/js/resources.js:260-275 | a snapshot replaces `fullList`, moves the cursor only for a non-empty batch and recomputes `totalPages`; the current page of the batch is shown with the role gate, the button window, previous disabled exactly on page 1 and next exactly on the last page |
| AdminResources.ResourcesPage.SearchInput | admin/js/resources.js:411-436 | a search returns to page 1 and recomputes `totalPages` from the matches; no match shows the message and keeps the old buttons and previous/next states; otherwise page 1 of the matches is shown with the button window, previous disabled and next disabled exactly on a one-page result |
| AdminResources.ResourcesPage.ShowMatches | admin/js/resources.js:428-436 | no match shows the message and keeps the buttons and previous/next states; otherwise the current page of the matches, the button window and the previous/next states are shown |
| AdminResources.ResourcesPage.ChangePage | admin/js/resources.js:475-483 | `window.changePage` moves within the bounds and keeps an in-range page in range; the new page of `fullList` is shown with the button window and the previous/next states |
| AdminResources.ResourcesPage.GoToPage | admin/js/resources.js:485-489 | `window.goToPage` assigns any page with no bounds check and renders it with the button window and the previous/next states; a page beyond the count renders nothing |
| AdminResources.ResourcesPage.Delete | admin/js/resources.js:348-379 | a failed or empty read changes nothing and makes no call; the deletions are made in order up to the first rejected one, which leaves the page state unchanged; only when all succeed is the id removed from `fullList` and the page recounted and rendered with the button window and previous/next states |
| AdminResources.ResourcesPage.Recount | admin/js/resources.js:370-373 | after a removal the page count is `ceil(fullList.length / size)`; the current page shows its slice of `fullList` with the role gate, the button window, and previous/next disabled exactly on the first/last page |
| AdminResources.ResourcesPage.BeginSubmit | admin/js/resources.js:125-127 | a submit starts only when no save is running, and `isSaving` is then set |
| AdminResources.ResourcesPage.FinishSubmit | admin/js/resources.js:128-234 | the submit as written, with owner tracking by the signed-in user's uid read when the handler runs; `isSaving` stays set exactly when the read of the stored document fails |
| AdminResources.ResourcesPage.FinishSubmitCorrected | admin/js/resources.js:128-234 | the corrected submit, with owner tracking by the signed-in user's uid, after which `isSaving` is always cleared |
| AdminResources.ResourcesPage.OnRoleSnapshot | admin/js/resources.js:55-73 | a stored profile's role replaces the current role and re-applies the controls |
| AdminResources.ResourcesPage.OnAuthState | admin/js/resources.js:55-73 | a signed-in user becomes the page's uid and the list is reset to page 1 before the fetch; no user changes nothing |
| ManageResources.ResourcesPage.constructor | admin/manage-resources/js/resources.js:37-42 | the page starts empty on page 1 and not saving |
| ManageResources.ResourcesPage.Render | admin/manage-resources/js/resources.js:224-228 | the rendered items are the page slice of the list |
| ManageResources.ResourcesPage.UpdatePagination | admin/manage-resources/js/resources.js:360-393 | the button window; previous disabled exactly on page 1, next exactly on the last page |
| ManageResources.ResourcesPage.FetchResources | admin/manage-resources/js/resources.js:190-221 | a reset empties the list and returns to page 1; the batch is appended after the existing list; the cursor moves only for a non-empty batch; a read renders the current page with `totalPages = ceil(n/6)`, the button window and previous/next states; a failed read keeps the page count and pagination and leaves the container empty after a reset, unchanged otherwise |
| ManageResources.ResourcesPage.SearchInput | admin/manage-resources/js/resources.js:346-358 | a search returns to page 1 and renders the first page of the matches, their button window, previous disabled and next disabled exactly on the last page |
| ManageResources.ResourcesPage.ChangePage | admin/manage-resources/js/resources.js:396-404 | previous/next move within the bounds and keep an in-range page in range; the page of `fullList` is rendered with the button window and previous/next states |
| ManageResources.ResourcesPage.GoToPage | admin/manage-resources/js/resources.js:406-412 | the module-level go-to moves only to a page in `[1, totalPages]` and renders it with the pagination; otherwise nothing changes |
| ManageResources.ResourcesPage.WindowGoToPage | admin/manage-resources/js/resources.js:424-428 | `window.goToPage` assigns any page unconditionally and renders it with the button window and previous/next states |
| ManageResources.ResourcesPage.Delete | admin/manage-resources/js/resources.js:286-315 | a failed or empty read changes nothing and makes no call; the deletions are made in order up to the first rejected one, which leaves the page state unchanged; only when all succeed is the id removed and the page recounted and rendered with its pagination |
| ManageResources.ResourcesPage.Recount | admin/manage-resources/js/resources.js:308-311 | after a removal the page count is `ceil(fullList.length / size)`, and the current page of `fullList` is shown with the button window and previous/next states |
| ManageResources.ResourcesPage.BeginSubmit | admin/manage-resources/js/resources.js:81-83 | a submit starts only when no save is running |
| ManageResources.ResourcesPage.FinishSubmit | admin/manage-resources/js/resources.js:84-185 | the submit as written, without owner fields; `isSaving` stays set exactly when the read of the stored document fails; a saved resource refetches: page 1 of the fetched list, its cursor, page count and pagination (or an empty container with the old pagination when the read fails); anything else keeps the list, cursor, page, items and pagination |
| ManageResources.ResourcesPage.FinishSubmitCorrected | admin/manage-resources/js/resources.js:84-185 | the corrected submit, without owner fields, after which `isSaving` is always cleared; the same refetch, or the same unchanged page |
| ManageResources.ResourcesPage.Conclude | admin/manage-resources/js/resources.js:168-181 | a saved resource refetches page 1 with its cursor, page count and pagination (an empty container with the old pagination when the read fails); anything else keeps the list, cursor, page, items and pagination; `isSaving` takes the run's final value |
| ManagePublications.Search | admin/manage-resources/js/publications.js:44-58 | the search is an order-preserving sublist; a blank input keeps everything |
| ManagePublications.SearchKeepsMatches | admin/manage-resources/js/publications.js:48-53 | an item is kept exactly when the term occurs in its title, category or summary |
| ManagePublications.SearchOfAppend | admin/manage-resources/js/publications.js:80-92 | re-filtering the accumulated list equals filtering the old list and the new batch separately |
| ManagePublications.AuthorIsNotSearched | admin/manage-resources/js/publications.js:80-92 | for every list, input and publication: changing the author never changes whether it matches, and one whose author alone contains the term is not in the result |
| ManagePublications.AuthorOnlyMatchIsDropped | admin/manage-resources/js/publications.js:80-92 | a publication whose author contains the term and that is still filtered out exists |
| ManagePublications.SubmitPublication | admin/manage-resources/js/publications.js:197-253 | an empty id creates and a non-empty one updates that id; `imageURL` is always ""; `dateCreated` only on create; the fields are trimmed |
| ManagePublications.PublicationsPage.constructor | admin/manage-resources/js/publications.js:29-33 | the page starts empty on page 1 |
| ManagePublications.PublicationsPage.Render | admin/manage-resources/js/publications.js:140-143 | the rendered items are the page slice of the list |
| ManagePublications.PublicationsPage.UpdatePagination | admin/manage-resources/js/publications.js:102-124 | `totalPages = ceil(n/6)`, the button window, and the previous/next links |
| ManagePublications.PublicationsPage.FetchPublications | admin/manage-resources/js/publications.js:61-99 | a reset empties the list and returns to page 1; the batch is appended; the search is re-applied to the whole accumulated list, whose current page is rendered with the button window and previous/next links; a failed read keeps the filtered list and pagination and empties the container only after a reset |
| ManagePublications.PublicationsPage.Append | admin/manage-resources/js/publications.js:77-82 | the batch is appended to `fullList` in order; a non-empty batch moves the cursor to its last document, an empty one leaves it |
| ManagePublications.PublicationsPage.SearchInput | admin/manage-resources/js/publications.js:44-58 | the search renders the filtered list without changing `currentPage`, with the button window and previous/next links disabled exactly on the first/last page |
| ManagePublications.PublicationsPage.ClickPage | admin/manage-resources/js/publications.js:126-135 | a click on a parsed page in `[1, totalPages]` moves there and re-renders it with the pagination; any other click changes nothing |
| ManagePublications.PublicationsPage.Submit | admin/manage-resources/js/publications.js:197-253 | a successful save refetches: page 1 of the matches among the fetched list, its cursor and pagination (an empty container with the old pagination when the read fails); a failed write changes nothing |
| ManagePublications.PublicationsPage.Delete | admin/manage-resources/js/publications.js:292-315 | a successful delete refetches like a save; a failed one changes nothing |
| ManagePublications.PublicationsPage.Refetch | admin/manage-resources/js/publications.js:61-99 | `fetchPublications(true)`: page 1 of the matches among the fetched list with its cursor and pagination, or an empty container with the old pagination when the read fails |
| DisplayPublications.Search | components/js/displaypublications.js:178-199 | the null-safe search is an order-preserving sublist; a blank input keeps everything |
| DisplayPublications.SearchKeepsMatches | components/js/displaypublications.js:180-191 | an item is kept exactly when the trimmed, lower-cased term occurs in its author, title, summary or category, a missing field counting as "" |
| DisplayPublications.BareMatchesOnlyBlank | components/js/displaypublications.js:183-190 | a publication with none of the four fields matches only a blank term |
| DisplayPublications.PublicationsPage.constructor | components/js/displaypublications.js:11-20 | the page starts empty on page 1 |
| DisplayPublications.PublicationsPage.Render | components/js/displaypublications.js:43-117 | the shown items are the 6-item slice for `currentPage`; previous is disabled exactly on page 1 and next exactly when `currentPage == totalPages` |
| DisplayPublications.PublicationsPage.Load | components/js/displaypublications.js:23-39 | loading replaces both lists with the documents and renders |
| DisplayPublications.PublicationsPage.SearchInput | components/js/displaypublications.js:178-199 | a search filters all publications and returns to page 1 |
| DisplayPublications.PublicationsPage.ClickPrev | components/js/displaypublications.js:97-101 | previous lowers the page by exactly one, with no bound of its own |
| DisplayPublications.PublicationsPage.ClickNext | components/js/displaypublications.js:106-110 | next raises the page by exactly one; with no results the next button stays enabled and leads to an empty page |
| DisplayPublications.CollectTallies | components/js/displaypublications.js:215-222 | the loop's category and author counters are the tallies of the documents' labels |
| DisplayPublications.CollectLatest | components/js/displaypublications.js:224-237 | the loop's latest post and latest update are the selections over the creation and modification stamps |
| DisplayPublications.CollectContent | components/js/displaypublications.js:239-244 | the loop's word and post counters are the content statistics of the summaries |
| DisplayPublications.PopulateSidebarInsights | components/js/displaypublications.js:203-257 | the sidebar: the total, the tallies (each summing to the total), the top category and author, the latest posts and the content counters |
| DisplayPublications.Pass | components/js/displaypublications.js:215-245 | the loop over the snapshot leaves its variables exactly as the callback applied to every document in order |
| DisplayResources.Search | components/js/displayresources.js:33-45 | the null-safe filter is an order-preserving sublist; a blank box keeps everything |
| DisplayResources.SearchKeepsMatches | components/js/displayresources.js:36-45 | an item is kept exactly when the trimmed, lower-cased term occurs in its title, author or category, a missing field counting as "" |
| DisplayResources.Clamp | components/js/displayresources.js:48 | the clamp only lowers the page, to at most `max(1, totalPages)`, and keeps a page already in range |
| DisplayResources.ResourcesPage.constructor | components/js/displayresources.js:16-18 | the page starts empty on page 1 |
| DisplayResources.ResourcesPage.Show | components/js/displayresources.js:47-81 | `totalPages = ceil(n/12)`, the clamped page, its slice (non-empty whenever something matches), the button states and `totalPages \|\| 1` as label |
| DisplayResources.ResourcesPage.Render | components/js/displayresources.js:32-82 | rendering filters by the search box, clamps the page and shows its slice, keeping the page invariant |
| DisplayResources.ResourcesPage.Load | components/js/displayresources.js:21-29 | loading replaces the resources and renders: the page is clamped into the new filtered count (so it only goes down) and shows that page of the filtered resources |
| DisplayResources.ResourcesPage.SearchInput | components/js/displayresources.js:85-88 | a search stores the input, returns to page 1 and shows the first page of the matches |
| DisplayResources.ResourcesPage.ClickPrev | components/js/displayresources.js:91-96 | previous decrements only above page 1, and the current page of the filtered resources is shown |
| DisplayResources.ResourcesPage.ClickNext | components/js/displayresources.js:98-104 | next is bounded by the unfiltered count, and the following render re-clamps, so the page only moves within the filtered page count; the current page of the filtered resources is shown |
| DisplayResources.CollectTallies | components/js/displayresources.js:119-126 | the loop's category and author counters are the tallies of the documents' labels |
| DisplayResources.CollectLatest | components/js/displayresources.js:128-140 | the latest post and latest update change only on a present and strictly newer date |
| DisplayResources.PopulateSidebarInsights | components/js/displayresources.js:109-163 | the sidebar: the total, the tallies summing to it, the top entries and the latest posts |
| Insights.Bump | components/js/displaypublications.js:219 | incrementing a counter raises that key by one, leaves every other key alone and keeps the keys distinct |
| Insights.TallyCounts | components/js/displaypublications.js:218-222 | the tally counts each label exactly as often as it occurs, and lists exactly the labels that occur |
| Insights.TotalAgrees | components/js/displaypublications.js:218-222 | tallies with equal counts on the keys have equal totals |
| Insights.TotalBumped | components/js/displaypublications.js:219 | one increment raises the total by one |
| Insights.TallyTotal | components/js/displaypublications.js:215-222 | the counts sum to the number of documents |
| Insights.TopIndex | components/js/displaypublications.js:247 | the chosen entry has a maximal count and is the first entry with that count |
| Insights.Top | components/js/displaypublications.js:247-248 | the top entry has a maximal count and is the first with it; no entries give `["N/A", 0]` |
| Insights.TopOfTally | components/js/displaypublications.js:247-248 | the top label of a tally occurs in the documents, its count is its number of occurrences, and no label occurs more often |
| Insights.Newer | components/js/displaypublications.js:224-237 | the result is the held post or the candidate; a dated held post is replaced only by a candidate with a strictly later date (an undated held post is replaced by any document, or by any dated one when a date is required) |
| Insights.LatestIsNewest | components/js/displaypublications.js:224-237 | when some document is dated, the held post has the largest date and is the first document with it |
| Insights.LatestIsMax | components/js/displaypublications.js:224-237 | when some document is dated, the held post is dated and no document has a later date |
| Insights.LatestIsFirst | components/js/displaypublications.js:224-237 | when some document is dated, the held post is a document of the snapshot and every earlier document is undated or strictly older |
| Insights.NoDateKeepsUndated | components/js/displayresources.js:128-133 | without any date the result stays "N/A" when a date is required, and otherwise is the last document |
| Insights.WordCount | components/js/displaypublications.js:239-240 | the split of a summary counts at least one word, even for an empty summary |
| Insights.ContentStats | components/js/displaypublications.js:239-244 | only summaries of more than one word count, so the total words are at least twice the posts with content |
| UserAccounts.SaveUser | admin/js/users.js:59-142 | missing email, name or role is refused; an edit writes only the trimmed name and role; a creation refuses a password under 6 characters and a registered email, then creates the account and its profile |
| UserAccounts.EditIgnoresPassword | admin/manage-resources/js/users.js:72-84 | an edit gives the same outcome whatever the password field holds |
| UserAccounts.WritesOnlyAfterChecks | admin/manage-resources/js/users.js:66-101 | anything is written only after the required fields pass, and for a creation also the password and the unused email |
| AdminUsers.RowOf | admin/js/users.js:25-52 | the row carries its number; a strictly protected profile gets the lock, any other the buttons with its id; the dates fall back to "N/A" |
| AdminUsers.NewProfile | admin/js/users.js:105-112 | a new profile is keyed by the new uid, with `lastLogin` "N/A" and no protection |
| AdminUsers.DeleteUser | admin/js/users.js:190-235 | the own uid is refused before any read; a profile whose `protected` is truthy is refused; otherwise the confirmation decides, and a missing profile is still deleted |
| AdminUsers.ProtectionTestsDiffer | admin/js/users.js:30-32 | a locked row is refused on delete as well, but a truthy non-boolean `protected` shows buttons and is still refused on delete |
| AdminUsers.NewProfileIsDeletable | admin/js/users.js:105-112 | a newly created profile gets buttons and can be deleted by any other user |
| AdminUsers.EditUser | admin/js/users.js:177-187 | editing a row marked protected is refused; otherwise the stored profile fills the form |
| AdminUsers.UsersPage.constructor | admin/js/users.js:21-25 | the table starts empty, the save button enabled |
| AdminUsers.UsersPage.LoadUsers | admin/js/users.js:21-57 | the table has one row per document, numbered from 1 in order |
| AdminUsers.UsersPage.SaveUser | admin/js/users.js:59-142 | the outcome of the validation sequence; the profile write is attempted exactly when an account was created, whether or not it succeeds; a creation with its profile stored requests the sign-out; a successful save reloads; the button ends enabled |
| AdminUsers.UsersPage.ReloadAfterSave | admin/js/users.js:128-134 | the table is rebuilt from the reloaded users, numbered from 1, after an update or a creation, and is untouched otherwise |
| AdminUsers.UsersPage.DeleteClick | admin/js/users.js:190-235 | the delete guards decide; only a completed delete reloads the table |
| ManageUsers.RowOf | admin/manage-resources/js/users.js:24-53 | the row carries its number and buttons with the document id; the dates fall back to "N/A" |
| ManageUsers.NewRecord | admin/manage-resources/js/users.js:92-101 | a new record has status "active", `lastLogin` "N/A" and the created credential's uid |
| ManageUsers.DeleteUser | admin/manage-resources/js/users.js:147-192 | only the confirmation decides; there is no own-account or protected check |
| ManageUsers.UsersPage.constructor | admin/manage-resources/js/users.js:20-24 | the table starts empty |
| ManageUsers.UsersPage.LoadUsers | admin/manage-resources/js/users.js:20-55 | the table has one row per document, numbered from 1 in order |
| ManageUsers.UsersPage.SaveUser | admin/manage-resources/js/users.js:57-115 | the outcome of the validation sequence; the record add is attempted exactly when an account was created, whether or not it succeeds; a successful save reloads |
| ManageUsers.UsersPage.DeleteClick | admin/manage-resources/js/users.js:176-192 | a confirmed delete is requested; only a completed one reloads |
| Session.RoleVisibility | admin/js/sessionManger.js:113-122 | admin-only elements show exactly for "Admin", manager-only exactly for "Manager", never both |
| Session.SessionManager.constructor | admin/js/sessionManger.js:42 | not signing out; the session storage as found |
| Session.SessionManager.UpdateUI | admin/js/sessionManger.js:109-123 | the header texts and the role-based visibility |
| Session.SessionManager.Signout | admin/js/sessionManger.js:44-57 | `isSigningOut` is set before signing out; storage is cleared only when the sign-out succeeds |
| Session.SessionManager.OnAuthStateChanged | admin/js/sessionManger.js:61-107 | no user clears storage and redirects only when not signing out, touching nothing else; a cache hit shows the cached profile; otherwise a stored profile fills the cache and the display, a missing one signs out (storage cleared and the sign-out completed exactly when it succeeds), a failed read alerts; the fields a branch does not write keep their values; content shows whenever there is a user |
| Contact.ResultToast | contact-us/contact-us.js:40-48 | success only for an ok reply; a refused reply shows its first error's message, else "Submission failed."; an unreachable server shows the network error |
| Contact.ContactForm.constructor | contact-us/contact-us.js:1-7 | the fields hold their initial values, every border plain, the button enabled |
| Contact.ContactForm.CheckRequired | contact-us/contact-us.js:11-20 | every required field is visited: blank ones turn red, others are cleared, and the form is valid exactly when none is blank |
| Contact.ContactForm.Submit | contact-us/contact-us.js:7-38 | an invalid form only warns and leaves the button alone; a valid one disables the button and shows the sending label |
| Contact.ContactForm.Settle | contact-us/contact-us.js:39-53 | the result toast; the form is reset only after an ok reply; the button is re-enabled with its original label |

## Left out

- Every document-store, storage and authentication call (`getDocs`, `onSnapshot`, `getDoc`, `setDoc`, `addDoc`, `updateDoc`, `deleteDoc`, `uploadBytes`, `getDownloadURL`, `deleteObject`, `createUserWithEmailAndPassword`, `fetchSignInMethodsForEmail`, `signOut`, `fetch`): foreign calls. Their results are inputs.
- Listener lifetimes and `unsubscribe`, and the ordering of interleaved asynchronous handlers: each handler is one atomic step.
- `setTimeout` redirects and delays, the abort controller and the `AbortError` path of the publications submit: timing. The cancel flag is a boolean read before and after the write.
- HTML templates, SweetAlert dialogs, Bootstrap modals, loaders and toasts: the model records the state that decides them (shown items, flags, toast kinds and messages).
- Dates: timestamps are integers, and the `toLocaleString` creation date is a string parameter. `toDate`, `toMillis` and `Intl` formatting are not modelled.
- `averageContentLength` and `Math.round`: floating point. The model keeps the two integer counters they are computed from.
- Whitespace and case: `\s` and `toLowerCase` are modelled on ASCII only.
- Object key order: `Object.entries` lists integer-like keys first. The tallies keep insertion order.
- `Array.prototype.sort` is stable, so the top entry is the first key with the maximal count. `Insights.Top` states that choice.
- `AdminPublications.SubmitPublication`: the two reads of the stored document in the submit are one lookup input.
- Upload and `deleteObject` failures in the two resource submit handlers are not modelled. There they are caught by the surrounding `try`, which shows the upload error alert, so a failed upload writes nothing. The publications submit uploads before its `try`; its failed upload is modelled (`UploadError`). Rejections in the delete handlers are modelled: they are not caught and end the handler.
- Text.ShortSummary: a missing summary, on which the source's `text.trim()` throws, is not modelled. Summaries are strings.
- DisplayPublications.PublicationsPage.Render: the same missing-summary throw of `getShortSummary` inside the public publications render is not modelled either.
- The read-more modals, the edit handlers that fill the forms and `populateForm` beyond its guard, `resetForm`/`resetUserForm` and the cancel handlers of the modals are not modelled. They only copy fields into the DOM.
- The publication edit and delete handlers of admin/js/publications.js:453-508 are not modelled. They are not part of the list logic, and the manager page's delete (`ManagePublications.PublicationsPage.Delete`) stands for them.
- Session: the offline alert, the toast styling and the `load` listener wiring are not modelled. `isSigningOut` is never reset in the source, and the model keeps that.
- `Contact.ContactForm.Settle`: `form.reset()` restores the values the page loaded with, and only the required fields are modelled.
- `DisplayPublications.PublicationsPage.ClickPrev` and `ClickNext` require the button to be enabled, because a disabled button fires no click.
- admin/js/userSignInMain.js, admin/js/sidebarToggle_syncTabs.js and both firebase-config.js files are not part of this model.

## Findings

| source | as written | input that shows it | evidently intended | confidence | as-written member | corrected member |
|---|---|---|---|---|---|---|
| admin/js/resources.js:148-154 (also admin/manage-resources/js/resources.js:105-107) | the stored document is read before the `try`, so a rejected read skips the `finally` and `isSaving` stays true | an edit whose `getDoc` rejects: every later submit returns at the `isSaving` guard | the read inside the `try`, so the error alert shows and `isSaving` is cleared | not executed | Resources.SaveAsWritten | Resources.Save |
| admin/js/resources.js:157-201 (also admin/manage-resources/js/resources.js:110-154) | the image is uploaded and the old image deleted before the document file is validated | an edit with a valid PNG and a `text/plain` document: the stored image is deleted, the handler returns, and the stored record still names the deleted image | both files checked first, and replaced objects deleted only after the new record is written | not executed | Resources.AsWrittenDeletesWithoutWriting | Resources.SaveDeletesOnlyReplaced |
