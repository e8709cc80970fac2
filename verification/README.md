# Video-sharing front end: client-side state logic in Dafny

This project models the stateful logic of four React components of a
video-sharing web client and proves properties of it:

- the **comment thread** (`Comments`): the local comment list with an
  optimistic insert of a provisional `temp-` comment, its replacement by the
  server's comment on success or the rollback of every provisional entry on
  failure, edit and delete by id, the single-flight comment fetch, the
  relative-time label (`formatDate`) and the author-only edit/delete controls;
- the **catalog page** (`Home`): the order-preserving filter of the cached
  catalog by the URL's `search`, `category` and `tag` parameters, the
  single-flight catalog fetch and the handlers that rewrite the parameters;
- the **video page** (`VideoPage`): the related-videos selection (every other
  video, first ten, server order), the mutually exclusive like/dislike toggles
  and the subscribe toggle, the reset on an id change, the single-flight video
  fetch and the spinner / error screen / content decision;
- the **search bar** (`Navbar`): the trimmed search text written to the URL,
  the URL copied back into the box, the clearing rule on typing, and sign-out.

Each component is a class whose fields are its `useState`/`useRef` values and
whose methods are its event handlers. Every HTTP call is an input: a
`Response` that is `Success(data)` or `Failure`. An asynchronous handler is
split at its one `await` into the part before the request (`Begin…`) and its
continuation (`Complete…`/`Receive…`), so that the in-flight flag and
overlapping requests can be expressed. A ghost counter of outstanding
requests, tied to the flag by each class's `Valid()`, proves that at most one
guarded fetch of each kind is ever outstanding. The React effect that follows
a state change runs at the end of the handler that causes it: the catalog's
re-filter and the search bar's URL-to-box sync.

Shared modules: `Wrappers` (`Option`, `Response`), `Entities` (video, comment,
user records), `Url` (query parameters, JavaScript truthiness of a
parameter), `Text` (`trim`, ASCII `toLowerCase`, `includes`, decimal
rendering of an integer), `Seqs` (`filter`, order-preserving subsequence),
`RelativeTime` (`formatDate`).

Consequences of the code worth knowing:

- The video page's in-flight flag is shared across ids. Opening video B while
  A's fetch is outstanding drops B's fetch, and A's response is then shown
  under B's id. `VideoDetail.SwitchDuringFetch` shows this sequence.
- A successful create replaces only this submission's provisional entry; a
  failed one removes every provisional entry. Taken alone, the handler allows
  overlapping submissions whose provisional entries would outlive another's
  success. In the component this cannot happen: the input and the submit
  button are disabled while `loading` is set (src/components/Comments.jsx:187,
  193), and `loading` stays set from the optimistic insert until the create
  call settles. `BeginSubmit` models the handler alone.
  `CommentThread.SubmitAccepted` states the outcome of one submission on a
  list without provisional entries.
- A search submit replaces all parameters, dropping `category` and `tag`.
- The search bar copies the URL into the box only when the parameters change:
  a submit that writes the parameters already in the URL leaves the box as
  typed (`Navigation.Navbar.Submit`).

## Model

| member | source | states |
|---|---|---|
| `Text.SkipWhitespace` | src/components/Comments.jsx:57 | the scan for the start of the trimmed text passes only white space and stops at a non-space or the end |
| `Text.SkipWhitespaceBack` | src/components/Comments.jsx:57 | the scan for the end of the trimmed text passes only white space and stops after a non-space or at the start |
| `Text.Trim` | src/components/Comments.jsx:57 | the definition of `trim()`: leading, then trailing white space dropped, never longer than the input; its other properties are the next four rows |
| `Text.Blank` | src/components/Comments.jsx:57 | the definition of `!s.trim()`; `BlankIff` characterises it |
| `Text.TrimIsSlice` | src/components/Navbar.jsx:14-15 | `trim()` returns a contiguous slice of its input; only white space lies before and after it |
| `Text.TrimEnds` | src/components/Navbar.jsx:15 | the trimmed text neither starts nor ends with white space |
| `Text.BlankIff` | src/components/Comments.jsx:57 | `!s.trim()` holds exactly when every character is white space |
| `Text.TrimIdempotent` | src/components/Navbar.jsx:15 | trimming trimmed text changes nothing |
| `Text.Lower` | src/pages/Home.jsx:49 | lower-casing keeps the length |
| `Text.LowerIdempotent` | src/pages/Home.jsx:67 | lower-casing twice is lower-casing once, so both sides of a case-insensitive comparison may be lower-cased |
| `Text.Contains` | src/pages/Home.jsx:58-60 | the definition of `includes` as a left-to-right scan; `ContainsIff` characterises it |
| `Text.ContainsIff` | src/pages/Home.jsx:58-60 | `includes` holds exactly when the needle occurs at some position |
| `Text.DigitChar` | src/components/Comments.jsx:147 | a digit renders as a character `0`..`9` |
| `Text.DecimalString` | src/components/Comments.jsx:63 | `${n}` is a non-empty run of decimal digits |
| `Text.DecimalRoundTrip` | src/components/Comments.jsx:147 | parsing the decimal rendering of `n` gives back `n` |
| `Text.DecimalInjective` | src/components/Comments.jsx:150 | distinct counts render as distinct digit strings |
| `Text.DigitsPrefixUnique` | src/components/Comments.jsx:147 | a digit run followed by a non-digit suffix is recovered uniquely from the whole label |
| `Seqs.Filter` | src/pages/Home.jsx:57-61 | `filter` keeps exactly the elements that satisfy the predicate, each with all of its copies, and drops every copy of the others |
| `Seqs.SubsequenceReflexive` | src/pages/Home.jsx:53 | the unfiltered catalog is an order-preserving subsequence of itself |
| `Seqs.SubsequenceTransitive` | src/pages/Home.jsx:53-79 | chaining order-preserving selections is order preserving |
| `Seqs.PrefixIsSubsequence` | src/pages/VideoPage.jsx:57 | `slice(0, n)` keeps order |
| `Seqs.FilterIsSubsequence` | src/pages/Home.jsx:57 | `filter` keeps the order of what it keeps |
| `Seqs.FilterKeepsAll` | src/pages/Home.jsx:53-79 | a filter that rejects nothing returns its input unchanged |
| `RelativeTime.FormatDate` | src/components/Comments.jsx:141-153 | the definition of `formatDate` over whole elapsed hours; the next rows state its four ranges |
| `RelativeTime.JustNowUnderAnHour` | src/components/Comments.jsx:144-146 | under one whole hour elapsed, future timestamps included, the label is "Just now" |
| `RelativeTime.HoursAgo` | src/components/Comments.jsx:144-147 | for h = 1..23 whole hours the label is "h hour ago" for one and "h hours ago" otherwise |
| `RelativeTime.WholeDays` | src/components/Comments.jsx:144-149 | whole hours divided by 24 are the whole days elapsed |
| `RelativeTime.DaysAgo` | src/components/Comments.jsx:149-150 | for d = 1..6 whole days the label is "d day ago" for one and "d days ago" otherwise |
| `RelativeTime.LocaleDateAfterAWeek` | src/components/Comments.jsx:150-152 | from seven whole days on, the locale date is shown |
| `RelativeTime.BoundaryExamples` | src/components/Comments.jsx:141-153 | 30 minutes, 3 hours, 2 days and 10 days ago give "Just now", "3 hours ago", "2 days ago" and the locale date |
| `RelativeTime.HourLabelDeterminesAge` | src/components/Comments.jsx:147 | equal hour labels mean the same whole hours elapsed |
| `CommentThread.ProvisionalCommentShape` | src/components/Comments.jsx:62-70 | the provisional comment has a `temp-` id encoding the submit time, the video id, the trimmed text, the user's id, the user's name or "You" when it is empty, the user's avatar, the submit time as creation time, and shows its author the controls |
| `CommentThread.ProvisionalComment` | src/components/Comments.jsx:62-70 | the definition of the provisional comment; `ProvisionalCommentShape` states its fields |
| `CommentThread.ShowsControls` | src/components/Comments.jsx:261 | the definition of the author-only controls: a signed-in user whose id is the comment's author id |
| `CommentThread.ProvisionalControls` | src/components/Comments.jsx:261 | a viewer sees the controls on the provisional comment exactly when the viewer has the submitting user's id |
| `CommentThread.EditKeepsControls` | src/components/Comments.jsx:107-111 | editing a comment's text never changes, at any position, who sees the controls |
| `CommentThread.ConfirmKeepsControls` | src/components/Comments.jsx:84-86 | replacing the provisional entry with a server comment by the same author never changes, at any position, who sees the controls |
| `CommentThread.ReplaceById` | src/components/Comments.jsx:84-86 | the confirmation step; keeps the length, and `ReplaceByIdAt` states it entry by entry |
| `CommentThread.SetText` | src/components/Comments.jsx:107-111 | the edit step; keeps the length, and `SetTextAt` states it entry by entry |
| `CommentThread.WithoutProvisional` | src/components/Comments.jsx:95 | the rollback step never grows the list; `RollbackRemovesEveryProvisional` states what it keeps |
| `CommentThread.WithoutId` | src/components/Comments.jsx:125 | the delete step never grows the list; `DeleteRemovesOnlyTarget` states what it keeps |
| `CommentThread.ReplaceByIdAt` | src/components/Comments.jsx:84-86 | replace by id keeps the length, puts the server comment at every entry with the provisional id, and changes no other entry |
| `CommentThread.SetTextAt` | src/components/Comments.jsx:107-111 | edit by id keeps the length, sets only the text of the entries with that id, and changes no other entry or field |
| `CommentThread.ConfirmAfterOptimisticInsert` | src/components/Comments.jsx:73-86 | optimistic insert then confirmation equals prepending the server comment, when no other entry has the provisional id |
| `CommentThread.RollbackRemovesEveryProvisional` | src/components/Comments.jsx:95 | rollback removes every `temp-` entry, not only this submission's, and keeps every other entry with all its copies, in order |
| `CommentThread.RollbackRestoresList` | src/components/Comments.jsx:73-95 | optimistic insert then rollback restores the earlier list when it held no provisional entry |
| `CommentThread.DeleteRemovesOnlyTarget` | src/components/Comments.jsx:125 | delete removes exactly the entries with that id and keeps every other entry with all its copies, in order |
| `CommentThread.Comments.constructor` | src/components/Comments.jsx:16-23 | empty list and inputs, not loading, no fetch outstanding |
| `CommentThread.Comments.BeginFetch` | src/components/Comments.jsx:32-40 | with a fetch outstanding nothing is issued; otherwise one is issued and the flag set; the list is untouched |
| `CommentThread.Comments.CompleteFetch` | src/components/Comments.jsx:40-48 | success replaces the list wholesale, failure keeps it, the flag ends cleared |
| `CommentThread.Comments.TypeComment` | src/components/Comments.jsx:185 | the new-comment box takes the typed text |
| `CommentThread.Comments.BeginSubmit` | src/components/Comments.jsx:55-74 | blank text or no user: nothing changes; otherwise exactly the provisional comment is prepended, the box is cleared and loading starts |
| `CommentThread.Comments.CompleteSubmit` | src/components/Comments.jsx:76-98 | success replaces the provisional entry by id and requests a guarded re-fetch; failure removes every provisional entry; loading ends either way |
| `CommentThread.Comments.StartEditing` | src/components/Comments.jsx:131-134 | edit mode holds the comment's id and text |
| `CommentThread.Comments.CancelEditing` | src/components/Comments.jsx:136-139 | edit mode and edit text are cleared |
| `CommentThread.Comments.TypeEditText` | src/components/Comments.jsx:231 | the edit box takes the typed text |
| `CommentThread.Comments.EditComment` | src/components/Comments.jsx:101-117 | blank text or a failed update changes nothing; success sets the trimmed text on the entries with that id and leaves edit mode |
| `CommentThread.Comments.DeleteComment` | src/components/Comments.jsx:119-129 | unconfirmed or failed: the list is unchanged; success removes the entries with that id |
| `CommentThread.SubmitAccepted` | src/components/Comments.jsx:55-89 | an accepted submit on a list without provisional entries leaves the server comment followed by the old list, and re-fetches unless a fetch is outstanding |
| `CommentThread.SubmitRejected` | src/components/Comments.jsx:55-98 | a rejected submit on a list without provisional entries leaves the list as before |
| `Catalog.FilterVideosMembership` | src/pages/Home.jsx:53-81 | a video is shown exactly when it is in the catalog and passes every active predicate (search, category, tag) |
| `Catalog.FilterVideosIsOneFilter` | src/pages/Home.jsx:53-81 | the chain of filters equals one filter by the reference condition, so the shown list holds exactly the passing catalog entries, each with all its copies, in catalog order |
| `Catalog.FilterVideos` | src/pages/Home.jsx:48-82 | the definition of `filterVideos`: the three filters in turn, each only when its parameter is truthy (category also not "All"); never longer than the catalog |
| `Catalog.SearchMatches` | src/pages/Home.jsx:57-61 | the search predicate: title, description or channel name contains the lower-cased query; a missing field never matches |
| `Catalog.CategoryMatches` | src/pages/Home.jsx:66-69 | the category predicate: the category or some tag equals the parameter ignoring case |
| `Catalog.TagMatches` | src/pages/Home.jsx:74-78 | the tag predicate: some tag contains the parameter ignoring case |
| `Catalog.PassesFilters` | src/pages/Home.jsx:53-79 | the reference condition `FilterVideosMembership` ties the chain to |
| `Catalog.FilterVideosIsSubsequence` | src/pages/Home.jsx:53-81 | the shown list keeps the catalog's order |
| `Catalog.NoActiveFilterShowsCatalog` | src/pages/Home.jsx:49-53 | with no non-empty search, no category or "All", and no non-empty tag, the whole catalog is shown as it is |
| `Catalog.FilterVideosIdempotent` | src/pages/Home.jsx:53-81 | re-filtering the shown list with the same parameters changes nothing |
| `Catalog.PredicatesIgnoreParameterCase` | src/pages/Home.jsx:65-79 | the category and tag predicates depend only on the lower-cased parameter |
| `Catalog.CategoryClickSelects` | src/pages/Home.jsx:107-114 | after "All" the whole catalog is shown; after another category exactly the entries of that category or tag |
| `Catalog.TagClickSelects` | src/pages/Home.jsx:116-118 | after a tag click exactly the entries with a tag containing it are shown |
| `Catalog.CategoryParams` | src/pages/Home.jsx:109-113 | the parameters a category click writes: none for "All", otherwise `category` alone |
| `Catalog.Home.constructor` | src/pages/Home.jsx:10-19 | loading, empty catalog and list, no fetch outstanding, the category parameter selected if present |
| `Catalog.Home.BeginFetch` | src/pages/Home.jsx:25-32 | with a fetch outstanding nothing changes; otherwise one is issued, the error cleared and the page loading |
| `Catalog.Home.CompleteFetch` | src/pages/Home.jsx:34-44 | success stores the catalog; failure keeps it and records "Failed to fetch videos"; loading ends and the flag is cleared |
| `Catalog.Home.ParamsChanged` | src/pages/Home.jsx:85-90 | a present category parameter becomes the selected category, and the list is re-filtered |
| `Catalog.Home.UrlChanged` | src/pages/Home.jsx:84-96 | new parameters are taken and the shown list follows them |
| `Catalog.Home.CategoryChange` | src/pages/Home.jsx:107-114 | "All" empties the parameters; any other category becomes the only parameter and the selected one |
| `Catalog.Home.TagClick` | src/pages/Home.jsx:116-118 | the tag becomes the only parameter; the selected category is kept |
| `VideoDetail.RelatedVideos` | src/pages/VideoPage.jsx:57 | the related list holds at most ten videos; `RelatedVideosSpec` states which |
| `VideoDetail.RelatedVideosSpec` | src/pages/VideoPage.jsx:53-58 | the related list is a prefix of the other videos in server order, of length ten or all of them when fewer; it never holds the current id |
| `VideoDetail.Render` | src/pages/VideoPage.jsx:100-125 | the definition of the render decision; `RenderSpec` characterises it |
| `VideoDetail.RenderSpec` | src/pages/VideoPage.jsx:100-125 | loading shows the spinner; content only for a loaded video and no error; otherwise the error screen shows the error text when there is one and "Video not found" when the video is missing |
| `VideoDetail.VideoPage.constructor` | src/pages/VideoPage.jsx:20-29 | no video, no related videos, loading, no error, toggles off |
| `VideoDetail.VideoPage.IdChanged` | src/pages/VideoPage.jsx:64-76 | video, related list and error reset and loading before the fetches; the view is the spinner; the video fetch is dropped if one is outstanding; toggles kept |
| `VideoDetail.VideoPage.BeginFetchVideo` | src/pages/VideoPage.jsx:31-37 | with a fetch outstanding nothing changes; otherwise one is issued and the page is loading |
| `VideoDetail.VideoPage.ReceiveVideo` | src/pages/VideoPage.jsx:40-50 | success stores the video and shows it when there is no error; failure shows "Video not found"; loading ends, flag cleared |
| `VideoDetail.VideoPage.ReceiveRelated` | src/pages/VideoPage.jsx:53-62 | success stores the related selection for the id the fetch was issued with; failure keeps the list |
| `VideoDetail.VideoPage.Like` | src/pages/VideoPage.jsx:78-85 | like flips; turning it on turns dislike off; both are never on |
| `VideoDetail.VideoPage.Dislike` | src/pages/VideoPage.jsx:87-94 | dislike flips; turning it on turns like off; both are never on |
| `VideoDetail.VideoPage.Subscribe` | src/pages/VideoPage.jsx:96-98 | the subscription flips |
| `VideoDetail.SwitchDuringFetch` | src/pages/VideoPage.jsx:31-76 | opening B while A's fetch is outstanding ends with A's video shown under B's id |
| `VideoDetail.SubscribeTwice` | src/pages/VideoPage.jsx:96-98 | two subscribe clicks restore the subscription state |
| `Navigation.SearchParams` | src/components/Navbar.jsx:12-19 | blank text gives no parameters; other text gives exactly `search` holding the trimmed text, which is non-empty |
| `Navigation.SyncedBox` | src/components/Navbar.jsx:28-33 | the box after the sync effect: a truthy `search` parameter replaces it |
| `Navigation.ResubmitIsStable` | src/components/Navbar.jsx:12-33 | when the sync runs on the submitted parameters, the box holds the trimmed text, and submitting it again writes the same parameters |
| `Navigation.SubmittedSearchSelects` | src/components/Navbar.jsx:14-17 | a submitted search shows exactly the catalog entries matching the trimmed text; a blank one shows the whole catalog |
| `Navigation.Navbar.constructor` | src/components/Navbar.jsx:7-33 | the box starts with the URL's non-empty search parameter, else empty |
| `Navigation.Navbar.Submit` | src/components/Navbar.jsx:12-33 | the parameters become exactly the trimmed search, or none for blank text; the box shows the trimmed text when the parameters changed, and otherwise keeps its text |
| `Navigation.Navbar.Type` | src/components/Navbar.jsx:67-71 | the box takes the text; blank text also empties the parameters, other text leaves them |
| `Navigation.Navbar.UrlChanged` | src/components/Navbar.jsx:28-33 | only when the parameters differ from the current ones, a non-empty search parameter is copied into the box; otherwise the box is kept |
| `Navigation.Navbar.Logout` | src/components/Navbar.jsx:21-25 | signed out, at "/", with no query parameters; the box is kept |

## Left out

- `Text.Lower`: maps only the ASCII letters A-Z. `toLowerCase` also folds other Unicode letters, and no Unicode case table is available here.
- Markup, CSS classes, icons and image fallbacks are presentation. The `<video>` error handler that patches the DOM (src/pages/VideoPage.jsx:138-145) is left out too.
- The HTTP client is not part of this model. Each call's outcome is a `Response` input, and request bodies are not modelled.
- The session store (`login`, `logout`, `user`) is not part of this model. The user is an optional record passed to the handlers. `Navbar.Logout` leaves out the opaque `logout()` call.
- Browser services are left out: `localStorage`, console output and `alert`. `window.confirm` is the `confirmed` parameter, and `window.history.back` is not modelled.
- Clock and locale: `Date.now()` is the `now` parameter in milliseconds. The provisional comment's `createdAt` uses the same reading. Dates are integers, so parsing an invalid date string (NaN) is not modelled. `toLocaleDateString()` is the opaque `localeDate` parameter.
- Scheduling: React batching, re-renders and the stale `comments` captured by edit and delete (src/components/Comments.jsx:107, 125) are left out. Edit and delete act on the current list. Responses may settle in any order, but each handler step is atomic.
- The URL is shared by the pages and the search bar. Here each class holds its own `params`, and `UrlChanged` delivers a change made elsewhere.
- Ids are strings throughout. If the server sends numeric ids, `v.id !== id` against the string route id never excludes the current video (src/pages/VideoPage.jsx:57). That coercion is not modelled.
- Video fields that only the markup reads (thumbnail, URLs, counts, labels) are left out.
- The catalog page's loading/error/grid rendering (src/pages/Home.jsx:120-203) is presentation over `loading` and `error`.
- `CommentThread.Comments.BeginSubmit` models the submit handler alone. The input and the submit button are disabled while `loading` is set (src/components/Comments.jsx:187, 193), and that markup gate against overlapping submissions is not modelled.
- Whether the URL's parameters changed is decided by comparing parameter maps. The router compares query strings, so a change that only reorders parameters is not modelled.
- The side menu, video card, app shell and login form are not part of this model.
