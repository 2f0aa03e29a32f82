# Prayer wall: a verified model of its state handlers

The prayer wall is a small React application. Visitors post prayer requests,
pray for them (a counter), comment and reply with text, photos and a recorded
clip, and share a link to a request. All of its behaviour lives in event
handlers that compute a new component state from the old one. This project
models those handlers in Dafny and proves what they guarantee:

- the **comment stores**: the per-prayer store of the comment dialog
  (`CommentModal`) and the single list of the detail page (`PrayerDetail`),
  both over the recursive comment tree (`CommentTree`, `Types`);
- the **request form** (`PrayerRequestModal`): category toggling, the five-photo
  cap, files and previews kept side by side, the two-step submit, and the item
  a confirmed request becomes;
- the **list view** (`PrayerList`): the derived category buttons, the list
  filter, the share and pending visibility rules, the "show more" rule, the
  comment count and the lightbox;
- the **share link** (`ShareModal`);
- the **application root** (`App`): the seed items and the pray counter.

`Text`, `Media` and `Seqs` hold what those handlers share. `Text` has
JavaScript's `trim`, the decimal rendering of a number in a template literal,
and `includes`. `Media` has the image check and the microphone messages.
`Seqs` has index removal and aligned pairs.

Each component whose handlers replace state is a class. Its fields are the
component's state variables, and each handler is a method whose postcondition
gives the whole new state. The new values are computed by pure functions. The
lemmas about those functions carry the properties: order, "nothing else
changes", exact counters, sortedness and permutation, stability, alignment,
and round trips.

Browser services are parameters:
- `now` stands for `Date.now()`;
- `today` stands for the ISO date of today;
- `objectUrl` stands for `URL.createObjectURL`;
- `timeOf` stands for `new Date(date).getTime()`;
- `lower` stands for `toLowerCase`.

A recorded clip appears only as the reference its stop handler stores.

Where the documented design and the code differ, the model follows the code:
- Both comment stores raise pray counts and attach replies on **root** comments
  only (`src/CommentModal.tsx:126-130`, `src/CommentModal.tsx:148-152`,
  `src/PrayerDetail.tsx:117-121`, `src/PrayerDetail.tsx:136-140`).
- A reply needs non-blank text, although its button is enabled for media
  alone (`src/CommentModal.tsx:135` against `src/CommentModal.tsx:409`).
- A photo batch that would take the form above five photos is refused **as a
  whole** (`src/PrayerRequestModal.tsx:60-63`).
- The main comment box of the detail page has no AbortError message
  (`src/PrayerDetail.tsx:307-315`).
- `src/types.ts:10` declares `comments` as required on a prayer item. The seed
  items (`src/App.tsx:17-88`) and new requests (`src/PrayerRequestModal.tsx:93-103`)
  are built without it, and the list reads it with `?.`
  (`src/PrayerList.tsx:300`), so the model keeps it optional.
- `src/App.tsx:6-15` declares its own item type with a required title. The
  model uses the shared type, and every seed item has `Some` title.
- The copy handler and the displayed link compute the same expression
  (`src/ShareModal.tsx:15-16`, `src/ShareModal.tsx:27-28`). Both are the one
  function `ShareModal.ShareUrl`.

## Model

| member | source | states |
|---|---|---|
| Types.AudioOf | src/types.ts:21-22 | a stored comment always has an `audio` field: the draft's reference when there is one, null otherwise |
| Types.TreeSizeAppend | src/types.ts:20 | the number of nodes of a forest, counted at every depth, adds up over concatenation |
| Text.Trim | src/CommentModal.tsx:99 | the trimmed text neither starts nor ends with white space and is no longer than the input |
| Text.LeadingSpacesAreSpace | src/CommentModal.tsx:99 | all that trimming cuts from the front is white space |
| Text.TrimMiddle | src/CommentModal.tsx:99 | the trimmed text is the contiguous stretch of the input that starts right after the leading white space |
| Text.TrimTail | src/CommentModal.tsx:99 | all that trimming cuts from the end is white space |
| Text.TrimEmptyIff | src/CommentModal.tsx:93 | `text.trim()` is falsy exactly when every character of the text is white space |
| Text.TrimIdempotent | src/PrayerRequestModal.tsx:95-96 | trimming an already trimmed text changes nothing, so the stored title and description are in trimmed form |
| Text.NatToString | src/CommentModal.tsx:47 | a natural number prints as a non-empty string of decimal digits, with no leading zero unless the number is 0 |
| Text.ParseNatToString | src/ShareModal.tsx:28 | reading the printed digits back gives the number |
| Text.IntToStringInjective | src/ShareModal.tsx:28 | two integers that print the same are equal |
| Text.ContainsIff | src/PrayerList.tsx:61-63 | `includes` holds exactly when the needle occurs at some position of the text |
| Text.ContainsEmpty | src/PrayerList.tsx:59-63 | every text includes the empty string, so an empty lowered query matches every item |
| Text.Contains | src/PrayerList.tsx:61-63 | a text includes a needle only when the needle is no longer than it, and always includes its own prefixes |
| Text.IntToString | src/ShareModal.tsx:28 | the printed form of an integer is never empty and starts with a minus sign exactly for a negative integer |
| Seqs.DropIndex | src/CommentModal.tsx:162 | filtering out one position removes exactly that element when the position is in range and changes nothing otherwise |
| Seqs.ZipAppend | src/PrayerRequestModal.tsx:66-72 | appending to two aligned lists appends the new pairs to the old pairs |
| Seqs.DropIndexZip | src/PrayerRequestModal.tsx:216-219 | removing the same position from two aligned lists leaves them aligned, with exactly that pair gone |
| Media.ImageRejection | src/CommentModal.tsx:173-182 | a refused file is refused for its type exactly when it is not `image/`, and otherwise for being above 10 MiB |
| Media.ValidImages | src/CommentModal.tsx:172-184 | the kept files are exactly the selected files with an `image/` type and at most 10·1024·1024 bytes |
| Media.ValidImagesAppend | src/CommentModal.tsx:172-184 | the filter works file by file, so the kept files stay in selection order |
| Media.ValidImagesAllOrNone | src/CommentModal.tsx:186-189 | a batch of valid images passes whole, and nothing passes exactly when no file is valid |
| Media.IsValidImageMeans | src/CommentModal.tsx:173-174 | a file is accepted exactly when its type begins with the six characters `image/` and it has at most 10485760 bytes |
| Media.HasContent | src/CommentModal.tsx:93 | a comment may be posted exactly when its text holds a character that is not white space, or an image is attached, or a clip reference is |
| Media.ObjectUrls | src/CommentModal.tsx:103 | one reference per attached file, in order |
| Media.MicErrorMessage | src/CommentModal.tsx:243-255 | the five known error names get their own messages and every other name gets the generic one |
| Media.MicMessagesDistinct | src/CommentModal.tsx:243-255 | the six microphone messages are pairwise different |
| CommentTree.Matches | src/CommentModal.tsx:126-127 | the number of root comments carrying an id is zero exactly when no root comment carries it |
| CommentTree.IncrementRoot | src/CommentModal.tsx:126-130 | each root comment with the id gains exactly one pray; every other field, every other comment, the length and the order stay |
| CommentTree.AppendReply | src/CommentModal.tsx:148-152 | the reply goes at the end of the replies of each root comment with the parent id; all else stays |
| CommentTree.IncrementRootTotal | src/CommentModal.tsx:126-130 | the pray total rises by exactly the number of matching root comments |
| CommentTree.IncrementRootAbsent | src/CommentModal.tsx:126-130 | an id that no root comment carries leaves the list equal to the original, even if a reply carries it |
| CommentTree.AppendReplyAbsent | src/CommentModal.tsx:148-152 | a reply to an id that is not a root id is dropped |
| CommentTree.RootIdsPreserved | src/PrayerDetail.tsx:116-140 | neither transform changes the root ids or their order |
| CommentTree.IncrementRootTreeSize | src/CommentModal.tsx:126-130 | incrementing never adds or removes a node anywhere in the tree |
| CommentTree.AppendReplyTreeSize | src/CommentModal.tsx:148-152 | a fresh reply adds exactly one node under each matching root comment |
| CommentModal.SampleComments | src/CommentModal.tsx:44-61 | the seeded list has root ids 1 and 2, no replies and non-negative counts |
| CommentModal.InsertByDate | src/CommentModal.tsx:452 | inserting one comment lengthens the list by one and the comment is in the result |
| CommentModal.SortByDateDesc | src/CommentModal.tsx:452 | the sorted copy is as long as the stored list |
| CommentModal.InsertByDatePerm | src/CommentModal.tsx:452 | inserting into the sorted copy keeps every comment and adds the new one once |
| CommentModal.InsertByDateSorted | src/CommentModal.tsx:452 | inserting into a newest-first list keeps it newest first |
| CommentModal.SortNewestFirst | src/CommentModal.tsx:452 | the displayed copy is ordered by time, newest first |
| CommentModal.SortPerm | src/CommentModal.tsx:452 | the displayed copy holds the same comments as the stored list, each as often |
| CommentModal.InsertByDateStable | src/CommentModal.tsx:452 | inserting keeps the relative order of the comments of each time |
| CommentModal.SortStable | src/CommentModal.tsx:452 | the sort is stable: comments with equal times keep their stored order |
| CommentModal.Store.constructor | src/CommentModal.tsx:34-74 | the dialog starts with no lists, no current prayer and empty drafts |
| CommentModal.Store.ListOf | src/CommentModal.tsx:106 | the list of a prayer is its stored list, or empty when it has none |
| CommentModal.Store.Open | src/CommentModal.tsx:38-68 | opening for a truthy id selects it and seeds its list only when none exists, so an existing list is never replaced |
| CommentModal.Store.AddComment | src/CommentModal.tsx:92-120 | with content and a current prayer, the new comment (trimmed text, no prays, no replies) goes in FRONT of that prayer's list, the callback gets the old length + 1, other prayers' lists stay and the draft is cleared; otherwise nothing changes |
| CommentModal.Store.IncrementCommentPrayCount | src/CommentModal.tsx:122-132 | the current prayer's list becomes its root-level increment, a missing list becomes empty, and other lists stay |
| CommentModal.Store.AddReply | src/CommentModal.tsx:134-159 | with non-blank reply text and a current prayer, the reply is appended under the matching root comment, the root count stays, and the reply box closes; otherwise nothing changes |
| CommentModal.Store.RemoveImage | src/CommentModal.tsx:161-163 | exactly the attachment at the index goes |
| CommentModal.Store.RemoveAudio | src/CommentModal.tsx:165-167 | the clip is dropped |
| CommentModal.Store.AttachImages | src/CommentModal.tsx:169-191 | the valid files are appended after the attached ones, in order; when none is valid the draft is unchanged |
| CommentModal.Store.FinishRecording | src/CommentModal.tsx:231-236 | the finished clip's reference becomes the attached clip |
| CommentModal.Store.SetNewComment | src/CommentModal.tsx:459 | the comment draft becomes the typed text |
| CommentModal.Store.SetNewReply | src/CommentModal.tsx:322 | the reply draft becomes the typed text |
| CommentModal.Store.ToggleReplyingTo | src/CommentModal.tsx:293 | the reply button opens the reply box of its comment, or closes it if it is open |
| CommentModal.Store.CancelReply | src/CommentModal.tsx:398-402 | cancelling closes the reply box and drops the attached media |
| CommentModal.Store.Displayed | src/CommentModal.tsx:451-452 | a list is shown exactly when there is a current prayer with a list; it is the sorted copy of that list, newest first and a permutation of it |
| PrayerDetail.SeedComments | src/PrayerDetail.tsx:52-69 | the page starts with root ids 1 and 2 |
| PrayerDetail.NewComment | src/PrayerDetail.tsx:99-108 | the page's comment has the given id, the guest author, today's date, the trimmed text, no prays and no replies, one image reference per file in order, and the attached clip's own reference, or null without one |
| PrayerDetail.NextIdFresh | src/PrayerDetail.tsx:100-109 | with ids 1..n, the id `length + 1` is unused and appending keeps ids 1..n+1 |
| PrayerDetail.SequentialIdsDistinct | src/PrayerDetail.tsx:100 | ids 1..n are pairwise distinct |
| PrayerDetail.MainMicErrorMessage | src/PrayerDetail.tsx:305-315 | the main recorder maps four names to their messages and everything else, AbortError included, to the generic one |
| PrayerDetail.MicMappingsDifferOnlyOnAbort | src/PrayerDetail.tsx:305-315 | the two recorders of the page give the same message for every name except AbortError |
| PrayerDetail.Page.constructor | src/PrayerDetail.tsx:45-72 | the page starts with the two seed comments and empty drafts |
| PrayerDetail.Page.AddComment | src/PrayerDetail.tsx:97-114 | with text, an image or a clip, the guest comment with id `length + 1` is APPENDED and the main draft is cleared, keeping root ids 1..n; otherwise nothing changes |
| PrayerDetail.Page.IncrementCommentPrayCount | src/PrayerDetail.tsx:116-122 | the list becomes its root-level increment, with the ids kept |
| PrayerDetail.Page.AddReply | src/PrayerDetail.tsx:124-146 | with non-blank text the reply is appended under the matching root comment and the reply box closes; otherwise nothing changes |
| PrayerDetail.Page.RemoveImage | src/PrayerDetail.tsx:148-150 | exactly the reply attachment at the index goes |
| PrayerDetail.Page.RemoveMainImage | src/PrayerDetail.tsx:254-256 | exactly the main attachment at the index goes |
| PrayerDetail.Page.RemoveAudio | src/PrayerDetail.tsx:152-154 | the reply clip is dropped |
| PrayerDetail.Page.RemoveMainAudio | src/PrayerDetail.tsx:258-260 | the main clip is dropped |
| PrayerDetail.Page.AttachImages | src/PrayerDetail.tsx:156-180 | the reply box appends the valid files only, in order |
| PrayerDetail.Page.AttachMainImages | src/PrayerDetail.tsx:262-265 | the main box appends every selected file without a check |
| PrayerDetail.Page.FinishRecording | src/PrayerDetail.tsx:223-228 | the finished clip becomes the reply clip |
| PrayerDetail.Page.FinishMainRecording | src/PrayerDetail.tsx:293-298 | the finished clip becomes the main clip |
| PrayerDetail.Page.SetNewComment | src/PrayerDetail.tsx:630 | the main draft becomes the typed text |
| PrayerDetail.Page.SetNewReply | src/PrayerDetail.tsx:380 | the reply draft becomes the typed text |
| PrayerDetail.Page.ToggleReplyingTo | src/PrayerDetail.tsx:351 | the reply button opens or closes its comment's reply box |
| PrayerDetail.Page.CancelReply | src/PrayerDetail.tsx:464-467 | cancelling closes the reply box and drops the reply media |
| PrayerList.FlatCategories | src/PrayerList.tsx:51 | a tag is in the flattened list exactly when some item carries it |
| PrayerList.Dedup | src/PrayerList.tsx:51 | the set-based dedup keeps exactly the values of the input, each once |
| PrayerList.DedupFirstAppearance | src/PrayerList.tsx:51 | deduplicated values come in the order of their first appearance |
| PrayerList.Categories | src/PrayerList.tsx:51 | the category buttons list every tag of every item exactly once |
| PrayerList.CategoriesOrder | src/PrayerList.tsx:51 | the buttons come in first-appearance order over the items |
| PrayerList.MatchesQuery | src/PrayerList.tsx:59-63 | an empty query matches every item |
| PrayerList.MatchesQueryMeans | src/PrayerList.tsx:59-63 | an item matches exactly when the query occurs at some position of its lower-cased description, its lower-cased author name or its date |
| PrayerList.KeepMeans | src/PrayerList.tsx:52-65 | an item is kept exactly when it passes the owner check, the category check and, for a non-empty query, the search; with no criteria every item is kept |
| PrayerList.FilteredPrayers | src/PrayerList.tsx:52-66 | an item is shown exactly when it passes the filter; with the owner toggle all shown items are the user's, with a category all carry it, with a query all match it |
| PrayerList.FilteredIsSubsequence | src/PrayerList.tsx:52-66 | the shown list is a subsequence of the items, in their original order |
| PrayerList.NoCriteriaShowsAll | src/PrayerList.tsx:53-65 | with the toggle off, no category and an empty query every item is shown |
| PrayerList.FilteredAppend | src/PrayerList.tsx:52-66 | the filter decides item by item |
| PrayerList.ShowShare | src/PrayerList.tsx:215 | the share button shows exactly for the author of an item that is approved or has no status |
| PrayerList.ShowPendingRibbon | src/PrayerList.tsx:199 | the ribbon shows exactly for an item that has a status other than approved |
| PrayerList.ShowMore | src/PrayerList.tsx:243 | "show more" appears exactly for a card not marked expanded whose description is longer than 100 characters |
| PrayerList.ShareAndRibbon | src/PrayerList.tsx:199-215 | the pending ribbon and the share button never show together, for the author exactly one shows, and a missing status acts as approved |
| PrayerList.CommentCountShown | src/PrayerList.tsx:300 | the comment count is the length of `comments`, or 0 without it |
| PrayerList.View.constructor | src/PrayerList.tsx:28-37 | the list starts unfiltered with the lightbox closed |
| PrayerList.View.ToggleMine | src/PrayerList.tsx:152 | the owner toggle flips |
| PrayerList.View.SelectCategory | src/PrayerList.tsx:173-181 | "all" clears the category and a button selects its own |
| PrayerList.View.SetSearchQuery | src/PrayerList.tsx:166 | the query becomes the typed text |
| PrayerList.View.Expand | src/PrayerList.tsx:243-245 | "show more" expands its card, so the button disappears for it, and every other card keeps its state |
| PrayerList.View.OpenLightbox | src/PrayerList.tsx:261-265 | a thumbnail opens the lightbox on its own image and index |
| PrayerList.View.Prev | src/PrayerList.tsx:383-386 | the left arrow decrements only from an index above 0; the index stays in range and the image shown is the image at the index |
| PrayerList.View.Next | src/PrayerList.tsx:397-400 | the right arrow increments only from an index below the last; the index stays in range and the image shown is the image at the index |
| PrayerList.View.ArrowsShown | src/PrayerList.tsx:379 | the arrows show exactly while a non-empty image reference is open and the item has at least two images |
| PrayerList.View.CloseLightbox | src/PrayerList.tsx:367-371 | closing hides the image and keeps the index valid |
| PrayerRequestModal.CategoryTableComplete | src/PrayerRequestModal.tsx:13-30 | every offered category has a cover; 心理支持 uses the default image and 兒童病患 the child cover |
| PrayerRequestModal.Without | src/PrayerRequestModal.tsx:51 | filtering a category out removes every copy of it and keeps everything else |
| PrayerRequestModal.WithoutAppend | src/PrayerRequestModal.tsx:51 | the filter works element by element |
| PrayerRequestModal.WithoutNoDuplicates | src/PrayerRequestModal.tsx:51 | filtering keeps a duplicate-free selection duplicate-free |
| PrayerRequestModal.Toggle | src/PrayerRequestModal.tsx:48-54 | a selected category is removed, an unselected one is appended at the end, others stay |
| PrayerRequestModal.ToggleNoDuplicates | src/PrayerRequestModal.tsx:48-54 | toggling never introduces a duplicate |
| PrayerRequestModal.ToggleTwice | src/PrayerRequestModal.tsx:48-54 | toggling an unselected category twice restores the selection |
| PrayerRequestModal.ImagesFor | src/PrayerRequestModal.tsx:89-91 | with files, one reference per file in order; without, exactly one cover: that of the first category, or the default image |
| PrayerRequestModal.NewPrayer | src/PrayerRequestModal.tsx:93-103 | the new item has trimmed title and description, which trimming again leaves unchanged, the user as author, no prays and pending status |
| PrayerRequestModal.Form.constructor | src/PrayerRequestModal.tsx:41-46 | the form starts empty, in edit mode |
| PrayerRequestModal.Form.SetTitle | src/PrayerRequestModal.tsx:151 | the title becomes the typed text |
| PrayerRequestModal.Form.SetDescription | src/PrayerRequestModal.tsx:166 | the description becomes the typed text |
| PrayerRequestModal.Form.ToggleCategory | src/PrayerRequestModal.tsx:48-54 | a category button toggles its category and the selection stays duplicate-free |
| PrayerRequestModal.Form.ImageChange | src/PrayerRequestModal.tsx:56-73 | a batch that would exceed five photos is refused whole; otherwise files and previews grow by the batch in order; they stay aligned and within five |
| PrayerRequestModal.Form.RemoveImageAt | src/PrayerRequestModal.tsx:216-219 | the remove button drops the same position from files and previews, which stay aligned |
| PrayerRequestModal.Form.CompleteMeans | src/PrayerRequestModal.tsx:78 | the form is complete exactly when title and description each hold a character that is not white space and a category is selected |
| PrayerRequestModal.Form.Submit | src/PrayerRequestModal.tsx:75-85 | the preview opens exactly when the trimmed title and description are non-empty and a category is selected |
| PrayerRequestModal.Form.BackToEdit | src/PrayerRequestModal.tsx:329 | the back button returns to edit mode |
| PrayerRequestModal.Form.Confirm | src/PrayerRequestModal.tsx:87-108 | the new item goes in front and the old items follow unchanged |
| ShareModal.StripTrailingSlash | src/ShareModal.tsx:27 | at most one trailing slash is removed and the rest of the path is kept |
| ShareModal.StripThenSlash | src/ShareModal.tsx:27 | a path that ends in a slash is the stripped path plus that slash |
| ShareModal.StripOneSlashOnly | src/ShareModal.tsx:27 | of two trailing slashes only one goes |
| ShareModal.ShareUrl | src/ShareModal.tsx:26-29 | a missing or zero id gives the page address; a truthy id gives exactly origin, stripped path, `/prayer/` and the printed id |
| ShareModal.ShareUrlInjective | src/ShareModal.tsx:28 | different truthy ids never share a link |
| ShareModal.ShareUrlCarriesId | src/ShareModal.tsx:28 | for a positive id, what follows `/prayer/` is its decimal digits with no leading zero, and they read back as the id |
| App.BumpPrayCount | src/App.tsx:93-97 | each item with the id gains exactly one pray; every other field, every other item, the length and the order stay |
| App.BumpAbsent | src/App.tsx:93-97 | an id no item carries leaves the list equal to the original |
| App.BumpTimesAddsN | src/App.tsx:93-97 | n clicks on one id add n to it and nothing else |
| App.SampleFacts | src/App.tsx:17-88 | the seed ids are 1..7, pairwise distinct, with non-negative counts |
| App.Registry.constructor | src/App.tsx:91 | the wall starts with the seed items |
| App.Registry.IncrementPrayCount | src/App.tsx:93-97 | the pray button replaces the list by its bumped copy |

## Left out

- Rendering, Tailwind classes (`getCategoryClasses`, badge colours), Swiper, the bounce animations and their timers, the body scroll lock and the Escape-key listener: these are presentation and have no effect on the modelled state.
- Routing (`useParams`, `useNavigate`), the detail page's item lookup, and the open and closed state of the share and comment dialogs, including `onClose`.
- The recording lifecycle (`getUserMedia`, `MediaRecorder`, MIME choice, chunks, `Blob`): this is asynchronous device I/O. Only the stop handler's effect (`FinishRecording`) and the error-name mapping are modelled.
- `navigator.clipboard`, the `copied` flag of the share dialog, `alert` and `console.error`: foreign I/O. The refusal reason of a file is modelled (`Media.ImageRejection`); the wording of the alert is not.
- `Date.now()`, today's date and `URL.createObjectURL`: these are parameters (`now`, `today`, `objectUrl`). The model does not capture that distinct calls yield distinct references.
- `updateCommentCount` and `setPrayers`: their implementations are not part of this model. `CommentModal.Store.AddComment` returns the call's arguments, and `PrayerRequestModal.Form.Confirm` returns the new list.
- CommentModal.SortByDateDesc: `new Date(d).getTime()` is the parameter `timeOf` into the integers. NaN for an unparsable date, and so the engine's comparator behaviour on it, is not modelled. Array sort is modelled as a stable insertion sort.
- PrayerList.MatchesQuery: `toLowerCase` is the parameter `lower`; its Unicode case mapping is not modelled.
- PrayerList.ShowMore: the 100-character rule counts Unicode scalar values, while JavaScript counts UTF-16 code units. They differ only for characters outside the Basic Multilingual Plane.
- JavaScript numbers are doubles, while the model uses unbounded integers for `prayCount + 1` (src/App.tsx:96, src/CommentModal.tsx:127), for `comments.length + 1` (src/PrayerDetail.tsx:100) and for the `Date.now()` ids. Rounding above 2^53 is not modelled.
- Text.Trim: the white-space set is the ECMAScript WhiteSpace and LineTerminator characters written out.
- ShareModal.ShareUrl: the id is an integer. JavaScript's rendering of non-integral or exponent-form numbers is not modelled.
- PrayerRequestModal.Form.SetTitle: requires the form to be in edit mode, because the inputs are only on screen then. The same holds for `SetDescription`, `ToggleCategory` and `Submit`.
