# A verified model of the "you know me" question-and-answer client

The application lets users post short questions, answer them with text, an
image, a video or an audio clip, and browse the answers in a vertically
swiped feed with likes, comments and follows. Everything it stores lives
in a hosted database and object store. This project models the client-side
logic around those remote calls, in Dafny, and proves what that logic
promises:

- the feed's navigation state machine (arrow keys, swipes, cursor-paginated
  loading of older answers), as a pure transition system with trace lemmas
  and as a class whose handlers update its fields in place (`feed_content.dfy`);
- the answer composer's file checks, submit guard, disabled button and
  submit sequence (`answer_form.dfy`);
- `uploadMedia`: the file extension, the storage path and the MIME
  classification (`supabase_storage.dfy`);
- the `submitAnswer` server action: the session check and the
  normalised answer row (`answer_actions.dfy`);
- the question composer's trim and length rules and its visibility choice
  (`ask_form.dfy`);
- the comment thread's add and delete (`comments_section.dfy`);
- the case-insensitive question search and the answer count (`questions_list.dfy`);
- the feed card's like and follow toggles, its lookups and badges (`feed_card.dfy`);
- shared pieces: `Option`/`Result` and `Array.prototype.filter`
  (`common.dfy`), and JavaScript's `trim`, ASCII case mapping, `startsWith`,
  `includes` and the `getInitials` avatar fallback (`text.dfy`).

Remote calls take three forms. Most are parameters of arrow type: an
upload, insert or delete answers an error message or `None` (or the stored
row), and a lookup answers `Ok(data)` or `Err(message)`. The feed's page
query is split at its await: `BeginLoad` returns the query, and `EndLoad`
takes the store's answer as a value. The like and follow writes are
returned as requests, because the handlers never read the answer. The
session of the answer action is a value parameter. The model states which
request is sent and what the code does with each possible answer. The
generated UUID and the object URL the browser creates are parameters too.

`loadMoreItems` awaits one query, and other events can arrive while it is
in flight. It is therefore modelled as two steps: `BeginLoad` (the guard,
setting the loading flag, the query) and `EndLoad` (the append, clearing
the flag). Every other handler is one atomic step.

A swipe of exactly 50 px is ignored, because the code tests
`Math.abs(distance) > 50` (components/feed-content.tsx:101).

## Model

| member | source | states |
|---|---|---|
| FeedNavigation.Initial | components/feed-content.tsx:14-19 | the mounted feed shows the first card of the server page, not loading, no touch start or end recorded, index in bounds |
| FeedNavigation.BeginLoad | components/feed-content.tsx:22-39 | while loading or on an empty feed nothing happens and no query is sent; otherwise the flag is set and the query asks for at most 10 answers strictly older than the last item's `created_at` |
| FeedNavigation.EndLoad | components/feed-content.tsx:41-54 | the old list is an unchanged prefix of the new one; data is appended, an empty page or an error leaves the list as it was; the loading flag ends false; index and touches are untouched |
| FeedNavigation.OnKeyDown | components/feed-content.tsx:59-70 | ArrowDown adds one exactly when the index is below the last card, ArrowUp subtracts one exactly when it is above 0, otherwise the index is unchanged; load-more is called exactly on an advance whose pre-advance index is at least length-3, never on a retreat, and its query is sent exactly when no page is in flight |
| FeedNavigation.OnTouchEnd | components/feed-content.tsx:97-120 | a missing or zero coordinate makes the handler a no-op; otherwise both coordinates are cleared; a displacement of at most 50 px changes nothing else; load-more is called exactly on a swipe up of more than 50 px from below the last card with pre-advance index at least length-3 |
| FeedNavigation.OnTouchStart | components/feed-content.tsx:89-91 | records the first touch's vertical coordinate as the swipe's start; nothing else changes |
| FeedNavigation.OnTouchMove | components/feed-content.tsx:93-95 | records the latest vertical coordinate as the swipe's end; nothing else changes |
| FeedNavigation.SwipeActsAsKey | components/feed-content.tsx:103-115 | a swipe up of more than 50 px acts as ArrowDown and a swipe down of more than 50 px as ArrowUp, on the state with both coordinates cleared |
| FeedNavigation.NoSecondRequestWhileLoading | components/feed-content.tsx:23 | while a page is in flight no key, swipe or direct call sends another query |
| FeedNavigation.StepKeepsInBounds | components/feed-content.tsx:60-63 | any single event keeps the index on a card and only ever appends to the list |
| FeedNavigation.RunKeepsInBounds | components/feed-content.tsx:44 | any sequence of key, touch and load events keeps the index in bounds, and the list before them is a prefix of the list after them |
| FeedNavigation.FromFirstCard | components/feed-content.tsx:15 | from index 0 on a non-empty page, every reachable state has `0 <= index < length` and extends the initial page |
| FeedNavigation.AppendKeepsNewestFirst | components/feed-content.tsx:37-44 | a page the store returns for the cursor query (older than the last item, newest first) keeps the feed newest first when appended, every new answer older than every loaded one |
| FeedNavigation.LoadingKeepsList | components/feed-content.tsx:22-25 | while a page is in flight, every event but its completion leaves the list as it is and the loading flag set, so the completed page answers the query that was sent |
| FeedNavigation.RunKeepsNewestFirst | components/feed-content.tsx:28-45 | with a store that answers the cursor query faithfully, the feed stays newest first through any sequence of events |
| FeedNavigation.FeedContent.constructor | components/feed-content.tsx:14-19 | the component's fields start as the initial state |
| FeedNavigation.FeedContent.LoadMoreItems | components/feed-content.tsx:22-39 | updates only `isLoading`, exactly as `BeginLoad`, and answers the query it sent |
| FeedNavigation.FeedContent.LoadMoreFinished | components/feed-content.tsx:41-54 | updates only `feedItems` and `isLoading`, exactly as `EndLoad`, keeping the index in bounds; returns the error toast's message exactly when the query failed |
| FeedNavigation.FeedContent.HandleKeyDown | components/feed-content.tsx:59-70 | updates the fields exactly as `OnKeyDown`, keeping the index in bounds |
| FeedNavigation.FeedContent.HandleTouchStart | components/feed-content.tsx:89-91 | records the start coordinate and nothing else |
| FeedNavigation.FeedContent.HandleTouchMove | components/feed-content.tsx:93-95 | records the latest coordinate and nothing else |
| FeedNavigation.FeedContent.HandleTouchEnd | components/feed-content.tsx:97-120 | updates the fields exactly as `OnTouchEnd`, keeping the index in bounds |
| AnswerComposer.CheckFile | components/answer-form.tsx:36-71 | a file over 10\*1024\*1024 bytes is refused as too large; otherwise a media tab refuses a MIME type without its prefix; the text tab checks the size only; a file is accepted exactly when both checks pass |
| AnswerComposer.AcceptedFileKeepsTabKind | components/answer-form.tsx:46-71 | a file accepted in a media tab is classified by the upload as that tab's media kind |
| AnswerComposer.EnabledSubmitPassesGuard | components/answer-form.tsx:387 | whenever the button is enabled, the missing-media guard of the handler passes |
| AnswerComposer.LacksMedia | components/answer-form.tsx:138 | the submit guard: a media tab (image, video or audio) with no file chosen |
| AnswerComposer.SubmitDisabled | components/answer-form.tsx:387 | the submit button is disabled while submitting, uploading or recording, and on a media tab without a file; EnabledSubmitPassesGuard ties it to the guard |
| AnswerComposer.SubmitFields | components/answer-form.tsx:150-164 | question id and caption are always posted; without an upload no URL and media type `"text"`; with one, its URL and its classification unchanged |
| AnswerComposer.RunSubmit | components/answer-form.tsx:135-187 | a media tab without a file is refused before any remote call; without a file nothing is uploaded and the row is a text answer; a file is uploaded under the user's folder, and an upload error ends the submission with no insert; the inserted row has the upload's classification and URL, the session user, the question and the typed caption (`null` when empty); the post succeeds exactly when the insert does |
| AnswerComposer.AnswerForm.constructor | components/answer-form.tsx:20-28 | the text tab, no caption, no file, no preview, no flags set, no chunks |
| AnswerComposer.AnswerForm.SelectTab | components/answer-form.tsx:195 | sets the active tab and nothing else |
| AnswerComposer.AnswerForm.EditContent | components/answer-form.tsx:220 | sets the caption and nothing else |
| AnswerComposer.AnswerForm.HandleFileChange | components/answer-form.tsx:31-76 | no file does nothing; a refused file leaves file and preview unchanged and reports why; an accepted file becomes `mediaFile` with its object URL as preview |
| AnswerComposer.AnswerForm.ClearMedia | components/answer-form.tsx:78-89 | file, preview and chunks are cleared; a running recorder is stopped |
| AnswerComposer.AnswerForm.HandleSubmit | components/answer-form.tsx:135-187 | ends as `RunSubmit` and returns the row it sent; `isSubmitting` is false afterwards unless the guard refused; when the upload throws, `isUploading` stays true and the button stays disabled |
| Storage.MediaTypeName | lib/supabase-storage.ts:26-33 | each media kind is one of the four stored strings |
| Storage.MediaTypeNameInjective | lib/supabase-storage.ts:26-33 | different media kinds are stored as different strings |
| Storage.FileExtension | lib/supabase-storage.ts:9 | the extension is the dot-free suffix after the last dot, the whole name without a dot, and empty after a trailing dot |
| Storage.FileExtensionSplits | lib/supabase-storage.ts:9 | a name with a dot is its part before the last dot, the dot, and the extension |
| Storage.FileName | lib/supabase-storage.ts:10 | the stored object is named by the generated id, a dot and the original extension |
| Storage.FilePath | lib/supabase-storage.ts:11 | the object path is the user id, a slash and the file name; PathInUserFolder proves it lies in the user's folder |
| Storage.ClassifyMime | lib/supabase-storage.ts:26-33 | image for `image/`, else video for `video/`, else audio for `audio/`, else text: the first matching prefix wins |
| Storage.PrefixesExclusive | lib/supabase-storage.ts:27-31 | no MIME type has two of the prefixes, so exactly one kind results whatever the test order |
| Storage.UploadMedia | lib/supabase-storage.ts:5-40 | an upload error is thrown with the fixed prefix and returns nothing; otherwise the path returned is the path uploaded to, `userId/uuid.ext`, inside the user's folder, with its public URL and the MIME classification |
| Storage.PathInUserFolder | lib/supabase-storage.ts:11 | every stored path begins with `userId + "/"` |
| AnswerActions.OrNull | app/actions/answer-actions.ts:32-33 | an empty or missing string becomes null, any other stays |
| AnswerActions.OrText | app/actions/answer-actions.ts:34 | an empty or missing media type becomes `"text"`, any other stays |
| AnswerActions.AnswerRow | app/actions/answer-actions.ts:29-35 | the row's author is the session user, its question the posted one, and its optional fields normalised |
| AnswerActions.SubmitAnswer | app/actions/answer-actions.ts:16-46 | without a session it fails with the fixed message and inserts nothing; otherwise it inserts the normalised row and succeeds exactly when the insert reports no error |
| AskComposer.BlankTextPassesButton | components/ask-form.tsx:112 | a non-empty text of white space only, within 280 characters, enables the button although the handler (line 27) refuses it |
| AskComposer.AcceptedTextEnablesButton | components/ask-form.tsx:75-112 | a text the handler accepts, within the textarea's cap, never finds the button disabled |
| AskComposer.PostDisabled | components/ask-form.tsx:112 | the button is disabled while loading and when the raw length is 0 or over 280, whatever white space the text holds; BlankTextPassesButton shows blank text gets through |
| AskComposer.CounterWarns | components/ask-form.tsx:78 | the counter turns red once the length exceeds 224 (`280 * 0.8`) |
| AskComposer.BlankQuestion | components/ask-form.tsx:27 | the handler's guard: nothing is left after `trim`; TrimEmptyIffAllSpace makes this "only white space" |
| AskComposer.QuestionRow | components/ask-form.tsx:39-46 | the row carries the form's user and visibility, and a non-empty text with no white space at either end |
| AskComposer.QuestionRowIsSlice | components/ask-form.tsx:43 | the stored text is the typed text minus a leading and a trailing run of white space |
| AskComposer.AskForm.constructor | components/ask-form.tsx:18-20 | empty text, public, not loading |
| AskComposer.AskForm.Edit | components/ask-form.tsx:73-75 | sets the text, which stays within 280 characters |
| AskComposer.AskForm.ChoosePublic | components/ask-form.tsx:89 | sets `isPublic` true and keeps the 280-character cap |
| AskComposer.AskForm.ChooseFriends | components/ask-form.tsx:100 | sets `isPublic` false and keeps the 280-character cap |
| AskComposer.AskForm.HandleSubmit | components/ask-form.tsx:24-65 | blank text: no insert and no state change; otherwise the trimmed row is inserted, the outcome follows the store's answer, and loading is false at the end; the 280-character cap is kept |
| Comments.WithoutComment | components/comments-section.tsx:74 | exactly the comments with another id remain, with their multiplicities and relative order |
| Common.Filter | components/comments-section.tsx:74 | `Array.prototype.filter`: at most as long as the input, keeps exactly the accepted elements with their multiplicities, in their original order; used by the comment delete and by the question search (components/questions-list.tsx:13) |
| Comments.AddThenDelete | components/comments-section.tsx:55-74 | prepending a comment with a fresh id and then deleting that id gives the old list back |
| Comments.DeleteRemovesExactlyOne | components/comments-section.tsx:74 | with distinct ids, deleting the id at position k removes that comment alone and keeps the rest in order |
| Comments.SendDisabledMeans | components/comments-section.tsx:158 | the send button is disabled exactly while loading or while the text is white space only |
| Comments.SendDisabled | components/comments-section.tsx:158 | the send button is disabled while loading or when nothing is left after `trim` |
| Comments.CanDelete | components/comments-section.tsx:189 | the delete button belongs to a comment exactly when the viewer wrote it |
| Comments.CommentsSection.constructor | components/comments-section.tsx:28-30 | the server's comments, an empty text box, not loading |
| Comments.CommentsSection.Edit | components/comments-section.tsx:152 | sets the text box and nothing else |
| Comments.CommentsSection.HandleAddComment | components/comments-section.tsx:32-66 | blank text: nothing sent, nothing changed; otherwise the trimmed text is sent for this answer and user; a stored row goes in front of the unchanged list and the box is cleared; an error leaves list and box unchanged; loading ends false |
| Comments.CommentsSection.HandleDeleteComment | components/comments-section.tsx:68-87 | the request names the comment and the viewer; success removes exactly the comments with that id; failure leaves the list unchanged |
| QuestionsList.FilterQuestions | components/questions-list.tsx:13-15 | the order-preserving sub-list of the questions whose lower-cased text contains the lower-cased query, never longer than the input |
| QuestionsList.KeptMeansOccurs | components/questions-list.tsx:14 | a question is kept exactly when the lower-cased query occurs at some offset of its lower-cased text |
| QuestionsList.EmptyQueryKeepsAll | components/questions-list.tsx:13-15 | the empty query returns every question |
| QuestionsList.CaseInsensitive | components/questions-list.tsx:14 | a query, its lower-cased and its upper-cased form select the same questions |
| QuestionsList.AnswerCount | components/questions-list.tsx:59 | no aggregate or no count shows 0, otherwise the count |
| Text.Trim | components/ask-form.tsx:27 | `trim` leaves neither end on a white-space character |
| Text.TrimEmptyIffAllSpace | components/ask-form.tsx:27 | `trim` is empty exactly when every character is white space |
| Text.TrimIsSlice | components/ask-form.tsx:43 | `trim` keeps the slice after the leading white space, and only white space follows it |
| Text.TrimIdempotent | components/comments-section.tsx:45 | trimming a trimmed text changes nothing |
| Text.LowerNormalises | components/questions-list.tsx:14 | lower-casing a lower-cased or an upper-cased text gives the lower-cased text |
| Text.ContainsAt | components/questions-list.tsx:14 | `includes` holds exactly when the needle occurs at some offset |
| Text.Lower | components/questions-list.tsx:14 | `toLowerCase` keeps the length and lower-cases each character (ASCII mapping) |
| Text.Upper | components/questions-list.tsx:14 | `toUpperCase` keeps the length and upper-cases each character (ASCII mapping) |
| Text.StartsWith | lib/supabase-storage.ts:27-31 | `startsWith`: the prefix is no longer than the string and equals its first characters |
| Text.Contains | components/questions-list.tsx:14 | `includes`: the needle starts at the front or, recursively, further along; ContainsAt characterises it |
| Text.GetInitials | components/questions-list.tsx:17-19 | one character: the upper-cased first character of the name, or `U` for an empty or missing name (the same expression as components/feed-card.tsx:167-169 and components/comments-section.tsx:89-91) |
| FeedCardState.LikeRequestFor | components/feed-card.tsx:83-94 | an unlike exactly when liked, a like otherwise, always for this answer and viewer |
| FeedCardState.FollowRequestFor | components/feed-card.tsx:110-124 | an unfollow exactly when following, a follow otherwise, from the viewer to the author |
| FeedCardState.ToggleLike | components/feed-card.tsx:83-98 | the heart flips, and the count goes down by one from liked and up by one from not liked |
| FeedCardState.ClicksByParity | components/feed-card.tsx:81-98 | two clicks restore heart and count; any even number of clicks changes nothing, any odd number acts as one |
| FeedCardState.LikeClickTracksStore | components/feed-card.tsx:83-98 | if the card agrees with the likes table and the store applies the click's write, the card still agrees after the click |
| FeedCardState.CountBadge | components/feed-card.tsx:241 | a count is shown exactly when it is above 0 (the same guard at line 247 for comments) |
| FeedCardState.ShowsFollowButton | components/feed-card.tsx:255 | the follow button appears only on answers written by someone other than the viewer |
| FeedCardState.FeedCard.constructor | components/feed-card.tsx:15-18 | not liked, count 0, not following, no comments |
| FeedCardState.FeedCard.CheckLikeStatus | components/feed-card.tsx:22-33 | the heart fills only when the lookup for this answer and viewer finds a row without error |
| FeedCardState.FeedCard.GetLikeCount | components/feed-card.tsx:36-45 | a count answered without error replaces the counter, otherwise it is kept |
| FeedCardState.FeedCard.GetCommentCount | components/feed-card.tsx:48-57 | the same for the comment counter |
| FeedCardState.FeedCard.CheckFollowStatus | components/feed-card.tsx:60-73 | on one's own answer nothing is queried and nothing changes; otherwise following becomes true only when the lookup finds a row without error |
| FeedCardState.FeedCard.HandleLike | components/feed-card.tsx:81-106 | sends the write for the current heart and then toggles heart and count, whatever the store answered |
| FeedCardState.FeedCard.HandleFollow | components/feed-card.tsx:108-139 | sends the write for the current flag and then flips it, whatever the store answered |
| FeedCardState.OwnAnswerNeverFollowed | components/feed-card.tsx:255 | on the viewer's own answer the follow button is absent and, after the status check, following is still false |

## Left out

- Audio recording (`startRecording`, `stopRecording`, the recorder's `ondataavailable` and `onstop`, components/answer-form.tsx:91-133): it depends on the microphone and MediaRecorder. The model keeps only whether a recorder exists and whether it is recording, as `clearMedia` reads them.
- The recorder's `onstop` may set a file after `clearMedia` has cleared it. This needs asynchronous callbacks and is not modelled.
- Browser effects are left out: `URL.createObjectURL` (a parameter), `scrollIntoView`, the file input's reset, toasts (only their message is kept, as an error output or a returned message), router navigation, `revalidatePath`, the share and clipboard fallback `handleShare`, and the HTML `required` attribute.
- Authentication, the server page loaders, profile pages and presentational components: they are outside the modelled core.
- Text.LowerChar, Text.UpperChar, Text.Lower, Text.Upper, Text.LowerNormalises, Text.GetInitials, QuestionsList.CaseInsensitive: map ASCII letters only. So `GetInitials` always gives one character and upper-cases only `a`-`z`, while JavaScript gives `"SS"` for `"ß"` and upper-cases non-ASCII letters too; `CaseInsensitive` and `LowerNormalises` hold for the ASCII mapping only (in JavaScript `"ß".toUpperCase().toLowerCase()` is `"ss"`). JavaScript's full Unicode case mapping and multi-character results are not modelled. Lengths count Dafny characters, not UTF-16 code units.
- FeedNavigation.OnTouchEnd: touch coordinates are integers. Fractional and NaN `clientY` values are not modelled.
- React's batching and stale closures are not modelled. Concurrent effect runs and re-bound listeners are left out too: each handler is one atomic step, except `loadMoreItems`, which is split at its await. The append after the await uses the list captured before it. Nothing else changes the list while a page is in flight (FeedNavigation.LoadingKeepsList), so this is the current list. One visible effect of stale closures is not modelled: the keydown listener is re-bound only when `currentIndex` or `feedItems.length` changes (components/feed-content.tsx:74). After a failed or empty page it still sees `isLoading` as true, so the next keyboard advance skips its prefetch, where `OnKeyDown` sends the query.
- The store's query semantics (`lt`, `order`, `limit`, `single`, row-level security) are oracles. Properties that depend on them take an honest store as a precondition (FeedNavigation.RunKeepsNewestFirst).
- FeedCardState.FeedCard.HandleLike, FeedCardState.FeedCard.HandleFollow: the client library reports store errors without throwing. So the `catch` branch of these handlers is reachable only through an exception inside the library, which is not modelled.
- The like counter can go below zero: unliking when the count lookup failed gives -1. The model keeps `likeCount` as `int` and does not rule this out.
- Comments.CommentsSection.HandleDeleteComment: the store deletes only the viewer's own comment (the `user_id` filter). A delete that matches no row still succeeds. The local list then drops every comment with that id. The model follows the code; the delete button is shown only on one's own comments (Comments.CanDelete).
- The generated UUID is a parameter of the upload, and its uniqueness is not modelled.
- The character counter's colour uses `MAX_LENGTH * 0.8`. It is the integer 224 here (AskComposer.CounterWarns).
