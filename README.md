# Verified model of the list and state logic of a liquor-community web client

The client is a React application: views, form state and small Zustand stores
that proxy REST calls. This project models the parts of it that hold real list
and state logic, and proves properties of that model in Dafny:

- **Notification read-state ledger** (`useNotificationStore`, module
  `Notifications`). The store holds a notification list, an unread counter and a
  pagination record. It replaces the list, loads it from a fetched page
  (a missing `isNew` counts as unread), marks one id read, and prepends an arriving notification
  with a cap of 20. The store is the class `NotificationStore`. Its list
  operations are pure functions (`LoadFromWire`, `MarkRead`, `AddNew`,
  `CountNew`), and lemmas are proved about them.
- **Comment list merge and paging** (`PostComments`, module `Comments`). A
  fetched page is merged into the list through a JavaScript `Map` keyed by id.
  In such a `Map`, a key keeps the position where it was first inserted and the
  value it was last given. This is modelled literally (`JsMap`, `FromEntries`,
  `Values`) and tied to an independent description, `MergedFrom`: unique ids,
  first-occurrence order, last-occurrence payload. That description determines
  the list uniquely, and idempotence of the merge follows from this. The
  component's state and handlers form the class `PostComments`.
- **Drink-type selection** (`useSpecialtyStore`, module `Specialty`). The store
  de-duplicates the catalogue's drink types through a `Set`, resets the selection
  to soju, beer and liqueur, and toggles a drink by removing every occurrence of
  it or by appending it.
- **Signup field messages** (`SignUpStep1`, module `SignUp`). These are the
  Boolean conditions under which each validation message is shown.
- **Own follow tags** (`FollowTagList`, module `FollowTags`). This is the
  order-preserving filter on `memberId` and the "no tags" branch.

Network calls are inputs, not effects:

- `NotificationFetch` is a rejection, a falsy value or a page.
- `Option<CommentPage>` is a comment page, or `None` for a falsy or rejected one.
- `Option<Comment>` is the resolved write.
- `Option<seq<Drink>>` is the `axios.get` result.

`Date.now()` is the parameter `now`. The JSON field `type` is called `kind`,
because `type` is a Dafny keyword. The drink fields `region_id`, `image_url`
and `create_at` are written `regionId`, `imageUrl` and `createAt`.

Three behaviours of the code are modelled exactly as written, though a reader
might expect otherwise:

- `addNewNotification` does not de-duplicate by id (`AddNewKeepsDuplicate`).
- A failed notification fetch does not reset `newNotificationCount`
  (`FailedFetchLeavesStaleCounter`). The store invariant `Valid` therefore
  admits a stale counter next to an empty list.
- A submitted comment is prepended without de-duplication.

## Model

| member | source | states |
|---|---|---|
| Notifications.NotificationStore.constructor | src/store/useNotificationStore.ts:32-40 | starts with an empty list, counter 0 and pagination {0,0,10,0}; the counter agrees with the list |
| Notifications.NotificationStore.SetPagination | src/store/useNotificationStore.ts:41 | replaces the pagination record only |
| Notifications.NotificationStore.SetNotifications | src/store/useNotificationStore.ts:42-45 | stores the list unchanged, sets the counter to its number of `isNew` entries, leaves pagination alone |
| Notifications.NotificationStore.FetchNotifications | src/store/useNotificationStore.ts:46-74 | success: list is the loaded wire list, pagination {totalElements,1,20,0}, counter equals live count; falsy data: nothing changes; failure: list [] and pagination {0,0,20,0} but the counter is kept |
| Notifications.NotificationStore.MarkAsRead | src/store/useNotificationStore.ts:75-85 | list becomes `MarkRead(old, id)`, counter equals the live count and never exceeds the old counter |
| Notifications.NotificationStore.AddNewNotification | src/store/useNotificationStore.ts:86-97 | list becomes `AddNew(old, n)`, at most 20 long, headed by `n` marked new; counter equals live count |
| Notifications.FailedFetchLeavesStaleCounter | src/store/useNotificationStore.ts:68-73 | after one arrival and a failed fetch the list is empty while the counter still says 1 |
| Notifications.Unread | src/store/useNotificationStore.ts:43 | the filtered list holds exactly the `isNew` entries, as a subsequence of the list |
| Notifications.UnreadMultiplicity | src/store/useNotificationStore.ts:43 | the filter keeps each unread entry exactly as often as the list holds it, and no read entry |
| Notifications.CountNewBounds | src/store/useNotificationStore.ts:43-44 | the unread count is at most the length, and zero exactly when no entry is new |
| Notifications.LoadFromWire | src/store/useNotificationStore.ts:50-53 | same length; each stored item equals the wire item except `isNew`, which is true unless the wire says `false` |
| Notifications.LoadKeepsExplicitRead | src/store/useNotificationStore.ts:52 | an explicit `isNew: false` stays false after loading |
| Notifications.MarkRead | src/store/useNotificationStore.ts:77-79 | length preserved; only `isNew` may change; an entry is new afterwards exactly when it was new and has another id |
| Notifications.MarkReadCount | src/store/useNotificationStore.ts:77-81 | the new count plus the number of unread entries carrying `id` equals the old count |
| Notifications.MarkReadNeverIncreases | src/store/useNotificationStore.ts:81 | marking read never raises the unread count |
| Notifications.MarkReadAbsent | src/store/useNotificationStore.ts:77-79 | an id no entry carries leaves the list equal |
| Notifications.MarkReadUniqueUnread | src/store/useNotificationStore.ts:77-81 | with a unique unread entry for `id`, the count drops by exactly one |
| Notifications.AddNewShape | src/store/useNotificationStore.ts:88-91 | head is `n` with `isNew = true`, tail is the first min(old length, 19) old entries in order, length min(old+1, 20) |
| Notifications.AddNewCount | src/store/useNotificationStore.ts:93 | the count after an arrival is 1 plus the unread count of the kept old entries, between 1 and 20 |
| Notifications.AddNewKeepsDuplicate | src/store/useNotificationStore.ts:88 | an id already in the kept part of the list now appears twice (no de-duplication) |
| Comments.FromEntries | src/components/pages/Post/PostComments.tsx:65 | the `Map` built from the entries has distinct keys, and its key list and key set agree |
| Comments.DedupMergedFrom | src/components/pages/Post/PostComments.tsx:64-66 | the `Map` de-duplication holds each id once, in first-occurrence order, with the last occurrence's payload |
| Comments.MergedFromUnique | src/components/pages/Post/PostComments.tsx:64-66 | at most one list fits that description |
| Comments.MergeShape | src/components/pages/Post/PostComments.tsx:61-67 | after a merge each id appears once and the ids are those of the old list united with the page's |
| Comments.MergePageWins | src/components/pages/Post/PostComments.tsx:62-66 | a merged comment whose id is in the page is the page's last copy of that id |
| Comments.DedupUnique | src/components/pages/Post/PostComments.tsx:64-66 | a list with unique ids is left as it is |
| Comments.MergeIdempotent | src/components/pages/Post/PostComments.tsx:61-67 | merging the same page twice equals merging it once |
| Comments.TrimStart | src/components/pages/Post/PostComments.tsx:96 | the result is the suffix left after the leading whitespace, and it does not start with whitespace |
| Comments.TrimEnd | src/components/pages/Post/PostComments.tsx:96 | the result is the prefix left before the trailing whitespace, and it does not end with whitespace |
| Comments.TrimBlank | src/components/pages/Post/PostComments.tsx:96 | a draft trims to '' exactly when all its characters are whitespace |
| Comments.PostComments.constructor | src/components/pages/Post/PostComments.tsx:46-54 | no comments, empty draft, not anonymous, pagination {0,0,10,0} |
| Comments.PostComments.FetchComments | src/components/pages/Post/PostComments.tsx:57-77 | a page merges into the list, and pagination takes the response totals with the request's size and page; a falsy response changes neither |
| Comments.PostComments.FetchEffect | src/components/pages/Post/PostComments.tsx:79-81 | requests the page and size the pagination record names, then applies the response as a fetch does |
| Comments.PostComments.HandlePageChange | src/components/pages/Post/PostComments.tsx:87-89 | requests exactly (postId, newPage, current size) with no range check, then applies the response |
| Comments.PostComments.PageChangeWithEffect | src/components/pages/Post/PostComments.tsx:57-89 | the page change requests (postId, newPage, current size); the effect fetches again exactly when `newPage` differs from the page shown before, and then requests the same page; served the same page, the list is as after one merge |
| Comments.PostComments.HandleAnonymousChange | src/components/pages/Post/PostComments.tsx:83-85 | negates the anonymous flag and changes nothing else |
| Comments.PostComments.HandleCommentChange | src/components/pages/Post/PostComments.tsx:91-93 | replaces the draft and changes nothing else |
| Comments.PostComments.HandleCommentSubmit | src/components/pages/Post/PostComments.tsx:95-115 | a write is issued exactly when the draft is not all whitespace; if the write resolves, one comment (id `now`, name '익명' when anonymous) is prepended to the unchanged list, the draft becomes '' and the flag false; otherwise nothing changes |
| Specialty.Distinct | src/store/useSpecialtyStore.ts:31 | the types passed through a `Set` have no duplicates and the same elements as the input |
| Specialty.DistinctOrder | src/store/useSpecialtyStore.ts:31 | the distinct types are in first-occurrence order |
| Specialty.Remove | src/store/useSpecialtyStore.ts:51 | removes every occurrence of the drink and keeps the rest in order (subsequence, multiset minus that drink) |
| Specialty.RemoveAbsent | src/store/useSpecialtyStore.ts:51 | filtering out an absent drink leaves the list equal |
| Specialty.RemoveAppend | src/store/useSpecialtyStore.ts:51 | the filter distributes over concatenation |
| Specialty.ToggleFlips | src/store/useSpecialtyStore.ts:47-57 | the toggled drink is in the result exactly when it was not in the list; other drinks keep their membership |
| Specialty.ToggleAbsentTwice | src/store/useSpecialtyStore.ts:53-56 | toggling an absent drink appends it, and toggling it again restores the list |
| Specialty.TogglePresentTwice | src/store/useSpecialtyStore.ts:49-56 | toggling a present drink twice leaves one copy of it at the end |
| Specialty.SpecialtyStore.constructor | src/store/useSpecialtyStore.ts:25-27 | both lists start empty |
| Specialty.SpecialtyStore.FetchDrinks | src/store/useSpecialtyStore.ts:28-45 | success: `alldrinks` is the distinct types and the selection is exactly ['소주','맥주','리큐르']; failure: nothing changes |
| Specialty.SpecialtyStore.ToggleDrinkSelection | src/store/useSpecialtyStore.ts:47-58 | the selection becomes the toggled list, the drink's membership flips, `alldrinks` is untouched |
| Specialty.SpecialtyStore.SetSelectedDrinks | src/store/useSpecialtyStore.ts:60-62 | replaces the selection, leaves `alldrinks` untouched |
| SignUp.Utf16Length | src/components/pages/SignUp/SignUpStep1.tsx:56 | JavaScript length is at least the character count, and equal to it exactly when every character is in the Basic Multilingual Plane |
| SignUp.NicknameWithinBmp | src/components/pages/SignUp/SignUpStep1.tsx:56 | for Basic Multilingual Plane names (Hangul included) the rule is 2 to 7 characters |
| SignUp.EmailVerdict | src/components/pages/SignUp/SignUpStep1.tsx:85-96 | while loading, neither e-mail verdict is shown; otherwise exactly one is, chosen by `validatedEmail`; the checking notice follows `validatedText != ''` |
| SignUp.PasswordMismatch | src/components/pages/SignUp/SignUpStep1.tsx:133 | the mismatch alert is shown exactly when both passwords are non-empty and differ |
| SignUp.ValidFormShowsOnlyAvailable | src/components/pages/SignUp/SignUpStep1.tsx:45-133 | a correctly filled form (2 to 7 Basic Multilingual Plane characters, date and e-mail filled, all parent flags successful, no pending check, matching passwords) shows only "사용가능한 이메일 입니다.", with or without `confirmAlert` |
| SignUp.EmptyFormAlerts | src/components/pages/SignUp/SignUpStep1.tsx:56-133 | with alerts requested, an empty form shows the three missing-field alerts and the nickname rule, and no password mismatch |
| SignUp.ConfirmAlertOnlyFlagsEmpty | src/components/pages/SignUp/SignUpStep1.tsx:67-106 | without `confirmAlert` no missing-field alert is shown; raising it adds exactly the alerts of the empty fields and changes no other message |
| SignUp.MatchOrMismatch | src/components/pages/SignUp/SignUpStep1.tsx:45-133 | with both fields filled exactly one of `isMatch` and the alert holds; with either empty there is no alert |
| FollowTags.FilterMine | src/components/pages/MyPage/FollowTagList.tsx:23 | keeps exactly the tags whose `memberId` is the member's id, in their original order |
| FollowTags.FilterMineMultiplicity | src/components/pages/MyPage/FollowTagList.tsx:23 | the filter keeps each tag of the member exactly as often as the list holds it, and no other tag |
| FollowTags.FilterMineAppend | src/components/pages/MyPage/FollowTagList.tsx:23 | the filter distributes over concatenation, so it keeps every matching tag and its relative order |
| FollowTags.MyFollowTags | src/components/pages/MyPage/FollowTagList.tsx:22-24 | not an array or no member: empty; every kept tag is the member's, every tag of the member is kept as often as it occurs, order preserved |
| FollowTags.NoTagsMessageIff | src/components/pages/MyPage/FollowTagList.tsx:31-44 | the "no tags" branch is taken exactly when there is no array, no member, or no tag of that member |

## Left out

- The network layer (`fetchNotificationsApi`, `fetchCommentsApi`, `fetchCommentWriteApi`, `axios.get`). Its results are inputs, not effects.
- Asynchronous interleaving: responses that arrive out of order and effect re-runs racing a handler. This is concurrency. Each handler is modelled as running to completion on its own response.
- `HandleCommentSubmit` reads `isAnonymous` from the state when the write resolves. The source reads the value that its render closure captured. The two differ only if the flag is toggled during the request.
- `console.log` and `console.error` calls, `dayjs` formatting, and all JSX, styling and icons.
- The `else` branch of `fetchDrinks` (useSpecialtyStore.ts:38-41) is not modelled. It cannot be reached, because `Array.from` always returns an array.
- `Drink.degree` is a `real`. JavaScript floating point is not modelled, and no field is computed from it.
- Ids, counters, page numbers and `Date.now()` are unbounded integers. IEEE double rounding is not modelled.
- `Map` key equality is modelled as integer equality. JavaScript's `NaN` keys do not arise for integer ids.
- `FollowTagList` calls the member store's `fetchMembers`, `fetchFollowTags` and `removeFollowTag`, which are not shown. The model takes `followTags` and `currentUser` as inputs.
- `SignUpStep1`'s setters and `nextSlide` only forward input to the parent, so they are not modelled.
