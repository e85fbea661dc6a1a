# Admin Notice relay — a Dafny model

This project models the WordPress plugin `Admin_Notice`. The plugin turns a failure inside an editor action into a notice for the user who triggered it. It has three parts:

- `with_error_notice` wraps an action callback. When the callback throws, the wrapper normalises the throwable to a leveled `Admin_Notice\Exception`. It then files `{level, message}` in a transient named `admin-notice-{post}-{user}`.
- The REST route `admin-notice/v1/notices/{id}` and `legacy_notice` read that transient and delete it. A notice is therefore delivered once.
- A script in the block editor watches the editor's save state. When a save completes, it fetches the route and shows the notice as a dismissible banner, or removes the banner when nothing is stored. As written, the script only fetches in an editor that has metaboxes (see "## Findings").

Modules, by file:

| file | module | models |
|---|---|---|
| `wrappers.dfy` | `Wrappers` | `Option`, standing for PHP's `null`/`false` results |
| `decimal.dfy` | `Decimal` | `%d` printing, the `${postId}` template literal, and `intval` on digit strings: a value above PHP_INT_MAX is read as a double and capped at PHP_INT_MAX, and a value too large for a double becomes 0 |
| `levels.dfy` | `Levels` | the `NoticeLevels` backed enum |
| `exceptions.dfy` | `Exceptions` | throwables, the `Admin_Notice\Exception` constructor and `fromThrowable` |
| `slashes.dfy` | `Slashes` | `wp_unslash` on a string (PHP's `stripslashes`) |
| `notice_store.dfy` | `NoticeStore` | transient naming, `set_notice_status`, `get_notices`, `legacy_notice` |
| `error_wrapper.dfy` | `ErrorWrapper` | `with_error_notice` |
| `notices_route.dfy` | `NoticesRoute` | the route pattern, the id validation and sanitising, and the request as a whole |
| `save_poller.dfy` | `SavePoller` | `isSavingPost`, `isSavingMetaBoxes`, the `subscribe` edge detector and the response handler |
| `relay.dfy` | `Relay` | end-to-end properties: from a failing action to the banner |

The store is a `map<string, Notice>` keyed by transient name, so other transients can share it. `NoticeStore.TransientNameInjective` shows that different (post, user) pairs get different names. That is why the per-pair lemmas can treat the store as a map keyed by the pair.

Inputs that the source reads from its environment are parameters here:
- the current user id (`get_current_user_id()`);
- `current_user_can('edit_posts')`, as a boolean;
- `get_the_ID()`, as an `Option<int>`;
- the callback's outcome;
- the editor selectors read on each tick.

The wrapper does not swallow every failure: two coercions inside the `catch` block can throw a `TypeError`, which leaves the wrapper. The model represents this outcome explicitly (`ErrorWrapper.WrapResult.EscapedTypeError`):
- the post argument is passed to `set_notice_status(int $post_id, …)`, and it is not a post, not an int, and not coercible to an int (this includes `null` for a missing position);
- `fromThrowable` passes a throwable's `getCode()` to `int $code`, and the code is not coercible (a PDOException's SQLSTATE string, for example).

## Model

| member | source | states |
|---|---|---|
| Exceptions.NewException | src/class-adminnoticeexception.php:29-32 | the constructed exception is leveled; `getLevel()` is the given level; message, code and previous are passed through unchanged |
| Exceptions.FromThrowable | src/class-adminnoticeexception.php:40-41 | defined exactly when the code is coercible to int; the result has the requested level, the message and code of `t`, and `t` as previous |
| Exceptions.FromThrowableLevelIndependent | src/class-adminnoticeexception.php:47-49 | the level of a `fromThrowable` result is the requested level, whatever throwable is wrapped |
| Levels.Value | src/admin-notice.php:41-46 | every level's backing string is non-empty, so it is truthy in JavaScript |
| Levels.ValueInjective | src/admin-notice.php:41-46 | distinct levels have distinct backing strings, so the code the editor receives identifies the filed level |
| Decimal.NatToString | src/admin-notice.php:179 | the printed id is a non-empty digit string with no leading zero |
| Decimal.NatToStringRoundTrip | src/admin-notice.php:179 | reading back the printed digits gives the printed number |
| Decimal.IntToString | src/admin-notice.php:60 | `%d` prints a minus sign exactly for negative numbers, followed by digits only |
| Decimal.IntToStringInjective | src/admin-notice.php:60 | different integers print differently under `%d` |
| Decimal.IntVal | src/admin-notice.php:83 | `intval` of a digit string lies between 0 and PHP_INT_MAX and is positive exactly when some digit is not '0' and the value is below 2^1024 - 2^970, where the double conversion overflows to infinity |
| Decimal.DigitsValueLeadingZero | src/admin-notice.php:83 | a leading zero does not change a digit string's value |
| Decimal.IntValLeadingZero | src/admin-notice.php:83 | `intval` ignores leading zeros |
| Decimal.IntValNatToString | src/admin-notice.php:83 | `intval` reads back what `%d` prints, for every non-negative PHP int |
| Decimal.DigitsValuePositive | src/admin-notice.php:83 | a digit string has a positive value exactly when one of its digits is not '0' |
| Slashes.Unslash | src/admin-notice.php:221 | `stripslashes` never lengthens a string |
| Slashes.UnslashIdentity | src/admin-notice.php:221 | a message without backslashes comes back unchanged |
| Slashes.UnslashDropsBackslash | src/admin-notice.php:221 | a message `a\b` with one backslash, where `b` does not start with '0', reaches the editor as `ab`: the message is stored as thrown, so unslashing alters it |
| Slashes.WindowsPathAltered | src/admin-notice.php:221 | a failure message `C:\temp` reaches the editor as `C:temp` |
| NoticeStore.Put | src/admin-notice.php:61 | after the put, the pair's notice is the one written; no other transient changes |
| NoticeStore.TakeAndClear | src/admin-notice.php:212-214 | returns the pair's notice (or none); afterwards the pair has no notice; only that one transient is removed |
| NoticeStore.SetNoticeStatus | src/admin-notice.php:55-62 | the notice filed for (post, current user) is `{getLevel(), getMessage()}`; any earlier notice for that pair is overwritten; nothing else changes |
| NoticeStore.GetNotices | src/admin-notice.php:209-227 | with nothing stored, the response is empty; otherwise it is `{code: level value, message: unslashed message}`; in both cases the entry is deleted and nothing else changes |
| NoticeStore.LegacyNotice | src/admin-notice.php:229-240 | shows the notice of the current post (post 0 when there is none) and deletes it; nothing else changes |
| NoticeStore.TransientNameInjective | src/admin-notice.php:60 | the transient name determines the (post, user) pair |
| NoticeStore.DashSplit | src/admin-notice.php:60 | a `%d-%d` name splits back into its two printed integers |
| NoticeStore.PutKeepsOtherNotices | src/admin-notice.php:55-62 | filing a notice for one pair leaves every other pair's notice unchanged |
| NoticeStore.TakeKeepsOtherNotices | src/admin-notice.php:212-214 | reading one pair's notice leaves every other pair's notice unchanged |
| NoticeStore.LastWriteWins | src/admin-notice.php:61 | two puts for the same pair before a read leave only the second |
| NoticeStore.PutsCommute | src/admin-notice.php:60-61 | puts for different pairs commute |
| NoticeStore.ReadOnce | src/admin-notice.php:209-226 | after a put, the first `get_notices` returns the notice and the second returns the empty response |
| ErrorWrapper.Normalize | src/admin-notice.php:26-28 | a leveled exception passes through unchanged; any other throwable becomes a level-Error exception with the same message and the original as previous; conversion fails exactly when the code cannot be an int |
| ErrorWrapper.WithErrorNotice | src/admin-notice.php:19-39 | the post argument is the one at the given position, or `null` when there is none; success: the callback's value, store unchanged; failure on a post or int: null, with the failure's message filed at its own level (Error if it had none) under (that id, user); failure on a coercible other value: null, with "Wrong post parameter" at Error under the coerced id; otherwise a TypeError escapes and the store is unchanged |
| ErrorWrapper.FailureKeepsOtherNotices | src/admin-notice.php:30-35 | whenever a failure is filed (post, int or coercible other value), the notices of every pair other than (filed id, user) are unchanged |
| ErrorWrapper.MissingArgumentEscapes | src/admin-notice.php:25-35 | with too few arguments for the position, the failure escapes as a TypeError and nothing is filed |
| NoticesRoute.RouteId | src/admin-notice.php:76-85 | a segment is accepted exactly when it is a digit string with a non-zero digit whose value is below the double overflow bound; the id is its value, capped at PHP_INT_MAX |
| NoticesRoute.HandleNoticesRequest | src/admin-notice.php:74-91 | an unmatched segment, an id of zero, an id beyond the double range, or a user without edit capability is rejected and leaves the store unchanged; otherwise the request consumes the pair's notice and answers `{code: level value, message: unslashed message}`, or the empty response when none is stored |
| NoticesRoute.ClientUrlRoundTrip | src/admin-notice.php:178-179 | the URL the script builds for any positive post id up to `Number.MAX_SAFE_INTEGER` is read back by the route as that id |
| NoticesRoute.RouteExamples | src/admin-notice.php:76-85 | "0", "000", "abc" and "" are rejected; "007" is record 7 |
| SavePoller.IsSavingPost | src/admin-notice.php:117-132 | busy exactly when a non-autosave save runs and no other entity changed; the save button's state drops out |
| SavePoller.IsSavingMetaBoxes | src/admin-notice.php:133-149 | busy exactly when metaboxes save outside an autosave and no other entity changed |
| SavePoller.Init | src/admin-notice.php:153-154 | the initial state records whether the post and the metaboxes are saving at load |
| SavePoller.SubscribeAsWritten | src/admin-notice.php:155-175 | the script as written fetches exactly when the editor has metaboxes and both the post save and the metabox save have just finished; with metaboxes, a finished post save stays armed until the metaboxes are saved, otherwise the state follows `isSavingPost`; a fetch disarms the detector, and it re-arms only on a saving tick |
| SavePoller.Subscribe | src/admin-notice.php:155-175 | the fetch fires exactly when the post save has just finished and, if the editor has metaboxes, they have just finished saving too; with metaboxes, a finished post save stays armed until the metaboxes are saved, otherwise the state follows `isSavingPost` |
| SavePoller.AsWrittenRefinesSubscribe | src/admin-notice.php:166-174 | the script as written passes through the same states as the corrected detector and fetches only where it does |
| SavePoller.SubscribeAgreesWithMetaBoxes | src/admin-notice.php:166-174 | with metaboxes, the corrected detector and the script as written behave the same |
| SavePoller.ArmedOnlyBySaving | src/admin-notice.php:166-170 | a disarmed detector becomes armed only after a tick where the post is saving |
| SavePoller.OneFetchPerSave | src/admin-notice.php:163-174 | between any two fetches there is a tick where the post is saving |
| SavePoller.SameStatesAsWritten | src/admin-notice.php:163-174 | over any run of ticks, the script as written passes through the same states as the corrected detector |
| SavePoller.OneFetchPerSaveAsWritten | src/admin-notice.php:163-174 | the same holds for the script as written |
| SavePoller.NoMetaBoxesFiresOnFallingEdge | src/admin-notice.php:163-174 | without metaboxes, a tick fetches exactly when the post was saving on the previous tick and is not saving now |
| SavePoller.AsWrittenMissesSaveWithoutMetaBoxes | src/admin-notice.php:172-174 | an editor without metaboxes completes a save and the script as written does not fetch, while the corrected detector does |
| SavePoller.MetaBoxSaveFiresWhenDone | src/admin-notice.php:155-175 | with metaboxes, the sequence "post save, idle, metabox save, idle" fetches once, on the last tick |
| SavePoller.Dispatch | src/admin-notice.php:183-195 | a response with a non-empty code creates a notice with that status and the message plus a space; anything else removes it; the created notice is dismissible; both use the fixed id `simple-admin-notice` |
| Relay.FailureReachesEditorOnce | src/admin-notice.php:23-37 | after a failure on a post whose id is positive and at most `Number.MAX_SAFE_INTEGER`, the first fetch shows the failure at its level and the second removes the banner |
| Relay.PlainMessageShownVerbatim | src/admin-notice.php:184-191 | a message without backslashes is shown verbatim, followed by a space |
| Relay.SuccessChangesNoFetch | src/admin-notice.php:21-22 | a callback that returns normally does not change what any later fetch returns |

## Left out

- Transient expiry: the 3600-second lifetime is not modelled, because the model has no clock. A notice stays in the store until it is read.
- JSON: `wp_json_encode` and `json_decode` are not modelled. The store holds the decoded `{level, message}` record. Messages are assumed to be valid UTF-8, so the encode/decode round trip returns them unchanged; how WordPress treats a message that is not valid UTF-8 is not modelled.
- `esc_html` and the HTML `echo` of `legacy_notice` are left out. `NoticeStore.LegacyNotice` returns the notice that would be echoed.
- WordPress REST plumbing is not modelled: `register_rest_route`, `add_action`, `WP_REST_Response` and the hook registrations. So is the rule that a query-string `id` takes precedence over the path segment. The route is modelled for the path segment only.
- NoticesRoute.HandleNoticesRequest: checks the id before the permission. This order belongs to WordPress's dispatcher, which is not part of this model. Either way, a rejected request does not touch the store.
- `get_current_user_id()`, `current_user_can('edit_posts')` and `get_the_ID()` are taken as inputs.
- ErrorWrapper.Arg: PHP's coercion rules for non-int values are not modelled. `Other.coerced` records their result (a numeric string or a bool is accepted; null, arrays, non-post objects and non-numeric strings are refused). The deprecation and warning notices PHP may emit while coercing are not modelled either.
- Exceptions.Throwable: the `previous` chain of non-leveled throwables is not modelled, because the wrapper never reads it.
- The JavaScript side effects (`apiFetch` promises, `wp.data` subscriptions and the notice dispatch itself) are not modelled. Each tick's selector values are inputs. `SavePoller.Dispatch` gives the dispatch decision.
- A failed `apiFetch`, such as a rejected request, never reaches the response handler. It is not modelled.
- Concurrent requests on the same pair are not modelled. Each call runs to completion.
- NoticesRoute.ClientUrlRoundTrip: holds only for post ids up to 2^53-1 (`Number.MAX_SAFE_INTEGER`). The script's `postId` is a JavaScript number, so a larger id is rounded before `${postId}` prints it and the fetch asks for another record. JavaScript number rounding is not modelled. Relay.FailureReachesEditorOnce has the same bound.

## Findings

| source | as written | input that shows it | evidently intended | confidence | as-written member | corrected member |
|---|---|---|---|---|---|---|
| src/admin-notice.php:172 | the fetch requires `hasActiveMetaBoxes && isDoneSavingMetaBoxes`, so an editor without metaboxes never fetches its notice | no metaboxes: one tick with the post saving, then one idle tick | fetch when the post save is done and, only when metaboxes exist, after they are saved too, as the comment at line 166 and the state update at line 167 say | medium, not executed | SavePoller.SubscribeAsWritten (shown by SavePoller.AsWrittenMissesSaveWithoutMetaBoxes) | SavePoller.Subscribe (proved by SavePoller.NoMetaBoxesFiresOnFallingEdge and SavePoller.OneFetchPerSave) |
