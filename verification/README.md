# Portfolio site core, modelled in Dafny

This project models the logic of a portfolio web site. Around the React pages sit six small state machines:

- **The admin endpoint** (`api/admin.js`). Its routes are:
  - password login that issues a 24-hour JSON Web Token;
  - a bearer-token gate;
  - a filtered, newest-first, paginated listing of contact submissions;
  - deletion of one submission.
- **The public contact endpoint** (`api/contacts.js`). It stores a submission stamped with server fields and lists all submissions a page at a time.
- **The `ui` Redux slice** (`src/store/slices/uiSlice.ts`). It holds toasts, modals, navigation toggles, per-form flags and a slow-render counter.
- **The `app` Redux slice** (`src/store/slices/appSlice.ts`). It holds loading and error flags and the idle / loading / succeeded / failed status of a contact-form submission.
- **The browser-side helpers** (`src/utils/api.ts`). They cover a mock in-memory booking store, fixed admin credentials, mock one-hour tokens and token bookkeeping in `localStorage`.
- **The render profiler** (`src/utils/performanceUtils.ts`). It keeps per-component counters, a report sorted slowest first, and rule-based advice.

Every operation is a pure function. The handlers become `Request × Collection × clock × … → Response × Collection`, and the reducers become `State × payload → State`. Several things are parameters:

- the clock (`Date.now`, `performance.now`);
- the ids the database driver or `Math.random` would draw;
- the configured `ADMIN_SECRET`;
- the token encoding (a `Codec` whose round trip is a hypothesis);
- the browser's `localStorage`.

Modules, one per file:

- `Wrappers`: `Option`, `Result` and `Codec`.
- `Text`: decimal printing and `parseInt`, ASCII lower-casing and substring search.
- `Seqs`: `filter`, `findIndex` and `splice`.
- `Sorting`: a stable insertion sort over a comparator.
- `Paging`: page arithmetic.
- `Documents`: the MongoDB collection, object ids, insert and delete, and the `createdAt` order.
- `Jwt`: `jsonwebtoken` sign and verify.
- `Http`: requests, responses and the shared listing body.
- `AdminApi` and `ContactsApi`: the two handlers.
- `Scenarios`: properties across both handlers.
- `Renders`: the slow-render threshold.
- `UiSlice`, `AppSlice`, `ClientApi` and `Performance`.

## Model

| member | source | states |
|---|---|---|
| AdminApi.Handle | api/admin.js:7-127 | OPTIONS answers 200 with no body. POST is the login and never touches the collection. Every other verb first passes the gate: a missing or non-`Bearer ` header gives 401 "Unauthorized", and a bad token gives 401 "Invalid or expired token", both with the collection unchanged. Behind the gate, GET lists, DELETE removes and any other verb gets 405. Only an admitted DELETE changes the collection, and only by dropping one document. |
| AdminApi.Login | api/admin.js:18-41 | A missing body throws. A password that differs from the secret gives 401 with success false. The answer is 200 with a token exactly when the password equals the secret and the secret is usable. A matching password under an unset or empty secret throws, because signing fails. |
| AdminApi.PasswordMatches | api/admin.js:22 | The password matches exactly when the body's `password` field, `undefined` when absent, is strictly equal to the secret, `undefined` when unset. So an absent password matches an unset secret. |
| AdminApi.BearerToken | api/admin.js:44-50 | A token is found exactly when an `authorization` header exists and starts with `Bearer `. The header is then `Bearer ` followed by the token. |
| AdminApi.Gate | api/admin.js:43-60 | Without a bearer token the refusal is 401 "Unauthorized". With one, the request passes exactly when the token decodes, verifies under the secret at this moment and carries a truthy `admin` claim. Otherwise the refusal is 401 "Invalid or expired token". |
| AdminApi.ValidAdminToken | api/admin.js:52-58 | A valid admin token needs a configured, non-empty secret and a token signed with it, whose claims carry `admin`. |
| AdminApi.Matching | api/admin.js:73-86 | The filtered documents keep each selected document as often as the collection holds it, in natural order, and drop every unselected one. A truthy `projectType` must equal the document's own. A truthy `search` must occur, ignoring case, in the name, email or company. |
| AdminApi.Selected | api/admin.js:73-83 | A query with neither a truthy `projectType` nor a truthy `search` builds the empty filter, which selects every document. A selected document under a truthy `projectType` carries exactly that string as its own `projectType`. |
| AdminApi.SelectedByFilter | api/admin.js:73-83 | A document is selected exactly when it passes both parts of the filter: the type test when `projectType` is truthy, and, when `search` is truthy, a case-insensitive match in one of `name`, `email` and `company`. |
| AdminApi.List | api/admin.js:67-103 | `page` falls back to 1 and `limit` to 20 when the parsed number is NaN or 0. `total` counts only the matching documents, and `pages` is the least number of `limit`-sized pages that hold them. `data` is the `skip = (page-1)*limit` slice of the matching documents in createdAt-descending order, at most `limit` of them, every one passing the filter. |
| AdminApi.Remove | api/admin.js:104-113 | An id the ObjectId constructor rejects gives 500 with the collection unchanged. Otherwise the first document with that `_id` is removed, giving 200 "Contact deleted". With no such document the answer is 404 "Contact not found" and the collection is unchanged. |
| AdminApi.LoginTokenOpensGate | api/admin.js:22-60 | The token a successful login returns, sent back as `Bearer <token>`, opens the gate exactly while the clock is before the end of the 24-hour window of its issue second. |
| AdminApi.DeleteTwice | api/admin.js:104-113 | With unique ids, deleting an existing id succeeds once and shrinks the collection by one. The same DELETE again answers 404 and changes nothing. |
| AdminApi.SearchIgnoresCase | api/admin.js:77-82 | The search `acme` selects a document whose company is `Acme Corp`. |
| Jwt.IssueAdminToken | api/admin.js:23-27 | A token is issued exactly when the secret is set and non-empty. It is signed with that secret and carries `admin: true`, the millisecond `timestamp`, `iat` as the issue second and `exp` 86400 seconds later. |
| Jwt.UsableSecret | api/admin.js:23-27 | The secret is unusable for signing and verifying exactly when it is unset or empty. |
| Jwt.Seconds | api/admin.js:23-27 | The issue second `iat` is the floor of the millisecond clock over 1000: the second's first millisecond is at or before the clock and the next second's first millisecond is after it. |
| Jwt.Verify | api/admin.js:53-56 | Verification succeeds exactly when the secret is usable and is the signing key, any `nbf` is a number not after the current second, and any `exp` is a number after the current second. On success it yields the token's claims. |
| Jwt.IssuedTokenWindow | api/admin.js:23-53 | An issued token verifies under its own secret exactly while `now < (iat + 86400) * 1000` milliseconds. |
| Jwt.IssuedTokenLifetime | api/admin.js:23-27 | An issued token is accepted for at least 86399 seconds after issue. From exactly 24 hours after issue it is refused as expired. |
| Jwt.OtherSecretRefused | api/admin.js:53 | A token is refused under any secret other than the one that signed it. |
| Documents.ParseObjectId | api/admin.js:107 | A string is accepted exactly when it is 24 hexadecimal digits of either case. The id is then those digits in lower case. |
| Documents.ParseObjectIdOfHex | api/admin.js:107 | Parsing the written form of a well-formed id gives back the id. |
| Documents.ResolveId | api/admin.js:106-107 | An absent query id becomes a freshly generated id. A string becomes its parsed id, or an invalid-id error naming the string. |
| Documents.DeleteOne | api/admin.js:107-109 | At most one document is deleted, and none exactly when no document has the id. With none deleted the collection is unchanged. When one is deleted, a document with the id has been cut out and everything else kept in order. |
| Documents.InsertOne | api/contacts.js:31 | The document keeps its own `_id`, or receives the generated one when the field is missing or null. The insert succeeds exactly when no stored document has that id, and a clash is a duplicate-key error. On success the document, carrying the id, is appended and the id returned. |
| Documents.BringsId | api/contacts.js:31 | A document brings no id of its own exactly when its `_id` is `== null`: missing (`undefined`) or `null`. |
| Documents.InsertKeepsIdsUnique | api/contacts.js:31 | A successful insert keeps every stored `_id` present and distinct. |
| Documents.DeleteKeepsIdsUnique | api/admin.js:107 | A delete keeps ids unique, and afterwards no document has the deleted id. |
| Documents.NewestFirst | api/admin.js:87 | The collection is reordered into a permutation of itself, sorted by createdAt descending, with undated documents last. Documents with the same date keep their natural order. |
| Documents.NewerFirst | api/admin.js:87 | The `createdAt: -1` order: of two dated documents, the later date comes first. A document without a date goes after every dated one, and anything may precede an undated document. |
| Sorting.SortBy | api/admin.js:87 | For a comparator that is total and transitive, the result is a sorted permutation of the input. |
| Sorting.SortByStable | src/utils/performanceUtils.ts:59 | The sort is stable: the members of any tie class come out in their input order. |
| Paging.OrDefault | api/admin.js:69-70 | The parsed number is used unless it is NaN or 0, in which case the default is used. The result is always positive. |
| Paging.Skip | api/admin.js:71 | Page 1 skips nothing. Skip plus limit is page times limit. |
| Paging.PageCount | api/admin.js:101 | The page count is the least number of `limit`-sized pages that hold `total` records, as `Math.ceil(total / limit)` gives. |
| Paging.PageOf | api/admin.js:88-89 | The page holds `min(limit, n - skip)` records when `skip < n` and none otherwise. Its i-th record is record `skip + i`. |
| Paging.RecordOnItsPage | api/admin.js:85-90 | Record k of the full order is record `k % limit` of page `k / limit + 1`. |
| Paging.PagesAreExactlyTheNonEmptyOnes | api/admin.js:85-101 | A page holds at least one record exactly when its number is at most the reported `pages`. |
| Paging.ThreePagesOfTwentyFive | api/contacts.js:40-60 | Twenty-five records at the default ten per page make three pages, the third holding five. |
| Http.ListPage | api/admin.js:85-103 | The listing body echoes page and limit, and `total` counts all matching documents. `pages` is the ceiling of total over limit. `data` is the requested page of the newest-first order. |
| Text.ParseInt | src/utils/api.ts:213 | Without a radix: a non-empty run of decimal digits that does not start with `0x` or `0X` reads as its decimal value. After `0x` or `0X`, a run of hexadecimal digits reads in base 16, and a bare `0x` is NaN. A blank string is NaN. |
| Text.ReadMagnitude | src/utils/api.ts:213 | The unsigned part of `parseInt`: the hexadecimal digits after a `0x`/`0X` prefix in base 16, otherwise the decimal digits, NaN when that run is empty. |
| Text.ParseIntHexExamples | src/utils/api.ts:213 | `parseInt("0x10")` is 16, `parseInt("0X1f")` is 31, and `parseInt("0x")` is NaN. |
| Text.Decimal | src/utils/api.ts:196 | `toString()` of a non-negative integer below 10^21, as used for the stored expiry here and for the ids at src/utils/api.ts:55 and src/store/slices/uiSlice.ts:104 and 121: a non-empty run of decimal digits without a leading zero. |
| Text.ParseIntOfDecimal | src/utils/api.ts:213 | `parseInt` reads back the decimal text of any non-negative integer below 10^21. |
| Text.ContainsIgnoringCaseOfLowered | api/admin.js:79-81 | Lower-casing the search term does not change what a case-insensitive search finds. |
| Text.ContainsIgnoringCase | api/admin.js:79-81 | An empty term matches every text, and a match needs a text at least as long as the term. |
| Text.ContainsIgnoringCaseByWindow | api/admin.js:79-81 | The term matches exactly when some window of the text equals it up to ASCII case. |
| ContactsApi.Handle | api/contacts.js:6-76 | OPTIONS answers 200 with no body. POST submits and GET lists. Any other verb gets 405 with the collection unchanged. Only a POST changes the collection, and only by appending one document. |
| ContactsApi.ClientIp | api/contacts.js:27 | A non-empty `x-forwarded-for` header wins. Otherwise the socket's remote address is used, or null when there is none. |
| ContactsApi.Stamp | api/contacts.js:24-29 | The stored record has `createdAt` set to now, the client ip and the `user-agent` header (null when absent). These override same-named body fields. Every other field is exactly the body's. |
| ContactsApi.Submit | api/contacts.js:22-37 | A successful insert answers 201 with the new id. It grows the collection by exactly that record and leaves earlier records untouched. A refused insert answers 500 and leaves the collection unchanged. |
| ContactsApi.List | api/contacts.js:38-62 | `page` falls back to 1 and `limit` to 10. `total` is the size of the whole collection and `pages` the ceiling of total over limit. `data` is that page of the unfiltered newest-first order. |
| ContactsApi.SubmitFresh | api/contacts.js:31-37 | A body without its own `_id` (missing or null) is always accepted with the generated id, and the ids stay unique. |
| ContactsApi.NullIdPostedTwice | api/contacts.js:24-37 | Posting a body whose `_id` is null twice answers 201 both times, with two generated ids, and stores two records. |
| Scenarios.NewestLeads | api/admin.js:85-90 | The document strictly newer than every other dated document is first in the newest-first order. |
| Scenarios.NoFilterMatchesAll | api/admin.js:73-83 | Without `projectType` or `search` every document matches, in natural order. |
| Scenarios.UnfilteredListHead | api/admin.js:85-90 | With no query parameters the admin listing opens with the newest document of the whole collection. |
| Scenarios.SubmissionListedFirst | api/contacts.js:24-31 | After a submission newer than every stored one, the admin's unfiltered first page opens with it, server fields included. |
| Scenarios.StoredAtEnd | api/contacts.js:31 | A fresh submission is appended after every stored document. |
| Seqs.RemoveWhere | src/store/slices/uiSlice.ts:110 | The result lists the kept elements at exactly the increasing positions of the input that pass the test, so order and multiplicity are kept. Every dropped element is gone. It equals the input when nothing is dropped. |
| Seqs.RemoveWhereAppend | src/store/slices/uiSlice.ts:110 | Filtering a concatenation is concatenating the filtered parts. |
| Seqs.RemoveWhereIdempotent | src/store/slices/uiSlice.ts:110 | Filtering twice by the same test is filtering once. |
| Seqs.FindFirst | src/utils/api.ts:113 | The position found holds a passing element and no earlier position does. No position is found exactly when nothing passes. |
| Seqs.RemoveAt | src/utils/api.ts:137 | One fewer element. Later elements shift down by one, and exactly one occurrence of the removed element is lost. |
| UiSlice.Reduce | src/store/slices/uiSlice.ts:91-200 | Each action does what its case does: the setters store their payload and the toggles negate their flag. `addToast` and `openModal` append the payload with the clock-derived id, and `removeToast` and `closeModal` filter out that id. The clear actions empty their list. The form actions change the named form as their case says and leave the other form alone. `recordRenderTime` stores the time and counts it when above 16 ms, and `resetPerformanceStats` restores the initial statistics. Each part of the state (loading flag, toasts, modals, mobile menu, sidebar, page transition, forms, render statistics) changes only under its own actions. |
| UiSlice.DispatchFrames | src/store/slices/uiSlice.ts:94-199 | No case of the reducer changes a part of the state that belongs to other actions. |
| UiSlice.DispatchToastsAndModals | src/store/slices/uiSlice.ts:100-132 | The toast and modal cases append with the clock-derived id, filter out the given id, or empty the list. |
| UiSlice.DispatchFlags | src/store/slices/uiSlice.ts:96-155 | The flag cases set the flag to the payload or negate it. |
| UiSlice.DispatchForms | src/store/slices/uiSlice.ts:157-183 | The form cases change only the named form: its dirty flag, its submitting flag, its errors, emptied errors, or its pristine state. |
| UiSlice.DispatchPerformance | src/store/slices/uiSlice.ts:185-198 | `recordRenderTime` stores the time and counts it when above 16 ms, and `resetPerformanceStats` restores the initial statistics. |
| UiSlice.SetGlobalLoading | src/store/slices/uiSlice.ts:96-98 | Sets the global loading flag and nothing else. |
| UiSlice.AddToast | src/store/slices/uiSlice.ts:101-107 | Exactly one toast is appended, carrying the payload's fields and the id formed from the clock and the random suffix. Earlier toasts keep their values and order, and nothing else changes. |
| UiSlice.ToastId | src/store/slices/uiSlice.ts:104 | The toast id is the clock's decimal digits followed by the random suffix, and nothing else. |
| UiSlice.ToastIdsDiffer | src/store/slices/uiSlice.ts:104 | With random suffixes of one length, two toast ids are equal exactly when both the milliseconds and the suffixes are. |
| UiSlice.RemoveToast | src/store/slices/uiSlice.ts:109-111 | Every toast with the id is dropped. Every other toast is kept as often as before and in its order. Nothing changes when no toast has the id, and no other field changes. |
| UiSlice.ClearToasts | src/store/slices/uiSlice.ts:113-115 | No toasts remain, and every other field is unchanged. |
| UiSlice.OpenModal | src/store/slices/uiSlice.ts:118-124 | Exactly one modal is appended, carrying the payload and the clock's milliseconds as its id. Earlier modals are kept. |
| UiSlice.ModalId | src/store/slices/uiSlice.ts:121 | The modal id is a non-empty run of decimal digits that reads back as the clock's milliseconds. |
| UiSlice.CloseModal | src/store/slices/uiSlice.ts:126-128 | Every modal with the id is closed. Every other modal is kept as often as before and in its order. No other field changes. |
| UiSlice.CloseAllModals | src/store/slices/uiSlice.ts:130-132 | No modals remain, and every other field is unchanged. |
| UiSlice.ToggleMobileMenu | src/store/slices/uiSlice.ts:135-137 | Negates the mobile-menu flag and changes nothing else. |
| UiSlice.SetMobileMenuOpen | src/store/slices/uiSlice.ts:139-141 | Sets the mobile-menu flag to the payload and changes nothing else. |
| UiSlice.ToggleSidebar | src/store/slices/uiSlice.ts:144-146 | Negates the sidebar flag and changes nothing else. |
| UiSlice.SetSidebarCollapsed | src/store/slices/uiSlice.ts:148-150 | Sets the sidebar flag to the payload and changes nothing else. |
| UiSlice.SetPageTransitioning | src/store/slices/uiSlice.ts:153-155 | Sets the page-transition flag and changes nothing else. |
| UiSlice.SetFormDirty | src/store/slices/uiSlice.ts:158-161 | Only `isDirty` of the named form changes. The other form and the rest of the state are untouched. |
| UiSlice.SetFormSubmitting | src/store/slices/uiSlice.ts:163-166 | Only `isSubmitting` of the named form changes. The other form is untouched. |
| UiSlice.SetFormErrors | src/store/slices/uiSlice.ts:168-171 | Only `errors` of the named form changes. The other form is untouched. |
| UiSlice.ClearFormErrors | src/store/slices/uiSlice.ts:173-175 | The named form's errors become empty, and nothing else changes. |
| UiSlice.ResetForm | src/store/slices/uiSlice.ts:177-183 | The named form returns to its initial pristine state. The other form is untouched. |
| UiSlice.RecordRenderTime | src/store/slices/uiSlice.ts:186-191 | Remembers the render time. It adds one slow render exactly when the time exceeds 16 ms, and changes nothing outside the performance block. |
| UiSlice.ResetPerformanceStats | src/store/slices/uiSlice.ts:193-198 | The performance block returns to its initial `{null, 0}`. |
| UiSlice.RemoveToastIdempotent | src/store/slices/uiSlice.ts:109-111 | Removing a toast id twice is removing it once. |
| UiSlice.RemoveAddedToast | src/store/slices/uiSlice.ts:101-111 | Removing the toast just added, when its id is new, restores the earlier state. |
| UiSlice.SameMillisecondModalsCloseTogether | src/store/slices/uiSlice.ts:118-128 | Two modals opened in the same millisecond share an id, and closing that id closes both. |
| UiSlice.ModalIdsDifferAcrossMilliseconds | src/store/slices/uiSlice.ts:121 | Modal ids are equal exactly when they were opened in the same millisecond. |
| UiSlice.ToggleTwiceIsIdentity | src/store/slices/uiSlice.ts:135-146 | Either toggle applied twice gives back the state. |
| UiSlice.RecordRenderTimesCounts | src/store/slices/uiSlice.ts:186-191 | A run of recorded render times raises `slowRenders` by the number above 16 ms and remembers the last time. The rest of the state is unchanged. |
| UiSlice.FormUpdatesCommute | src/store/slices/uiSlice.ts:157-183 | Any two form actions (dirty, submitting, errors, clearing errors, reset) on different forms commute. |
| Renders.SlowCount | src/store/slices/uiSlice.ts:188 | The count of slow renders never exceeds the number of renders. |
| AppSlice.Reduce | src/store/slices/appSlice.ts:34-82 | The slice reducer, plain cases and thunk cases together. Each setter stores its payload, and `clearError` nulls the error. `resetSubmissionStatus` gives idle with an empty message. Pending gives loading with the error and message cleared. Fulfilled gives succeeded or failed by `success`, stores the message, and on failure also stores it as the error. Rejected gives failed with the fixed message, and the thrown message (or the fixed error text) as the error. Each field changes only under its own actions. The submission cycle (reset, pending, fulfilled, rejected) touches only the status, the message and the error, and never `isLoading`. Resetting the submission status leaves the error alone. |
| AppSlice.SetLoading | src/store/slices/appSlice.ts:38-40 | Assigns `isLoading` only. |
| AppSlice.SetError | src/store/slices/appSlice.ts:41-43 | Assigns `error` only. |
| AppSlice.SetPortfolioData | src/store/slices/appSlice.ts:44-46 | Assigns `portfolioData` only. |
| AppSlice.SetContactFormData | src/store/slices/appSlice.ts:47-49 | Assigns `contactFormData` only. |
| AppSlice.SetHasLoadedInitially | src/store/slices/appSlice.ts:50-52 | Assigns `hasLoadedInitially` only. |
| AppSlice.ClearError | src/store/slices/appSlice.ts:53-55 | Sets error to null and changes nothing else. |
| AppSlice.ResetSubmissionStatus | src/store/slices/appSlice.ts:56-59 | Returns to the initial idle status with an empty message from any status, and changes no other field. |
| AppSlice.SubmitPending | src/store/slices/appSlice.ts:64-68 | Loading, with error and message cleared, and nothing else changed. |
| AppSlice.SubmitFulfilled | src/store/slices/appSlice.ts:69-75 | The status is succeeded exactly when the payload reports success, and failed otherwise. The message is copied. The error becomes the message only on failure. |
| AppSlice.SubmitRejected | src/store/slices/appSlice.ts:76-80 | The status is failed. The error is the thrown message, or the default text when that is missing or empty. The message is the fixed retry text. |
| AppSlice.StatusFollowsLastMove | src/store/slices/appSlice.ts:56-80 | After any run of actions, the submission status is decided by the last pending, fulfilled, rejected or reset action alone. With none, the status is unchanged. |
| AppSlice.QuietUntilOutcomeHolds | src/store/slices/appSlice.ts:56-80 | Every run of actions preserves "while idle or loading, the message is empty". |
| AppSlice.InitialIsQuiet | src/store/slices/appSlice.ts:15-23 | The initial state is loading and idle, with no error, and satisfies that invariant. |
| AppSlice.PendingThenOutcome | src/store/slices/appSlice.ts:64-75 | After pending then fulfilled, there is no error exactly when the submission succeeded. |
| ClientApi.CreateBooking | src/utils/api.ts:53-63 | Appends one booking with the input's fields. Its id is the clock's milliseconds, its status is pending and `createdAt = updatedAt = now`. Earlier bookings are unchanged. |
| ClientApi.FindBooking | src/utils/api.ts:113 | Finds the first booking whose id is the given one, or none when no booking has it. |
| ClientApi.UpdateBooking | src/utils/api.ts:113-122 | Without a match the answer is null and nothing changes. Otherwise only the first match is replaced, by its patched copy with `updatedAt` forced to now, and the length is unchanged. |
| ClientApi.DeleteBooking | src/utils/api.ts:134-138 | The answer is true exactly when a booking has the id. Then exactly the first match is removed and the rest are kept in order. Otherwise the store is unchanged. |
| ClientApi.DeleteCreatedBooking | src/utils/api.ts:134-138 | Deleting a booking just created, whose id is new, restores the store. |
| ClientApi.UpdateTouchesOnlyFirstMatch | src/utils/api.ts:113-122 | Every booking other than the first match stays in place, unchanged. |
| ClientApi.EmptyPatchChangesNothing | src/utils/api.ts:116-120 | Spreading an empty patch over a booking changes nothing. |
| ClientApi.Patched | src/utils/api.ts:116-120 | After the spread, every field the update names with a defined value holds that value, and every field it omits keeps the booking's value. |
| ClientApi.PatchesCompose | src/utils/api.ts:116-120 | Spreading one update and then another is spreading their merge, in which the later update's fields win. |
| ClientApi.PatchIdempotent | src/utils/api.ts:116-120 | Applying the same update twice gives the same booking as applying it once. |
| ClientApi.ValidateAdminCredentials | src/utils/api.ts:152 | True exactly for the pair `joeadmin` / `JoeAdmin2024!`. |
| ClientApi.GenerateAuthTokens | src/utils/api.ts:155-165 | The token decodes as the user plus the issue time. The refresh token is the token followed by `_refresh`, and the lifetime is 3600 seconds. |
| ClientApi.VerifyToken | src/utils/api.ts:167-179 | A user is returned exactly when the token decodes with a user and a non-zero issue time less than 3600000 ms before now. The user returned is the decoded one. |
| ClientApi.GeneratedTokenVerifies | src/utils/api.ts:158-172 | A token generated at a non-zero time verifies as the same user exactly while less than an hour has passed. |
| ClientApi.GetItem | src/utils/api.ts:181-189 | A stored value exists exactly when there is a window and the key is present. |
| ClientApi.StoreAuthTokens | src/utils/api.ts:191-197 | Stores the token, the refresh token and the expiry `now + expiresIn * 1000` as decimal text. Other keys are kept, and nothing happens without a window. |
| ClientApi.ClearAuthTokens | src/utils/api.ts:199-205 | The three keys are gone and every other key is kept. |
| ClientApi.IsTokenExpired | src/utils/api.ts:207-214 | Expired when no expiry is stored (or no window). For a stored decimal expiry, expired exactly when now is past it. |
| ClientApi.ReadableExpiry | src/utils/api.ts:207-214 | When the stored expiry reads as a number, the session is expired exactly when now is past that number. |
| ClientApi.UnreadableExpiryNeverExpires | src/utils/api.ts:207-214 | A stored, non-empty expiry that `parseInt` reads as NaN never counts as expired, because every comparison with NaN is false. |
| ClientApi.HexExpiry | src/utils/api.ts:207-214 | A stored expiry of `0x10` is read as 16, so the session is expired exactly when now is past 16. |
| ClientApi.BareHexPrefixExpiry | src/utils/api.ts:207-214 | A stored expiry of `0x` is NaN, so the session never counts as expired. |
| ClientApi.GetCurrentUser | src/utils/api.ts:216-226 | Null without a stored token. An expired session is cleared and gives null. Otherwise the answer is what the token verifies as. |
| ClientApi.SessionLastsOneHour | src/utils/api.ts:191-226 | After a login is stored at time t, the current user is reported exactly while now < t + 3600000. Past that the stored tokens are cleared. At exactly t + 3600000 the user is already null but the tokens are kept. |
| Performance.NewAnalyzer | src/utils/performanceUtils.ts:14-16 | A new profiler has no entries and satisfies the entry invariant. |
| Performance.StartMeasurement | src/utils/performanceUtils.ts:18-21 | The clock when profiling is enabled, 0 otherwise. |
| Performance.Lookup | src/utils/performanceUtils.ts:29 | Finds the entry of a component, or none exactly when no entry has that name. |
| Performance.FirstRender | src/utils/performanceUtils.ts:40-48 | The first entry has count 1, total = average = last = t, and one slow render exactly when t > 16. |
| Performance.AnotherRender | src/utils/performanceUtils.ts:31-39 | Adds one to the count and t to the total, and sets the last render to t. It adds a slow render exactly when t > 16. The average stays total / count. |
| Performance.EndMeasurement | src/utils/performanceUtils.ts:23-55 | Disabled, nothing changes. Otherwise a new name gets a first entry at the end, and a known name has only its own entry updated. The invariant (unique names, count ≥ 1, slow ≤ count, average = total / count) is kept. |
| Performance.GetComponentStats | src/utils/performanceUtils.ts:62-64 | The entry with that name, present exactly when one exists. |
| Performance.Reset | src/utils/performanceUtils.ts:66-68 | No entries remain. |
| Performance.GetReport | src/utils/performanceUtils.ts:57-60 | Every entry, each as often as stored, ordered by average time descending. Entries with equal averages keep their insertion order. |
| Performance.SlowerFirst | src/utils/performanceUtils.ts:59 | An entry may come before another exactly when the comparator `b.averageTime - a.averageTime` answers zero or less for the pair. |
| Performance.SuggestionsFor | src/utils/performanceUtils.ts:75-86 | One piece of advice per rule that fires, with the entry's own numbers, in the order the rules are checked. There are no duplicates and nothing else. "Consider optimizing" fires exactly when the average exceeds 30 ms. "Frequent slow renders" fires exactly when slow renders exceed a tenth of the count. "Renders frequently" fires exactly when the count exceeds 100. |
| Performance.SuggestionsForAll | src/utils/performanceUtils.ts:75-87 | A piece of advice is given for a list of entries exactly when it is the advice for some entry of it. |
| Performance.SuggestionsForAllAppend | src/utils/performanceUtils.ts:75-87 | The advice for two runs of entries is the first run's advice followed by the second's. |
| Performance.SuggestionsForOne | src/utils/performanceUtils.ts:75-87 | The advice for one entry alone is that entry's advice. |
| Performance.GetOptimizationSuggestions | src/utils/performanceUtils.ts:71-90 | The advice for the report's entries, taken in report order. A piece of advice is given exactly when it is the advice for some stored entry. |
| Performance.AdviceInReportOrder | src/utils/performanceUtils.ts:71-90 | Cut at any position of the report, the advice is the advice for the earlier entries followed by the advice for the later ones. The slowest entry's advice comes first. |
| Performance.AllSlowIsFrequentSlow | src/utils/performanceUtils.ts:80-82 | A component whose every render was slow draws the frequent-slow-renders advice. |
| Performance.MeasureAll | src/utils/performanceUtils.ts:23-49 | Any run of measurements keeps the entry invariant. |
| Performance.MeasureAllCounts | src/utils/performanceUtils.ts:29-49 | After a run of renders of a known component, its entry has gained the run's count, slow count and total time. Every other entry is unchanged. |
| Performance.FreshComponentCounts | src/utils/performanceUtils.ts:40-48 | From an empty profiler, a run of renders of one component leaves one entry whose counters are exactly the run's count, slow count and total. |

## Left out

- CORS headers, `console` logging, and the MongoDB connection lifecycle (`connect`, `close`, a failed connection) are left out: they are side effects without logic. The only store failures modelled are an invalid object id and a duplicate `_id`. Both answer 500.
- Field values are strings, integers, booleans, null, dates and object ids. Nested objects and arrays in a submitted body are not modelled.
- AdminApi.Matching: the search term is matched as a literal substring under ASCII case folding. MongoDB compiles it as a regular expression, so metacharacters in the term are not modelled.
- Documents.NewerFirst: documents whose `createdAt` is not a date all sort after the dated ones and tie with each other. MongoDB's full cross-type ordering is not modelled.
- Performance.GetReport: the source hands out the profiler's live entry objects (src/utils/performanceUtils.ts:57-64), which a later `endMeasurement` changes in place (lines 31-38), so a caller's copy changes under it and a caller's edit changes the profiler. The model returns the entries as values. Performance.GetComponentStats does the same.
- Documents.NewestFirst: MongoDB does not promise an order among equal `createdAt` values. The model keeps their natural order, which is one of the orders the database may return.
- Paging.OrDefault: the query's `page` and `limit` enter as the number `parseInt` read from them, or `None` for NaN. The step from query text to number is not modelled on this path. The numbers are non-negative: a negative `page` or `limit` gives the driver a negative skip or limit, which is not modelled.
- Text.ParseInt: only ASCII whitespace is skipped before the digits. JavaScript also skips U+00A0, U+FEFF, the other Unicode space separators and the line terminators U+2028 and U+2029. Such text could only reach it through a stored expiry.
- AppSlice.SetContactFormData: the contact form's fields are a map from strings to strings. Its boolean `wantsFreeConsultation` is not modelled as a boolean; the reducers only store the payload. Portfolio data is likewise a string map.
- Object ids are modelled through their 24-digit hexadecimal form. The 12-byte binary string form that the ObjectId constructor also accepts is not modelled.
- The clock is read once per call. Where the source calls `Date.now()` or `new Date()` twice in a row (the booking id and its two dates, `isTokenExpired` and `verifyToken` inside `getCurrentUser`, and the login token's `timestamp` and the `iat` jsonwebtoken reads in api/admin.js:23-27), both readings are taken as equal.
- `Math.random().toString(36)` and `btoa(JSON.stringify(…))` are parameters: the toast id suffix, and a `Codec` whose round trip is assumed where a property needs it. A decoded `user` is modelled as an admin user and a decoded `iat` as an integer; other JSON shapes are not modelled.
- Numbers outside the profiler are unbounded integers. JavaScript numbers are doubles: they print in exponent form from 10^21 (`(1e21).toString()` is `1e+21`, which `parseInt` reads as 1) and lose precision above 2^53. The clock, the stored expiry, ids, `page`, `limit` and `skip` are taken to stay below both.
- ClientApi.Patched: a required field (`name`, `email`, `projectType`, `budget`, `timeline`, `description`, `status`, `createdAt`, `updatedAt`) cannot be set to an explicit `undefined`, which a `Partial<SessionBooking>` allows and the spread copies over. Only the optional fields can be.
- ClientApi.CreateBooking, ClientApi.UpdateBooking: the source returns the very object held in `mockBookings` (src/utils/api.ts:61-63 and 116-122), so a caller's edit changes the store. The model returns the booking as a value.
- ClientApi.StoreAuthTokens: `expiresIn` and the clock are non-negative, so the expiry is printed without a sign.
- Modal `data` is a map from strings to strings. The toast action's and the modals' callbacks are not modelled.
- The contact thunk calls a mail service, `emailService.sendContactEmail`, that the service file does not export. The mail service is not part of this model; its result enters as the `{success, message}` payload of the fulfilled action, or as the thrown message of the rejected one.
- `getAllSessionBookings` and `src/lib/contactStorage.ts` are not part of this model: one reads placeholder storage through a dynamic import, the other is a placeholder.
- Performance: render times are exact reals, not IEEE doubles, so the "more than a tenth of the renders" rule uses exact arithmetic. The formatted advice strings (`toFixed(2)` and the wording) are represented by the `Suggestion` datatype. `NODE_ENV` enters as the `enabled` flag.
- The slow-render warning the profiler logs above 50 ms is left out: it is logging only.
