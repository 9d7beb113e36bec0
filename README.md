# Clariolane kitchen: the dashboard's rules, modelled in Dafny

Clariolane kitchen is an admin dashboard for reading-comprehension content and
for user feedback. Between its React views and its remote calls sits a thin
layer of exact rules, and this project models that layer and proves its
properties:

- the Passage and Question schemas and the Difficulty enum;
- the set-like list toggle used by the feedback filters and by the passage
  tags;
- the page state of the feedback list and of the passage list, the
  Previous/Next clamps, and the "Showing X to Y of N" range of the passage
  pager;
- the passage form's submit step, which sanitises every text field and then
  creates or updates the passage;
- the query string of the feedback list request, built with
  `URLSearchParams` and serialised as application/x-www-form-urlencoded
  (section 5.2 of the WHATWG URL Standard);
- the sign-in allow-list and the session handler that enforces it.

Modules follow the source files:

| module | file | models |
|---|---|---|
| `Schemas` | schemas.dfy | src/domain/schemas.ts |
| `FeedbackService` | feedback_service.dfy | src/services/feedbackService.ts |
| `FeedbacksPage` | feedbacks_page.dfy | src/routes/dashboard/feedbacks.tsx |
| `Paging` | paging.dfy | src/components/passage/list/PassagePagination.tsx and the clamps shared with the feedback page |
| `PassagesHook` | passages_hook.dfy | src/hooks/usePassages.ts |
| `PassageFormHook` | passage_form.dfy | src/hooks/usePassageForm.ts |
| `GeneralInfo` | general_info.dfy | src/components/passage/form/PassageGeneralInfo.tsx |
| `Auth` | auth.dfy | src/context/AuthContext.tsx |

Four shared modules support them:

- `Lists`: the JavaScript `filter` and the toggle.
- `Text`: `split`, `join`, `trim` and `Number.prototype.toString` for
  integers below 10^21 in magnitude.
- `FormUrl`: the URL-encoded serializer, its parser, and a
  `URLSearchParams` class.
- `Wrappers`: `Option` and `Result`.

Several functions of the source become parameters of the model:

| in the source | in the model |
|---|---|
| zod's UUID check | `isUuid: string -> bool` |
| DOMPurify's `sanitize` | `sanitize: string -> string` |
| `JSON.parse` | `jsonParse`, which returns `None` where the call throws |
| `crypto.randomUUID()` | a `newId` argument |
| `window.confirm` | a `confirmed` argument |
| the fetched `totalPages` and `isLoading` | arguments of the button methods |

Outside calls, the identity provider's sign-out and the browser's
access-denied `alert`, are recorded as effects in a log, and the requests the service would send are returned as
values.

Where the code and the design intent differ, the model follows the code:

- Only the status and category toggles reset the feedback page to 1. The two
  sort buttons (src/routes/dashboard/feedbacks.tsx:167-169, 179-181) keep the
  page, so `SortOldestFirst` and `SortNewestFirst` promise that `page` is
  unchanged.
- Toggling the same value twice gives back the original list only when the
  value was absent, or occurred once as the last element
  (`Lists.ToggleTwiceRestoresIffLast`). Otherwise it comes back at the end of
  the list: `Lists.ToggleTwiceReorders` shows `[1, 2]` becoming `[2, 1]`.
- The page's derivation would read an empty sorting state as ascending, not
  as the service's `desc` default (`FeedbacksPage.EmptySortingIsAscending`).
  The page never reaches that state: only the two sort buttons set the
  sorting, and `FeedbacksPage.FeedbacksView.Valid` keeps it one of their two
  values.
- When the server reports zero pages, the feedback page's Next button is
  enabled on page 1 and moves to page 0. See `FeedbacksPage.NextOnZeroPages`
  and `FeedbacksPage.NextOnZeroPagesFromStart`.
  The passage list cannot do this, because its `totalPages` falls back to 1.
- With `VITE_ALLOWED_EMAILS` unset, the allow-list is `[""]`. Every user who
  has an email is then signed out, and only users without one get in. See
  `Auth.UnsetAllowList` and `Auth.TrailingCommaAdmitsNoEmail`.
- A JSON allow-list that fails to parse is empty, and an empty list admits
  everyone. See `Auth.ParseFailureAdmitsEveryone`.

## Model

| member | source | states |
|---|---|---|
| Schemas.ParseDifficulty | src/domain/schemas.ts:3 | a string is accepted exactly when it is `Easy`, `Medium` or `Hard`, and the accepted value names that string |
| Schemas.DifficultyRoundTrip | src/domain/schemas.ts:3 | every Difficulty's name parses back to that Difficulty |
| Schemas.OptionIssuesEmpty | src/domain/schemas.ts:9-10 | the options produce no issue exactly when every option is non-empty |
| Schemas.QuestionIssuesEmpty | src/domain/schemas.ts:6-13 | a question has no issue exactly when it is valid: UUID id, non-empty text, at least 2 non-empty options, and an integer `correctIndex` of at least 0 |
| Schemas.QuestionListIssuesEmpty | src/domain/schemas.ts:22 | a question list has no issue exactly when every question in it is valid |
| Schemas.PassageIssuesEmpty | src/domain/schemas.ts:16-23 | a passage has no issue exactly when it is valid: UUID id, non-empty title, text of at least 10 characters, a Difficulty, and only valid questions |
| Schemas.CorrectIndexUnbounded | src/domain/schemas.ts:12 | a valid question may point its `correctIndex` past its last option |
| Schemas.FractionalIndexRejected | src/domain/schemas.ts:12 | every fractional `correctIndex` makes the question invalid and produces the not-an-integer issue |
| Schemas.EmptyListsAccepted | src/domain/schemas.ts:20-22 | a passage with no tags and no questions can be valid |
| Lists.RemoveSpec | src/routes/dashboard/feedbacks.tsx:49 | filtering a value out removes every occurrence of it, keeps the other elements in order (as a subsequence) with their multiplicities, and keeps membership of every other value |
| Lists.Toggle | src/routes/dashboard/feedbacks.tsx:47-51 | after a toggle the value is in the list exactly when it was not in it before |
| Lists.ToggleMembership | src/routes/dashboard/feedbacks.tsx:47-51 | a toggle does not change the membership of any other value |
| Lists.TogglePresent | src/routes/dashboard/feedbacks.tsx:48-49 | toggling a present value removes all its occurrences and keeps the rest in order |
| Lists.ToggleAbsent | src/routes/dashboard/feedbacks.tsx:50 | toggling an absent value appends it at the end and leaves the existing entries unchanged |
| Lists.ToggleKeepsNoDup | src/routes/dashboard/feedbacks.tsx:46-62 | a duplicate-free list stays duplicate-free after a toggle |
| Lists.ToggleTwiceAbsent | src/routes/dashboard/feedbacks.tsx:46-62 | toggling an absent value twice restores the list exactly |
| Lists.ToggleTwicePresent | src/routes/dashboard/feedbacks.tsx:46-62 | toggling a present value twice in a duplicate-free list keeps the same elements but moves the value to the end |
| Lists.ToggleTwiceRestoresIffLast | src/routes/dashboard/feedbacks.tsx:46-62 | in a duplicate-free list holding the value, two toggles restore the list exactly when the value is the last element |
| Lists.ToggleTwiceReorders | src/routes/dashboard/feedbacks.tsx:46-62 | toggling 1 twice in `[1, 2]` gives `[2, 1]` |
| FeedbacksPage.SortColumn | src/routes/dashboard/feedbacks.tsx:34-42 | the column sent is never empty: it is the first sort entry's id, or `created_at` when there is no entry or its id is empty |
| FeedbacksPage.SortOrderOf | src/routes/dashboard/feedbacks.tsx:35 | the order is descending exactly when the first sort entry asks for descending |
| FeedbacksPage.FilterArg | src/routes/dashboard/feedbacks.tsx:40-41 | an empty selection is passed as undefined and a non-empty one unchanged; either way the service sees the selection |
| FeedbacksPage.PageQueryValues | src/routes/dashboard/feedbacks.tsx:37-44 | the request carries the page and limit, every selected status and category in selection order, the sort column and order, and no `is_read` |
| FeedbacksPage.InitialQuery | src/routes/dashboard/feedbacks.tsx:20-32 | the first request asks for page 1 of 10, `created_at`, `desc`, with no filter |
| FeedbacksPage.FirstRequest | src/routes/dashboard/feedbacks.tsx:20-44 | a freshly constructed page's `Query()` is that first request: page 1 of 10, `created_at`, `desc`, with no filter |
| FeedbacksPage.EmptySortingIsAscending | src/routes/dashboard/feedbacks.tsx:34-35 | an empty sorting would ask for `created_at` ascending, unlike the service's default order; the page's own state never holds an empty sorting |
| FeedbacksPage.BadgeShownIffPositive | src/routes/dashboard/feedbacks.tsx:81-84 | the filter badge is shown exactly when its count, the number of selected statuses plus categories, is positive |
| FeedbacksPage.FeedbacksView.constructor | src/routes/dashboard/feedbacks.tsx:20-32 | the page starts on page 1 with limit 10, the list view, hidden filters, no selection and `created_at` descending |
| FeedbacksPage.FeedbacksView.ToggleStatus | src/routes/dashboard/feedbacks.tsx:46-53 | the status flips in the selection, the page goes back to 1, and the rest of the state is unchanged; a duplicate-free selection stays duplicate-free |
| FeedbacksPage.FeedbacksView.ToggleCategory | src/routes/dashboard/feedbacks.tsx:55-62 | the category flips in the selection, the page goes back to 1, and the rest of the state is unchanged; a duplicate-free selection stays duplicate-free |
| FeedbacksPage.FeedbacksView.SortOldestFirst | src/routes/dashboard/feedbacks.tsx:167-169 | the sorting becomes `created_at` ascending and the page is kept |
| FeedbacksPage.FeedbacksView.SortNewestFirst | src/routes/dashboard/feedbacks.tsx:179-181 | the sorting becomes `created_at` descending and the page is kept |
| FeedbacksPage.FeedbacksView.ToggleFilters | src/routes/dashboard/feedbacks.tsx:71 | the filter panel's visibility flips and nothing else changes |
| FeedbacksPage.FeedbacksView.SetView | src/routes/dashboard/feedbacks.tsx:88-98 | the view switches and nothing else changes |
| FeedbacksPage.FeedbacksView.ClickPrevious | src/routes/dashboard/feedbacks.tsx:206-209 | when shown and enabled, the page becomes `max(1, page - 1)`; it never drops below 1 from page 1 or later |
| FeedbacksPage.FeedbacksView.ClickNext | src/routes/dashboard/feedbacks.tsx:212-217 | when shown and enabled, the page becomes `min(totalPages, page + 1)`; a page between 1 and `totalPages` stays in that range |
| FeedbacksPage.NextOnZeroPages | src/routes/dashboard/feedbacks.tsx:214-217 | with zero reported pages, the Next button's disabled condition is false on page 1 and its target is page 0 |
| FeedbacksPage.NextOnZeroPagesFromStart | src/routes/dashboard/feedbacks.tsx:212-217 | a freshly opened page that receives zero pages and is not loading is on page 0 after one Next click |
| Paging.PrevPage | src/components/passage/list/PassagePagination.tsx:38 | the target is `max(1, page - 1)` for every page: at least 1 and at least one page back, and either 1 or one page back; it equals the page only on page 1 |
| Paging.NextPage | src/components/passage/list/PassagePagination.tsx:50 | the target is `min(totalPages, page + 1)` for every page: at most `totalPages` and at most one page on, and either `totalPages` or one page on; it equals the page only on the last page |
| Paging.ClampsStayInRange | src/components/passage/list/PassagePagination.tsx:38-51 | from a page in range, both buttons lead to a page in range |
| Paging.PassagePagination | src/components/passage/list/PassagePagination.tsx:18-28 | nothing is shown exactly when there are no results, and the last shown item never exceeds the total |
| Paging.DisabledMeansNoMove | src/components/passage/list/PassagePagination.tsx:38-51 | each button is disabled exactly when its target is the current page |
| Paging.ShownRange | src/components/passage/list/PassagePagination.tsx:26-28 | on a page that starts inside the results, the range is non-empty, starts at item 1 or later, ends within the total, and holds at most `pageSize` items |
| Paging.PagesCoverResults | src/components/passage/list/PassagePagination.tsx:26-28 | with consistent totals, the first page starts at item 1, the last page ends at the last item, and each page starts right after the previous one ends |
| PassagesHook.PassagesOf | src/hooks/usePassages.ts:17 | the rows are empty before the first response, and otherwise the response's rows |
| PassagesHook.TotalOf | src/hooks/usePassages.ts:19 | the total is 0 without a response, and otherwise the reported total |
| PassagesHook.TotalPagesOf | src/hooks/usePassages.ts:20 | the page count is 1 without a response or for a reported 0, and otherwise the reported count; it is at least 1 for any non-negative report |
| PassagesHook.PassageList.constructor | src/hooks/usePassages.ts:4-5 | the list starts on page 1, the page size defaults to 10, and no delete has been issued |
| PassagesHook.PassageList.HandleDelete | src/hooks/usePassages.ts:11-15 | a delete is issued only when confirmed, and then `deletingId` names it; the page is unchanged |
| PassagesHook.PassageList.ClickPrevious | src/components/passage/list/PassagePagination.tsx:38-39 | the page moves to the pager's Previous target unless the pager is hidden or the button disabled, and never drops below 1 |
| PassagesHook.PassageList.ClickNext | src/hooks/usePassages.ts:20 | the page moves to the pager's Next target unless the pager is hidden or the button disabled, and it never drops below 1 thanks to the `totalPages` fallback |
| PassagesHook.NoResponseNoPager | src/hooks/usePassages.ts:19 | before the first response the pager is hidden |
| PassageFormHook.DefaultValuesRejected | src/hooks/usePassageForm.ts:19-26 | the default values are not a valid passage: they produce the title issue and the text-length issue |
| PassageFormHook.NewQuestionRejected | src/components/passage/form/QuestionList.tsx:33-38 | a newly added question is not valid and produces the question-text issue |
| PassageFormHook.Clean | src/hooks/usePassageForm.ts:74-83 | sanitize is applied to the title, the text, each question's text and each option; ids, tags, difficulty, every `correctIndex` and all counts are unchanged |
| PassageFormHook.CleanIdentity | src/hooks/usePassageForm.ts:74-83 | with a sanitiser that changes nothing, the submitted passage is the form's passage |
| PassageFormHook.CleanIdempotent | src/hooks/usePassageForm.ts:74-83 | with an idempotent sanitiser, cleaning twice equals cleaning once |
| PassageFormHook.CleanKeepsValidity | src/hooks/usePassageForm.ts:74-83 | a valid passage stays valid when the sanitiser never shortens a string |
| PassageFormHook.CleanCanInvalidate | src/hooks/usePassageForm.ts:74-83 | a sanitiser that empties strings turns every valid passage into an invalid one |
| PassageFormHook.PassageForm.constructor | src/hooks/usePassageForm.ts:14-27 | the form starts from the default values with no mutation pending |
| PassageFormHook.PassageForm.LoadFetched | src/hooks/usePassageForm.ts:44-49 | the form takes the fetched passage only in edit mode and once it has arrived |
| PassageFormHook.PassageForm.SetTags | src/hooks/usePassageForm.ts:58-69 | only the tags change |
| PassageFormHook.PassageForm.HandleTagToggle | src/hooks/usePassageForm.ts:55-71 | only the tags change, by the toggle: the tag is selected exactly when it was not, and duplicate-free tags stay duplicate-free |
| PassageFormHook.PassageForm.OnSubmit | src/hooks/usePassageForm.ts:73-90 | exactly one mutation is issued with the cleaned passage: an update when the id is non-empty, a create otherwise; afterwards the form is submitting |
| PassageFormHook.PassageForm.Submit | src/components/passage/PassageForm.tsx:41 | the form's own values reach `onSubmit` only when they pass the passage schema: a valid form issues the one cleaned mutation, an invalid one changes nothing |
| PassageFormHook.SubmitDefaults | src/hooks/usePassageForm.ts:17-27 | a new form submitted with its default values issues no mutation |
| GeneralInfo.DifficultyOptionsMatchEnum | src/components/passage/form/PassageGeneralInfo.tsx:26-30 | the options are the Difficulty enum in order, each labelled with its own value, and every value passes the enum check |
| GeneralInfo.ToggledTags | src/components/passage/form/PassageGeneralInfo.tsx:37 | an undefined selection toggles as the empty list, giving just the tag |
| GeneralInfo.ToggleFlipsSelection | src/components/passage/form/PassageGeneralInfo.tsx:36-46 | a click flips the highlight of the clicked tag and of no other |
| GeneralInfo.HandleTagToggle | src/components/passage/form/PassageGeneralInfo.tsx:36-46 | the form's tags become the toggled list; no mutation is issued and the form's pending flags are unchanged |
| FeedbackService.FixedParamsShape | src/services/feedbackService.ts:10-19 | the parameters start with page, limit, sortBy and sortOrder, with `created_at` and `desc` as defaults |
| FeedbackService.AppendEach | src/services/feedbackService.ts:21-27 | the values are appended one parameter each, in input order |
| FeedbackService.FetchFeedbacks | src/services/feedbackService.ts:5-38 | the step-by-step build gives a GET of `feedback?` followed by the serialised parameter list, with no body |
| FeedbackService.FeedbackParamsNames | src/services/feedbackService.ts:14-31 | the keys are the fixed four, then one `status` per status, one `category` per category, then `is_read` when given |
| FeedbackService.FeedbackParamsValues | src/services/feedbackService.ts:10-31 | each key carries its value: the page and limit numerals, the sort with its defaults, the statuses and categories in input order (none for an absent or empty list), and `is_read` as `true` or `false` only when given |
| FeedbackService.FeedbackParamsRoundTrip | src/services/feedbackService.ts:14-34 | for a sort column that needs no encoding, parsing the query string gives back the parameter list |
| FeedbackService.UnreadCountParams | src/tanstack/queries/feedbackQueries.ts:73-81 | the unread counter's query is page 1, limit 1, `created_at`, `desc`, `is_read=false` |
| FeedbackService.UpdateBodies | src/services/feedbackService.ts:44-62 | both updates PUT to `feedback` with the id; a status update carries the status and no `is_read`, and marking as read carries `is_read: true` and no status |
| FeedbackService.FetchFeedbackByIdQuery | src/services/feedbackService.ts:64-70 | for an id that needs no encoding, the query reads back as the single pair `id` |
| FormUrl.Encode | src/services/feedbackService.ts:34 | an encoded name or value contains only unreserved characters, `+` and percent escapes, so never `&` or `=` |
| FormUrl.EncodeUnreserved | src/services/feedbackService.ts:34 | encoding leaves a string of unreserved characters unchanged |
| FormUrl.SerializeRoundTrip | src/services/feedbackService.ts:34 | splitting a serialised list at `&` and `=` gives back the encoded pairs |
| FormUrl.GetAllRepeated | src/services/feedbackService.ts:21-27 | repeated pairs carry their values in order under their name, and nothing under any other name |
| FormUrl.SearchParams.Append | src/services/feedbackService.ts:22 | one pair is added at the end |
| Text.TrimSpec | src/context/AuthContext.tsx:32 | trimming removes whitespace and line terminators, and only those, from both ends |
| Text.TrimIdempotent | src/context/AuthContext.tsx:32 | trimming twice is trimming once |
| Text.IntToDecimalRoundTrip | src/services/feedbackService.ts:15-16 | the decimal numeral of an integer parses back to that integer |
| Auth.AllowListSource | src/context/AuthContext.tsx:26 | an unset variable reads as the empty string |
| Auth.ParseAllowList | src/context/AuthContext.tsx:28-36 | a string starting with `[` is JSON-parsed, and a failed parse gives the empty list; otherwise the list has one entry per comma plus one |
| Auth.CommaListEntries | src/context/AuthContext.tsx:32 | on the comma path entry k is the trimmed k-th comma piece of the string, so the list is never empty and every entry is trimmed and comma-free |
| Auth.AllowListRoundTrip | src/context/AuthContext.tsx:30-32 | a comma-joined list of trimmed, comma-free emails that does not start with `[` reads back as exactly those emails, in order |
| Auth.UnsetAllowList | src/context/AuthContext.tsx:26-32 | an unset variable gives `[""]`, which admits a user exactly when the user has no email |
| Auth.TrailingCommaAdmitsNoEmail | src/context/AuthContext.tsx:32 | a trailing comma admits users without an email |
| Auth.ParseFailureAdmitsEveryone | src/context/AuthContext.tsx:33-36 | a JSON list that fails to parse is empty and admits everyone |
| Auth.AuthProvider.constructor | src/context/AuthContext.tsx:22-36 | the provider starts with no user or session, loading, and the parsed allow-list |
| Auth.AuthProvider.HandleSession | src/context/AuthContext.tsx:55-74 | an admitted user sets session and user; a rejected one is signed out remotely, cleared and alerted; no user clears both; afterwards a held user is always admitted |
| Auth.AuthProvider.OnSessionEvent | src/context/AuthContext.tsx:40-50 | after a session event loading is over, a user is held exactly when the session's user is admitted, and a rejected user alone causes the remote sign-out and the access-denied alert |
| Auth.AuthProvider.SignOut | src/context/AuthContext.tsx:86-90 | the user is signed out remotely and user and session are cleared |
| Auth.UseAuth | src/context/AuthContext.tsx:100-106 | outside a provider the result is the error "useAuth must be used within an AuthProvider"; inside it is the provider's value |
| Auth.ContextUserAdmitted | src/context/AuthContext.tsx:57-68 | under the provider's invariant, no component sees a user the allow-list rejects |

## Left out

- Remote calls: `supabase.functions.invoke`, `supabase.auth.getSession`, `onAuthStateChange`, `signInWithOAuth` and their errors. They are I/O. The model builds the requests and records sign-outs and alerts as effects.
- The subscription clean-up and `signInWithGoogle`. They only forward to the identity provider.
- React Query: caching, query keys, `placeholderData`, invalidation and each mutation's pending/settled lifecycle. This is library behaviour. `OnSubmit` only marks a mutation pending, and nothing models its completion.
- The unread-first `sort` in src/tanstack/queries/feedbackQueries.ts:31. Its comparator ignores its second argument, so the order depends on the engine's sort algorithm.
- DOMPurify. `sanitize` is an uninterpreted function argument.
- `JSON.parse`. It is an argument; a JSON value that is not a list of strings is not modelled.
- `crypto.randomUUID`, `window.confirm` and `alert`. They are foreign calls and become arguments or effects.
- The `console.warn` logging. It is a side channel with no effect on state.
- zod's UUID regular expression. It is an argument.
- zod's exact issue order, issue codes and default messages for the non-custom checks. The model keeps the source's own messages and one issue per failed check.
- `Schemas.ValidQuestion`: lengths count code points, not UTF-16 code units as JavaScript does, so the two differ on characters outside the Basic Multilingual Plane. The same holds for `Schemas.ValidPassage`.
- NaN and infinite numbers in `correctIndex`, `total` and `totalPages`. The model uses exact reals and integers.
- `PassageFormHook.PassageForm.HandleTagToggle`: the `shouldValidate`, `shouldDirty` and `shouldTouch` flags of `setValue` are not modelled, because they only drive react-hook-form's validation display.
- Text.IntToDecimal: models `Number.prototype.toString` only for integers printed in plain decimal. JavaScript switches to exponent form from 10^21 on and loses exactness above 2^53; the page and limit sent are small integers.
- Async interleaving in `handleSession`. It awaits the remote sign-out before clearing state, and `setLoading(false)` may run first; `Auth.AuthProvider.OnSessionEvent` runs the two in sequence.
- `QuestionList`'s field-array append and remove. These are react-hook-form internals; only the new-question template is modelled.
- The useFetchPassage refetch in the form's effect. It is a remote call.
- `isLoadingData`, `isError`, `error` and `isDeleting`. They are query states passed through unchanged.
- Rendering: JSX, CSS classes, routing and the mock tag service.
- `FormUrl.ParseQuery` splits the query at `&` and `=` but does not percent-decode. The round-trip lemmas therefore compare against the encoded pairs, and they are exact only for values that need no encoding.
