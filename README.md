# React 19 playground: the logic under the demos, in Dafny

The playground is a set of teaching pages for the React 19 hooks. Under the
markup, each page has a small, deterministic state-transition or validation
function. This project models those functions and proves what the pages
promise about them:

- **Shopping cart** (`ShoppingCart`, cart.dfy).
  - The optimistic reducer over add, remove, updateQuantity and clear.
  - The totals function.
  - The three updaters that compute the confirmed cart once the simulated
    server answers.
- **Multi-step registration** (`MultiStepForm`, multistep.dfy). A step
  counter with per-step validation, a clamped "back", and completion once
  the terms are accepted.
- **Form actions** (`ContactForm`, `FileUploadForm`, `SearchForm`). Ordered
  checks over the submitted fields, a random failure, and (for search) a
  substring and category filter over a fixed article list.
- **Promise caches** (`ComplexUse`, `UseUtils`, `UtilsCache`). Module-level
  maps from key to promise: insert if absent, never evict, except for an
  explicit clear.
- **Performance page** (`Performance`). The slow result generator cut to 20
  entries, the `1..count` item list, and the stale flag.

Shared pieces:

- `Js` models the JavaScript built-ins the code relies on: `FormData.get`,
  falsiness, `toLowerCase`, `trim`, `includes`, and number-to-string.
- `Seqs` holds `filter` and the subsequence facts.
- `Promises` holds the opaque promise token and the facts about key logs.

How the model is shaped:

- Randomness, delays and clock-based ids become parameters. `serverFails`,
  `networkFails` and `uploadFails` stand for the `Math.random()` tests, and
  `optimisticId` and `serverCartId` for the generated cart ids. Each action
  is therefore a deterministic function of its inputs.
- Code that builds its result step by step is written as a method. This
  covers the error records of the form actions, the in-place array update
  of the cart's add branch, the reassigned `results` of the search, and the
  loop of `expensiveComputation`. Each method's contract ties it to the
  function or property that specifies it.
- The module-level caches are classes whose methods modify their map. A
  ghost log of the keys whose fetcher ran carries the "at most once"
  claims.

## Model

| member | source | states |
|---|---|---|
| ShoppingCart.CalculateCartTotals | src/use-cases/useOptimistic/ShoppingCartExample.tsx:69-73 | the two `reduce` folds equal the recursive sums: total is Σ price·quantity, itemCount is Σ quantity, and an empty list gives (0, 0) |
| ShoppingCart.FoldTotalIsSum | src/use-cases/useOptimistic/ShoppingCartExample.tsx:70 | the accumulator fold of price·quantity from any start value is that value plus the sum |
| ShoppingCart.FoldCountIsSum | src/use-cases/useOptimistic/ShoppingCartExample.tsx:71 | the accumulator fold of quantities is the start value plus the sum of quantities |
| ShoppingCart.SumAppend | src/use-cases/useOptimistic/ShoppingCartExample.tsx:69-73 | both totals are additive over concatenation, which is what makes appending a line raise them by that line |
| ShoppingCart.SumUpdate | src/use-cases/useOptimistic/ShoppingCartExample.tsx:69-73 | replacing one line changes each total by the new line's contribution minus the old one's |
| ShoppingCart.FindIndex | src/use-cases/useOptimistic/ShoppingCartExample.tsx:81 | `findIndex`: the result is the first index whose id matches, or -1 exactly when no line holds the product |
| ShoppingCart.WithTotals | src/use-cases/useOptimistic/ShoppingCartExample.tsx:119-120 | a state built from a list keeps that list and has totals consistent with it |
| ShoppingCart.Reduce | src/use-cases/useOptimistic/ShoppingCartExample.tsx:75-121 | every state the reducer returns has total and itemCount equal to the totals of its items |
| ShoppingCart.OptimisticCartReducer | src/use-cases/useOptimistic/ShoppingCartExample.tsx:75-121 | the reducer as written, with a per-case `newItems` and an in-place assignment into an array copy in the add branch, computes exactly the reducer function |
| ShoppingCart.AddExisting | src/use-cases/useOptimistic/ShoppingCartExample.tsx:81-89 | adding a product already in the cart keeps the length, raises its first line's quantity by 1, leaves every other line unchanged, raises itemCount by 1 and total by the price |
| ShoppingCart.AddNew | src/use-cases/useOptimistic/ShoppingCartExample.tsx:90-95 | adding a product not in the cart appends one line with quantity 1 and the placeholder id after the earlier lines; itemCount rises by 1 and total by the price |
| ShoppingCart.RemoveSpec | src/use-cases/useOptimistic/ShoppingCartExample.tsx:99-100 | after remove no line has the cart id, every other line is kept in order (an order-preserving subsequence of the right length), and a missing id changes nothing |
| ShoppingCart.UpdateQuantitySpec | src/use-cases/useOptimistic/ShoppingCartExample.tsx:103-109 | updateQuantity sets the target's quantity to max(0, q), keeps only positive quantities, removes the target when q ≤ 0, and keeps every other positive line in order, as many times as it occurred (the result is the ordered subsequence of all positive lines) |
| ShoppingCart.ClearSpec | src/use-cases/useOptimistic/ShoppingCartExample.tsx:111-113 | clear gives no items, total 0 and itemCount 0 |
| ShoppingCart.FilterKeepsDistinct | src/use-cases/useOptimistic/ShoppingCartExample.tsx:99-100 | filtering a list in which no product has two lines keeps that property |
| ShoppingCart.AddedItemsValid | src/use-cases/useOptimistic/ShoppingCartExample.tsx:81-95 | the add branch, with either cart id on the bumped line, keeps all quantities positive and one line per product |
| ShoppingCart.UpdatedItemsValid | src/use-cases/useOptimistic/ShoppingCartExample.tsx:103-108 | the quantity branch leaves only positive quantities and one line per product |
| ShoppingCart.ReducePreservesValid | src/use-cases/useOptimistic/ShoppingCartExample.tsx:75-121 | every reducer action keeps the cart invariant: consistent totals, positive quantities, one line per product |
| ShoppingCart.AddToCartUpdater | src/use-cases/useOptimistic/ShoppingCartExample.tsx:155-171 | the add updater as written, with an array copy and one in-place assignment, computes exactly the confirmed-add function |
| ShoppingCart.ConfirmAdd | src/use-cases/useOptimistic/ShoppingCartExample.tsx:155-171 | the confirmed add has consistent totals, one more line exactly when the product was not in the cart, and an item count one higher |
| ShoppingCart.ConfirmUpdateQuantity | src/use-cases/useOptimistic/ShoppingCartExample.tsx:193-201 | the confirmed quantity update, written with its own `map` and `filter`, has consistent totals and only positive quantities |
| ShoppingCart.ConfirmRemove | src/use-cases/useOptimistic/ShoppingCartExample.tsx:226-229 | the confirmed remove has consistent totals and holds exactly the earlier lines whose cart id differs |
| ShoppingCart.ConfirmPreservesValid | src/use-cases/useOptimistic/ShoppingCartExample.tsx:155-171 | the three confirmed-state updaters keep the cart invariant |
| ShoppingCart.ConfirmAddAgrees | src/use-cases/useOptimistic/ShoppingCartExample.tsx:46-50 | the confirmed add has the same lines as the projected add, line for line, apart from cart ids, each of which is the projected one or the server's |
| ShoppingCart.ConfirmAddExistingTakesServerId | src/use-cases/useOptimistic/ShoppingCartExample.tsx:159-165 | on an existing product the confirmed line takes the server's cart id while the projected line keeps its old one |
| ShoppingCart.ConfirmUpdateAndRemoveAgree | src/use-cases/useOptimistic/ShoppingCartExample.tsx:193-229 | the confirmed quantity update and the confirmed remove, written as the updaters write them, equal the reducer's updateQuantity and remove results for the same arguments |
| MultiStepForm.MultiStepFormAction | src/use-cases/useActionState/MultiStepForm.tsx:31-46 | next gives exactly the outcome of handleNextStep, prev that of handlePrevStep and complete that of handleComplete; any other action returns the previous state; no action clears isComplete; from a step ≥ 1 the step stays ≥ 1 and moves by at most one |
| MultiStepForm.HandleNextStep | src/use-cases/useActionState/MultiStepForm.tsx:48-88 | at step 1 an error for each empty name or an e-mail without `@`; at step 2 for each missing theme and language; each with its message; the section is stored only without errors; the error map is replaced; the step advances exactly when it is empty; other steps always advance |
| MultiStepForm.ValidEmailMeansAt | src/use-cases/useActionState/MultiStepForm.tsx:64 | the e-mail check passes exactly when the field is present and contains `@` |
| MultiStepForm.HandlePrevStep | src/use-cases/useActionState/MultiStepForm.tsx:90-98 | back lowers the step by one but never below 1, clears the errors, and keeps formData and isComplete |
| MultiStepForm.HandleComplete | src/use-cases/useActionState/MultiStepForm.tsx:100-126 | without accepted terms only the errors change (to the terms error); with them isComplete and completion.termsAccepted become true, earlier sections are kept, errors are cleared and the step is kept |
| ContactForm.ContactFormAction | src/use-cases/useActionState/ContactForm.tsx:18-63 | each field error is present exactly when its check fails, with its message; any error gives failure and the "fix the errors" message; valid input with a failing server gives no errors and the server message; success exactly when there are no errors and no failure, and then all fields are valid |
| ContactForm.ContactIgnoresPrevious | src/use-cases/useActionState/ContactForm.tsx:19 | the result does not depend on the previous state |
| SearchForm.SearchAction | src/use-cases/useFormStatus/SearchForm.tsx:37-82 | an empty trimmed query gives the initial state plus an error; a network failure keeps the previous results, query and count and sets the error; success gives the lowercased, trimmed query, no error, a count equal to the number of results, and the results of the filters; isSearching is always false |
| SearchForm.FilterArticles | src/use-cases/useFormStatus/SearchForm.tsx:63-73 | the results are an order-preserving subsequence of the list; each matches the query in title or description and, under a category other than `all`, the category up to case; every article meeting both conditions is included |
| FileUploadForm.ErrorOrder | src/use-cases/useFormStatus/FileUploadForm.tsx:21-52 | the checks run in order and the first failing one decides the error: missing or empty file, then size, then type, then the simulated upload failure |
| FileUploadForm.FileUploadAction | src/use-cases/useFormStatus/FileUploadForm.tsx:15-60 | success exactly when there is no error; every error is one of the four messages; a success copies the file's name and size, reports progress 100, and only happens for a size in 1..5242880 |
| FileUploadForm.SizeBoundary | src/use-cases/useFormStatus/FileUploadForm.tsx:28-33 | the limit is 5242880 bytes; a file of exactly that size passes the size check and one byte more fails it |
| FileUploadForm.SuccessSpec | src/use-cases/useFormStatus/FileUploadForm.tsx:54-59 | success exactly for a non-empty file within the limit, of an allowed type, with no upload failure; it then reports the file's name and size and progress 100, and every failure carries an error and no file fields |
| FileUploadForm.IgnoresPrevious | src/use-cases/useFormStatus/FileUploadForm.tsx:15-18 | the result does not depend on the previous state |
| ComplexUse.FetchCache.FetchWithCache | src/use-cases/use/ComplexUseExamples.tsx:25-40 | the fetcher runs exactly when the key is absent and its promise is stored; a present key leaves the map unchanged; the stored promise is returned; other keys' entries are kept |
| ComplexUse.FetchCache.ClearCache | src/use-cases/use/ComplexUseExamples.tsx:158-162 | the map and the fetch history are emptied |
| ComplexUse.FetchCache.Size | src/use-cases/use/ComplexUseExamples.tsx:228 | `cache.size` equals the number of distinct keys fetched since the last clear, each fetched once |
| ComplexUse.RepeatedRequest | src/use-cases/use/ComplexUseExamples.tsx:36-39 | two requests for one key return the same promise with at most one fetch |
| ComplexUse.ClearThenFetch | src/use-cases/use/ComplexUseExamples.tsx:158-160 | after a clear, a request runs its fetcher again and the cache holds only the new promise |
| ComplexUse.ToggleWidget | src/use-cases/use/ComplexUseExamples.tsx:242-248 | toggling flips the widget's membership and leaves every other widget's membership as it was |
| ComplexUse.ToggleWidgetSpec | src/use-cases/use/ComplexUseExamples.tsx:242-248 | an absent widget is appended at the end; a present one is removed everywhere, the rest being kept in order with all their copies (an ordered subsequence as long as the count of other entries) |
| ComplexUse.ToggleTwice | src/use-cases/use/ComplexUseExamples.tsx:242-248 | toggling an absent widget twice restores the list |
| UseUtils.UseUtilsModule.FetchDataWithLogger | src/use-cases/use/_utils.ts:20-32 | each call raises the counter by exactly one and returns a new promise; the cache is untouched |
| UseUtils.UseUtilsModule.CosNaWzorUseQuery | src/use-cases/use/_utils.ts:41-52 | insert if absent: the query function runs only for an absent key (raising the counter only when it is the logged fetch), the stored entry is returned, and no entry is removed or replaced |
| UseUtils.UseUtilsModule.FetchDataZCustomowymCachem | src/use-cases/use/_utils.ts:54-56 | the map holds exactly the fixed key; the first call raises the counter by one and later calls return the same promise with the counter unchanged; one logged fetch over the module's life |
| UseUtils.RepeatedCachedFetch | src/use-cases/use/_utils.ts:54-56 | two cached fetches return one promise and raise the counter by at most one |
| UtilsCache.CustomCache.CosNaWzorUseQuery | src/utils/fetchDataZCustomowymCachem.ts:6-15 | the query function is called exactly when the key is absent and its promise is stored; other keys keep their entries and none is removed; the stored entry is returned |
| UtilsCache.CustomCache.FetchDataZCustomowymCachem | src/utils/fetchDataZCustomowymCachem.ts:17-19 | the map holds only the fixed key; the logger is called only on the first request and the later ones return its promise |
| Promises.DistinctCardinality | src/use-cases/use/ComplexUseExamples.tsx:228 | a key log without repetitions has as many entries as distinct keys |
| Performance.ExpensiveComputation | src/routes/08-performance.tsx:9-25 | the loop and the slice compute the first 20 entries of the rows of complexity·1000 iterations, so never more than 20 |
| Performance.ExpensiveResult | src/routes/08-performance.tsx:24 | the result is the first entries of all rows, never more than 20, and exactly 20 once the rows reach that many |
| Performance.EmptyResults | src/routes/08-performance.tsx:11-19 | a value mentioning neither word, or a complexity ≤ 0, gives no results |
| Performance.ReactOnlyEntries | src/routes/08-performance.tsx:13-16 | with only `react` in the lowercased value there is one entry per iteration, the k-th being React result k |
| Performance.PerformanceOnlyEntries | src/routes/08-performance.tsx:13-19 | with only `performance`, the k-th entry is Performance result k |
| Performance.AlternatingEntries | src/routes/08-performance.tsx:13-19 | with both words the entries alternate, React i then Performance i |
| Performance.ReactOnlyResult | src/routes/08-performance.tsx:13-24 | with only `react`, the result has min(20, iterations) entries and entry k is React result k |
| Performance.AlternatingResult | src/routes/08-performance.tsx:13-24 | with both words, the result has min(20, 2·iterations) entries alternating React i and Performance i |
| Performance.EntriesEndWithValue | src/routes/08-performance.tsx:15-18 | every entry ends with the value as typed, not lowercased |
| Performance.ResultsEndWithValue | src/routes/08-performance.tsx:24 | the same holds for the returned results |
| Performance.GenerateItems | src/routes/08-performance.tsx:192 | an integer is in the generated list exactly when it lies in 1..count |
| Performance.GenerateItemsSpec | src/routes/08-performance.tsx:179 | the list has count entries (none for a count ≤ 0) in strictly increasing order |
| Performance.IsStale | src/routes/08-performance.tsx:118 | while the flag is off, the list the page computes from the deferred query and complexity is the list for the typed ones |
| Js.Trim | src/use-cases/useFormStatus/SearchForm.tsx:41 | `trim` returns a contiguous part of the input with no JavaScript whitespace at either end, and everything it cuts off before and after is whitespace |
| Js.TrimAllWhitespace | src/use-cases/useFormStatus/SearchForm.tsx:41-44 | the trimmed query is empty exactly when the input is made only of whitespace, so the guard refuses exactly those queries |
| Js.IncludesAt | src/use-cases/useFormStatus/SearchForm.tsx:64-65 | `includes` holds exactly when the substring occurs at some position |
| Js.IncludesChar | src/use-cases/useActionState/ContactForm.tsx:34 | including a one-character string is membership of that character |
| Js.NatToStringValue | src/routes/08-performance.tsx:15 | the decimal digits of `${i}` read back as i |
| Js.NatToStringInjective | src/routes/08-performance.tsx:15-18 | different iteration numbers give different entry labels |

## Left out

- JSX, routing, layout and styling are not modelled: they are presentation
  only.
- Hook machinery (`useOptimistic`, `useTransition`, `useActionState`,
  `useFormStatus`, `use`, Suspense, error boundaries) is not modelled. The
  optimistic overlay and its revert after a failed server call are done by
  React; only the reducer and the confirmed-state updaters are modelled.
- `setTimeout` delays are dropped. Each `Math.random()` failure test is a
  boolean parameter.
- The `Date.now()`/`Math.random()` cart ids are string parameters
  (`optimisticId`, `serverCartId`), so their uniqueness is not modelled.
- Promises are opaque tokens. Resolution and rejection do not affect any
  cache, so they are not modelled.
- `fetchData`, `fetchDataWithError` and the demo fetchers are not modelled
  beyond the promise they hand to a cache. `fetchDataWithError` throws
  inside a timer, which is event-loop behaviour.
- `console.log`, `performance.now` timing and the discarded
  `Math.random() * Math.random()` are dropped: none of them affects a
  result.
- The busy loop in the tabs demo is timing only and is not modelled.
- `toLowerCase` folds ASCII letters only, while the source folds all of
  Unicode. Lengths count characters, not UTF-16 code units. `trim` strips
  the JavaScript WhiteSpace and LineTerminator characters.
- Prices, quantities, sizes and complexities are unbounded integers rather
  than JavaScript doubles. Fractional or non-finite values from a form are
  not modelled.
- `FormData` is a map from field names to strings; a missing field is
  `None`. A `File` is its name, size and type.
- SearchForm.SearchAction requires the `query` field to be present: the
  source calls `toLowerCase` on it without a guard, so a missing field
  throws.
- The reducer's `default` case is not modelled: every action of the
  `CartAction` type is one of the four handled cases.
- `generateItemsBlocking` builds the same list as `generateItems`, so
  `Performance.GenerateItems` stands for both. The state setters around
  them are not part of this model.
- `toLocaleString` formatting, the ref-cleanup demo (DOM and ref glue) and
  the document-metadata page (a constant string table) are not part of
  this model.
- UtilsCache.CustomCache.FetchDataZCustomowymCachem: the counter of
  `src/utils/fetchDataWithLogger.ts` lives in another module. The method
  reports whether the logger was called rather than tracking that counter.
