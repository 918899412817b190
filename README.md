# Action helpers of vue-skeleton-mvp, modelled in Dafny

`src/utils/utils.js` holds the helpers every asynchronous store action of the
application goes through:

- `formatErrorMessages` turns an error payload from the API into a list of
  translated messages (or `null` when there is no error);
- `buildPayloadPagination` turns a data table's pagination state and an
  optional search into the query object sent to a list endpoint;
- `handleError` and `buildSuccess` close an action: they clear the loading
  flag, record the error or success message in the store through `commit`,
  and settle the action's promise through `reject` or `resolve`;
- `compareVersion` orders two dot-separated version identifiers.

The model keeps JavaScript's own values (`JsValues.Value`: undefined, null,
booleans, integer numbers, NaN, strings, arrays, plain objects) so that
truthiness, property reads that throw on `null`/`undefined`, template-literal
string conversion and the `JSON.parse(JSON.stringify(_))` clone behave as in
the source. A thrown exception is an `Err` of a `Result`.

Files:

- `wrappers.dfy` — `Option` and `Result`.
- `js_values.dfy` — the value model; the JSON clone and its laws.
- `format_errors.dfy` — `formatErrorMessages` as a method with the push loop.
- `pagination.dfy` — `buildPayloadPagination` as a function returning the query object.
- `outcome.dfy` — the store slots, the action's promise and the log of calls
  (`ActionContext`), `handleError` and `buildSuccess` as methods on it, and the
  laws of the call log (exactly one settling call, store final before settling).
- `versions.dfy` — `compareVersion` over arrays with a `while` loop, proved
  against a reference order `OrderFrom`, and the ordering laws.

External collaborators are parameters: the translator `i18n.t` is a function
`t: string -> string`; `parseInt(_, 10)` is a function
`parse: string -> Option<int>` (None is NaN); `commit`, `resolve` and `reject`
are the methods of `ActionContext`.

Behaviour at the edges, as the code has it (the model follows the code
throughout):

- A single (non-array) error payload is interpolated itself, not its `msg`
  field, so a record `{msg: "X"}` gives the key `ns.[object Object]`.
- An `undefined` error payload makes `JSON.parse` throw (SyntaxError); an array
  element that is `null`, `undefined` or NaN makes `error.msg` throw
  (TypeError); an element without `msg` gives the key `ns.undefined`.
- `buildPayloadPagination` throws a TypeError when `pagination` itself is
  `null` or `undefined`; otherwise it never fails, for any `search`.
- `handleError` throws before committing anything when `error` is
  `null`/`undefined`, or when `error.response` is truthy but `data` or
  `data.errors` is missing.
- A NaN component in `compareVersion` is neither greater nor smaller than
  anything, so it compares as "equal"; this makes the induced equality
  non-transitive (`NaNBreaksTransitivity`).

## Model

| member | source | states |
|---|---|---|
| JsValues.CloneIsPlain | src/utils/utils.js:19 | the JSON round trip yields plain data (no undefined, no NaN) and keeps arrays as arrays of the same length |
| JsValues.ClonePlainIdentity | src/utils/utils.js:19 | on plain data the JSON round trip is the identity |
| JsValues.CloneIdempotent | src/utils/utils.js:19 | cloning a clone changes nothing |
| ErrorMessages.JsonRoundTrip | src/utils/utils.js:19 | the round trip throws a SyntaxError exactly on undefined; any other input comes back as its clone (NaN and undefined array elements become null, undefined properties are dropped), and plain input unchanged |
| ErrorMessages.FormatErrorMessages | src/utils/utils.js:15-34 | null gives null (and only null does); an array gives, in order, one translation of `ns + "." + element.msg` per element, or a TypeError when an element is null/undefined/NaN; any other value gives the one-element list of the translation of `ns + "." + value` |
| Pagination.Order | src/utils/utils.js:39 | the order is -1 or 1, and -1 exactly when `descending` is truthy |
| Pagination.BuildPayloadPagination | src/utils/utils.js:36-63 | fails (TypeError) exactly when `pagination` is null/undefined; the query has keys sort, order, page, limit, plus filter and fields exactly when `search` is truthy; sort, page, limit copy sortBy, page, rowsPerPage; filter and fields copy search.query and search.fields |
| Pagination.SearchOnlyAddsFilter | src/utils/utils.js:44-61 | the searched query is the unsearched one plus filter and fields |
| Pagination.FalsySearchIsNoSearch | src/utils/utils.js:44 | any falsy search gives the same result as no search |
| Pagination.UnfilteredExample | src/utils/utils.js:53-60 | page 2 of 25 rows by name ascending, no search, gives `{sort: "name", order: 1, page: 2, limit: 25}` |
| ActionOutcome.ActionContext.Commit | src/utils/utils.js:70-71 | a commit is logged and writes its slot of the store; the promise is unchanged |
| ActionOutcome.ActionContext.Resolve | src/utils/utils.js:86 | resolve is logged and settles a pending promise with the value; a settled promise stays as it was |
| ActionOutcome.ActionContext.Reject | src/utils/utils.js:72 | reject is logged and settles a pending promise with the reason; a settled promise stays as it was |
| ActionOutcome.ErrorMessage | src/utils/utils.js:67-69 | the message is `error.response.data.errors.msg` when `error.response` is truthy, the timeout sentinel otherwise; reading through null/undefined throws a TypeError |
| ActionOutcome.HandleError | src/utils/utils.js:65-73 | on a thrown extraction nothing changes; otherwise the calls are exactly commit(SHOW_LOADING, false), commit(ERROR, errMsg), reject(error); the store ends with loading false and the error message, success untouched; a pending promise is rejected with the original error |
| ActionOutcome.BuildSuccess | src/utils/utils.js:75-87 | the calls are commit(SHOW_LOADING, false), commit(SUCCESS, msg) only for a truthy msg, commit(ERROR, null), resolve(resolveParam) with resolveParam defaulting to undefined; the store ends with loading false, error null, success replaced only by a truthy msg |
| ActionOutcome.NoSettleIsPending | src/utils/utils.js:72 | a log without resolve or reject leaves the promise pending |
| ActionOutcome.HandleErrorSettlesOnce | src/utils/utils.js:70-72 | after handleError on a pending action the log has exactly one settling call, the last, rejecting with the original error, and the store is already final (loading false, error set) when it happens |
| ActionOutcome.SuccessSettlesOnce | src/utils/utils.js:81-86 | after buildSuccess on a pending action the log has exactly one settling call, the last, resolving with resolveParam, and the store is already final when it happens |
| ActionOutcome.SuccessCommitIffTruthy | src/utils/utils.js:81-85 | SUCCESS is committed exactly when msg is truthy; loading is cleared first and ERROR is cleared just before resolving |
| ActionOutcome.FailureNeverResolves | src/utils/utils.js:70-72 | handleError never calls resolve |
| Versions.Split | src/utils/utils.js:96-97 | splitting on "." yields at least one component and no component contains "." |
| Versions.SplitJoin | src/utils/utils.js:96-97 | joining the components with "." gives back the identifier |
| Versions.JoinSplit | src/utils/utils.js:96-97 | splitting dot-free components joined with "." gives back the components |
| Versions.ParseInt | src/utils/utils.js:100-101 | the in-place overwrite stores a number or NaN, namely what `parse` gives for the component's string form |
| Versions.OrderFrom | src/utils/utils.js:98-109 | the reference order is -1, 0 or 1 |
| Versions.CompareVersion | src/utils/utils.js:89-110 | false exactly when an argument is not a string; otherwise the VersionOrder of the two identifiers |
| Versions.OrderReflexive | src/utils/utils.js:99-109 | component sequences compare equal to themselves |
| Versions.OrderAntisymmetric | src/utils/utils.js:99-109 | swapping the arguments negates the result |
| Versions.FirstDifferenceDecides | src/utils/utils.js:99-108 | the leftmost shared index where one component is strictly greater or smaller decides 1 or -1 |
| Versions.NoDifferenceLengthDecides | src/utils/utils.js:109 | with no such index the component counts decide: equal gives 0, fewer gives -1 |
| Versions.OrderZeroIffEqual | src/utils/utils.js:99-109 | without NaN components, 0 exactly when the parsed sequences are equal |
| Versions.OrderTransitive | src/utils/utils.js:99-109 | without NaN components, the order is transitive |
| Versions.NaNBreaksTransitivity | src/utils/utils.js:100-107 | with a NaN component, 2 ~ NaN ~ 1 although 2 > 1 |
| Versions.VersionOrderReflexive | src/utils/utils.js:96-109 | compareVersion(v, v) == 0 for every string |
| Versions.VersionOrderAntisymmetric | src/utils/utils.js:96-109 | compareVersion(a, b) == -compareVersion(b, a) for all strings |
| Versions.MinorComparedAsInteger | src/utils/utils.js:99-107 | "1.9" < "1.10" under decimal parsing |
| Versions.ShorterIsSmaller | src/utils/utils.js:109 | "1.2" < "1.2.0" |

## Left out

- `getFormat` (date formatting through date-fns and the global locale id): a foreign library call over ambient global state.
- The translator `i18n.t` and locale loading: `t` is an uninterpreted parameter.
- `parseInt`: an uninterpreted parameter `parse`; leading-digit prefixes, whitespace and radix rules are not modelled.
- The store's mutation handlers in `@/store/mutation-types` are not part of this model: each mutation type is taken to assign its payload to one slot (loading, error, success).
- The callbacks `commit`, `resolve` and `reject` are assumed not to throw; promise scheduling (microtasks, awaiting callers) is not modelled, only the settled state and the order of calls.
- Numbers are integers or NaN: no fractions, infinities or negative zero; `String(n)` is the decimal form of an integer.
- Property reads see own properties of plain objects only: built-ins such as `length` or prototype methods of strings and arrays read as undefined.
- Object property insertion order is not modelled: objects are maps, so the key order of the query objects built by `buildPayloadPagination` (sort, order, page, limit, filter, fields) is not captured.
- Values have no functions, symbols, dates or cycles, so the JSON clone is modelled only for plain data plus undefined and NaN.
- `compareVersion`'s array elements are overwritten in place, as in the source, but the arrays are local and never escape, so no aliasing is modelled.
