# Custom global search endpoint — a Dafny model

`CustomGlobalSearchApi` is a SugarCRM REST endpoint (`customGlobalSearch`)
that lets a caller without a Sugar session run the platform's global search.
A request handled by `customGlobalSearchMethod` goes through these steps:

1. The credential gate. It needs an `Authorization: Bearer <token>` header.
   The token must pass `password_verify` against a hash configured in the
   environment. The administrator user named in the environment must exist.
2. Elevation. That administrator becomes both the process-wide current user
   and the user of the request's service object.
3. The module-list check. The `module_list` argument is required; blank text
   and "0" count as missing.
4. Argument normalisation: `q` (default ""), `max_num` (an `(int)` cast,
   default 20), `offset` (an `(int)` cast, default 0), `highlights` (a
   `(bool)` cast, default true) and `sort` (kept only when it is an array).
   The module list is split on commas.
5. The search. The `GlobalSearch` engine is obtained and the query is built
   and run.
6. The response: a pagination cursor (`next_offset`, -1 on the last page),
   the hit total, the query time, and one formatted record per hit. Each
   record carries `_score` when the score is truthy, and `_highlights` when
   the hit has highlights. `_highlights` is filtered to the fields set in
   the record.

Every exception inside the `try` block becomes `SugarApiExceptionSearchRuntime`.
That includes the unavailability exception raised by `getSearchEngine`.

The project has four modules:

- `Php` (php.dfy) covers the PHP semantics the endpoint relies on:
  - truthiness (`empty`, `(bool)`), `isset` and `is_array`;
  - `trim` and `explode` on a one-character separator, with `implode`,
    which the endpoint does not call, as the partner of the split round trip;
  - the `(int)` cast of a string. A value beyond the 64-bit range is capped
    to the nearest bound, and a value beyond the range of doubles gives 0.
- `Pagination` (pagination.dfy) covers `getNextOffset` and the walk a client
  makes by following the cursor.
- `ResultFormatter` (formatter.dfy) covers `formatResults` and
  `formatBeanFromResult`, with the bean's e-mail fix-up.
- `GlobalSearchApi` (global_search_api.dfy) covers the endpoint itself.
  - The outside services are fields of an `Env` value:
    - `password_verify` against the configured hash;
    - the administrator lookup;
    - the search engine with its query runner;
    - the framework's `formatBean`.
  - `$api->user` and `global $current_user` are fields of two classes that
    the main method updates.
  - A trace of outside calls is returned, so the contracts can say which
    services a request reaches.

Where the code and the endpoint's documented behaviour differ, the model
follows the code:

- The unavailability exception that `getSearchEngine` throws is caught by
  the surrounding `catch (\Exception $e)`. It reaches the caller as a
  runtime error. `CustomGlobalSearchMethod` proves that `SearchUnavailable`
  is never the outcome.
- A `module_list` given as an array would reach `trim` before the
  `is_array` test, so the array branch of line 73 is not reachable with a
  list. The model takes the module list as a string.
- The highlight filter uses `isset`. A highlighted field whose value in the
  record is null is therefore dropped. A `_score` just added counts as a
  set field.

## Model

| member | source | states |
|---|---|---|
| Php.FalsyValues | CustomGlobalSearchApi.php:129 | PHP's boolean conversion, used by `if`, `(bool)` and `empty` at lines 56, 63, 70, 129 and 133, is false for exactly these values: null, false, 0, 0.0, "", "0" and the empty array. |
| Php.TrimLeft | CustomGlobalSearchApi.php:63 | The result is a suffix of the input. Every character removed is one of PHP's default trim characters. The first character kept is not one of them. |
| Php.TrimRight | CustomGlobalSearchApi.php:63 | The result is a prefix of the input. Every character removed is a trim character. The last character kept is not one. |
| Php.EmptyTrimIff | CustomGlobalSearchApi.php:63 | `empty(trim(s))` holds exactly when `s` is all trim characters, or a single "0" surrounded by trim characters. |
| Php.Explode | CustomGlobalSearchApi.php:73 | `explode` yields at least one piece, and no piece contains the separator. |
| Php.ImplodeExplode | CustomGlobalSearchApi.php:73 | Joining the pieces of `explode` with the separator gives back the original string. |
| Php.ExplodeImplode | CustomGlobalSearchApi.php:73 | Splitting a join of separator-free pieces gives back exactly those pieces. |
| Php.ExplodeCount | CustomGlobalSearchApi.php:73 | The number of pieces is the number of separators plus one. |
| Php.IntCast | CustomGlobalSearchApi.php:68-69 | The `(int)` cast of a string always lies within the 64-bit signed range. |
| Php.IntCastOfNumeral | CustomGlobalSearchApi.php:68-69 | An unsigned decimal numeral, followed by nothing or by text that starts with neither a digit, a decimal point nor an exponent mark, casts as its value is capped. |
| Php.IntCastOfNegativeNumeral | CustomGlobalSearchApi.php:68-69 | A numeral with a minus sign, followed by such an ending, casts as its negated value is capped. |
| Php.IntCastCapped | CustomGlobalSearchApi.php:68-69 | A numeral beyond the 64-bit range but within the range of doubles, followed by such an ending, casts to the largest integer, or with a minus sign to the smallest. |
| Php.IntCastBeyondDouble | CustomGlobalSearchApi.php:68-69 | A numeral at or above 2^1024 - 2^970, the least value that rounds to an infinite double, casts to 0 with or without a minus sign when followed by such an ending. |
| Php.IntCastOfDecimal | CustomGlobalSearchApi.php:68-69 | The cast of a signed decimal numeral for an in-range integer, followed by nothing or by text that starts with neither a digit, a decimal point nor an exponent mark, gives that integer back. |
| Php.IntCastNoDigits | CustomGlobalSearchApi.php:68-69 | A string with neither a digit nor a decimal point after optional whitespace and sign casts to 0. |
| Pagination.NextOffset | CustomGlobalSearchApi.php:117-120 | The cursor is either the sentinel -1 or `limit + offset` strictly below the total. It is `limit + offset` whenever the total exceeds it. |
| Pagination.NextOffsetCases | CustomGlobalSearchApi.php:117-120 | For non-negative page size and offset, the cursor is -1 exactly when the page reaches the total. Otherwise it lies between the offset and the total. |
| Pagination.NegativeLimitLooksLikeLastPage | CustomGlobalSearchApi.php:117-120 | With 5 hits, page size -1 and offset 0, a further page exists in principle, yet the cursor equals the sentinel. |
| Pagination.PagesCover | CustomGlobalSearchApi.php:117-120 | Following the cursor with a positive page size from a non-negative offset visits a page containing every hit from the offset to the last one. |
| Pagination.PagesInRange | CustomGlobalSearchApi.php:117-120 | Every page visited after the first starts after the initial offset and before the total. |
| ResultFormatter.FixEmail | CustomGlobalSearchApi.php:153-156 | When the helper is non-empty and `email` is set, the helper's address list becomes the `email` value and it is marked fetched. The helper's other properties stay. Nothing else of the bean changes, and any other bean is untouched. |
| ResultFormatter.FixEmailIdempotent | CustomGlobalSearchApi.php:153-156 | Applying the fix-up twice is the same as applying it once. |
| ResultFormatter.Decorate | CustomGlobalSearchApi.php:129-140 | `_score` is set exactly when the score is truthy. Otherwise the data's own `_score` is kept. `_highlights` is set exactly when the hit has highlights. Its keys are the highlighted fields `isset` in the data, or `_score` when that was just set, and its values are the hit's highlights. Every other key is kept, and no other key is added. |
| ResultFormatter.HighlightsOfUnsetFieldsAreEmpty | CustomGlobalSearchApi.php:133-140 | Highlights on fields none of which is set still produce a `_highlights` key, holding an empty map. |
| ResultFormatter.DecorateAcmeHits | CustomGlobalSearchApi.php:129-140 | Two concrete hits: one with a score and a highlight on a set field gets both keys; one with no highlights gets only `_score`. |
| ResultFormatter.FormatBeanFromResult | CustomGlobalSearchApi.php:148-159 | The formatter is given the hit's own data fields. A bean without both halves of the e-mail quirk reaches it unchanged. When both halves are present, the bean it gets is the one `FixEmail` describes. |
| ResultFormatter.FormatBeanOwnFields | CustomGlobalSearchApi.php:150 | Two hits with the same data fields and bean format to the same data, so the score and the highlights play no part. The request arguments are overwritten at line 150; the model's `FormatBeanFromResult` takes no request arguments at all, so their irrelevance is built into its signature rather than proved. |
| ResultFormatter.FormatHit | CustomGlobalSearchApi.php:127-142 | One hit formats exactly when its bean formats. The formatted bean's own fields are kept. `_score` holds the score when it is truthy, and `_highlights` is present when the hit has highlights. |
| ResultFormatter.FilterHighlights | CustomGlobalSearchApi.php:134-138 | The loop keeps exactly the highlighted fields that are `isset` in the data, with their highlight values unchanged. |
| ResultFormatter.FormatResults | CustomGlobalSearchApi.php:122-146 | A list is returned exactly when every hit formats. It then holds one record per hit, in hit order, each the decorated output of `formatBeanFromResult`. |
| GlobalSearchApi.BearerToken | CustomGlobalSearchApi.php:46 | The token is the header with the "Bearer " prefix removed: prefix plus token gives the header back. |
| GlobalSearchApi.Authenticate | CustomGlobalSearchApi.php:40-58 | The checks run in source order. A missing or malformed header fails with no call made. A token that does not verify fails with the verification of the header's token as the only call. Otherwise the calls are exactly that verification and the administrator lookup, and a missing administrator fails after the lookup. The gate passes exactly when all three hold. |
| GlobalSearchApi.ModuleListMissingIff | CustomGlobalSearchApi.php:63-65 | `module_list` counts as missing exactly when it is unset, blank, or "0" with blanks around it. |
| GlobalSearchApi.NormalizeArgs | CustomGlobalSearchApi.php:67-73 | The term is `q` when set and "" otherwise. The page size is the `(int)` cast of `max_num` when set and 20 otherwise, and the offset is the cast of `offset` when set and 0 otherwise; both lie in the 64-bit range. Highlighting is on when `highlights` is unset. There is at least one module. Joining the modules with commas gives back the `module_list` string. No module name contains a comma. There are as many modules as commas plus one. |
| GlobalSearchApi.NormalizeDefaults | CustomGlobalSearchApi.php:67-71 | Each absent argument gets its own default, whatever the other arguments are: empty term, 20 hits, offset 0, highlighting on, empty sort. |
| GlobalSearchApi.NormalizeUnclamped | CustomGlobalSearchApi.php:68-69 | A `max_num` or `offset` written as a 64-bit integer is used as that integer, negative or not, with no clamping. |
| GlobalSearchApi.NormalizeEmptyMaxNum | CustomGlobalSearchApi.php:68 | A `max_num` that is set but empty asks for 0 hits, not the default. |
| GlobalSearchApi.NormalizeMaxNumBeyondDouble | CustomGlobalSearchApi.php:68 | A `max_num` whose value is at or beyond 2^1024 - 2^970, the least value that rounds to an infinite double, asks for 0 hits. |
| GlobalSearchApi.NormalizeHighlightsOff | CustomGlobalSearchApi.php:70 | Highlighting is off exactly when `highlights` is set to "" or "0". |
| GlobalSearchApi.NormalizeSort | CustomGlobalSearchApi.php:71 | An array `sort` is passed through as given. Anything else becomes the empty array. |
| GlobalSearchApi.ModulesOfCommaList | CustomGlobalSearchApi.php:73 | "Accounts,Contacts" names the modules Accounts and Contacts. |
| GlobalSearchApi.ModulesKeepBlanksAndEmptyNames | CustomGlobalSearchApi.php:73 | "Accounts, Contacts," names "Accounts", " Contacts" and "": blanks are kept, and a trailing comma adds an empty name. |
| GlobalSearchApi.BuildQuery | CustomGlobalSearchApi.php:77-87 | The term filter is applied exactly when the term is not "". Modules, limit, offset, highlighter and sort are passed on unchanged. |
| GlobalSearchApi.TermOmittedIff | CustomGlobalSearchApi.php:79-81 | The term filter is left out exactly when `q` is unset or "". |
| GlobalSearchApi.GetSearchEngine | CustomGlobalSearchApi.php:102-115 | A throwing `getInstance` is a runtime failure, with no availability check. An unavailable engine is an unavailability failure. The engine is returned exactly when it was obtained and is available. |
| GlobalSearchApi.TrySearch | CustomGlobalSearchApi.php:75-99 | The outcome is a response or a runtime error, never anything else. It is a response exactly when the engine was obtained and available, the query ran, and every hit formatted. The response carries the cursor, total, query time and records. A throwing `getInstance` leaves `getInstance` as the only call. An unavailable engine leaves exactly `getInstance` and `isAvailable`, and no query is run. The calls are exactly those two and the query exactly when the engine is up. |
| GlobalSearchApi.CheckAndSearch | CustomGlobalSearchApi.php:63-99 | A missing module list ends the request as a missing-parameter error with no service called. Otherwise the outcome is a response or a runtime error, with the `try` block's exact call trace (`SearchTrace`) and no query on an engine that is not up. A response comes exactly when the list is present and the search succeeds, and it is the one `RespondsWith` describes. |
| GlobalSearchApi.CustomGlobalSearchMethod | CustomGlobalSearchApi.php:35-100 | The gate outcomes hold in order: a malformed header makes no call, a bad token makes only the token verification, and a good token makes the verification and then the administrator lookup. A request that fails any check reaches only gate services. A ready request whose engine cannot be obtained, or is unavailable, runs no query: its calls after the gate are exactly `getInstance`, or `getInstance` and `isAvailable`. The administrator is bound to both users exactly when the gate passes, and both are untouched otherwise. A ready request ends in a response or a runtime error, never unavailability. A response comes exactly when the request is ready and the search succeeds, and it is the one `RespondsWith` describes. |

## Left out

- The CORS headers and the `OPTIONS` early exit (lines 2-9) are HTTP plumbing outside the handler and are not modelled.
- The route table of `registerApiRest` (lines 17-33) is configuration, not behaviour, and is not modelled.
- `getallheaders`, `getenv`, `password_verify`, the Users bean lookup, `SearchEngine::getInstance` and the engine's query builder are outside services. They are parameters of the model (`Env`, `Engine`); they are not modelled.
- The result set's hits (`getScore`, `getHighlights`, `getDataFields`, `getBean`) and the framework's `formatBean` are outside code. They are inputs (`Hit`, `BeanFormatter`).
- A thrown `formatBean` or engine call is modelled as a None or `Threw` result. PHP `Error` throwables, which the `catch (\Exception $e)` does not catch, are not modelled.
- Request arguments other than `sort` are taken as strings. JSON numbers or booleans for `q`, `max_num`, `offset` or `highlights`, and an array `module_list` (a `TypeError` in `trim`), are not modelled.
- Php.IntCast: the exponent and fraction forms of numeric strings ("1e3", "2.5e1") are not modelled. Only sign and leading decimal digits are read. The cap and the cut-off to 0 for values beyond the range of doubles follow the Zend engine's conversion of an overflowing numeric string to a double and then to an integer; that engine code is not part of this model.
- Pagination.NextOffset: `limit + offset` is computed on unbounded integers. PHP's overflow to float past 64 bits is not modelled.
- Pagination.PagesCover: stated only for a non-negative starting offset. With a negative one, a real cursor of -1 coincides with the sentinel.
- Scores are `Php.Value`s whose `Float` holds a real number, so NaN and infinite scores are not representable. PHP treats a NaN score as truthy and would attach it as `_score`; the model cannot express that case. Query times are passed through unexamined.
- The empty PHP array has two representations in the model, `List([])` and `Dict(map[])`; both stand for the same PHP value and both are falsy. The normalised default sort is written `List([])`.
- PHP arrays are modelled as maps, so the key order of records and of `_highlights` is not modelled.
- The e-mail fix-up is modelled on values: `FixEmail` returns the updated bean. The in-place update of the shared bean object, and its visibility to other holders of that object, are not modelled.
- `getTotalHits()` is called twice (lines 92-93). The model takes one total for both calls.
