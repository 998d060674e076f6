# URL shortener front end — a Dafny model

This project models the logic of a browser-side URL shortener.

- **The store.** `URLStorage` keeps the short links and their click logs in memory. It is the model's `UrlStorage.Store` class. It holds three keyed collections: the records, the click logs and the set of codes in use.
- **The redirect page.** It resolves a shortcode, records one click, counts down from five and then navigates. This is the `Redirect.RedirectHandler` class.
- **The shortening form page.** It holds a list of one to five forms, each with three validators and a locally generated `https://short.ly/` link. These are values and functions in `Shortener`.
- **The statistics page.** It covers relative times ("3 days ago"), the recent-clicks panel, and the row and delete dialog state over the store. These are `Statistics` and the `Statistics.StatisticsView` class.
- **The logging middleware.** It covers parameter validation, the prepared log record, the retry loop and the offline queue. These are `Logging` and the `Logging.Logger` class.

Shared pieces:

- `Text` models the JavaScript string built-ins the code relies on:
  - `startsWith` and `includes`;
  - `trim` with the full JavaScript white-space set;
  - `toLowerCase`;
  - `parseInt` (sign, `0x` prefix, longest digit run);
  - `toString(36)` and `slice(-k)`.
- `Shortcode` holds the pattern `^[a-zA-Z0-9-_]{3,20}$` and the 62-character alphabet.
- `Counting` holds occurrence counting, the `grouped[key] = (grouped[key] || 0) + 1` idiom.
- `JsObject` models a property read on a plain object: an own key first, then a member of `Object.prototype`, then `undefined`.
- `StorageAsWritten` follows the store's dictionary reads as written, with the inherited members included (see Findings).

Inputs from outside the code become parameters:

- The clock is an integer number of milliseconds.
- Random draws are nondeterministic choices (`:|`).
- The WHATWG URL parser is an uninterpreted function that returns a host name or nothing.
- The form's URL regular expression is an uninterpreted predicate.
- Calendar formatting (`toDateString`) is a function parameter.
- Each network send of the logger is a given outcome.

The store's invariant is `StoreConsistent`:

- the record map, the click-log map and the set of codes have the same keys;
- every record's click count equals the length of its log, and its key is its own shortcode.

Every store operation keeps this invariant. The page classes hold a reference to the store and state their effect on it.

## Model

| member | source | states |
|---|---|---|
| UrlStorage.Store.constructor | Frontend_test_submission/src/utils/urlStorage.js:3-26 | with nothing persisted the store starts with no records, no logs and no codes, and is consistent |
| UrlStorage.Store.GenerateUniqueShortcode | Frontend_test_submission/src/utils/urlStorage.js:40-61 | the code is either `length` alphabet characters not yet in use, or the base-36 timestamp fallback |
| UrlStorage.FallbackShape | Frontend_test_submission/src/utils/urlStorage.js:58-60 | the fallback has at most six alphabet characters; once the clock is past 36^5 ms it has exactly six and passes the shortcode pattern |
| Text.Base36 | Frontend_test_submission/src/utils/urlStorage.js:59 | `toString(36)` is non-empty and made of digits and lower-case letters |
| Text.Last | Frontend_test_submission/src/utils/urlStorage.js:60 | `slice(-k)` is the suffix of length k, or the whole sequence when it is shorter; `slice(-0)` is the whole sequence |
| Shortcode.AlphabetIsAlnum | Frontend_test_submission/src/utils/urlStorage.js:41-42 | a character is in the alphabet exactly when it is an ASCII letter or digit |
| Shortcode.ValidateShortcodeIff | Frontend_test_submission/src/utils/urlStorage.js:67-70 | the pattern accepts exactly the strings of 3 to 20 characters over letters, digits, `-` and `_` |
| Shortcode.AllShortcodeCharsIff | Frontend_test_submission/src/components/URLShortener.jsx:42-45 | the form's copy of the pattern scans every character against the class `[a-zA-Z0-9-_]` |
| Shortcode.GeneratedCodeIsValid | Frontend_test_submission/src/utils/urlStorage.js:46-53 | a drawn code of 3 to 20 alphabet characters passes the shortcode pattern |
| UrlStorage.NormalizeUrlSpec | Frontend_test_submission/src/utils/urlStorage.js:74-77 | the normalized URL always names a protocol; normalizing is idempotent; the input is kept exactly when it had `http://` or `https://`, otherwise it gets `https://` in front |
| UrlStorage.ValidateUrl | Frontend_test_submission/src/utils/urlStorage.js:72-83 | `normalizedUrl` is the protocol-defaulted input; `isValid` holds exactly when the parser accepts that normalized URL |
| UrlStorage.Store.CreateShortUrl | Frontend_test_submission/src/utils/urlStorage.js:85-131 | errors in the source's order (bad URL, bad custom code, code taken, expiry outside the `Date` range) leave the store unchanged, each exactly when the checks before it pass; success holds exactly when none applies; the validity defaults to 30 minutes when left out; the new record stores the normalized URL, zero clicks, `isActive` and expiry = now + minutes·60000; the record, an empty log and the code are added under that code alone |
| UrlStorage.Store.GetUrlByShortcode | Frontend_test_submission/src/utils/urlStorage.js:133-147 | an unknown code gives not-found; an expired record comes back tagged expired and is stored inactive; a live one comes back unchanged; logs and codes are untouched |
| UrlStorage.Store.RecordClick | Frontend_test_submission/src/utils/urlStorage.js:149-172 | succeeds exactly for a known, unexpired code; then exactly one click is appended to that log and that record's count goes up by one; otherwise nothing changes |
| UrlStorage.ClickSourceCases | Frontend_test_submission/src/utils/urlStorage.js:174-188 | no referrer gives "Direct"; an unparsable one gives "Unknown"; a host containing google gives "Google"; else facebook "Facebook"; else twitter "Twitter"; else linkedin "LinkedIn"; a host naming none of them is reported as itself |
| Text.ContainsIff | Frontend_test_submission/src/utils/urlStorage.js:180-183 | `includes` holds exactly when the word occurs at some index of the host |
| UrlStorage.Store.GetAllUrls | Frontend_test_submission/src/utils/urlStorage.js:210-219 | one entry per record with distinct codes; each entry carries its record, its short URL, its log (or none) and its expiry flag at `now`; entries are ordered newest first |
| UrlStorage.ListAll | Frontend_test_submission/src/utils/urlStorage.js:211-218 | the listing holds exactly one entry per stored code, each the listing of its record at `now`, newest first |
| UrlStorage.InsertSorted | Frontend_test_submission/src/utils/urlStorage.js:218 | inserting an entry at its insertion point keeps the list ordered by creation time, newest first |
| UrlStorage.Store.GetUrlStats | Frontend_test_submission/src/utils/urlStorage.js:221-235 | nothing exactly for an unknown code; otherwise the record, its log, both groupings and the expiry flag; each grouping's counts add up to the number of clicks |
| UrlStorage.GroupByKey | Frontend_test_submission/src/utils/urlStorage.js:238-243 | the map has exactly the keys that occur, each mapped to its number of occurrences, and the counts add up to the number of keys |
| UrlStorage.GroupClicksBySource | Frontend_test_submission/src/utils/urlStorage.js:237-244 | clicks counted per source, a click without a source under "Unknown"; no empty key; the counts add up to the number of clicks |
| UrlStorage.GroupClicksByDate | Frontend_test_submission/src/utils/urlStorage.js:246-253 | clicks counted per calendar date of their timestamp; the counts add up to the number of clicks |
| Counting.TallySum | Frontend_test_submission/src/utils/urlStorage.js:239-242 | the counts of the grouping loop add up to the number of items |
| Counting.TallyCounts | Frontend_test_submission/src/utils/urlStorage.js:239-242 | the grouping loop's count for each key is the number of its occurrences |
| UrlStorage.ConsistentAfterPut | Frontend_test_submission/src/utils/urlStorage.js:122-124 | putting a consistent record, log and code under one key keeps the three collections consistent |
| UrlStorage.ConsistentAfterRemove | Frontend_test_submission/src/utils/urlStorage.js:256-259 | removing a key from all three collections keeps them consistent |
| UrlStorage.Store.DeleteUrl | Frontend_test_submission/src/utils/urlStorage.js:255-264 | reports exactly whether the code was known and removes it from records, logs and codes, nothing else |
| UrlStorage.Store.ClearExpiredUrls | Frontend_test_submission/src/utils/urlStorage.js:266-279 | removes exactly the records expired at `now`, with their logs and codes, and returns how many there were |
| JsObject.Read | Frontend_test_submission/src/utils/urlStorage.js:64 | `obj[key]` finds the own value exactly for an own key, and an inherited member exactly for a non-own key that names one |
| StorageAsWritten.CreateCheckAgrees | Frontend_test_submission/src/utils/urlStorage.js:63-65 | off the inherited names the pre-checks of `createShortUrl` as written are those of `CreateShortUrl`: a custom code is taken exactly when it is stored |
| StorageAsWritten.InheritedCodeTaken | Frontend_test_submission/src/utils/urlStorage.js:63-65 | a valid custom code naming an inherited member, and not stored, is rejected as taken though no record holds it |
| StorageAsWritten.ConstructorTakenOnEmptyStore | Frontend_test_submission/src/utils/urlStorage.js:63-65 | on an empty store the custom code "constructor" is rejected as taken |
| StorageAsWritten.LookupAndClickAgree | Frontend_test_submission/src/utils/urlStorage.js:133-172 | off the inherited names lookup and click as written are those of `GetUrlByShortcode` and `RecordClick` |
| StorageAsWritten.InheritedClickThrows | Frontend_test_submission/src/utils/urlStorage.js:133-172 | a code naming an inherited member, and not stored, is found, never expired, and recording a click on it throws |
| StorageAsWritten.StatsAgree | Frontend_test_submission/src/utils/urlStorage.js:221-235 | off the inherited names `getUrlStats` as written returns statistics exactly for a stored code |
| StorageAsWritten.InheritedStatsThrow | Frontend_test_submission/src/utils/urlStorage.js:221-241 | for a code naming an inherited member, and not stored, `getUrlStats` reaches `clicks.forEach` on that member and throws |
| StorageAsWritten.DeleteAgrees | Frontend_test_submission/src/utils/urlStorage.js:255-264 | off the inherited names `deleteUrl` as written reports whether the code was stored and removes it from all three collections |
| StorageAsWritten.InheritedDeleteReportsTrue | Frontend_test_submission/src/utils/urlStorage.js:255-264 | deleting a code naming an inherited member, and not stored, reports `true` and removes nothing |
| StorageAsWritten.TallyAgrees | Frontend_test_submission/src/utils/urlStorage.js:237-244 | without inherited names among the keys the tally as written has the keys of `Tally`, each holding its count |
| StorageAsWritten.InheritedKeyConcatenated | Frontend_test_submission/src/utils/urlStorage.js:241 | a key naming an inherited member other than `__proto__` is in the tally as written exactly when it occurs, and then holds a string, not a count |
| StorageAsWritten.ProtoKeyDropped | Frontend_test_submission/src/utils/urlStorage.js:241 | the key `__proto__` never appears in the tally as written |
| StorageAsWritten.InheritedSourceMiscounted | Frontend_test_submission/src/utils/urlStorage.js:237-244 | a click whose source is "constructor" leaves a string under that key, and one whose source is "__proto__" is not counted, though each occurs at least once |
| Redirect.ErrorMessagesDistinct | Frontend_test_submission/src/components/RedirectHandler.jsx:58-98 | the five error outcomes, the `catch` branch's included, show five different messages |
| Redirect.RedirectHandler.constructor | Frontend_test_submission/src/components/RedirectHandler.jsx:22-25 | the page starts loading, with no error, no data and a countdown of 5 |
| Redirect.RedirectHandler.HandleRedirect | Frontend_test_submission/src/components/RedirectHandler.jsx:44-101 | a missing or empty code gives "Invalid shortcode", an unknown one "not found", an expired one at the lookup's clock "expired" (and the record is marked inactive); none of these records a click; a record live at the lookup but expired at the click's clock gives the click failure; live at both, exactly one click is appended to that log, the count goes up by one, and the page shows the record with its original URL; loading always ends |
| Redirect.RedirectHandler.OnShortcode | Frontend_test_submission/src/components/RedirectHandler.jsx:27-29 | resolution runs once per route value: at most one click per run, nothing at all for a value already resolved, a click only for a present code, and for a new code live at both clock readings exactly that click |
| Redirect.RedirectHandler.Tick | Frontend_test_submission/src/components/RedirectHandler.jsx:31-42 | with data shown and time left the countdown drops by one, and at zero the page navigates to the original URL; otherwise nothing changes |
| Redirect.RedirectHandler.HandleManualRedirect | Frontend_test_submission/src/components/RedirectHandler.jsx:103-107 | "Go Now" navigates to the original URL exactly when data is shown |
| Redirect.ResolveAndCountDown | Frontend_test_submission/src/components/RedirectHandler.jsx:27-42 | a live code resolved once (twice-delivered route value included) records one click; four ticks later nothing has navigated, the fifth navigates to the original URL |
| Redirect.HandleRedirectAgrees | Frontend_test_submission/src/components/RedirectHandler.jsx:44-101 | off the inherited names the page as written ends in the outcome `HandleRedirect` states for each case, and never in the `catch` branch |
| Redirect.InheritedRedirectFails | Frontend_test_submission/src/components/RedirectHandler.jsx:63-98 | a route value naming an `Object.prototype` member and not stored passes the null check, makes `recordClick` throw, and shows "An error occurred while processing the redirect" |
| Redirect.ToStringRouteFails | Frontend_test_submission/src/components/RedirectHandler.jsx:63-98 | the route `/toString` on an empty store shows the `catch` message |
| Text.TrimStart | Frontend_test_submission/src/components/URLShortener.jsx:48 | the result is a suffix of the input that is empty or starts with a non-white-space character, and everything dropped is white space |
| Text.ParseIntOfDecimal | Frontend_test_submission/src/components/URLShortener.jsx:48 | `parseInt` reads back every decimal numeral as its number |
| Text.BlankIff | Frontend_test_submission/src/components/URLShortener.jsx:55-66 | `!s.trim()` holds exactly when every character is JavaScript white space |
| Shortener.ValidityOfDecimal | Frontend_test_submission/src/components/URLShortener.jsx:47-50 | on a decimal numeral the validity check accepts exactly 1 to 365 |
| Shortener.BlankHasNoNumber | Frontend_test_submission/src/components/URLShortener.jsx:47-50 | a blank validity makes `parseInt` yield NaN, so it also fails the range check |
| Shortener.ValidateForm | Frontend_test_submission/src/components/URLShortener.jsx:52-73 | the field-by-field error record is the one `ErrorsOf` describes |
| Shortener.ErrorsOfMeaning | Frontend_test_submission/src/components/URLShortener.jsx:52-73 | a blank URL is "required" and otherwise checked by the pattern; a custom code is checked only when non-empty and never "required"; a blank validity is "required" and otherwise range-checked; a form has no errors exactly when all three fields pass |
| Shortener.InitialForms | Frontend_test_submission/src/components/URLShortener.jsx:24-34 | the page starts with one empty form with id 1, which satisfies the list invariant |
| Shortener.EditSpec | Frontend_test_submission/src/components/URLShortener.jsx:79-84 | an edit sets the field, keeps the other fields, the id, the link and the submitted flag, and re-validates only a submitted form |
| Shortener.UpdateFormSpec | Frontend_test_submission/src/components/URLShortener.jsx:75-91 | `updateForm` changes only the forms with that id, and keeps every id in place |
| Shortener.MaxId | Frontend_test_submission/src/components/URLShortener.jsx:95 | `Math.max` of the ids is one of them and no smaller than any |
| Shortener.AddFormSpec | Frontend_test_submission/src/components/URLShortener.jsx:93-109 | with fewer than five forms, one empty form is appended with an id larger than every existing id; otherwise the list is unchanged |
| Shortener.AddPreserves | Frontend_test_submission/src/components/URLShortener.jsx:93-109 | adding keeps one to five forms with distinct ids |
| Shortener.WithoutMembers | Frontend_test_submission/src/components/URLShortener.jsx:113 | the filter keeps exactly the forms whose id differs |
| Shortener.WithoutLength | Frontend_test_submission/src/components/URLShortener.jsx:113 | with distinct ids the filter drops one form when the id is present and none otherwise, and the ids stay distinct |
| Shortener.WithoutAbsent | Frontend_test_submission/src/components/URLShortener.jsx:113 | the filter with an id no form has returns the list unchanged |
| Shortener.WithoutAt | Frontend_test_submission/src/components/URLShortener.jsx:113 | when only the form at k has the id, the filter is the list with position k cut out |
| Shortener.RemoveFormSpec | Frontend_test_submission/src/components/URLShortener.jsx:111-115 | with one form nothing changes; an absent id changes nothing; otherwise exactly the form with that id is cut out at its position, the others keep their order; at least one form always remains, ids stay distinct |
| Shortener.ResetFormSpec | Frontend_test_submission/src/components/URLShortener.jsx:165-182 | the targeted form becomes an empty form with the same id; the others and every id are unchanged |
| Shortener.UpdateResetPreserve | Frontend_test_submission/src/components/URLShortener.jsx:75-91 | update and reset keep one to five forms with distinct ids |
| Shortener.GenerateShortUrl | Frontend_test_submission/src/components/URLShortener.jsx:117-131 | with a custom code the link is `https://short.ly/` followed by it; otherwise the base followed by six alphabet characters |
| Shortener.AcceptedLinkHasValidCode | Frontend_test_submission/src/components/URLShortener.jsx:142-147 | the link of an accepted form ends in a code that the store's shortcode pattern accepts |
| Shortener.Find | Frontend_test_submission/src/components/URLShortener.jsx:134 | `find` returns the first form with that id, or nothing exactly when none has it |
| Shortener.SubmitAll | Frontend_test_submission/src/components/URLShortener.jsx:137-153 | the forms with the id are marked submitted and get the errors; only an error-free form gets a link; the others are unchanged |
| Shortener.ShortenUrl | Frontend_test_submission/src/components/URLShortener.jsx:133-154 | the target is submitted with the errors of `validateForm`; it gets a link exactly when there are none, and keeps its old link otherwise; other forms and all ids are unchanged; an absent id changes nothing; one to five forms with distinct ids stay so |
| Statistics.TimeAgoMeaning | Frontend_test_submission/src/components/Statistics.jsx:71-84 | under a minute (a future time included) is "Just now"; otherwise the amount is the number of whole units elapsed, in the largest unit of which at least one has elapsed |
| Statistics.GetTimeAgoJustNow | Frontend_test_submission/src/components/Statistics.jsx:74-83 | the text is "Just now" exactly when less than a minute has passed; otherwise it starts with the count's digits |
| Statistics.TimeAgoExamples | Frontend_test_submission/src/components/Statistics.jsx:71-84 | one hour renders "1 hour ago", three days and 5 ms "3 days ago", a day ahead "Just now" |
| Statistics.Reverse | Frontend_test_submission/src/components/Statistics.jsx:139 | `reverse` puts element i at position length-1-i |
| Statistics.RecentClicksSpec | Frontend_test_submission/src/components/Statistics.jsx:137-140 | at most ten clicks are shown, the last ten of the log, newest first |
| Statistics.ClickPanelSpec | Frontend_test_submission/src/components/Statistics.jsx:122-179 | "No clicks yet" exactly for an empty log; the footer exactly for more than ten clicks, showing the total; the first entry is the newest click |
| Statistics.StatisticsView.constructor | Frontend_test_submission/src/components/Statistics.jsx:51-54 | the page starts with no rows, no expanded row and a closed dialog |
| Statistics.StatisticsView.LoadUrls | Frontend_test_submission/src/components/Statistics.jsx:62-65 | the rows become the store's listing: one per record, newest first |
| Statistics.StatisticsView.Mount | Frontend_test_submission/src/components/Statistics.jsx:56-60 | the rows are loaded before expired records are removed, so they list the records as they were, one per code, newest first; the store then holds exactly the unexpired ones |
| Statistics.StatisticsView.HandleRowExpand | Frontend_test_submission/src/components/Statistics.jsx:86-88 | the current row collapses; any other row replaces it, so one row at most is expanded |
| Statistics.StatisticsView.HandleDelete | Frontend_test_submission/src/components/Statistics.jsx:90-92 | the dialog opens for that entry |
| Statistics.StatisticsView.ConfirmDelete | Frontend_test_submission/src/components/Statistics.jsx:94-100 | without an entry nothing happens; with one its code leaves the store, the rows are reloaded without it, and the dialog closes |
| Text.ToLowerIdempotent | Frontend_test_submission/src/utils/logger.js:55-71 | lower-casing twice is lower-casing once |
| Logging.ValidateParamsFields | Frontend_test_submission/src/utils/logger.js:49-90 | `isValid` holds exactly when there are no errors; each "required" error appears exactly for an empty argument; the stack and level errors appear exactly for a value outside their lists, compared in lower case |
| Logging.ValidateParamsOrder | Frontend_test_submission/src/utils/logger.js:50-84 | at most one error per parameter, in the order stack, level, package, message |
| Logging.PackageCheckSpec | Frontend_test_submission/src/utils/logger.js:66-79 | a package-list error appears exactly for a non-empty package outside a known stack's list; an unknown stack adds none |
| Logging.ValidIff | Frontend_test_submission/src/utils/logger.js:49-90 | a request is valid exactly when stack and level are known, the package is in that stack's list and the message is non-empty |
| Logging.AsWrittenAgrees | Frontend_test_submission/src/utils/logger.js:66-79 | for any stack other than the inherited names, the table lookup as written and the own-key lookup give the same validation |
| Logging.ConstructorIsInherited | Frontend_test_submission/src/utils/logger.js:69-71 | the stack "constructor" is already lower case and names a member every object inherits |
| Logging.InheritedStacksThrow | Frontend_test_submission/src/utils/logger.js:69-71 | any stack that lower-cases to an inherited name, with a non-empty package, throws as written; the own-key lookup reports the invalid stack instead, and with a valid level and a message that is its only error |
| Logging.InheritedNamesAreMembers | Frontend_test_submission/src/utils/logger.js:69-71 | "constructor" and "__proto__" are members of `Object.prototype`, and no other member survives lower-casing unchanged, so no other one can be reached |
| Logging.PrepareKeepsValid | Frontend_test_submission/src/utils/logger.js:229-235 | the prepared record of a valid request has stack, level and package in lower case, keeps the message, and is itself valid |
| Logging.RequeuedMembers | Frontend_test_submission/src/utils/logger.js:141-148 | every re-queued entry carries the data of an entry whose send failed and is stamped with the new time; the queue never grows |
| Logging.RequeuedAllSent | Frontend_test_submission/src/utils/logger.js:141-148 | when every send succeeds the queue ends empty |
| Logging.RequeuedNoneSent | Frontend_test_submission/src/utils/logger.js:141-148 | when every send fails every entry is queued again in its place, stamped with the new time |
| Logging.RequeuedPositions | Frontend_test_submission/src/utils/logger.js:141-148 | the new queue holds one entry per failed send, and the i-th failed entry sits at position (number of failures before it), stamped with the new time: the failed entries come back in their order |
| Logging.RequeuedInOrder | Frontend_test_submission/src/utils/logger.js:141-148 | the re-queued entries are in queue-time order |
| Logging.AppendInOrder | Frontend_test_submission/src/utils/logger.js:123-129 | appending an entry stamped no earlier than every queued one keeps the queue in queue-time order |
| Logging.FrontIsOldest | Frontend_test_submission/src/utils/logger.js:297-304 | in a queue in queue-time order the front entry has the earliest stamp |
| Logging.Logger.constructor | Frontend_test_submission/src/utils/logger.js:21-39 | the logger starts with the given connectivity and the loaded queue |
| Logging.Logger.QueueOfflineLog | Frontend_test_submission/src/utils/logger.js:123-129 | exactly one entry, stamped with the time, is appended at the end; a queue in order stays in order when the clock has not gone back |
| Logging.Logger.ProcessOfflineQueue | Frontend_test_submission/src/utils/logger.js:134-149 | the queue becomes the re-queued failed entries that `Requeued` describes, in queue-time order |
| Logging.Logger.SendLogWithRetry | Frontend_test_submission/src/utils/logger.js:177-205 | at most three attempts, stopping at the first success and reporting its number; failure means all three failed |
| Logging.Logger.Log | Frontend_test_submission/src/utils/logger.js:215-268 | invalid requests are rejected with their errors and touch nothing; offline ones are queued; online ones are delivered with the queue untouched, or queued after three failed attempts |
| Logging.Logger.Status | Frontend_test_submission/src/utils/logger.js:297-304 | the queue length, the connectivity, and an oldest entry exactly when the queue is non-empty; on a queue in order that entry's time is the earliest of all |
| Logging.Logger.ClearOfflineQueue | Frontend_test_submission/src/utils/logger.js:309-312 | the queue becomes empty |

## Left out

- Persistence: `loadData` and `saveData` (localStorage and JSON) and the logger's `loadOfflineQueue` and `saveOfflineQueue` are I/O. The model keeps the in-memory state only. In the source, a store reloaded from JSON holds its codes as an array, not a `Set`.
- The record's `id` (`Date.now() + Math.random()`) is not a field of `UrlRecord`. Statistics rows are keyed by an abstract `RowId`.
- `getApproximateLocation` depends on the host time zone and on float formatting. The location is a field of the client context.
- Calendar and locale formatting (`toDateString`, `toLocaleString`, `formatDate`) is not modelled. The date key is a function parameter.
- Times are integer milliseconds, not ISO strings.
- UrlStorage.Store.CreateShortUrl: requires a clock reading inside the `Date` range. A missing validity is 30 minutes; a given one is an integer, and fractional and `NaN` values are not modelled.
- UrlStorage.Store.GetAllUrls: does not fix the order of records created in the same millisecond. The source's stable sort keeps their insertion order.
- `recordClick` merges the caller's click data over the defaults. The redirect page passes values equal to the defaults (its timestamp is the same instant as a string). The model appends the default click.
- URL parsing (`new URL`) and the form's URL regular expression are uninterpreted functions.
- Redirect.RedirectHandler.HandleRedirect: reads the store by own keys only, so it never reaches the `catch` branch. The page as written reaches it for a route value naming an `Object.prototype` member; `Redirect.HandleRedirectAsWritten` models that (see Findings).
- UrlStorage.Store.CreateShortUrl: a custom code is taken only when it is stored; as written an inherited member name is taken too (see Findings).
- UrlStorage.Store.GetUrlByShortcode: finds own keys only; as written an inherited member is returned (see Findings).
- UrlStorage.Store.RecordClick: finds own keys only; as written an inherited member name makes it throw (see Findings).
- UrlStorage.Store.GetUrlStats: finds own keys only; as written an inherited member name makes it throw (see Findings).
- UrlStorage.Store.DeleteUrl: finds own keys only; as written an inherited member name reports `true` (see Findings).
- UrlStorage.GroupByKey: counts every key; as written an inherited member name collects a string and `__proto__` is dropped (see Findings).
- UrlStorage.GroupClicksBySource: counts every source; as written the sources "constructor" and "__proto__" are miscounted (see Findings).
- UrlStorage.GroupClicksByDate: a `toDateString` key never names an `Object.prototype` member, so the as-written tally agrees with it.
- Logging.Logger.Log: validates with the own-key table lookup, so it never throws; as written a stack naming an inherited member throws (see Findings).
- The page's log calls (`LogInfo`, `LogError`) are fire-and-forget and not modelled.
- The page keeps the record object it read, aliased to the store. The model keeps the record value as it was right after the click; later changes to the store are not reflected.
- Timer mechanics (`setTimeout` and `clearTimeout`) are reduced to discrete ticks. Navigation is the `navigatedTo` field.
- Shortener.AddForm: requires a non-empty list. On an empty list `Math.max()` is `-Infinity`, a state the page cannot reach because `removeForm` keeps one form.
- Clipboard copies, the statistics dialog (`handleViewStats`), status chips and all rendering are presentation and not modelled.
- Logger network calls (`sendLogToAPI`, `fetch`) are given outcomes per attempt or per entry. The contents of the server's response are not modelled.
- Retry delays and the online and offline event listeners are timing and event plumbing, and are not modelled.
- The interleaving of other log calls during the asynchronous queue processing is not modelled.
- Logging.Logger.ProcessOfflineQueue: stamps every re-queued entry with one clock reading, where the source reads the clock per entry.
- Logging.Logger.Log: uses one clock reading for the record's timestamp and its queue time.
- The logger's level shortcuts (`debug`, `info`, `warn`, `error`, `fatal`) and the bound exports are `Log` with a fixed level, so they are not modelled separately.
- Logging.ValidateParams: models string arguments only, with `!x` read as "empty". The `typeof` checks for non-string arguments are not modelled.
- Text.ToLower: lower-cases ASCII letters only, whereas `toLowerCase` covers all of Unicode.
- `App.jsx` only declares routes and is not part of this model.

## Findings

| source | as written | input that shows it | evidently intended | confidence | as-written member | corrected member |
|---|---|---|---|---|---|---|
| Frontend_test_submission/src/utils/logger.js:69-71 | the package table is an object literal indexed by the lower-cased stack, so the names `Object.prototype` supplies are found too; `.includes` on such a member throws a `TypeError` | stack "constructor" (or "__proto__"), level "info", package "api", message "clicked" | only the table's own keys select a package list, so an unknown stack draws just the stack error | high, not executed | Logging.ValidateParamsAsWritten, Logging.InheritedStacksThrow, Logging.ConstructorIsInherited | Logging.ValidateParams, Logging.PackageCheckSpec, Logging.AsWrittenAgrees, Logging.Logger.Log |
| Frontend_test_submission/src/utils/urlStorage.js:63-65 | `isShortcodeExists` tests `urls[shortcode]` on an object literal, so a name every object inherits reads as an existing record | custom shortcode "constructor" (or "toString") on an empty store | only a stored record makes a code taken | high, not executed | StorageAsWritten.CreateCheckAsWritten, StorageAsWritten.InheritedCodeTaken, StorageAsWritten.ConstructorTakenOnEmptyStore | UrlStorage.Store.CreateShortUrl, StorageAsWritten.CreateCheckAgrees |
| Frontend_test_submission/src/utils/urlStorage.js:133-172 | `getUrlByShortcode` returns the inherited member for such a code, and `recordClick` then calls `push` on `clicks[shortcode]`, which is not an array, and throws; the redirect page shows its `catch` message | the route `/toString` on an empty store | an unknown code is "Short URL not found" and no store call throws | high, not executed | StorageAsWritten.GetUrlByShortcodeAsWritten, StorageAsWritten.RecordClickAsWritten, StorageAsWritten.InheritedClickThrows, Redirect.HandleRedirectAsWritten, Redirect.InheritedRedirectFails, Redirect.ToStringRouteFails | UrlStorage.Store.GetUrlByShortcode, UrlStorage.Store.RecordClick, Redirect.RedirectHandler.HandleRedirect, Redirect.HandleRedirectAgrees |
| Frontend_test_submission/src/utils/urlStorage.js:221-235 | `getUrlStats` takes the inherited member as the record and as the click log, and `groupClicksBySource` throws on its `forEach` | `getUrlStats("constructor")` on an empty store | an unknown code has no statistics (`null`) | high, not executed | StorageAsWritten.GetUrlStatsAsWritten, StorageAsWritten.InheritedStatsThrow | UrlStorage.Store.GetUrlStats, StorageAsWritten.StatsAgree |
| Frontend_test_submission/src/utils/urlStorage.js:237-244 | the tally `grouped` is an object literal: a key naming an inherited member starts from that member, so `member + 1` is a string, and an assignment to `__proto__` is ignored | clicks whose referrer host is "constructor" | each source maps to its number of clicks | medium, not executed | StorageAsWritten.TallyAsWritten, StorageAsWritten.InheritedKeyConcatenated, StorageAsWritten.ProtoKeyDropped, StorageAsWritten.InheritedSourceMiscounted | UrlStorage.GroupByKey, UrlStorage.GroupClicksBySource, StorageAsWritten.TallyAgrees |
| Frontend_test_submission/src/utils/urlStorage.js:255-264 | `deleteUrl` tests `urls[shortcode]`, finds the inherited member, deletes nothing and reports success | `deleteUrl("constructor")` on an empty store | `false` for a code that is not stored | high, not executed | StorageAsWritten.DeleteUrlAsWritten, StorageAsWritten.InheritedDeleteReportsTrue | UrlStorage.Store.DeleteUrl, StorageAsWritten.DeleteAgrees |
