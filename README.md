# Newsletter link reviewer and lookup cache

This project is a Dafny model of the two logic-bearing parts of the Ismaili
Insight newsletter tool.

**The link reviewer of `Document`** (`src/document.py`). The reviewer:

- decides which `a` elements are external links;
- repairs each one in document order:
  - removes bare `##TRACKCLICK##` trackers;
  - forces a new-window target;
  - unwraps double-tracked redirect URLs;
  - prepends a `*BROKEN n*` marker when the status of the link's URL is a client or server error (sections 15.5 and 15.6 of RFC 9110);
- swaps straight and curly quotes in the doctype when loading and saving.

**The status/validity cache** (`src/cache.py`). It is a keyed store of:

- webpage statuses;
- email validities.

Each entry is stamped with the time of its last lookup. Entries are refreshed when they are 14 days old or more.

Modules:

| Module | What it holds |
|---|---|
| `Wrappers` | `Option`, `Result` and `Outcome` |
| `Ascii` | ASCII case folding (the `re.I` flag and `str.lower`), hexadecimal digits, decimal rendering with its round trip |
| `PercentCoding` | `unquote_plus` (percent-decoding as in section 2.1 of RFC 3986, plus the `+`→space rule of `application/x-www-form-urlencoded`), with a `quote_plus` partner and their round trip |
| `LinkPatterns` | The regular expressions of the reviewer, written out as explicit predicates and searches (see below), each with the property that ties it back to the regular expression's meaning |
| `Doctype` | The quote swap of `__init__` and `__str__`, with its round trip |
| `Newsletter` | The elements as values (`TagState`), the per-link repair (`Fixed`), the specification of a whole review (`Reviewed`), and the mutable elements (`class Tag`) and document (`class Document`) whose methods perform the repair in place |
| `LookupCache` | The cache as a `class Cache` with two map fields; one pure state machine (`Consult`) is shared by both getters |

`LinkPatterns` writes out these regular expressions:

- the external-link pattern;
- the tracker-page pattern with its greedy `.*url=` and lazy `(.+?)(?:&|$)`;
- the `^##.+##` placeholder strip.

The following are parameters of the model:

- the status of a URL: a function `status: string -> int`, standing for `cache.get_default().get_webpage(url).status`;
- the outcome of an HTTP request: `PageFetch`, `EmailFetch`;
- the current time: `now`, in seconds.

## Model

| member | source | states |
|---|---|---|
| Ascii.Lower | src/document.py:48 | Lower-casing keeps the length and folds exactly the ASCII capitals, character by character |
| Ascii.Decimal | src/document.py:71 | `{:d}` of a non-negative number: at least one decimal digit, and no leading zero for a positive number |
| Ascii.DecimalRoundTrip | src/document.py:71 | The decimal text written by `{:d}` reads back as the same number |
| Ascii.ThreeDigits | src/document.py:71 | A number from 100 to 999 is written as exactly its three digits |
| PercentCoding.PlusToSpace | src/document.py:59 | Every `+` becomes a space and every other character is kept |
| PercentCoding.PercentDecode | src/document.py:59 | Decoding never lengthens the text, and text without `%` is unchanged |
| PercentCoding.QuotePlus | src/document.py:59 | The encoder used as the decoder's partner emits only unreserved characters, `+` and `%` |
| PercentCoding.DecodeEncodedChar | src/document.py:59 | Decoding the encoding of one ASCII character gives that character back and decodes the rest independently |
| PercentCoding.UnquotePlus | src/document.py:59 | `unquote_plus`: every `+` becomes a space, then percent escapes are decoded; `UnquoteQuoteRoundTrip` proves it inverts `quote_plus` |
| PercentCoding.UnquoteQuoteRoundTrip | src/document.py:59 | `unquote_plus` inverts `quote_plus` on every ASCII text |
| LinkPatterns.IsExternalHref | src/document.py:27-28 | The href test of `_is_external_link`: the URL alternative or the whole-placeholder alternative of the pattern; `JumpAndMailtoAreNotExternal` and `TrackedUrlIgnoresRest` state its consequences |
| LinkPatterns.TrackedUrl | src/document.py:27 | The first alternative: an `http(s)://` host prefix, optionally behind a case-insensitive `##TrackClick##`; `UrlAtExtends` proves it ignores what follows |
| LinkPatterns.WholePlaceholder | src/document.py:27 | The second alternative `##.+##$`; `PlaceholderShape` and `PlaceholderParts` prove it holds exactly of `##m##` with a non-empty newline-free `m` and at most one final newline |
| LinkPatterns.TrackerPage | src/document.py:56 | The href starts, case-insensitively, with the `v.aspx?` or `t.aspx?` redirect page; `DoubleTrackedUrl` finds a group only on such a page |
| LinkPatterns.AlnumRun | src/document.py:27 | The run found is the longest prefix of `[a-z0-9]` characters |
| LinkPatterns.HostPrefixIsRegex | src/document.py:27 | The host check holds iff the text starts with `(?:[a-z0-9]+\.)?[a-z0-9]+\.[a-z0-9]+`, with backtracking over the optional subdomain |
| LinkPatterns.DottedPairEndsRun | src/document.py:27 | A word followed by a dot ends exactly where the alphanumeric run ends |
| LinkPatterns.BeforeEnd | src/document.py:27 | The text before the last point where `$` matches: a text ending in a newline loses exactly that newline, any other text is kept whole |
| LinkPatterns.PlaceholderParts | src/document.py:27 | Conversely, every whole placeholder is `##`, a non-empty middle without newline, `##`, and at most one final newline |
| LinkPatterns.PlaceholderShape | src/document.py:27 | Every `##m##` href whose middle has no newline, optionally followed by one newline, matches the placeholder alternative |
| LinkPatterns.JumpAndMailtoAreNotExternal | src/document.py:25-29 | Jump links (`#name`) and `mailto:` links are never external |
| LinkPatterns.TrackedUrlIgnoresRest | src/document.py:27 | The URL alternative has no end anchor: whatever follows a matching prefix keeps the match |
| LinkPatterns.UrlAtExtends | src/document.py:27 | An `http(s)://` host prefix stays a match whatever follows it |
| LinkPatterns.AlnumRunExtends | src/document.py:27 | A run that stops before the end of the text is not lengthened by appending |
| LinkPatterns.LastCloseAtOrBelow | src/document.py:67 | The position found is the last `##` of the first line at or below the bound, or there is none |
| LinkPatterns.StripPlaceholder | src/document.py:67 | With no closing `##` in the first line the href is kept; otherwise everything up to the last such `##` is removed |
| LinkPatterns.StripTemplatePrefix | src/document.py:67 | A `##m##` template prefix in front of a URL with no `#` is removed, leaving the URL |
| LinkPatterns.FirstStop | src/document.py:56 | The lazy group stops at the first `&` or line end after the start, or nowhere |
| LinkPatterns.LastParam | src/document.py:56 | The greedy `.*url=` takes the last `url=` whose group can close |
| LinkPatterns.DoubleTrackedUrl | src/document.py:56-58 | A group is found iff the href is an enewsletterpro `v`/`t` tracker page with a closable `url=` parameter; the group is the one the regex engine settles on |
| LinkPatterns.DoubleTrackedUrlIs | src/document.py:56-58 | Whatever group the regex engine settles on is the one returned |
| LinkPatterns.WrappedUrlIsExtracted | src/document.py:56-58 | A `v`/`t` tracker page whose last `url=` value is non-empty and free of `=`, `&`, `#` and newlines yields exactly that value |
| LinkPatterns.DoubleTrackedRoundTrip | src/document.py:56-59 | Wrapping an encoded URL in a tracker page and then unwrapping and decoding it gives back the original URL |
| Doctype.Load | src/document.py:19 | The first two opening and the first two closing curly quotes become straight quotes; `LoadSaveRoundTrip` proves it undoes `Save` |
| Doctype.Save | src/document.py:86-87 | The first four straight quotes become opening, closing, opening, closing curly quotes (`SaveAlternates`) |
| Doctype.ReplaceFirst | src/document.py:19 | Replacing the first occurrences keeps the length |
| Doctype.ReplaceFirstIsSubstitute | src/document.py:19 | Replacing the first `count` occurrences substitutes them in order by the replacement |
| Doctype.SaveAlternates | src/document.py:86-87 | Saving makes the first four straight quotes opening, closing, opening, closing |
| Doctype.LoadSaveRoundTrip | src/document.py:19 | For a text without curly quotes, loading the saved text restores it exactly |
| Doctype.SaveLoadOnSavedText | src/document.py:86-87 | Saving a loaded saved text reproduces it |
| Newsletter.IsExternalLink | src/document.py:23-29 | `_is_external_link`: an `a` element with an href that passes `IsExternalHref`; `JumpAndMailtoAreNotExternal` proves jump and `mailto:` links fail it |
| Newsletter.Untracked | src/document.py:55-59 | The decoded wrapped URL of a double-tracked href, any other href unchanged (`HrefIsUntracked`) |
| Newsletter.Marked | src/document.py:65-74 | The children with a `*BROKEN n*` marker in front exactly when the final href is not a whole placeholder and its stripped URL reports 4xx or 5xx (`MarkerRule`) |
| Newsletter.Fixed | src/document.py:31-74 | `_fix_external_link` with a missing target set to `_blank`: a bare tracker is only removed (`BareTrackerIsRemoved`); any other link survives and opens a new window (`SurvivorOpensNewWindow`), with its href untracked and its children marked |
| Newsletter.FixedAsWritten | src/document.py:31-74 | `_fix_external_link` as written; `FixedAsWrittenDiffers` proves it raises exactly on an untargeted link that is not a bare tracker and equals `Fixed` otherwise |
| Newsletter.Retarget | src/document.py:48-49 | The new target opens a new window; a target that already folds to `_blank` is kept as written; any other or missing target becomes `_blank` |
| Newsletter.RetargetAsWritten | src/document.py:48 | The code as written fails exactly when the target attribute is missing, and agrees with `Retarget` otherwise |
| Newsletter.BrokenMarker | src/document.py:71 | The marker is `*BROKEN ` followed by three digits that read back as the status and then `*` |
| Newsletter.FixedAsWrittenDiffers | src/document.py:39-49 | The as-written repair raises exactly on a link that is not a bare tracker and has no target; otherwise it equals the corrected repair |
| Newsletter.UntargetedLinkRaises | src/document.py:48 | A `https://www.google.com` link without a target raises as written, while the corrected repair gives it target `_blank` |
| Newsletter.BareTrackerIsRemoved | src/document.py:39-42 | A bare `##TRACKCLICK##` link is removed with nothing else changed |
| Newsletter.SurvivorOpensNewWindow | src/document.py:48-49 | A link that is not a bare tracker stays in the document, opens a new window, and keeps a `_blank` target it already had |
| Newsletter.HrefIsUntracked | src/document.py:55-63 | A double-tracked href is replaced by the decoded group; any other href is unchanged |
| Newsletter.MarkerRule | src/document.py:65-74 | The children gain a leading `*BROKEN n*` iff the final href is not a whole placeholder and its stripped URL has status 400 to 599; otherwise they are unchanged |
| Newsletter.BrokenLinkExample | src/document.py:31-74 | A `_self` link to a site whose status is 410 is retargeted to `_blank` and marked `*BROKEN 410*` |
| Newsletter.SecondReviewAddsMarker | src/document.py:69-71 | A repair is not idempotent: repairing a broken link twice stacks two markers |
| Newsletter.Reviewed | src/document.py:81-82 | A review keeps the number of elements |
| Newsletter.ReviewedAt | src/document.py:81-82 | A review repairs exactly the elements that are external links, each once, and leaves every other element as it was |
| Newsletter.ReviewedAtPositions | src/document.py:81-82 | Elements between two consecutive collected links are untouched |
| Newsletter.ReviewLeavesOthers | src/document.py:81-82 | A non-external element is untouched by a review |
| Newsletter.ReviewRetargetsSurvivors | src/document.py:81-82 | Every external link that survives a review opens a new window |
| Newsletter.ReviewRemovesOnlyBareTrackers | src/document.py:39-42 | A review removes an element iff it is an external link whose href is exactly `##TRACKCLICK##` |
| Newsletter.SelectedBelow | src/document.py:81 | Every position `find_all` collects below a bound is the index of an element below that bound |
| Newsletter.SelectedBelowIs | src/document.py:81 | The collected positions strictly increase, and an element below the bound is collected iff it is an external link |
| Newsletter.SelectedPositionAt | src/document.py:81 | The `k`-th collected element is an external link and comes after the one collected before it |
| Newsletter.ReviewPlan | src/document.py:81-82 | A review repairs each collected link at its position and keeps the elements between and after them |
| Newsletter.ReviewOrder | src/document.py:81 | Each collected position lies in the document and past the element collected before it |
| Newsletter.ReviewRepairsAt | src/document.py:81-82 | The `k`-th collected element has an href, and a review replaces it by its repair |
| Newsletter.ReviewRepairs | src/document.py:81-82 | A review replaces every collected element by its repair |
| Newsletter.ReviewKeeps | src/document.py:81-82 | A review keeps every element before the first, between two, or after the last collected position |
| Newsletter.Tag.constructor | src/document.py:20 | A parsed element starts with its attributes and children, not removed |
| Newsletter.Document.constructor | src/document.py:17-20 | A document holds the given distinct elements, in order |
| Newsletter.Document.States | src/document.py:81 | The state of the document is the state of each of its elements, in order |
| Newsletter.Document.FindExternalLinks | src/document.py:81 | Collects, in document order and each once, exactly the elements classified as external links; every returned element is in the document and is an external link |
| Newsletter.Document.FixExternalLink | src/document.py:31-74 | Mutating the link in place leaves it in the state `Fixed` prescribes for its old state |
| Newsletter.Document.SetBlankTarget | src/document.py:48-49 | Only the target changes, to the one `Retarget` gives for the old target |
| Newsletter.Document.UnwrapTracker | src/document.py:55-59 | Only the href changes, to the decoded wrapped URL when there is one |
| Newsletter.Document.MarkIfBroken | src/document.py:65-71 | Only the children change: the marker `Marked` prescribes for the old href and status is prepended |
| Newsletter.Document.StartRepairing | src/document.py:81-82 | Right after the links are collected, every element is still in its state before the review |
| Newsletter.Document.RepairNext | src/document.py:82 | Repairing the `k`-th collected link puts it in its reviewed state and changes no other element |
| Newsletter.Document.RepairAll | src/document.py:82 | After the loop, every element up to the last collected link is in its reviewed state and the rest are as before |
| Newsletter.Document.FinishRepairing | src/document.py:82 | Once all collected links are repaired, the document's state is the reviewed state |
| Newsletter.Document.Review | src/document.py:76-82 | After the review the document's state is `Reviewed` of its state before |
| LookupCache.PageStatus | src/cache.py:102-107 | A connection error (unresolvable host, refused or reset connection, SSL failure, connect timeout) records 410, a response records its status, and any other request failure records nothing |
| LookupCache.EmailValidity | src/cache.py:156-160 | An address is recorded invalid iff the provider says `safe_to_send` is `false`, with the provider's reason kept verbatim |
| LookupCache.ManualValidity | src/cache.py:194-196 | A manual entry's reason is `user_verified` iff it is valid and `user_refuted` iff it is not |
| LookupCache.Stale | src/cache.py:123 | A row is refreshed once its age has reached 14 days (`MAX_AGE`); `StoredRowIsServed` proves a younger row is served as stored |
| LookupCache.Consult | src/cache.py:119-134 | A lookup happens iff lookups are allowed and the row is missing or at least 14 days old. A miss without lookup is a cache miss, and a failed lookup fails with `LookupFailed` for the key. A present row is served as read, even on the refresh path. A missing row is served as stored by its lookup. Only a successful lookup changes the table, at that key |
| LookupCache.ConsultKeepsOtherKeys | src/cache.py:121-131 | A get never changes any other key's row |
| LookupCache.StaleRefreshServesOldRow | src/cache.py:123-125 | A stale row is refreshed in the table, but the old row is returned |
| LookupCache.ConsultSettles | src/cache.py:129-131 | After a successful get the key is present and fresh enough that a second get makes no lookup |
| LookupCache.StoredRowIsServed | src/cache.py:121-123 | A row set less than 14 days ago is returned as stored, with no lookup and no change |
| LookupCache.Cache.constructor | src/cache.py:76-89 | A new cache has no webpages and no emails |
| LookupCache.Cache.LookupWebpage | src/cache.py:96-110 | A successful request inserts or replaces the url's row with its status and the current time; the rest of the store is unchanged |
| LookupCache.Cache.GetWebpage | src/cache.py:112-134 | The answer and the new webpage table are those of `Consult` on the old table; the email table is unchanged |
| LookupCache.Cache.SetWebpage | src/cache.py:136-147 | Inserts or replaces only the url's row, stamped with the current time |
| LookupCache.Cache.LookupEmail | src/cache.py:150-162 | A successful verification inserts or replaces the address's row; the rest of the store is unchanged |
| LookupCache.Cache.GetEmail | src/cache.py:164-186 | The answer and the new email table are those of `Consult` on the old table; the webpage table is unchanged |
| LookupCache.Cache.SetEmail | src/cache.py:188-200 | Inserts or replaces only the address's row, with the manual reason and the current time |

## Left out

- HTML parsing, `prettify` and `decompose` (src/document.py:20, 40, 86) are not modelled:
  - the document is a sequence of element records (`Tag`);
  - each record holds a name, an optional `href`, an optional `target`, its child texts and a removed flag;
  - `decompose` sets the removed flag;
  - `Save` is applied to the serialised text, which is taken as given.
- The element records are flat.
  - Nested elements, and the rule that `decompose` also removes a removed link's descendants, are not modelled.
  - Distinct `Tag` objects stand for distinct elements.
- The status lookup inside a repair is a pure function of the URL.
  - In the program it is a call to the stateful cache, which may refresh a stale row, or raise on a failed request.
  - The model does not combine a review with the cache's effects, so a review cannot fail on a lookup.
- PercentCoding.PercentDecode: `unquote_plus` maps each `%XX` escape to the character with that code.
  - Joining escaped bytes of 0x80 and above into UTF-8 characters is not modelled.
  - The round trip is proved for ASCII text.
- Ascii.Lower: case folding (`re.I`, `str.lower`) is ASCII only. Unicode case mapping is not modelled.
- Time is an integer number of seconds supplied by the caller.
  - In the program, `get_webpage` and `get_email` read the clock for the age test and again for the refresh.
  - Each model call takes one `now`.
- HTTP requests and the email-verification service are parameters:
  - `PageFetch` is a response status, a connection error (`ConnectionFailed`, for every `requests.exceptions.ConnectionError`: an unresolvable host, a refused or reset connection, an SSL failure, a connect timeout), or any other request failure;
  - `EmailFetch` is a verdict or a failure.
  - Any other exception they raise is folded into `RequestFailed` or `VerificationFailed`, which leaves the store unchanged and fails the call with `LookupFailed`, except on the stale-refresh path described in the next two lines.
- LookupCache.Cache.GetEmail: on the stale-refresh path, a `TypeError` raised by the lookup is not modelled as the program handles it.
  - `lookup_email` raises one when the service's JSON body is not an object (src/cache.py:159).
  - The `except TypeError` meant for a missing row (src/cache.py:178) catches it, the lookup runs a second time, and the row read afterwards, the new one, is served (src/cache.py:182-183).
  - The model takes one verification result per call and answers `LookupFailed` there.
- LookupCache.Cache.GetWebpage: the same second lookup follows a `TypeError` raised by the refresh lookup (src/cache.py:125-131); the model answers `LookupFailed` there.
- The SQLite connection, schema scripts, `user_version` migration, date adapters and `__del__` (src/cache.py:19-29, 76-93) are not modelled.
  - The tables are maps from key to stamped row.
- LookupCache.Cache.constructor: models opening an empty database; opening a database that already holds rows is not modelled.
- The process-wide `get_default` cache (src/cache.py:33-38) is not modelled. The cache or the status function is passed explicitly.
- `CacheMissException` and the other message classes of `src/exceptions.py` are not modelled. They become the `CacheError` values `CacheMiss` and `LookupFailed`.
- The command-line interface (`src/main.py`) and the installer (`setup.py`) are not part of this model.
- Some behaviour is exercised by `tests/test_document.py` but absent from `src/document.py`, so it is not modelled:
  - removal of empty and blank links;
  - the `*UNCHECKED*` marker;
  - jump-link marking;
  - e-mail cleaning;
  - `repair`.
  - The test's `##TrackClick##` link is external, but it is not removed, because the removal test is case-sensitive; the model keeps that case-sensitivity.

## Findings

| source | as written | input that shows it | evidently intended | confidence | as-written member | corrected member |
|---|---|---|---|---|---|---|
| src/document.py:48 | `link['target']` is subscripted before comparing with `None`, and subscripting raises `KeyError` when the attribute is absent | an external link without a target, `<a href="https://www.google.com">` (`Newsletter.UntargetedLinkRaises`) | a missing target is set to `_blank`, as `tests/test_document.py:82-83` expects | not executed | Newsletter.RetargetAsWritten | Newsletter.Retarget |
