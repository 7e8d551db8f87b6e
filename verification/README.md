# fmp_client request core, in Dafny

This project models the request core of `FMPClient` (`src/fmp_client/client.py`),
a Python client for the Financial Modeling Prep API, and proves properties of it.
It covers four parts:

- **The sliding-window rate limiter** (`_check_rate_limit`, `_record_request`).
  The deque of timestamps of real API calls is a `seq<int>` of millisecond
  clock readings. A check drops entries older than 60 s. At or over the limit
  it sleeps until 100 ms after the oldest remaining call leaves the window.
  The main theorem (`SlidingWindow.SlidingWindowBound`) assumes every call
  waits out the throttle the previous recording imposed. Under that
  assumption, no trailing 60-second window ending at a call holds more than
  `requests_per_minute` calls.
- **The retry loop of `_get`.**
  - The session is an oracle: `session(k)` is the response or exception of
    the k-th call.
  - Sleeps are written to a log instead of being performed.
  - A 429 answer is retried after `2 ** k` seconds while `rate_limit_retry`
    holds and the 429 budget lasts.
  - A transient storage fault on iteration `a` is retried after
    `(a + 1) * 0.5` seconds while the loop budget lasts.
  - Every other outcome ends the call.
  - Both kinds of retry use up the same `max_retries + 1` iterations.
  - `rate_limit_attempts` counts 429 answers only. A storage fault between
    two 429 answers does not change the second one's `2 ** n` backoff
    (`RequestProperties.BackoffSchedule`).
- **The storage-fault classifier** (`SQLITE_RETRY_ERRORS` and the `except
  Exception` branch). The message is lower-cased and then searched for the
  listed fragments as written. "API misuse" and "disk I/O error" contain
  capitals, so they never match. Only "database is locked" and "bad
  parameter" can trigger a retry. The model keeps this behaviour and states
  it as a property (`StorageFault.OnlyLowerCasePatternsMatch`).
- **Configuration resolution in the constructor** (the `config` mapping
  branch of `_load_config`, the API key precedence and the cache and
  rate-limit settings).
  - The code takes each setting from the configuration when the key is
    present, and from the argument only otherwise.
  - The comments at client.py lines 120 and 139 say "params override
    config". The model follows the code (`ClientConfig.ConfigOverridesArgument`).

The modules follow the source:

| module | what it models |
|---|---|
| `Wrappers` | `Option` and `Result` |
| `RateLimiter` | the rate limiter's two methods |
| `SlidingWindow` | the bound the limiter keeps |
| `StorageFault` | the classifier |
| `Request` | one iteration of `_get`'s loop, and `_get` itself |
| `RequestProperties` | whole-run properties of `_get` |
| `ClientConfig` | the constructor's configuration |

Model conventions:

- Time is an integer number of milliseconds.
- `_record_request` reads the clock twice. The model uses a single reading
  `now` for the append and for the check that follows it.
- Exceptions are values: `Request.GetError` for `_get`, and
  `ClientConfig.ConfigError` for the constructor.

## Model

| member | source | states |
|---|---|---|
| RateLimiter.Prune | src/fmp_client/client.py:200-202 | the pruned window is no longer than the input; its first entry is at or after the window start; the newest entry survives when it is inside the window |
| RateLimiter.PruneDropsOldPrefix | src/fmp_client/client.py:200-202 | pruning removes a prefix of the deque, and every removed timestamp is older than the window start |
| RateLimiter.PruneSorted | src/fmp_client/client.py:200-202 | on a time-ordered deque the pruned window stays ordered and lies entirely inside the window |
| RateLimiter.CheckRateLimit | src/fmp_client/client.py:190-211 | proceeds exactly when fewer than `requests_per_minute` calls remain; with a non-positive limit and an empty window it fails on `deque[0]` (IndexError); a sleep always ends 100 ms after the oldest call leaves the 60 s window and lasts at least 100 ms |
| RateLimiter.CheckRateLimitPrunes | src/fmp_client/client.py:196-202 | a check only drops a prefix of the deque, and only calls older than 60 s |
| RateLimiter.RecordRequest | src/fmp_client/client.py:213-218 | the recorded time is the newest entry; the window grows by at most one; the IndexError cannot happen after an append; it sleeps exactly when the window is at or over the limit |
| RateLimiter.RecordRequestPrunes | src/fmp_client/client.py:213-218 | recording appends the time and then drops only calls older than 60 s from the front |
| RateLimiter.RecordKeepsWindowRecent | src/fmp_client/client.py:196-218 | on an ordered deque of past calls, recording keeps it ordered with every call in the last 60 s, and a throttle never exceeds 60.1 s |
| SlidingWindow.RecordStep | src/fmp_client/client.py:213-218 | one recording at an admissible time keeps the deque equal to the recent part of the call history and within the limit |
| SlidingWindow.CountAtRecord | src/fmp_client/client.py:190-218 | the call just recorded sees at most `requests_per_minute` calls in its trailing 60 s |
| SlidingWindow.SlidingWindowBound | src/fmp_client/client.py:190-218 | from a new client's empty deque, when every call honours the previous throttle, every trailing 60-second window ending at a call holds at most `requests_per_minute` calls |
| StorageFault.Lower | src/fmp_client/client.py:284 | `str.lower()` keeps the length, leaves no upper-case letter and changes nothing else |
| StorageFault.OnlyLowerCasePatternsMatch | src/fmp_client/client.py:284-285 | the classifier `IsTransient` (lower-case the message, then look for any of the four listed fragments) accepts a message exactly when its lower-cased text contains "database is locked" or "bad parameter"; the capitalised fragments never match |
| StorageFault.CaseInsensitive | src/fmp_client/client.py:284-285 | the classification does not depend on the letter case of the message |
| StorageFault.LockedDatabaseIsTransient | src/fmp_client/client.py:25-30 | "database is locked" is retried in any letter case |
| StorageFault.MisuseIsTransient | src/fmp_client/client.py:25-30 | SQLite's "bad parameter or other API misuse" is retried |
| StorageFault.DiskIoErrorIsNotTransient | src/fmp_client/client.py:25-30 | "disk I/O error" is not retried although it is listed |
| Request.AfterResponse | src/fmp_client/client.py:248-253 | a cached response changes nothing; any other is recorded once: its time becomes the newest window entry, the window grows by at most one, and a single `Throttle` is logged exactly when the window is at or over the limit, lasting until 100 ms after the oldest kept call leaves the 60 s window |
| Request.AfterResponseWindow | src/fmp_client/client.py:213-218 | the window after a recorded response is a suffix of the old window with the response time appended, losing only calls older than 60 s |
| Request.OnRaised | src/fmp_client/client.py:279-294 | TooManyRequestsException and RequestException are re-raised; any other exception is retried after `(attempt + 1) * 0.5` s exactly when it is transient and `attempt < max_retries`, and re-raised otherwise; the rate window is untouched |
| Request.OnResponse | src/fmp_client/client.py:246-277 | 200 returns the body; 429 counts a hit and continues after a `2 ** hits` s backoff exactly when retries are on and the hit count is within the 429 budget, and raises otherwise; any other status raises with status and body |
| Request.Iteration | src/fmp_client/client.py:244-294 | one iteration makes one session call and records only non-cached responses; it continues exactly on a retryable outcome within budget; when it stops, its result matches the outcome |
| Request.Loop | src/fmp_client/client.py:243-297 | the loop makes at most `max_retries + 1` calls, records exactly the non-cached responses among them and only appends to the sleep log |
| Request.ContinuesOnlyRetryable | src/fmp_client/client.py:258-293 | the loop only continues after a 429 or a transient storage fault; on the last iteration only after a 429 |
| Request.LoopEnding | src/fmp_client/client.py:243-297 | every call but the last was retryable; the last outcome decides the result; the fallback is reached only after `max_retries + 1` calls whose last was a 429 |
| Request.LoopWindow | src/fmp_client/client.py:248-253 | the rate window grows by at most one entry per recorded response |
| Request.LoopWindowUnchanged | src/fmp_client/client.py:248-253 | without a recorded response the window is left exactly as it was |
| Request.Get | src/fmp_client/client.py:220-297 | `_get` makes at most `max_retries + 1` calls and records exactly the non-cached responses; all calls but the last were retryable; the result is the last outcome's, or the "Max retries exceeded" fallback after a final 429; that it continues whenever it may is `RequestProperties.ContinuesWhileAllowed` |
| RequestProperties.BackoffsIgnoreThrottles | src/fmp_client/client.py:253 | throttle sleeps added by recording leave the backoff sleeps unchanged |
| RequestProperties.Schedule429Entries | src/fmp_client/client.py:259-267 | the closed form of the schedule of an all-429 run: entry i is a `2 ** (lo + i + 1)` s backoff; for runs with storage faults in between, `BackoffSchedule` gives the general case |
| RequestProperties.StoreScheduleEntries | src/fmp_client/client.py:287-292 | a storage fault on iteration k is followed by a `(k + 1) * 0.5` s sleep |
| RequestProperties.StepBackoff | src/fmp_client/client.py:256-293 | one iteration adds no backoff when it stops; when it continues it adds `2 ** (hits + 1)` s after a 429 and `(attempt + 1) * 0.5` s after a storage fault; the throttle of a recording is not a backoff |
| RequestProperties.CountedStep | src/fmp_client/client.py:241-268 | an iteration keeps `rate_limit_attempts` equal to the number of 429 answers so far, whatever storage faults come between them |
| RequestProperties.BackoffsFrom | src/fmp_client/client.py:243-297 | from any iteration whose 429 count is right, the loop sleeps exactly the backoff after each call it continues after, in order |
| RequestProperties.BackoffsBetweenEntries | src/fmp_client/client.py:259-292 | entry i of a backoff schedule is the backoff after call `lo + i` |
| RequestProperties.BackoffSchedule | src/fmp_client/client.py:220-297 | in every run of `_get`, the i-th backoff slept follows call i: `2 ** n` s when call i was the n-th 429 answer, `(i + 1) * 0.5` s when it raised a storage fault; there is one after every call but the last, and after the last too when the loop runs out |
| RequestProperties.ContinuesAtStep | src/fmp_client/client.py:256-292 | with `rate_limit_attempts` equal to the number of 429 answers so far, an iteration continues exactly when its answer is a 429 within the 429 budget (retry on) or a transient storage fault with `attempt < max_retries`, and the counter stays the 429 count |
| RequestProperties.ContinuedOnlyWhereAllowed | src/fmp_client/client.py:243-294 | from any iteration, every call the loop continued after was a 429 within the budget or a transient storage fault with iterations left |
| RequestProperties.StopsWhereNotAllowed | src/fmp_client/client.py:243-294 | from any iteration, a result from inside the loop comes from a call after which the loop was not allowed to continue |
| RequestProperties.ContinuesWhileAllowed | src/fmp_client/client.py:243-297 | for every session, `_get` continues after each call up to the first that is neither a 429 within the 429 budget nor a transient storage fault with iterations left, and returns or raises there; the fallback comes only after every iteration continued |
| RequestProperties.MixedRunResult | src/fmp_client/client.py:243-297 | a 429, a locked database, a 429 and then 200 return the body on the fourth call |
| RequestProperties.MixedRun | src/fmp_client/client.py:259-292 | in that run the client sleeps 2 s, 1 s and 4 s: the second 429 answer is the second even though a storage fault came between |
| RequestProperties.Step429 | src/fmp_client/client.py:258-270 | with retries on, a 429 answer continues exactly while the hit count is within budget, adding one backoff, and otherwise raises TooManyRequestsException |
| RequestProperties.Only429sFrom | src/fmp_client/client.py:243-297 | with only 429 answers, the run raises TooManyRequestsException when the 429 budget runs out first, and reaches the fallback when the loop budget runs out first; the number of calls is exact in both cases |
| RequestProperties.Only429sBackoffsFrom | src/fmp_client/client.py:259-267 | the same run sleeps exactly the backoffs `2 ** k` s for each retried 429 answer, in order |
| RequestProperties.Only429s | src/fmp_client/client.py:243-297 | from a fresh call with only 429 answers: TooManyRequestsException after R backoffs when R <= N, otherwise the fallback after N + 1 backoffs |
| RequestProperties.DefaultsOn429s | tests/test_client.py:71-76 | with default settings and only 429 answers the client sleeps 2, 4, 8 s and raises TooManyRequestsException on the fourth call |
| RequestProperties.NoRetryOn429 | src/fmp_client/client.py:258-270 | with 429 retries off or no 429 budget, the first 429 raises at once with no backoff |
| RequestProperties.StoreFaultsFrom | src/fmp_client/client.py:283-294 | a persistent transient fault is retried until the last iteration and re-raised there, with the linear sleep schedule and the window untouched |
| RequestProperties.PersistentStoreFault | src/fmp_client/client.py:283-294 | a transient fault on every call gives `max_retries + 1` calls, sleeps of 0.5, 1.0, ... s, and the fault re-raised |
| RequestProperties.DefaultsOnLockedDatabase | src/fmp_client/client.py:283-294 | with default settings a locked database is retried after 0.5, 1 and 1.5 s and then re-raised |
| RequestProperties.MaxRetriesReachableWithDefaults | src/fmp_client/client.py:296-297 | the fallback that the source comments "should never be reached" is reached with defaults in the model, where the rate limiter's lock is left out: a locked database, then 429 answers |
| RequestProperties.FirstAnswerOk | tests/test_client.py:45-51 | a 200 answer on the first call returns its body after one call and no backoff |
| RequestProperties.NonRetryableStatus | src/fmp_client/client.py:271-277 | a status other than 200 and 429 at call k allows no call after it; a run that reaches call k raises RequestException with that status and body |
| RequestProperties.CachedRunLeavesWindow | src/fmp_client/client.py:248-250 | a run in which every response comes from the cache records nothing, leaves the rate window as it was and never throttles |
| ClientConfig.FirstTruthy | src/fmp_client/client.py:109-113 | the position of the first truthy value, before which nothing is truthy; none exactly when no value is truthy |
| ClientConfig.PyOr | src/fmp_client/client.py:109-113 | a Python `or` chain is truthy exactly when some operand is, and is then the first truthy operand, otherwise the last operand |
| ClientConfig.ResolveApiKey | src/fmp_client/client.py:108-118 | a resolved key is truthy; the only error is the missing-key ValueError |
| ClientConfig.ApiKeyPrecedence | src/fmp_client/client.py:108-118 | the key is the argument if non-empty, else a truthy `fmp.api_key`, else a non-empty `FMP_API_KEY`; ValueError exactly when none of them is present |
| ClientConfig.EmptyEnvironmentIsUnset | src/fmp_client/client.py:112-114 | an empty `FMP_API_KEY` counts as unset |
| ClientConfig.Init | src/fmp_client/client.py:106-147 | the client's key is the resolved key; the constructor raises AttributeError for a non-mapping `fmp` section, ValueError exactly when no key resolves, and then AttributeError exactly when the `cache` or, after it, the `rate_limit` entry is present and not a mapping; it succeeds in every other case |
| ClientConfig.ConfigOverridesArgument | src/fmp_client/client.py:120-147 | the arguments cannot change a setting that the configuration has; construction succeeds for both argument sets or for neither, with the same key |
| ClientConfig.ArgumentMattersOnlyWithoutKey | src/fmp_client/client.py:120-147 | two clients built with different settings arguments agree on a setting if and only if the configuration has its key or the two arguments agree: `section.get(key, argument)` uses the argument exactly when the key is missing |
| ClientConfig.ConfiguredSettings | src/fmp_client/client.py:120-147 | for a configuration `{"fmp": f}`, construction succeeds exactly when the key resolves, and each of the six settings is the entry of the `cache` or `rate_limit` mapping when that mapping has the key, and the constructor argument itself when the section or the key is missing |
| ClientConfig.ConfiguredBackendWins | src/fmp_client/client.py:120-122 | a configured backend "memory" wins over an explicit "sqlite" argument |
| ClientConfig.NoConfigUsesArguments | src/fmp_client/client.py:159-176 | without a configuration every setting is the constructor argument |
| ClientConfig.InitWithApiKey | tests/test_client.py:25-28 | a client built with a direct key holds that key and the default settings |
| ClientConfig.InitWithoutApiKeyRaises | tests/test_client.py:30-33 | with no key anywhere the constructor raises ValueError |
| ClientConfig.InitWithConfigDict | tests/test_client.py:35-39 | a key under `fmp.api_key` of a configuration mapping is used |
| ClientConfig.InitWithFlatConfig | src/fmp_client/client.py:165-166 | a configuration without the `fmp` wrapper is read directly |
| ClientConfig.WrappedConfigIsTransparent | src/fmp_client/client.py:159-176 | wrapping a flat configuration under `fmp` builds the same client, and passing no configuration is the same as passing an empty one |
| ClientConfig.NullFmpSectionRaises | src/fmp_client/client.py:166 | `fmp: null` makes the constructor raise AttributeError |
| ClientConfig.PolicyFollowsConfiguration | src/fmp_client/client.py:139-147 | the retry policy `PolicyOf` derives from a constructed client takes its 429 retry flag from the configuration's `retry` entry when present, whatever the argument, and from the argument otherwise; with no rate-limit keys configured the policy is made of the three arguments |
| ClientConfig.ConfiguredNoRetryRaisesOnFirst429 | src/fmp_client/client.py:258-270 | through `Init`, `PolicyOf` and `_get`: a client configured with `rate_limit: {retry: false}` raises TooManyRequestsException on a first 429 answer after one call and no backoff, whatever `rate_limit_retry` argument was passed |
| ClientConfig.DefaultPolicy | src/fmp_client/client.py:58-69 | a default client runs `_get` with 300 requests per minute and three retries of each kind |

## Left out

- The `threading.Lock` is left out. `_record_request` holds the non-reentrant
  lock while calling `_check_rate_limit`, which acquires it again; in Python
  this blocks. The model runs the append and then the check, as the
  docstring at client.py:214 and the comment at client.py:217 describe.
  Concurrent callers are not modelled.
- `RateLimiter.RecordRequest`: `time.time()` is read twice, once for the
  append and once in the check. The model uses one reading, and the clock
  is an integer number of milliseconds instead of a float of seconds.
- Real sleeping and the clock are left out. Sleeps are entries of a log.
  Clock readings are part of each session outcome (`Outcome.at`).
- The session (`CachedSession` from requests-cache, its SQLite backend and
  expiry, the URL and query parameters) is an oracle. Nothing it does
  internally is modelled.
- `_configure_sqlite_wal` is left out: it is a side effect on the database
  file whose failures are only logged.
- `response.json()` decoding is left out: the body is an opaque string, and
  a decoding error is not modelled.
- `Request.Outcome`: `hasattr(response, "from_cache")` is folded into a
  boolean `fromCache`.
- Logging is left out.
- The `config_path` branch of `_load_config` is left out: it reads a YAML
  file (file I/O, FileNotFoundError).
- `ClientConfig.Value` has no floats or lists, and Python's `bool`/`int`
  mixing only appears in `ClientConfig.AsInt`.
- `ClientConfig.PolicyOf`: a non-numeric `requests_per_minute` or
  `rate_limit_max_retries` yields `None`, and then no run of `_get` is
  modelled. Python only fails with a TypeError when it compares that
  setting. `requests_per_minute` is compared at client.py:205, which is
  reached only after a non-cached response. `rate_limit_max_retries` is
  compared at client.py:260 only after a 429 answer with a truthy retry
  flag, because of the short-circuit `and`. Runs that never reach those
  comparisons proceed normally in Python.
- `ClientConfig.Init` does not construct the `CachedSession`. Rejections
  by `CachedSession` or `timedelta` of odd cache settings are not modelled.
- `StorageFault.Lower` lower-cases ASCII letters only. Python's
  `str.lower()` also folds other Unicode letters.
- `clear_cache`, `_to_dataframe`, and the endpoint wrappers built on `_get`
  (`get_quote`, ...) are left out. So are input validation such as the
  symbol type check, and the accessors.
