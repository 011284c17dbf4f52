# Performance monitor and deployment diagnostics, modelled in Dafny

This project models two self-contained parts of an app-review dashboard service
written in Python with Flask.

The **performance monitor** (`performance_monitor.py`) watches every request.
A Flask `after_request` hook appends each request's duration to `request_times`.
When the duration is strictly above 2.0 seconds, it also appends a record (URL, method,
duration, memory delta, timestamp) to `slow_requests`. It then cuts `request_times`
back to its newest 100 entries and `slow_requests` to its newest 20.
`get_stats` summarises the two windows for the `/performance` endpoint.
`add_cache_headers` makes a status-200 response publicly cacheable.

The model is the class `PerformanceMonitoring.PerformanceMonitor`. It has the two windows
as `seq` fields and a ghost `log` of every completed request. Its invariant `Valid()`
says that each window is the newest slice of that history, in arrival order.
`AfterRequest` changes the fields in place. It takes the measured duration, memory delta
and timestamp as parameters. It also takes `hasStart`, which stands for the Flask
`g.start_time` check.

The **deployment diagnostics** tool (`deployment_diagnostics.py`) has ordered rule sets.
`diagnose_common_issues` runs substring tests on `DATABASE_URL`, substring tests on the
text of `gunicorn.conf.py`, and a strict threshold test on the memory percentage.
`optimize_for_deployment` runs its own checks and always ends with two fixed
recommendations. The tool's `main` strips the entered deployment address and puts
`https://` in front of it when it does not start with `http`.
Each checker is an imperative method that appends to its list. It is proved equal to a
declarative function (`Diagnosis`, `Recommendations`, `WithDefaultScheme`), and the rule
properties are lemmas about that function. The environment is passed in explicitly as
an `Environment`: the URL and config are `Option<string>` (`None` when unset or absent),
plus the memory percentage and whether `static` exists.

`Text` gives Python's `in` (substring), `startswith` and `strip` on strings.
`Wrappers` gives `Option`.

Notes on the two timeout rules: the diagnosis looks for `connect_timeout`, but the
recommendation looks for `connect_timeout=5`. So a URL that reports the timeout issue
always also gets the recommendation. The reverse does not hold: a URL with
`connect_timeout=10` gets the recommendation but not the issue (`TimeoutRulesDiffer`).

## Model

| member | source | states |
|---|---|---|
| `PerformanceMonitoring.PerformanceMonitor.constructor` | performance_monitor.py:16-19 | A new monitor has empty windows and an empty history, and its invariant holds |
| `PerformanceMonitoring.PerformanceMonitor.AfterRequest` | performance_monitor.py:39-66 | Keeps the invariant and returns the response unchanged. With no start time, nothing changes. Otherwise the request joins the history, its duration joins the window cut to 100, and its record joins the slow window cut to 20 exactly when the duration is above 2.0. Both caps hold afterwards and every slow record is above 2.0 |
| `PerformanceMonitoring.WindowsHoldNewest` | performance_monitor.py:46-64 | Under the invariant, `requestTimes` holds exactly the last min(100, n) recorded durations, oldest first and newest last. `slowRequests` holds exactly the last min(20, s) of the s slow records, in arrival order, each slow and each taken from the history |
| `PerformanceMonitoring.NewestAppend` | performance_monitor.py:60-64 | Appending to a trimmed window and trimming again gives the newest entries of the whole history: trimming after each request loses nothing a single final trim would keep |
| `PerformanceMonitoring.RecordStep` | performance_monitor.py:46-64 | One more request moves both windows exactly as the hook's append-then-trim does, and the slow window moves only for a duration above 2.0 |
| `PerformanceMonitoring.SlowOnes` | performance_monitor.py:49-56 | The slow records of a history: every one is above 2.0 (2.0 itself is not slow), and a record is among them exactly when it is in the history and slow |
| `PerformanceMonitoring.SlowOnesAppend` | performance_monitor.py:49-56 | Recording a request adds it to the slow records, at the end, exactly when its duration is above 2.0 |
| `PerformanceMonitoring.Newest` | performance_monitor.py:60-64 | The trimmed window has min(n, length) entries and is the tail of the list |
| `PerformanceMonitoring.MaxOf` | performance_monitor.py:74 | The maximum of a non-empty duration list is one of its elements and is at least every element |
| `PerformanceMonitoring.PerformanceMonitor.GetStats` | performance_monitor.py:68-89 | `no_data` exactly when no duration is tracked. Otherwise the counts equal the window sizes, the maximum duration is tracked and bounds every tracked one, and the recent slow list is the last min(5, len) slow records |
| `PerformanceMonitoring.StatsFollowHistory` | performance_monitor.py:70-81 | A monitor reports `no_data` exactly when no request was ever recorded; otherwise it reports min(n, 100) requests tracked |
| `PerformanceMonitoring.AddCacheHeaders` | performance_monitor.py:118-123 | A status-200 response gets `max_age` equal to the timeout (300 when none is given) and becomes public; status and body are kept; any other response comes back unchanged |
| `PerformanceMonitoring.AddCacheHeadersIdempotent` | performance_monitor.py:118-123 | Adding the cache headers twice gives the same response as adding them once |
| `DeploymentDiagnostics.DiagnoseCommonIssues` | deployment_diagnostics.py:84-120 | The issue list the rules build step by step is exactly `Diagnosis(env)` |
| `DeploymentDiagnostics.DatabaseRules` | deployment_diagnostics.py:90-97 | SSL issue exactly when the URL is set, non-empty and has neither `sslmode=require` nor `sslmode=prefer`. Timeout issue exactly when it is set, non-empty and lacks `connect_timeout`. An unset or empty URL gives neither |
| `DeploymentDiagnostics.ConfigurationRules` | deployment_diagnostics.py:99-106 | The worker issue exactly when the config exists and lacks `workers = 1`, the eventlet issue exactly when it exists and lacks `eventlet` |
| `DeploymentDiagnostics.MemoryRule` | deployment_diagnostics.py:108-111 | The memory issue, carrying the measured percentage, exactly when the percentage is strictly above 90 |
| `DeploymentDiagnostics.DiagnosisInRuleOrder` | deployment_diagnostics.py:88-111 | Issues come out in rule order (SSL, timeout, workers, eventlet, memory), each at most once, at most five |
| `DeploymentDiagnostics.OptimizeForDeployment` | deployment_diagnostics.py:122-148 | The recommendation list built step by step is exactly `Recommendations(env)` |
| `DeploymentDiagnostics.RecommendationRules` | deployment_diagnostics.py:128-142 | Timeout advice exactly when the URL is set, non-empty and lacks `connect_timeout=5`. Caching line exactly when `static` exists. Gzip then CDN always come last. The list is in rule order |
| `DeploymentDiagnostics.TimeoutIssueImpliesSuggestion` | deployment_diagnostics.py:96-132 | Whenever the diagnosis reports a missing connection timeout, the recommendations include adding one |
| `DeploymentDiagnostics.TimeoutRulesDiffer` | deployment_diagnostics.py:129-132 | For `DATABASE_URL=connect_timeout=10` the diagnosis reports no timeout issue, yet the recommendation to add a timeout is made |
| `DeploymentDiagnostics.IssueMessagesDistinct` | deployment_diagnostics.py:93-111 | Two different kinds of issue never print the same text, whatever the rendered memory percentage |
| `DeploymentDiagnostics.DiagnosisTexts` | deployment_diagnostics.py:88-120 | The returned list has one text per diagnosed issue, in the same order, each the issue's printed message |
| `DeploymentDiagnostics.DiagnosisTextsDistinct` | deployment_diagnostics.py:88-120 | No text appears twice in the list `diagnose_common_issues` returns |
| `DeploymentDiagnostics.SuggestionMessagesDistinct` | deployment_diagnostics.py:131-142 | Two different recommendations never print the same text |
| `DeploymentDiagnostics.RecommendationTexts` | deployment_diagnostics.py:126-148 | The returned list has one text per recommendation, in the same order, each the recommendation's printed message |
| `DeploymentDiagnostics.RecommendationTextsDistinct` | deployment_diagnostics.py:126-148 | No text appears twice in the list `optimize_for_deployment` returns |
| `DeploymentDiagnostics.WithDefaultScheme` | deployment_diagnostics.py:161-163 | The result starts with `http`. It equals the address exactly when the address already starts with `http`; otherwise it is `https://` followed by the address. The address is kept whole at the end |
| `DeploymentDiagnostics.WithDefaultSchemeIdempotent` | deployment_diagnostics.py:162-163 | Defaulting the scheme twice gives the same address as defaulting it once |
| `DeploymentDiagnostics.ResolveDeploymentUrl` | deployment_diagnostics.py:159-163 | The probe is skipped exactly when the entered text is all whitespace; otherwise the address probed is the stripped text with its scheme defaulted |
| `Text.StripSpec` | deployment_diagnostics.py:159 | `strip()` keeps a contiguous piece of the input with no whitespace at either end, everything it removes before and after that piece is whitespace, and it keeps nothing exactly when the input is all whitespace |
| `Text.ContainsPrefixOfPattern` | deployment_diagnostics.py:96-130 | A string that contains `p + q` contains `p`, as with `connect_timeout=5` and `connect_timeout` |

## Left out

- The webhook ingestion pipeline and its keep-newest-100 retention of stored reviews are not part of this model: the modelled files do not contain that code.
- `get_stats`: the average response time, the `round(...)` calls, and the process memory and CPU figures are not modelled. They are floating-point arithmetic and `psutil` probes. The maximum is modelled unrounded.
- `before_request`, `time.time()` and `psutil`: the duration, memory delta and timestamp are parameters of `AfterRequest`.
- Flask `g` and `request` are replaced by parameters. `hasStart` stands for `hasattr(g, 'start_time')`, and `url` and `httpMethod` stand for `request.url` and `request.method`.
- `init_app` (hook and route registration) and the slow-request log warning are Flask glue and logging.
- `AfterRequest`: Flask may run hooks on several threads, and the Python lists are not locked. The model is sequential.
- `performance_timer` only times and logs. `optimize_database_queries` disposes of a connection pool. Both are foreign calls.
- `AddCacheHeaders`: a response is modelled by its status code, body and the two `Cache-Control` directives it sets. The default timeout of 300 is the default argument `DefaultCacheTimeout`.
- `check_deployment_health` makes HTTP probes with timeouts and prints the results. It is network I/O.
- `main`: the printing, the banner, the performance tips and the `input()` call are left out. The entered text is a parameter of `ResolveDeploymentUrl`.
- `diagnose_common_issues` and `optimize_for_deployment`: the printing of the lists is left out. Environment variables, file existence, file reading and `psutil.virtual_memory()` are fields of `Environment`.
- `IssueMessage`: the memory issue text contains the percentage as Python renders a float. The model takes that rendering as a text parameter.
- `diagnose_common_issues`: when `gunicorn.conf.py` exists but cannot be read, the source raises out of `open`. `Environment` has no case for that error, so the model always treats an existing config as read.
- Python floats (durations, memory delta, timestamps, the memory percentage) are modelled as exact `real` numbers. Rounding and NaN are not modelled.
- `Text.IsSpace` lists the code points Python's `str.isspace()` accepts. Any difference between Unicode versions is not modelled.
- `deployment_verification.py`, `gunicorn.conf.py`, `main.py`, `main_wsgi_compat.py`, `wsgi.py`, `app.py` and `models.py` are not part of this model. They are process launching, HTTP probes, server settings with logging hooks, Flask/SQLAlchemy/SocketIO bootstrap, and ORM column declarations.
