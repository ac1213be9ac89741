# HealthBridge metrics pipeline, modelled in Dafny

This project models the core of AppleHealthDash, a small tool that takes a
person's latest health metrics (step count, resting heart rate, last sleep
duration) from the on-device health store and uploads them to a remote API
with a short-lived bearer token. It also models the command line companion
that resolves such a token and shows a placeholder dashboard.

- `HealthBridge.HealthDataController` (iOS) holds one piece of state: the
  latest snapshot `metrics`, a map from metric key to display string. A fetch
  cycle (`LoadLatestMetrics`) runs the three fetch helpers. It fills a local
  map by conditional inserts and then replaces `metrics` as a whole.
  `SendMetrics` refuses an empty snapshot with error code 1. Otherwise it
  builds a POST carrying the snapshot and the bearer token. It succeeds exactly
  when the reply is an HTTP response with a status in [200, 300). Any other
  reply fails with code 2, and a transport error is passed through.
- `HealthSamples` holds the two fetch helpers. They take what the HealthKit
  query produced as an input. Each yields nothing when the query threw, came
  back empty, or returned a sample of the wrong kind.
- `Decimal` renders integers the way Swift's `String(Int)` does. It proves
  that the rendering reads back with an independent parser.
- `PyText` models Python's `str.isspace` and `str.strip()`.
- `Cli` models the command line tool (`cli.py`): the token resolution, the
  token redaction, the placeholder `fetch_metrics`, and the refresh loop of
  `main` as a trace of events.

`sendMetrics` does no token check. The blank-token guard is in the SwiftUI
button handler (ios/HealthBridgeApp.swift:53-57), so `SendMetrics` takes any
token. A reply that is not an HTTP response fails with code 2
(ios/HealthDataController.swift:68).

## Model

| member | source | states |
|---|---|---|
| `Decimal.NatToDigits` | ios/HealthDataController.swift:33 | the digits of a natural number are non-empty, all decimal digits, and start with '0' only for zero |
| `Decimal.DigitsRoundTrip` | ios/HealthDataController.swift:33 | reading the digits of `n` back gives `n` |
| `Decimal.IntToDecimal` | ios/HealthDataController.swift:33 | `String(n)` reads back as exactly `n`; a non-negative number renders as digits only, a negative one as '-' followed by digits; no leading zero except for zero itself |
| `Decimal.IntToDecimalInjective` | ios/HealthDataController.swift:46 | two different numbers never render alike, so a rendered value identifies the number |
| `HealthSamples.MostRecentQuantitySample` | ios/HealthDataController.swift:73-86 | a value exactly when the query returned and its first sample is a quantity sample, and then that sample's quantity; nothing when the query threw or had no such sample |
| `HealthSamples.MostRecentSleepMinutes` | ios/HealthDataController.swift:88-102 | a span exactly when the query returned and its first sample is a category sample, and then end minus start; nothing when the query threw or had no such sample |
| `HealthSamples.WholeMinutes` | ios/HealthDataController.swift:46 | `Int(minutes)` truncates toward zero: for a non-negative span, the largest whole number of minutes not above it; for a negative one, the smallest not below it |
| `HealthBridge.HeartRateDisplay` | ios/HealthDataController.swift:40 | the heart rate display ends in " bpm", and the text before that suffix reads back as the rate |
| `HealthBridge.HealthDataController.constructor` | ios/HealthDataController.swift:6 | a new controller holds the empty snapshot |
| `HealthBridge.HealthDataController.LoadLatestMetrics` | ios/HealthDataController.swift:28-53 | afterwards each of "steps", "heart_rate_resting" and "sleep_duration_minutes" is present iff its fetch produced a value, with that value's rendering, and no other key is present |
| `HealthBridge.SnapshotDetermined` | ios/HealthDataController.swift:29-52 | the three fetch results fix the snapshot completely, so the old snapshot is replaced and not merged |
| `HealthBridge.SnapshotSize` | ios/HealthDataController.swift:29-48 | a snapshot has one entry per fetch that produced a value, at most three, and is empty when every fetch came back empty |
| `HealthBridge.StepsOnlySnapshot` | ios/HealthDataController.swift:31-35 | 8421 steps and no other sample give exactly {"steps": "8421"} |
| `HealthBridge.HealthDataController.SendMetrics` | ios/HealthDataController.swift:55-71 | an empty snapshot fails with code 1 and no request; otherwise the POST carries the snapshot as its body and "Bearer " + token; it succeeds iff the reply is HTTP with a status in [200, 300), a transport error passes through, and anything else fails with code 2; the body uses only the three metric keys |
| `PyText.Strip` | cli.py:30 | `strip()` leaves no whitespace at either end, yields the empty string only for all-whitespace input, and returns a stripped string unchanged |
| `PyText.StripDecomposes` | cli.py:37 | `strip()` removes only whitespace: the input is a blank prefix, the result and a blank suffix |
| `PyText.StripIdempotent` | cli.py:37 | stripping twice gives the same as stripping once |
| `Cli.PromptForToken` | cli.py:25-33 | a token comes back iff the typed text is not all whitespace, and then it is the stripped text, non-empty and stripped; otherwise the program exits with "A session token is required to continue." |
| `Cli.ResolveToken` | cli.py:36-40 | the stripped APPLE_HEALTH_SESSION_TOKEN wins whenever it is not blank; only a blank or missing variable falls back to the prompt; any token returned is non-empty and stripped |
| `Cli.Redact` | cli.py:87 | the shown token is its first four characters plus "***" when it has at least four, and just "***" otherwise; the visible part is always a prefix of the token |
| `Cli.RedactRevealsOnlyPrefix` | cli.py:87 | tokens that agree on their first four characters, or are both shorter than four, are shown alike |
| `Cli.FetchMetrics` | cli.py:43-51 | the keys are exactly the entries' keys ("label", else "name", else "metric"), every value is "N/A", and there are never more keys than entries |
| `Cli.SleepSeconds` | cli.py:95 | the pause is never negative; it is the interval times 60 for a non-negative interval and 0 for a negative one |
| `Cli.RoundsShape` | cli.py:90-97 | each refresh round without `--once` is one dashboard, then the "Next refresh" notice quoting the configured interval as it is, then a pause of that interval clamped at zero, in seconds |
| `Cli.LoopTraceFacts` | cli.py:90-94 | with `--once` the loop shows one dashboard and never sleeps; every pause taken is non-negative |
| `Cli.RefreshLoop` | cli.py:90-97 | the loop's trace is one dashboard under `--once`, and otherwise rounds of dashboard, notice and pause until the interruption |
| `Cli.Run` | cli.py:80-97 | `main` exits with the prompt's message when no token is given; otherwise it announces the redacted token and then runs the refresh loop |

## Left out

- Authorization: `requestAuthorization` and the `readTypes` set only call into HealthKit, which is a foreign framework. The query descriptor, its seven-day window, its end-date sort and its limit of one are HealthKit's too. Only what a query produced (threw, or returned samples) enters the model.
- Quantity values are whole numbers in the requested unit. `Int(Double)` truncation of a fractional step count is not modelled. Neither is the rounding of a fractional heart rate by `String(format: "%.0f bpm")`, which is floating-point formatting.
- Sleep sample instants are whole seconds. The span in minutes is kept exact as seconds over 60, so sub-second precision of `timeIntervalSince` is not modelled.
- The `if let` lookups of the HealthKit sample types always succeed in the model.
- HealthSamples.MostRecentQuantitySample: takes one query result per metric, and its quantity is already in that metric's unit. Both are assumed. In the source the helper never uses its `type` argument: the query is built only from the date window, the sort and the limit (ios/HealthDataController.swift:73-77). So nothing in the source ties the returned sample to steps or heart rate, or checks that `doubleValue(for: unit)` applies to it.
- HealthSamples.MostRecentSleepMinutes: takes one query result for sleep. That is assumed too, because the helper never uses its `type` argument either (ios/HealthDataController.swift:88-92).
- JSON serialisation of the request body is not modelled: the request's body is the snapshot map itself. `URLSession` is not modelled either: the reply is an input.
- `@MainActor`, `async`/`await`, `@Published` observation and overlapping fetch cycles are concurrency and UI plumbing. The model runs one call at a time.
- ios/HealthBridgeApp.swift is not part of this model: SwiftUI views, button wiring, status messages, display sorting and the token trim guard.
- In cli.py: `parse_args`, `load_config` (file reading and JSON errors), `getpass` echo suppression, `print` formatting and `time.sleep` are I/O. The parsed config, the environment, the typed input and the flags are parameters. Each print of `main` (the token notice, the dashboard, the "Next refresh" notice) and each sleep is a trace event carrying the values printed; the exact text of the lines and the dashboard's header and layout are not modelled.
- `float(config.get("refresh_minutes", 5))` becomes a `real`. Float rounding in `* 60`, NaN and the error raised for a non-numeric value are not modelled.
- Cli.RefreshLoop: the `while True` loop ends in the source only through `--once` or an interruption from outside. The model bounds it with `stopAfter`, the number of pauses before that interruption arrives.
- Cli.FetchMetrics: "later entries overwrite earlier ones" is not visible, because every value is "N/A". The model states the key set and the values only. Config entries are string-to-string maps, as the source's type hints say.
