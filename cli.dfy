/**
 * The command line dashboard: how it settles on a session token, how it shows
 * that token, the placeholder metric map, and the refresh loop of `main`.
 * Reading the config file, prompting without echo, printing and sleeping are
 * the environment's; their inputs and effects appear here as parameters and
 * as events of a trace.
 */
module Cli {
  import opened Wrappers
  import opened PyText

  const TokenEnvVar: string := "APPLE_HEALTH_SESSION_TOKEN"
  const TokenRequiredMessage: string := "A session token is required to continue."
  const DefaultRefreshMinutes: real := 5.0
  const Placeholder: string := "N/A"

  /** A token the tool goes on with, or the message `sys.exit` ends it with. */
  datatype TokenResult = Token(value: string) | Exit(message: string)

  /** `prompt_for_token`, given what the user typed at the hidden prompt: the
      input stripped of surrounding whitespace, or the end of the program when
      nothing but whitespace was typed. */
  function PromptForToken(typed: string): (r: TokenResult)
    ensures r.Token? <==> !AllSpace(typed)
    ensures r.Token? ==> r.value == Strip(typed) && r.value != [] && IsStripped(r.value)
    ensures r.Exit? ==> r.message == TokenRequiredMessage
  {
    var token := Strip(typed);
    if token == [] then Exit(TokenRequiredMessage) else Token(token)
  }

  /** `os.environ.get(name, default)`. */
  function EnvGet(env: map<string, string>, name: string, default: string): string {
    if name in env then env[name] else default
  }

  /** `resolve_token`: the environment variable, stripped, whenever it holds
      something besides whitespace; only otherwise the prompt. Whatever token
      comes back is non-empty and stripped. */
  function ResolveToken(env: map<string, string>, typed: string): (r: TokenResult)
    ensures !AllSpace(EnvGet(env, TokenEnvVar, "")) ==> r == Token(Strip(EnvGet(env, TokenEnvVar, "")))
    ensures AllSpace(EnvGet(env, TokenEnvVar, "")) ==> r == PromptForToken(typed)
    ensures r.Token? ==> r.value != [] && IsStripped(r.value)
  {
    var token := Strip(EnvGet(env, TokenEnvVar, ""));
    if token != [] then Token(token) else PromptForToken(typed)
  }

  /** The token as `main` shows it: at most its first four characters, and
      "***" in place of the rest; a token shorter than four shows nothing. */
  function Redact(token: string): (shown: string)
    ensures |shown| == 7 <==> |token| >= 4
    ensures |shown| == 3 <==> |token| < 4
    ensures shown[|shown| - 3..] == "***"
    ensures shown[..|shown| - 3] <= token
  {
    if |token| >= 4 then token[..4] + "***" else "***"
  }

  /** Two tokens that agree on their first four characters (or are both
      shorter than four) are shown alike: nothing beyond that prefix leaks. */
  lemma RedactRevealsOnlyPrefix(a: string, b: string)
    requires (|a| < 4 && |b| < 4) || (|a| >= 4 && |b| >= 4 && a[..4] == b[..4])
    ensures Redact(a) == Redact(b)
  {
  }

  /** The key a config entry contributes: its "label", else its "name", else
      "metric". */
  function MetricKey(entry: map<string, string>): string {
    if "label" in entry then entry["label"] else if "name" in entry then entry["name"] else "metric"
  }

  /** The keys the configured entries name, one per entry. */
  ghost function KeysOf(entries: seq<map<string, string>>): set<string> {
    set i | 0 <= i < |entries| :: MetricKey(entries[i])
  }

  /** `fetch_metrics`, the placeholder: every configured entry yields its key
      with the value "N/A"; entries sharing a key collapse into one, so there
      are never more keys than entries. The token is not used. */
  function FetchMetrics(token: string, entries: seq<map<string, string>>): (data: map<string, string>)
    ensures data.Keys == KeysOf(entries)
    ensures forall k :: k in data ==> data[k] == Placeholder
    ensures |data| <= |entries|
    decreases |entries|
  {
    if entries == [] then map[]
    else
      var earlier := entries[..|entries| - 1];
      var key := MetricKey(entries[|entries| - 1]);
      var before := FetchMetrics(token, earlier);
      KeysOfPrefix(entries);
      assert |before.Keys + {key}| <= |before.Keys| + 1;
      before[key := Placeholder]
  }

  /** The keys of all entries are those of all but the last, plus the last one's. */
  lemma KeysOfPrefix(entries: seq<map<string, string>>)
    requires entries != []
    ensures KeysOf(entries) == KeysOf(entries[..|entries| - 1]) + {MetricKey(entries[|entries| - 1])}
  {
  }

  /** The pause between two refreshes, in seconds: `max(refresh_minutes, 0) * 60`. */
  function SleepSeconds(refreshMinutes: real): (seconds: real)
    ensures seconds >= 0.0
    ensures refreshMinutes >= 0.0 ==> seconds == refreshMinutes * 60.0
    ensures refreshMinutes <= 0.0 ==> seconds == 0.0
  {
    (if refreshMinutes > 0.0 then refreshMinutes else 0.0) * 60.0
  }

  /** What the tool does that someone can observe. */
  datatype Event =
    | TokenNotice(shown: string)         // "Using session token: ... (not stored)"
    | Dashboard(data: map<string, string>) // one print_metrics
    | RefreshNotice(minutes: real)       // "Next refresh in ... minute(s)..."
    | Sleep(seconds: real)               // one time.sleep
    | Exited(message: string)            // sys.exit with a message

  /** The parsed config file: "refresh_minutes" and "metrics", each optional. */
  datatype Config = Config(refreshMinutes: Option<real>, metrics: Option<seq<map<string, string>>>)

  function RefreshMinutes(config: Config): real {
    if config.refreshMinutes.Some? then config.refreshMinutes.value else DefaultRefreshMinutes
  }

  function ConfiguredMetrics(config: Config): seq<map<string, string>> {
    if config.metrics.Some? then config.metrics.value else []
  }

  /** `k` refresh rounds that each end in a notice and a pause. */
  function Rounds(data: map<string, string>, minutes: real, k: nat): (trace: seq<Event>)
    decreases k
  {
    if k == 0 then []
    else Rounds(data, minutes, k - 1) + [Dashboard(data), RefreshNotice(minutes), Sleep(SleepSeconds(minutes))]
  }

  /** Every round is a dashboard, then the notice quoting the configured
      interval as it is (even when negative), then a pause of that interval
      clamped at zero, in seconds. */
  lemma {:induction false} RoundsShape(data: map<string, string>, minutes: real, k: nat)
    ensures |Rounds(data, minutes, k)| == 3 * k
    ensures forall i :: 0 <= i < 3 * k && i % 3 == 0 ==> Rounds(data, minutes, k)[i] == Dashboard(data)
    ensures forall i :: 0 <= i < 3 * k && i % 3 == 1 ==> Rounds(data, minutes, k)[i] == RefreshNotice(minutes)
    ensures forall i :: 0 <= i < 3 * k && i % 3 == 2 ==> Rounds(data, minutes, k)[i] == Sleep(SleepSeconds(minutes))
    decreases k
  {
    if k > 0 {
      RoundsShape(data, minutes, k - 1);
    }
  }

  /** The trace of the refresh loop: with `--once` one dashboard and no pause;
      otherwise the loop goes on until the process is interrupted, here after
      `stopAfter` pauses. */
  function LoopTrace(token: string, config: Config, once: bool, stopAfter: nat): seq<Event> {
    var data := FetchMetrics(token, ConfiguredMetrics(config));
    if once then [Dashboard(data)]
    else Rounds(data, RefreshMinutes(config), stopAfter) + [Dashboard(data)]
  }

  /** Under `--once` the loop fetches and prints exactly once and never sleeps;
      without it every pause it takes is non-negative. */
  lemma LoopTraceFacts(token: string, config: Config, once: bool, stopAfter: nat)
    ensures once ==> LoopTrace(token, config, true, stopAfter) == [Dashboard(FetchMetrics(token, ConfiguredMetrics(config)))]
    ensures forall i :: 0 <= i < |LoopTrace(token, config, once, stopAfter)| && LoopTrace(token, config, once, stopAfter)[i].Sleep?
              ==> !once && LoopTrace(token, config, once, stopAfter)[i].seconds >= 0.0
  {
    var data := FetchMetrics(token, ConfiguredMetrics(config));
    RoundsShape(data, RefreshMinutes(config), stopAfter);
  }

  /** The `while True` loop of `main`. The source leaves it only through the
      `--once` break or an interruption from outside; `stopAfter` is the number
      of pauses after which that interruption arrives. */
  method RefreshLoop(token: string, config: Config, once: bool, stopAfter: nat) returns (trace: seq<Event>)
    ensures trace == LoopTrace(token, config, once, stopAfter)
  {
    var refreshMinutes := RefreshMinutes(config);
    var metrics := ConfiguredMetrics(config);
    trace := [];
    var slept := 0;
    while true
      invariant slept <= stopAfter
      invariant once ==> slept == 0
      invariant trace == Rounds(FetchMetrics(token, metrics), refreshMinutes, slept)
      decreases stopAfter - slept
    {
      var data := FetchMetrics(token, metrics);
      trace := trace + [Dashboard(data)];
      if once {
        break;
      }
      if slept == stopAfter {
        break;
      }
      var sleepSeconds := SleepSeconds(refreshMinutes);
      trace := trace + [RefreshNotice(refreshMinutes), Sleep(sleepSeconds)];
      slept := slept + 1;
    }
  }

  /** `main` after argument parsing and config loading: settle on a token (or
      exit), announce it redacted, then run the refresh loop. */
  method Run(config: Config, once: bool, env: map<string, string>, typed: string, stopAfter: nat)
    returns (trace: seq<Event>)
    ensures ResolveToken(env, typed).Exit? ==> trace == [Exited(ResolveToken(env, typed).message)]
    ensures ResolveToken(env, typed).Token? ==>
              trace == [TokenNotice(Redact(ResolveToken(env, typed).value))]
                       + LoopTrace(ResolveToken(env, typed).value, config, once, stopAfter)
  {
    var resolved := ResolveToken(env, typed);
    if resolved.Exit? {
      return [Exited(resolved.message)];
    }
    var token := resolved.value;
    var shown := Redact(token);
    var rounds := RefreshLoop(token, config, once, stopAfter);
    trace := [TokenNotice(shown)] + rounds;
  }
}
