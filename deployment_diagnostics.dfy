/**
 * The local configuration checks of the deployment diagnostics tool: the ordered
 * rules that report common slowness issues, the ordered optimisation
 * recommendations, and the scheme defaulting of the deployment URL the user enters.
 *
 * What the tool reads from the machine (the `DATABASE_URL` variable, the text of
 * `gunicorn.conf.py`, whether `static` exists, the memory percentage) is passed in
 * as an `Environment`.
 */
module DeploymentDiagnostics {
  import opened Wrappers
  import opened Text

  /** The memory percentage above which the memory issue is reported. */
  const MemoryLimitPercent: real := 90.0

  datatype Environment = Environment(
    databaseUrl: Option<string>,    // `DATABASE_URL`, None when unset
    gunicornConfig: Option<string>, // the text of `gunicorn.conf.py`, None when the file is absent
    memoryPercent: real,            // the virtual memory percentage in use
    staticExists: bool)             // whether `static` exists

  /** Python truthiness of an optional string: set and not empty. */
  predicate Truthy(o: Option<string>) {
    o.Some? && o.value != []
  }

  /** The issues `diagnose_common_issues` can report, in the order its rules run. */
  datatype Issue =
    | SslModeNotOptimized
    | ConnectTimeoutNotSet
    | WorkerContention
    | EventletWorkerRequired
    | HighMemoryUsage(percent: real)

  /** The position of an issue's rule in the rule order. */
  function IssueRank(i: Issue): nat {
    match i
    case SslModeNotOptimized => 0
    case ConnectTimeoutNotSet => 1
    case WorkerContention => 2
    case EventletWorkerRequired => 3
    case HighMemoryUsage(_) => 4
  }

  /** The issue text as the tool prints it; `percentText` is the rendered memory percentage. */
  function IssueMessage(i: Issue, percentText: string): string {
    match i
    case SslModeNotOptimized => "Database SSL mode not optimized"
    case ConnectTimeoutNotSet => "Database connection timeout not set"
    case WorkerContention => "Multiple workers may cause resource contention"
    case EventletWorkerRequired => "SocketIO requires eventlet worker class"
    case HighMemoryUsage(_) => "High memory usage: " + percentText + "%"
  }

  /** The first letter of each issue's text: the memory issue's alone starts with `H`. */
  lemma IssueMessageInitial(i: Issue, percentText: string)
    ensures |IssueMessage(i, percentText)| > 0
    ensures IssueMessage(i, percentText)[0] == 'H' <==> i.HighMemoryUsage?
  {
    match i
    case SslModeNotOptimized =>
    case ConnectTimeoutNotSet =>
    case WorkerContention =>
      assert "Multiple workers may cause resource contention"
          == "Multiple workers " + "may cause resource contention";
      assert ("Multiple workers " + "may cause resource contention")[0] == 'M';
    case EventletWorkerRequired =>
    case HighMemoryUsage(_) =>
      assert ("High memory usage: " + percentText + "%")[0] == "High memory usage: "[0];
  }

  /** Issues of different rules print different texts. */
  lemma IssueMessagesDistinct(a: Issue, b: Issue, percentText: string)
    requires IssueRank(a) != IssueRank(b)
    ensures IssueMessage(a, percentText) != IssueMessage(b, percentText)
  {
    IssueMessageInitial(a, percentText);
    IssueMessageInitial(b, percentText);
  }

  /** Each issue comes from a later rule than the one before it. */
  predicate IssuesInRuleOrder(issues: seq<Issue>) {
    forall i, j | 0 <= i < j < |issues| :: IssueRank(issues[i]) < IssueRank(issues[j])
  }

  /** The one-element list `[x]` when `c` holds, the empty list otherwise. */
  function When<T>(c: bool, x: T): seq<T> {
    if c then [x] else []
  }

  /** The database rules, which run only for a set, non-empty `DATABASE_URL`. */
  function DatabaseIssues(env: Environment): seq<Issue> {
    When(Truthy(env.databaseUrl) &&
         !Contains(env.databaseUrl.value, "sslmode=require") &&
         !Contains(env.databaseUrl.value, "sslmode=prefer"),
         SslModeNotOptimized)
    + When(Truthy(env.databaseUrl) && !Contains(env.databaseUrl.value, "connect_timeout"),
           ConnectTimeoutNotSet)
  }

  /** The gunicorn rules, which run only when its configuration file exists. */
  function ConfigurationIssues(env: Environment): seq<Issue> {
    When(env.gunicornConfig.Some? && !Contains(env.gunicornConfig.value, "workers = 1"), WorkerContention)
    + When(env.gunicornConfig.Some? && !Contains(env.gunicornConfig.value, "eventlet"), EventletWorkerRequired)
  }

  /** The memory rule, which compares strictly. */
  function MemoryIssues(env: Environment): seq<Issue> {
    When(env.memoryPercent > MemoryLimitPercent, HighMemoryUsage(env.memoryPercent))
  }

  /** The issues the diagnosis reports: its three rule groups in the order they run. */
  function Diagnosis(env: Environment): seq<Issue> {
    DatabaseIssues(env) + ConfigurationIssues(env) + MemoryIssues(env)
  }

  /**
   * The database rules: the SSL issue exactly when the URL is set, non-empty and
   * names neither accepted SSL mode; the timeout issue exactly when it is set,
   * non-empty and lacks `connect_timeout`. An unset or empty URL reports neither.
   */
  lemma DatabaseRules(env: Environment)
    ensures SslModeNotOptimized in Diagnosis(env) <==>
              Truthy(env.databaseUrl) &&
              !Contains(env.databaseUrl.value, "sslmode=require") &&
              !Contains(env.databaseUrl.value, "sslmode=prefer")
    ensures ConnectTimeoutNotSet in Diagnosis(env) <==>
              Truthy(env.databaseUrl) && !Contains(env.databaseUrl.value, "connect_timeout")
  {
  }

  /**
   * The gunicorn rules apply only when its configuration exists: the worker
   * issue when it lacks `workers = 1`, the worker-class issue when it lacks `eventlet`.
   */
  lemma ConfigurationRules(env: Environment)
    ensures WorkerContention in Diagnosis(env) <==>
              env.gunicornConfig.Some? && !Contains(env.gunicornConfig.value, "workers = 1")
    ensures EventletWorkerRequired in Diagnosis(env) <==>
              env.gunicornConfig.Some? && !Contains(env.gunicornConfig.value, "eventlet")
  {
  }

  /** The memory issue, carrying the measured percentage, only strictly above 90 percent. */
  lemma MemoryRule(env: Environment)
    ensures HighMemoryUsage(env.memoryPercent) in Diagnosis(env) <==> env.memoryPercent > MemoryLimitPercent
    ensures forall x | x in Diagnosis(env) && x.HighMemoryUsage? :: x.percent == env.memoryPercent
  {
  }

  /** Each rule group is in rule order and reports only issues of its own ranks. */
  lemma GroupRanks(env: Environment)
    ensures IssuesInRuleOrder(DatabaseIssues(env)) && |DatabaseIssues(env)| <= 2
    ensures forall x | x in DatabaseIssues(env) :: IssueRank(x) <= 1
    ensures IssuesInRuleOrder(ConfigurationIssues(env)) && |ConfigurationIssues(env)| <= 2
    ensures forall x | x in ConfigurationIssues(env) :: 2 <= IssueRank(x) <= 3
    ensures IssuesInRuleOrder(MemoryIssues(env)) && |MemoryIssues(env)| <= 1
    ensures forall x | x in MemoryIssues(env) :: x == HighMemoryUsage(env.memoryPercent)
  {
  }

  /** Two lists in rule order, all of the first from earlier rules than any of the second, join in rule order. */
  lemma ConcatInRuleOrder(a: seq<Issue>, b: seq<Issue>, rank: nat)
    requires IssuesInRuleOrder(a) && IssuesInRuleOrder(b)
    requires forall x | x in a :: IssueRank(x) < rank
    requires forall x | x in b :: rank <= IssueRank(x)
    ensures IssuesInRuleOrder(a + b)
  {
  }

  /** The issues come out in rule order, each at most once: SSL, timeout, workers, eventlet, memory. */
  lemma DiagnosisInRuleOrder(env: Environment)
    ensures IssuesInRuleOrder(Diagnosis(env))
    ensures |Diagnosis(env)| <= 5
  {
    GroupRanks(env);
    var db, config, memory := DatabaseIssues(env), ConfigurationIssues(env), MemoryIssues(env);
    ConcatInRuleOrder(db, config, 2);
    forall x | x in db + config ensures IssueRank(x) < 4 { }
    ConcatInRuleOrder(db + config, memory, 4);
  }

  /** The list of texts `diagnose_common_issues` returns, for one rendering of the memory percentage. */
  function DiagnosisTexts(env: Environment, percentText: string): (texts: seq<string>)
    ensures |texts| == |Diagnosis(env)|
    ensures forall i | 0 <= i < |texts| :: texts[i] == IssueMessage(Diagnosis(env)[i], percentText)
  {
    var d := Diagnosis(env);
    seq(|d|, i requires 0 <= i < |d| => IssueMessage(d[i], percentText))
  }

  /** No text is returned twice: each line names a different issue. */
  lemma DiagnosisTextsDistinct(env: Environment, percentText: string)
    ensures forall i, j | 0 <= i < j < |DiagnosisTexts(env, percentText)| ::
              DiagnosisTexts(env, percentText)[i] != DiagnosisTexts(env, percentText)[j]
  {
    DiagnosisInRuleOrder(env);
    var d := Diagnosis(env);
    forall i, j | 0 <= i < j < |d| ensures IssueMessage(d[i], percentText) != IssueMessage(d[j], percentText) {
      IssueMessagesDistinct(d[i], d[j], percentText);
    }
  }

  /**
   * `diagnose_common_issues`, without the printing: the rules append to the
   * issue list one after another.
   */
  method DiagnoseCommonIssues(env: Environment) returns (issues: seq<Issue>)
    ensures issues == Diagnosis(env)
  {
    issues := [];

    if Truthy(env.databaseUrl) {
      var dbUrl := env.databaseUrl.value;
      if !Contains(dbUrl, "sslmode=require") && !Contains(dbUrl, "sslmode=prefer") {
        issues := issues + [SslModeNotOptimized];
      }
      if !Contains(dbUrl, "connect_timeout") {
        issues := issues + [ConnectTimeoutNotSet];
      }
    }
    assert issues == DatabaseIssues(env);

    if env.gunicornConfig.Some? {
      var config := env.gunicornConfig.value;
      if !Contains(config, "workers = 1") {
        issues := issues + [WorkerContention];
      }
      if !Contains(config, "eventlet") {
        issues := issues + [EventletWorkerRequired];
      }
    }
    assert issues == DatabaseIssues(env) + ConfigurationIssues(env);

    if env.memoryPercent > MemoryLimitPercent {
      issues := issues + [HighMemoryUsage(env.memoryPercent)];
    }
  }

  /** The recommendations `optimize_for_deployment` can make, in the order it makes them. */
  datatype Suggestion =
    | AddConnectTimeout
    | StaticCachingConfigured
    | EnableGzip
    | UseCdn

  function SuggestionRank(s: Suggestion): nat {
    match s
    case AddConnectTimeout => 0
    case StaticCachingConfigured => 1
    case EnableGzip => 2
    case UseCdn => 3
  }

  /** The recommendation text as the tool prints it. */
  function SuggestionMessage(s: Suggestion): string {
    match s
    case AddConnectTimeout => "Add connection timeout to DATABASE_URL"
    case StaticCachingConfigured => "Static file caching configured"
    case EnableGzip => "Consider enabling gzip compression in deployment"
    case UseCdn => "Consider using CDN for static assets"
  }

  predicate SuggestionsInOrder(s: seq<Suggestion>) {
    forall i, j | 0 <= i < j < |s| :: SuggestionRank(s[i]) < SuggestionRank(s[j])
  }

  /**
   * The recommendations, rule by rule. The timeout rule looks for
   * `connect_timeout=5`, a longer pattern than the one the diagnosis looks for.
   */
  function Recommendations(env: Environment): seq<Suggestion> {
    var dbUrl := if env.databaseUrl.Some? then env.databaseUrl.value else "";
    When(Truthy(env.databaseUrl) && !Contains(dbUrl, "connect_timeout=5"), AddConnectTimeout)
    + When(env.staticExists, StaticCachingConfigured)
    + [EnableGzip, UseCdn]
  }

  /**
   * The timeout recommendation exactly when the URL is set, non-empty and lacks
   * `connect_timeout=5`; the caching line exactly when `static` exists; and the
   * gzip and CDN advice always, last, in that order.
   */
  lemma RecommendationRules(env: Environment)
    ensures AddConnectTimeout in Recommendations(env) <==>
              Truthy(env.databaseUrl) && !Contains(env.databaseUrl.value, "connect_timeout=5")
    ensures StaticCachingConfigured in Recommendations(env) <==> env.staticExists
    ensures var r := Recommendations(env); 2 <= |r| <= 4 && r[|r| - 2..] == [EnableGzip, UseCdn]
    ensures SuggestionsInOrder(Recommendations(env))
  {
    var timeout := Truthy(env.databaseUrl) && !Contains(env.databaseUrl.value, "connect_timeout=5");
    var r := Recommendations(env);
    if timeout && env.staticExists {
      assert r == [AddConnectTimeout, StaticCachingConfigured, EnableGzip, UseCdn];
    } else if timeout {
      assert r == [AddConnectTimeout, EnableGzip, UseCdn];
    } else if env.staticExists {
      assert r == [StaticCachingConfigured, EnableGzip, UseCdn];
    } else {
      assert r == [EnableGzip, UseCdn];
    }
  }

  /** The printed texts of a list of recommendations, in the same order. */
  function SuggestionTexts(s: seq<Suggestion>): (texts: seq<string>)
    ensures |texts| == |s|
    ensures forall i | 0 <= i < |s| :: texts[i] == SuggestionMessage(s[i])
  {
    seq(|s|, i requires 0 <= i < |s| => SuggestionMessage(s[i]))
  }

  /** The list of texts `optimize_for_deployment` returns. */
  function RecommendationTexts(env: Environment): (texts: seq<string>)
    ensures |texts| == |Recommendations(env)|
    ensures forall i | 0 <= i < |texts| :: texts[i] == SuggestionMessage(Recommendations(env)[i])
  {
    SuggestionTexts(Recommendations(env))
  }

  /** Different recommendations print different texts (their lengths already differ). */
  lemma SuggestionMessagesDistinct(a: Suggestion, b: Suggestion)
    requires a != b
    ensures SuggestionMessage(a) != SuggestionMessage(b)
  {
    assert |SuggestionMessage(a)| != |SuggestionMessage(b)|;
  }

  /** Recommendations in rule order never repeat a text. */
  lemma OrderedSuggestionTextsDistinct(s: seq<Suggestion>)
    requires SuggestionsInOrder(s)
    ensures forall i, j | 0 <= i < j < |s| :: SuggestionTexts(s)[i] != SuggestionTexts(s)[j]
  {
    forall i, j | 0 <= i < j < |s| ensures SuggestionMessage(s[i]) != SuggestionMessage(s[j]) {
      SuggestionMessagesDistinct(s[i], s[j]);
    }
  }

  /** No recommendation text is returned twice. */
  lemma RecommendationTextsDistinct(env: Environment)
    ensures forall i, j | 0 <= i < j < |RecommendationTexts(env)| ::
              RecommendationTexts(env)[i] != RecommendationTexts(env)[j]
  {
    RecommendationRules(env);
    OrderedSuggestionTextsDistinct(Recommendations(env));
  }

  /** `optimize_for_deployment`, without the printing. */
  method OptimizeForDeployment(env: Environment) returns (optimizations: seq<Suggestion>)
    ensures optimizations == Recommendations(env)
  {
    optimizations := [];

    if Truthy(env.databaseUrl) && !Contains(env.databaseUrl.value, "connect_timeout=5") {
      optimizations := optimizations + [AddConnectTimeout];
    }

    if env.staticExists {
      optimizations := optimizations + [StaticCachingConfigured];
    }

    optimizations := optimizations + [EnableGzip];
    optimizations := optimizations + [UseCdn];
  }

  /**
   * Whenever the diagnosis reports a missing connection timeout, the
   * recommendations include adding one: a URL without `connect_timeout` has no
   * `connect_timeout=5` either.
   */
  lemma TimeoutIssueImpliesSuggestion(env: Environment)
    ensures ConnectTimeoutNotSet in Diagnosis(env) ==> AddConnectTimeout in Recommendations(env)
  {
    if ConnectTimeoutNotSet in Diagnosis(env) {
      DatabaseRules(env);
      var dbUrl := env.databaseUrl.value;
      assert !Contains(dbUrl, "connect_timeout=5") by {
        if Contains(dbUrl, "connect_timeout=5") {
          assert "connect_timeout=5" == "connect_timeout" + "=5";
          ContainsPrefixOfPattern(dbUrl, "connect_timeout", "=5");
          assert false;
        }
      }
      RecommendationRules(env);
    }
  }

  /**
   * The converse fails: a URL with a timeout other than 5 seconds passes the
   * diagnosis rule yet still draws the recommendation.
   */
  lemma TimeoutRulesDiffer()
    ensures var env := Environment(Some("connect_timeout=10"), None, 0.0, false);
            ConnectTimeoutNotSet !in Diagnosis(env) && AddConnectTimeout in Recommendations(env)
  {
    var env := Environment(Some("connect_timeout=10"), None, 0.0, false);
    var u := "connect_timeout=10";
    assert StartsWith(u[0..], "connect_timeout");
    forall i | 0 <= i <= |u| ensures !StartsWith(u[i..], "connect_timeout=5") {
      if i == 0 {
        assert u[16] != "connect_timeout=5"[16];
      } else if i == 1 {
        assert u[1] != 'c';
      }
    }
    DatabaseRules(env);
    RecommendationRules(env);
  }

  /** The scheme the tool puts in front of an entered address that lacks one. */
  const DefaultScheme: string := "https://"

  /**
   * The address the tool probes for an entered (already stripped, non-empty)
   * address: it always starts with `http`, it is the entered address itself
   * exactly when that already starts with `http`, and otherwise it is the entered
   * address behind the default scheme.
   */
  function WithDefaultScheme(url: string): (r: string)
    ensures StartsWith(r, "http")
    ensures r == url <==> StartsWith(url, "http")
    ensures r == url || r == DefaultScheme + url
    ensures |url| <= |r| && r[|r| - |url|..] == url
  {
    if StartsWith(url, "http") then url else DefaultScheme + url
  }

  /** Defaulting the scheme twice gives what defaulting it once gives. */
  lemma WithDefaultSchemeIdempotent(url: string)
    ensures WithDefaultScheme(WithDefaultScheme(url)) == WithDefaultScheme(url)
  {
  }

  /**
   * The address handling in the tool's `main`: the entered text is stripped; an
   * empty result skips the deployment probe (None); otherwise the scheme is
   * defaulted.
   */
  method ResolveDeploymentUrl(entered: string) returns (target: Option<string>)
    ensures target.None? <==> forall i | 0 <= i < |entered| :: IsSpace(entered[i])
    ensures target.Some? ==> target.value == WithDefaultScheme(Strip(entered))
  {
    var deploymentUrl := Strip(entered);
    StripSpec(entered);
    if deploymentUrl == [] {
      return None;
    }
    if !StartsWith(deploymentUrl, "http") {
      deploymentUrl := DefaultScheme + deploymentUrl;
    }
    return Some(deploymentUrl);
  }
}
