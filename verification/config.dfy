/**
 * Configuration resolution of the client constructor: the `fmp` section of a
 * configuration mapping, the API key chosen among the argument, the
 * configuration and the `FMP_API_KEY` environment variable, and the cache
 * and rate-limit settings, each taken from the configuration when the key is
 * present and from the constructor argument otherwise.
 */
module ClientConfig {
  import opened Wrappers
  import Request
  import RequestProperties

  /** A configuration value as YAML or JSON produces it (floats and lists are not modelled). */
  datatype Value =
    | Null
    | Flag(b: bool)
    | Num(n: int)
    | Str(s: string)
    | Dict(entries: map<string, Value>)

  /** Python truthiness: `None`, `False`, `0`, `""` and `{}` are false. */
  predicate Truthy(v: Value) {
    match v
    case Null => false
    case Flag(b) => b
    case Num(n) => n != 0
    case Str(s) => |s| > 0
    case Dict(m) => |m| > 0
  }

  /** An optional string as Python sees it: `None` or the string. */
  function OptionalStr(o: Option<string>): Value {
    match o
    case None => Null
    case Some(s) => Str(s)
  }

  /** `mapping.get(key)`: the entry, or `None` when the key is absent. */
  function DictGet(m: map<string, Value>, key: string): Value {
    if key in m then m[key] else Null
  }

  /** Why the constructor raises. */
  datatype ConfigError =
    | NotAMapping(section: string)  // AttributeError: `.get` on a value that is not a dict
    | MissingApiKey                 // ValueError: no API key anywhere

  /**
   * `_load_config` given a configuration mapping (or `None`): the value under
   * `"fmp"` when that key is present, the whole mapping otherwise, `{}` for no
   * configuration.
   */
  function LoadConfig(config: Option<map<string, Value>>): Value {
    match config
    case None => Dict(map[])
    case Some(m) => if "fmp" in m then m["fmp"] else Dict(m)
  }

  /**
   * `fmp_config.get(key, {})` followed by `.get` on the result: the section
   * when it is a mapping, `{}` when it is absent, and an AttributeError for
   * any other value.
   */
  function Section(fmp: map<string, Value>, key: string): Result<map<string, Value>, ConfigError> {
    if key !in fmp then Success(map[])
    else match fmp[key]
      case Dict(m) => Success(m)
      case _ => Failure(NotAMapping(key))
  }

  /** Section `key` of `fmp` can be read: it is absent or a mapping. */
  predicate Readable(fmp: map<string, Value>, key: string) {
    key !in fmp || fmp[key].Dict?
  }

  /** `section.get(key, argument)`. */
  function Setting(section: map<string, Value>, key: string, argument: Value): Value {
    if key in section then section[key] else argument
  }

  /**
   * Python's `a or b or ...`: the first truthy operand, or the last operand
   * when none is truthy.
   */
  function PyOr(operands: seq<Value>): (r: Value)
    requires |operands| > 0
    ensures Truthy(r) <==> FirstTruthy(operands).Some?
    ensures FirstTruthy(operands).Some? ==> r == operands[FirstTruthy(operands).value]
    ensures FirstTruthy(operands).None? ==> r == operands[|operands| - 1]
  {
    if |operands| == 1 || Truthy(operands[0]) then operands[0] else PyOr(operands[1..])
  }

  /** Position of the first truthy value. */
  function FirstTruthy(vs: seq<Value>): (r: Option<nat>)
    ensures r.Some? ==> r.value < |vs| && Truthy(vs[r.value])
    ensures r.Some? ==> forall j :: 0 <= j < r.value ==> !Truthy(vs[j])
    ensures r.None? <==> forall j :: 0 <= j < |vs| ==> !Truthy(vs[j])
  {
    if |vs| == 0 then None
    else if Truthy(vs[0]) then Some(0)
    else match FirstTruthy(vs[1..])
      case None => None
      case Some(i) => Some(i + 1)
  }

  /** The first truthy of three values. */
  lemma FirstTruthyOfThree(a: Value, b: Value, c: Value)
    ensures FirstTruthy([a, b, c]) ==
      if Truthy(a) then Some(0) else if Truthy(b) then Some(1) else if Truthy(c) then Some(2) else None
  {
    assert [a, b, c][1..] == [b, c];
    assert [b, c][1..] == [c];
    assert [c][1..] == [];
    assert FirstTruthy([c]) == if Truthy(c) then Some(0) else None;
    assert FirstTruthy([b, c]) == if Truthy(b) then Some(0) else if Truthy(c) then Some(1) else None;
  }

  /** The three places an API key can come from, in order of precedence. */
  function KeySources(argument: Option<string>, fmp: map<string, Value>, env: Option<string>): seq<Value> {
    [OptionalStr(argument), DictGet(fmp, "api_key"), OptionalStr(env)]
  }

  /** `api_key or fmp_config.get("api_key") or os.getenv("FMP_API_KEY")`, then `if not api_key: raise ValueError`. */
  function ResolveApiKey(argument: Option<string>, fmp: map<string, Value>, env: Option<string>): (r: Result<Value, ConfigError>)
    ensures r.Failure? ==> r.error == MissingApiKey
    ensures r.Success? ==> Truthy(r.value)
  {
    var key := PyOr(KeySources(argument, fmp, env));
    if Truthy(key) then Success(key) else Failure(MissingApiKey)
  }

  /**
   * The API key is the first of argument, configuration entry and
   * environment variable that is present and non-empty; with none of them,
   * the constructor raises ValueError.
   */
  lemma ApiKeyPrecedence(argument: Option<string>, fmp: map<string, Value>, env: Option<string>)
    ensures var r := ResolveApiKey(argument, fmp, env);
      && (argument.Some? && argument.value != "" ==> r == Success(Str(argument.value)))
      && (!(argument.Some? && argument.value != "") && Truthy(DictGet(fmp, "api_key")) ==> r == Success(fmp["api_key"]))
      && (!(argument.Some? && argument.value != "") && !Truthy(DictGet(fmp, "api_key")) && env.Some? && env.value != "" ==>
            r == Success(Str(env.value)))
      && (r == Failure(MissingApiKey) <==>
            !(argument.Some? && argument.value != "") && !Truthy(DictGet(fmp, "api_key")) && !(env.Some? && env.value != ""))
  {
    FirstTruthyOfThree(OptionalStr(argument), DictGet(fmp, "api_key"), OptionalStr(env));
  }

  /** An empty `FMP_API_KEY` counts as unset. */
  lemma EmptyEnvironmentIsUnset(argument: Option<string>, fmp: map<string, Value>)
    ensures ResolveApiKey(argument, fmp, Some("")) == ResolveApiKey(argument, fmp, None)
  {
    FirstTruthyOfThree(OptionalStr(argument), DictGet(fmp, "api_key"), OptionalStr(Some("")));
    FirstTruthyOfThree(OptionalStr(argument), DictGet(fmp, "api_key"), OptionalStr(None));
  }

  /** The constructor's parameters. The YAML path parameter is not modelled. */
  datatype Arguments = Arguments(
    apiKey: Option<string>,
    config: Option<map<string, Value>>,
    cacheBackend: string,
    cacheName: string,
    cacheExpireAfter: int,
    requestsPerMinute: int,
    rateLimitRetry: bool,
    rateLimitMaxRetries: int)

  /** The constructor's default arguments. */
  const Defaults: Arguments := Arguments(None, None, "sqlite", "fmp_cache", 300, 300, true, 3)

  /** The settings a constructed client holds. */
  datatype Client = Client(
    apiKey: Value,
    cacheBackend: Value,
    cacheName: Value,
    cacheExpireAfter: Value,
    requestsPerMinute: Value,
    rateLimitRetry: Value,
    rateLimitMaxRetries: Value)

  /**
   * The configuration part of `FMPClient.__init__` with environment variable
   * `FMP_API_KEY` equal to `env`: the `fmp` section must be a mapping, then
   * the API key is resolved, then the `cache` and `rate_limit` sections are
   * read, in this order.
   */
  function Init(args: Arguments, env: Option<string>): (r: Result<Client, ConfigError>)
    ensures var fmp := LoadConfig(args.config);
      && (!fmp.Dict? ==> r == Failure(NotAMapping("fmp")))
      && (fmp.Dict? ==>
            var key := ResolveApiKey(args.apiKey, fmp.entries, env);
            && (r == Failure(MissingApiKey) <==> key.Failure?)
            && (r == Failure(NotAMapping("cache")) <==> key.Success? && !Readable(fmp.entries, "cache"))
            && (r == Failure(NotAMapping("rate_limit")) <==>
                  key.Success? && Readable(fmp.entries, "cache") && !Readable(fmp.entries, "rate_limit"))
            && (r.Success? <==> key.Success? && Readable(fmp.entries, "cache") && Readable(fmp.entries, "rate_limit"))
            && (r.Success? ==> r.value.apiKey == key.value && Truthy(r.value.apiKey)))
  {
    var fmp := LoadConfig(args.config);
    if !fmp.Dict? then Failure(NotAMapping("fmp"))
    else
      var apiKey :- ResolveApiKey(args.apiKey, fmp.entries, env);
      var cache :- Section(fmp.entries, "cache");
      var rateLimit :- Section(fmp.entries, "rate_limit");
      Success(Client(
        apiKey,
        Setting(cache, "backend", Str(args.cacheBackend)),
        Setting(cache, "name", Str(args.cacheName)),
        Setting(cache, "expire_after", Num(args.cacheExpireAfter)),
        Setting(rateLimit, "requests_per_minute", Num(args.requestsPerMinute)),
        Setting(rateLimit, "retry", Flag(args.rateLimitRetry)),
        Setting(rateLimit, "max_retries", Num(args.rateLimitMaxRetries))))
  }

  /** The settings arguments of `a` and `b` may differ; nothing else does. */
  predicate SameButSettings(a: Arguments, b: Arguments) {
    a.apiKey == b.apiKey && a.config == b.config
  }

  /** Section `key` of a configuration, empty when absent or not a mapping. */
  function SectionOf(args: Arguments, key: string): map<string, Value> {
    var fmp := LoadConfig(args.config);
    if fmp.Dict? && Section(fmp.entries, key).Success? then Section(fmp.entries, key).value else map[]
  }

  /**
   * A constructor argument matters exactly when the configuration lacks its
   * key: two calls that differ only in their settings arguments build
   * clients that agree on a setting if and only if the configuration has
   * its key or the two arguments agree.
   */
  lemma ArgumentMattersOnlyWithoutKey(a: Arguments, b: Arguments, env: Option<string>)
    requires SameButSettings(a, b)
    requires Init(a, env).Success?
    ensures Init(b, env).Success?
    ensures var ca := Init(a, env).value;
      var cb := Init(b, env).value;
      var cache := SectionOf(a, "cache");
      var rateLimit := SectionOf(a, "rate_limit");
      && (ca.cacheBackend == cb.cacheBackend <==> "backend" in cache || a.cacheBackend == b.cacheBackend)
      && (ca.cacheName == cb.cacheName <==> "name" in cache || a.cacheName == b.cacheName)
      && (ca.cacheExpireAfter == cb.cacheExpireAfter <==> "expire_after" in cache || a.cacheExpireAfter == b.cacheExpireAfter)
      && (ca.requestsPerMinute == cb.requestsPerMinute <==>
            "requests_per_minute" in rateLimit || a.requestsPerMinute == b.requestsPerMinute)
      && (ca.rateLimitRetry == cb.rateLimitRetry <==> "retry" in rateLimit || a.rateLimitRetry == b.rateLimitRetry)
      && (ca.rateLimitMaxRetries == cb.rateLimitMaxRetries <==>
            "max_retries" in rateLimit || a.rateLimitMaxRetries == b.rateLimitMaxRetries)
  {
  }

  /**
   * A configuration entry overrides the constructor argument: two calls that
   * differ only in their settings arguments build clients with the same
   * setting wherever the configuration has the key. (The comments above the
   * settings in the source say the reverse.)
   */
  lemma ConfigOverridesArgument(a: Arguments, b: Arguments, env: Option<string>)
    requires SameButSettings(a, b)
    ensures Init(a, env).Success? <==> Init(b, env).Success?
    ensures Init(a, env).Success? ==>
      var ca := Init(a, env).value;
      var cb := Init(b, env).value;
      var cache := SectionOf(a, "cache");
      var rateLimit := SectionOf(a, "rate_limit");
      && ca.apiKey == cb.apiKey
      && ("backend" in cache ==> ca.cacheBackend == cb.cacheBackend)
      && ("name" in cache ==> ca.cacheName == cb.cacheName)
      && ("expire_after" in cache ==> ca.cacheExpireAfter == cb.cacheExpireAfter)
      && ("requests_per_minute" in rateLimit ==> ca.requestsPerMinute == cb.requestsPerMinute)
      && ("retry" in rateLimit ==> ca.rateLimitRetry == cb.rateLimitRetry)
      && ("max_retries" in rateLimit ==> ca.rateLimitMaxRetries == cb.rateLimitMaxRetries)
  {
  }

  /**
   * What each setting holds, read off the raw configuration `{"fmp": f}`: the
   * entry of the `cache` or `rate_limit` mapping when it has the key, and the
   * constructor argument itself when the section or the key is missing.
   */
  lemma ConfiguredSettings(args: Arguments, env: Option<string>, f: map<string, Value>,
                           cache: map<string, Value>, rateLimit: map<string, Value>)
    requires args.config == Some(map["fmp" := Dict(f)])
    requires "cache" in f ==> f["cache"] == Dict(cache)
    requires "rate_limit" in f ==> f["rate_limit"] == Dict(rateLimit)
    ensures Init(args, env).Success? <==> ResolveApiKey(args.apiKey, f, env).Success?
    ensures Init(args, env).Success? ==>
      var c := Init(args, env).value;
      && ("cache" in f && "backend" in cache ==> c.cacheBackend == cache["backend"])
      && (!("cache" in f && "backend" in cache) ==> c.cacheBackend == Str(args.cacheBackend))
      && ("cache" in f && "name" in cache ==> c.cacheName == cache["name"])
      && (!("cache" in f && "name" in cache) ==> c.cacheName == Str(args.cacheName))
      && ("cache" in f && "expire_after" in cache ==> c.cacheExpireAfter == cache["expire_after"])
      && (!("cache" in f && "expire_after" in cache) ==> c.cacheExpireAfter == Num(args.cacheExpireAfter))
      && ("rate_limit" in f && "requests_per_minute" in rateLimit ==> c.requestsPerMinute == rateLimit["requests_per_minute"])
      && (!("rate_limit" in f && "requests_per_minute" in rateLimit) ==> c.requestsPerMinute == Num(args.requestsPerMinute))
      && ("rate_limit" in f && "retry" in rateLimit ==> c.rateLimitRetry == rateLimit["retry"])
      && (!("rate_limit" in f && "retry" in rateLimit) ==> c.rateLimitRetry == Flag(args.rateLimitRetry))
      && ("rate_limit" in f && "max_retries" in rateLimit ==> c.rateLimitMaxRetries == rateLimit["max_retries"])
      && (!("rate_limit" in f && "max_retries" in rateLimit) ==> c.rateLimitMaxRetries == Num(args.rateLimitMaxRetries))
  {
  }

  /** A configured backend wins over an explicitly passed one. */
  lemma ConfiguredBackendWins()
    ensures var config := map["fmp" := Dict(map["api_key" := Str("k"), "cache" := Dict(map["backend" := Str("memory")])])];
      var r := Init(Defaults.(config := Some(config), cacheBackend := "sqlite"), None);
      r.Success? && r.value.cacheBackend == Str("memory")
  {
  }

  /** Without a configuration every setting is the constructor argument. */
  lemma NoConfigUsesArguments(args: Arguments, env: Option<string>)
    requires args.config.None?
    ensures var r := Init(args, env);
      r.Success? ==>
        && r.value.cacheBackend == Str(args.cacheBackend)
        && r.value.cacheName == Str(args.cacheName)
        && r.value.cacheExpireAfter == Num(args.cacheExpireAfter)
        && r.value.requestsPerMinute == Num(args.requestsPerMinute)
        && r.value.rateLimitRetry == Flag(args.rateLimitRetry)
        && r.value.rateLimitMaxRetries == Num(args.rateLimitMaxRetries)
  {
  }

  /** A key passed directly is the client's key, whatever the environment holds. */
  lemma InitWithApiKey(env: Option<string>)
    ensures Init(Defaults.(apiKey := Some("test-api-key-12345")), env) ==
      Success(Client(Str("test-api-key-12345"), Str("sqlite"), Str("fmp_cache"), Num(300), Num(300), Flag(true), Num(3)))
  {
    ApiKeyPrecedence(Some("test-api-key-12345"), map[], env);
  }

  /** No key anywhere: ValueError. */
  lemma InitWithoutApiKeyRaises()
    ensures Init(Defaults, None) == Failure(MissingApiKey)
  {
    ApiKeyPrecedence(None, map[], None);
  }

  /** A key under `fmp.api_key` of a configuration mapping is used. */
  lemma InitWithConfigDict(env: Option<string>)
    ensures var config := map["fmp" := Dict(map["api_key" := Str("config-key-123")])];
      var r := Init(Defaults.(config := Some(config)), env);
      r.Success? && r.value.apiKey == Str("config-key-123")
  {
    ApiKeyPrecedence(None, map["api_key" := Str("config-key-123")], env);
  }

  /** A flat configuration without the `fmp` wrapper is read directly. */
  lemma InitWithFlatConfig(env: Option<string>)
    ensures var config := map["api_key" := Str("flat-key"), "rate_limit" := Dict(map["requests_per_minute" := Num(750)])];
      var r := Init(Defaults.(config := Some(config)), env);
      r.Success? && r.value.apiKey == Str("flat-key") && r.value.requestsPerMinute == Num(750)
  {
    ApiKeyPrecedence(None, map["api_key" := Str("flat-key"), "rate_limit" := Dict(map["requests_per_minute" := Num(750)])], env);
  }

  /** `fmp: null` in a configuration makes the constructor raise AttributeError. */
  lemma NullFmpSectionRaises(args: Arguments, env: Option<string>)
    requires args.config == Some(map["fmp" := Null])
    ensures Init(args, env) == Failure(NotAMapping("fmp"))
  {
  }

  /**
   * Wrapping a flat configuration under `fmp` changes nothing, and passing no
   * configuration is the same as passing an empty one.
   */
  lemma WrappedConfigIsTransparent(args: Arguments, m: map<string, Value>, env: Option<string>)
    requires "fmp" !in m
    ensures Init(args.(config := Some(map["fmp" := Dict(m)])), env) == Init(args.(config := Some(m)), env)
    ensures Init(args.(config := None), env) == Init(args.(config := Some(map[])), env)
  {
  }

  /** A number as Python's comparisons see it: bool is a subclass of int. */
  function AsInt(v: Value): Option<int> {
    match v
    case Num(n) => Some(n)
    case Flag(b) => Some(if b then 1 else 0)
    case _ => None
  }

  /**
   * The retry policy `_get` runs under for a client and the `max_retries`
   * argument of `_get`; `None` when a numeric setting is not a number (the
   * comparisons in `_check_rate_limit` and `_get` would raise TypeError).
   * The retry flag is used through its truthiness.
   */
  function PolicyOf(c: Client, maxRetries: int): (r: Option<Request.Policy>)
    ensures r.Some? <==> AsInt(c.requestsPerMinute).Some? && AsInt(c.rateLimitMaxRetries).Some?
    ensures r.Some? ==>
              && r.value.requestsPerMinute == AsInt(c.requestsPerMinute).value
              && r.value.max429Retries == AsInt(c.rateLimitMaxRetries).value
              && r.value.retryOn429 == Truthy(c.rateLimitRetry)
              && r.value.maxRetries == maxRetries
  {
    match (AsInt(c.requestsPerMinute), AsInt(c.rateLimitMaxRetries))
    case (Some(rpm), Some(max429)) => Some(Request.Policy(rpm, Truthy(c.rateLimitRetry), max429, maxRetries))
    case _ => None
  }

  /** A default client runs `_get` with 300 requests per minute and three retries of each kind. */
  lemma DefaultPolicy(key: string)
    requires key != ""
    ensures var r := Init(Defaults.(apiKey := Some(key)), None);
      r.Success? && PolicyOf(r.value, 3) == Some(Request.Policy(300, true, 3, 3))
  {
    ApiKeyPrecedence(Some(key), map[], None);
  }

  /**
   * The policy `_get` runs under follows the configuration: a `retry` entry
   * decides whether 429 answers are retried, whatever `rate_limit_retry`
   * argument was passed, and otherwise the argument does.
   */
  lemma PolicyFollowsConfiguration(args: Arguments, env: Option<string>, f: map<string, Value>,
                                   rateLimit: map<string, Value>, maxRetries: int)
    requires args.config == Some(map["fmp" := Dict(f)])
    requires "rate_limit" in f && f["rate_limit"] == Dict(rateLimit)
    requires Init(args, env).Success?
    ensures var p := PolicyOf(Init(args, env).value, maxRetries);
      && ("retry" in rateLimit && p.Some? ==> p.value.retryOn429 == Truthy(rateLimit["retry"]))
      && ("retry" !in rateLimit && p.Some? ==> p.value.retryOn429 == args.rateLimitRetry)
      && ("requests_per_minute" !in rateLimit && "retry" !in rateLimit && "max_retries" !in rateLimit ==>
            p == Some(Request.Policy(args.requestsPerMinute, args.rateLimitRetry, args.rateLimitMaxRetries, maxRetries)))
  {
    assert Readable(f, "cache");
    var cache := if "cache" in f then f["cache"].entries else map[];
    ConfiguredSettings(args, env, f, cache, rateLimit);
    var c := Init(args, env).value;
    if "requests_per_minute" !in rateLimit && "retry" !in rateLimit && "max_retries" !in rateLimit {
      assert AsInt(c.requestsPerMinute) == Some(args.requestsPerMinute);
      assert AsInt(c.rateLimitMaxRetries) == Some(args.rateLimitMaxRetries);
    }
  }

  /**
   * A client configured with `rate_limit: {retry: false}` raises
   * TooManyRequestsException on the first 429 answer without any backoff,
   * whatever `rate_limit_retry` argument was passed.
   */
  lemma ConfiguredNoRetryRaisesOnFirst429(args: Arguments, env: Option<string>, f: map<string, Value>,
                                          rateLimit: map<string, Value>, maxRetries: int,
                                          session: Request.Session, window: seq<int>)
    requires args.config == Some(map["fmp" := Dict(f)])
    requires "rate_limit" in f && f["rate_limit"] == Dict(rateLimit)
    requires "retry" in rateLimit && !Truthy(rateLimit["retry"])
    requires Init(args, env).Success?
    requires PolicyOf(Init(args, env).value, maxRetries).Some?
    requires maxRetries >= 0
    requires session(0).Response? && session(0).status == Request.StatusTooManyRequests
    ensures var r := Request.Get(PolicyOf(Init(args, env).value, maxRetries).value, session, window);
      && r.result == Request.Fail(Request.TooManyRequests)
      && r.effects.calls == 1
      && RequestProperties.Backoffs(r.effects.sleeps) == []
  {
    PolicyFollowsConfiguration(args, env, f, rateLimit, maxRetries);
    RequestProperties.NoRetryOn429(PolicyOf(Init(args, env).value, maxRetries).value, session, window);
  }
}
