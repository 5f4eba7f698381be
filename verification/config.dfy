/**
 * The configuration values the application core reads (config.py) and the
 * start-up check `Config.validate` (config.py:75-89). Values are taken as
 * already converted; the environment is consulted only for the boolean
 * flags, whose rule is a string comparison.
 */
module Config {
  import opened Text

  datatype Settings = Settings(
    geminiApiKey: string,
    rateLimitEnabled: bool,
    rateLimitPerMinute: int,
    rateLimitPerHour: int,
    redisEnabled: bool,
    cacheEnabled: bool,
    cacheTtl: int,
    serverPort: int,
    maxMessageLength: int
  )

  // ---------------------------------------------------------------------------
  // Boolean flags: `os.getenv(name, default).lower() == "true"`

  /** `os.getenv(name, default)` over an environment given as a map. */
  function GetEnv(env: map<string, string>, name: string, default: string): string {
    if name in env then env[name] else default
  }

  predicate Flag(env: map<string, string>, name: string, default: string) {
    Lower(GetEnv(env, name, default)) == "true"
  }

  predicate RateLimitEnabled(env: map<string, string>) { Flag(env, "RATE_LIMIT_ENABLED", "True") }
  predicate RedisEnabled(env: map<string, string>) { Flag(env, "REDIS_ENABLED", "False") }
  predicate CacheEnabled(env: map<string, string>) { Flag(env, "CACHE_ENABLED", "True") }

  /**
   * A flag is on exactly for the sixteen spellings of "true" in mixed case;
   * "1", "yes" and "on" all leave it off.
   */
  lemma FlagSpellings(env: map<string, string>, name: string, default: string)
    ensures Flag(env, name, default) <==>
      var s := GetEnv(env, name, default);
      |s| == 4 && s[0] in "tT" && s[1] in "rR" && s[2] in "uU" && s[3] in "eE"
  {
    var s := GetEnv(env, name, default);
    if |s| == 4 {
      assert Lower(s) == [LowerChar(s[0]), LowerChar(s[1]), LowerChar(s[2]), LowerChar(s[3])];
    }
  }

  /** With nothing set, rate limiting and the cache are on and Redis is off. */
  lemma DefaultFlags()
    ensures RateLimitEnabled(map[]) && CacheEnabled(map[]) && !RedisEnabled(map[])
  {
    FlagSpellings(map[], "RATE_LIMIT_ENABLED", "True");
    FlagSpellings(map[], "CACHE_ENABLED", "True");
    FlagSpellings(map[], "REDIS_ENABLED", "False");
  }

  /** The values the class attributes take when the environment sets nothing. */
  const Defaults := Settings(
    geminiApiKey := "",
    rateLimitEnabled := true,
    rateLimitPerMinute := 10,
    rateLimitPerHour := 100,
    redisEnabled := false,
    cacheEnabled := true,
    cacheTtl := 3600,
    serverPort := 7860,
    maxMessageLength := 2000
  )

  // ---------------------------------------------------------------------------
  // validate()

  const MissingKey := "GEMINI_API_KEY is not set"
  const BadRateLimit := "RATE_LIMIT_PER_MINUTE must be positive"
  const BadPort := "SERVER_PORT must be between 1 and 65535"

  /** Position of each message in the fixed order key, rate, port. */
  function Rank(msg: string): int {
    if msg == MissingKey then 0 else if msg == BadRateLimit then 1 else 2
  }

  function Validate(c: Settings): (errors: seq<string>)
    ensures MissingKey in errors <==> c.geminiApiKey == ""
    ensures BadRateLimit in errors <==> c.rateLimitPerMinute <= 0
    ensures BadPort in errors <==> c.serverPort < 1 || c.serverPort > 65535
    ensures forall e :: e in errors ==> e == MissingKey || e == BadRateLimit || e == BadPort
    ensures forall i, j :: 0 <= i < j < |errors| ==> Rank(errors[i]) < Rank(errors[j])
    ensures |errors| <= 3
    ensures errors == [] <==>
      c.geminiApiKey != "" && c.rateLimitPerMinute > 0 && 1 <= c.serverPort <= 65535
  {
    (if c.geminiApiKey == "" then [MissingKey] else [])
    + (if c.rateLimitPerMinute <= 0 then [BadRateLimit] else [])
    + (if c.serverPort < 1 || c.serverPort > 65535 then [BadPort] else [])
  }

  /** Out of the box the only complaint is the missing API key. */
  lemma DefaultsLackOnlyTheKey()
    ensures Validate(Defaults) == [MissingKey]
  {
  }
}
