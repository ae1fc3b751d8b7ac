/**
 * The configuration `main` derives from the environment: string and integer variables
 * with defaults, the TLS flag, and the read-header timeout in nanoseconds.
 */
module Config {
  import opened Wrappers
  import opened Strconv

  /** The process environment; `os.Getenv` of an unset variable is "". */
  type Env = map<string, string>

  function Getenv(env: Env, key: string): string
  {
    if key in env then env[key] else ""
  }

  /** envOrDefault: a set, non-empty value wins; otherwise the default. */
  function EnvOrDefault(env: Env, key: string, defaultValue: string): (r: string)
    ensures key in env && env[key] != "" ==> r == env[key]
    ensures key !in env || env[key] == "" ==> r == defaultValue
  {
    var value := Getenv(env, key);
    if value != "" then value else defaultValue
  }

  /** intEnvOrDefault: the parsed value when the variable is set and parses, else the default. */
  function IntEnvOrDefault(env: Env, key: string, defaultValue: int): (r: int)
    ensures key !in env || env[key] == "" ==> r == defaultValue
    ensures key in env && Atoi(env[key]).None? ==> r == defaultValue
    ensures key in env && Atoi(env[key]).Some? ==> r == Atoi(env[key]).value
  {
    var value := Getenv(env, key);
    if value != "" then
      match Atoi(value)
      case None => defaultValue
      case Some(result) => result
    else defaultValue
  }

  /** Setting a variable to the decimal text of a 64-bit integer yields that integer. */
  lemma IntEnvReadsBack(env: Env, key: string, n: int, defaultValue: int)
    requires MinInt64 <= n <= MaxInt64
    ensures IntEnvOrDefault(env[key := Itoa(n)], key, defaultValue) == n
  {
    AtoiItoa(n);
  }

  const Millisecond: int := 1_000_000 // nanoseconds, as `time.Millisecond`
  const TwoTo64: int := 0x1_0000_0000_0000_0000

  /** An int64 result of Go arithmetic: the mathematical value wrapped into the int64 range. */
  function WrapInt64(x: int): (r: int)
    ensures MinInt64 <= r <= MaxInt64
    ensures (r - x) % TwoTo64 == 0
    ensures MinInt64 <= x <= MaxInt64 ==> r == x
  {
    (x - MinInt64) % TwoTo64 + MinInt64
  }

  datatype StorageConfig = StorageConfig(
    endpoint: string, accessKey: string, secretKey: string, bucketName: string, useSSL: bool)

  datatype ServerConfig = ServerConfig(port: int, readHeaderTimeout: int)

  datatype Settings = Settings(logLevel: string, storage: StorageConfig, server: ServerConfig)

  /** `time.Duration(ms) * time.Millisecond`, which wraps on overflow like every int64 product. */
  function ReadHeaderTimeout(env: Env): (timeout: int)
    ensures MinInt64 <= timeout <= MaxInt64
    ensures Getenv(env, "SERVER_READ_HEADER_TIMEOUT_IN_MS") == "" ==> timeout == 10000 * Millisecond
  {
    WrapInt64(IntEnvOrDefault(env, "SERVER_READ_HEADER_TIMEOUT_IN_MS", 10000) * Millisecond)
  }

  /** The settings `main` reads before it starts the server. */
  function Load(env: Env): (settings: Settings)
    ensures MinInt64 <= settings.server.port <= MaxInt64
    ensures MinInt64 <= settings.server.readHeaderTimeout <= MaxInt64
    ensures settings.storage.endpoint != "" && settings.storage.bucketName != ""
  {
    Settings(
      EnvOrDefault(env, "LOG_LEVEL", "info"),
      StorageConfig(
        EnvOrDefault(env, "MINIO_ENDPOINT", "localhost:9000"),
        EnvOrDefault(env, "MINIO_ACCESS_KEY", "minioadmin"),
        EnvOrDefault(env, "MINIO_SECRET_KEY", "minioadmin"),
        EnvOrDefault(env, "MINIO_BUCKET", "users"),
        EnvOrDefault(env, "MINIO_USE_SSL", "false") == "true"),
      ServerConfig(
        IntEnvOrDefault(env, "SERVER_PORT", 8080),
        ReadHeaderTimeout(env)))
  }

  /** With nothing set, every setting is its default; the timeout is 10000 ms. */
  lemma Defaults()
    ensures Load(map[]) == Settings(
      "info",
      StorageConfig("localhost:9000", "minioadmin", "minioadmin", "users", false),
      ServerConfig(8080, 10000 * Millisecond))
  {
  }

  /** TLS is used exactly when MINIO_USE_SSL is the literal "true". */
  lemma UseSSLOnlyForTrue(env: Env)
    ensures Load(env).storage.useSSL <==> "MINIO_USE_SSL" in env && env["MINIO_USE_SSL"] == "true"
  {
  }

  /** A millisecond value whose nanoseconds fit in int64 becomes exactly that many milliseconds. */
  lemma ReadHeaderTimeoutInMillis(env: Env, ms: int)
    requires -9_223_372_036_854 <= ms <= 9_223_372_036_854
    ensures ReadHeaderTimeout(env["SERVER_READ_HEADER_TIMEOUT_IN_MS" := Itoa(ms)]) == ms * Millisecond
  {
    IntEnvReadsBack(env, "SERVER_READ_HEADER_TIMEOUT_IN_MS", ms, 10000);
  }

  /** Millisecond values from 9_223_372_036_855 up to 18_446_744_073_709 wrap to `ms * 10^6 - 2^64`, a negative timeout. */
  lemma ReadHeaderTimeoutWraps(env: Env, ms: int)
    requires 9_223_372_036_855 <= ms <= 18_446_744_073_709
    ensures ReadHeaderTimeout(env["SERVER_READ_HEADER_TIMEOUT_IN_MS" := Itoa(ms)]) == ms * Millisecond - TwoTo64 < 0
  {
    IntEnvReadsBack(env, "SERVER_READ_HEADER_TIMEOUT_IN_MS", ms, 10000);
  }
}
