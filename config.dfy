/** Package config (app/config/config.go): configuration read from the
    process environment, after an optional `.env` file.  The environment is
    a map from names to values; the `.env` file is None when it cannot be
    loaded, else the assignments it holds. */
module Config {
  import opened Wrappers
  import opened ErrorUtils
  import Decimal

  type Env = map<string, string>

  datatype Config = Config(
    serverAddress: string, serverPort: int,
    dbHost: string, dbPort: int, dbUser: string, dbPassword: string, dbName: string,
    jwtSecretKey: string, jwtExpirationTime: int,
    emailHost: string, emailPort: int, emailUser: string, emailPassword: string, emailFrom: string,
    externalServiceAPIKey: string, externalServiceBaseURL: string,
    databaseURL: string)

  /** os.Getenv: the empty string for a variable that is not set. */
  function Getenv(env: Env, key: string): (v: string)
    ensures key !in env ==> v == ""
    ensures key in env ==> v == env[key]
  {
    if key in env then env[key] else ""
  }

  /** godotenv.Load: the file's assignments for the variables the process
      does not already have. */
  function Loaded(process: Env, dotenv: Option<Env>): (env: Env)
    ensures forall k :: k in process ==> k in env && env[k] == process[k]
    ensures dotenv.Some? ==> forall k :: k in dotenv.value && k !in process ==> k in env && env[k] == dotenv.value[k]
    ensures forall k :: k in env ==> k in process || (dotenv.Some? && k in dotenv.value)
  {
    if dotenv.None? then process else dotenv.value + process
  }

  /** getEnv: the default exactly when the value is empty, set or not. */
  function GetEnv(env: Env, key: string, defaultValue: string): (v: string)
    ensures Getenv(env, key) == "" ==> v == defaultValue
    ensures Getenv(env, key) != "" ==> v == env[key]
  {
    var value := Getenv(env, key);
    if value == "" then defaultValue else value
  }

  /** getEnvAsInt: the parsed value when strconv.Atoi accepts the text,
      the default when it does not (unset, not a number, out of range). */
  function GetEnvAsInt(env: Env, key: string, defaultValue: int): (v: int)
    ensures Decimal.Atoi(Getenv(env, key)).Some? ==> v == Decimal.Atoi(Getenv(env, key)).value
    ensures Decimal.Atoi(Getenv(env, key)).None? ==> v == defaultValue
    ensures key !in env ==> v == defaultValue
  {
    match Decimal.Atoi(Getenv(env, key))
    case Some(value) => value
    case None => defaultValue
  }

  /** LoadConfig: every field from its variable or its default; DatabaseURL
      is never assigned; no error is ever returned. */
  function LoadConfig(process: Env, dotenv: Option<Env>): (r: Result<Config, GoError>)
    ensures r.Success?
    ensures r.value.databaseURL == ""
    ensures r.value.jwtSecretKey == GetEnv(Loaded(process, dotenv), "JWT_SECRET_KEY", "your_secret_key")
    ensures r.value.jwtExpirationTime == GetEnvAsInt(Loaded(process, dotenv), "JWT_EXPIRATION_TIME", 3600)
  {
    var env := Loaded(process, dotenv);
    Success(Config(
      serverAddress := GetEnv(env, "SERVER_ADDRESS", "localhost"),
      serverPort := GetEnvAsInt(env, "SERVER_PORT", 8080),
      dbHost := GetEnv(env, "DB_HOST", "localhost"),
      dbPort := GetEnvAsInt(env, "DB_PORT", 5432),
      dbUser := GetEnv(env, "DB_USER", "postgres"),
      dbPassword := GetEnv(env, "DB_PASSWORD", "admin"),
      dbName := GetEnv(env, "DB_NAME", "perpustakaan_db"),
      jwtSecretKey := GetEnv(env, "JWT_SECRET_KEY", "your_secret_key"),
      jwtExpirationTime := GetEnvAsInt(env, "JWT_EXPIRATION_TIME", 3600),
      emailHost := GetEnv(env, "EMAIL_HOST", "smtp.example.com"),
      emailPort := GetEnvAsInt(env, "EMAIL_PORT", 587),
      emailUser := GetEnv(env, "EMAIL_USER", "your_email_username"),
      emailPassword := GetEnv(env, "EMAIL_PASSWORD", "your_email_password"),
      emailFrom := GetEnv(env, "EMAIL_FROM", "your_email_address"),
      externalServiceAPIKey := GetEnv(env, "EXTERNAL_SERVICE_API_KEY", "your_api_key"),
      externalServiceBaseURL := GetEnv(env, "EXTERNAL_SERVICE_BASE_URL", "https://api.example.com"),
      databaseURL := ""))
  }

  /** With nothing set and no `.env` file, every field takes its default. */
  lemma EmptyEnvironmentDefaults()
    ensures LoadConfig(map[], None) == Success(Config(
              "localhost", 8080, "localhost", 5432, "postgres", "admin", "perpustakaan_db",
              "your_secret_key", 3600,
              "smtp.example.com", 587, "your_email_username", "your_email_password", "your_email_address",
              "your_api_key", "https://api.example.com", ""))
  {
  }

  /** Any int64 written in decimal comes back from getEnvAsInt as itself. */
  lemma {:induction false} GetEnvAsIntReadsDecimal(env: Env, key: string, n: int, defaultValue: int)
    requires Decimal.MinInt64 <= n <= Decimal.MaxInt64
    requires key in env && env[key] == Decimal.Itoa(n)
    ensures GetEnvAsInt(env, key, defaultValue) == n
  {
    Decimal.AtoiItoa(n);
  }

  /** "0" parses, so it gives 0 rather than the default. */
  lemma ZeroIsNotDefault(key: string, defaultValue: int)
    ensures GetEnvAsInt(map[key := "0"], key, defaultValue) == 0
  {
    GetEnvAsIntReadsDecimal(map[key := "0"], key, 0, defaultValue);
  }

  /** A variable set to the empty string counts as unset, even over a `.env`
      value for it; a non-empty process value beats the `.env` file. */
  lemma ProcessEnvironmentWins(process: Env, dotenv: Env, key: string, defaultValue: string)
    requires key in process
    ensures process[key] == "" ==> GetEnv(Loaded(process, Some(dotenv)), key, defaultValue) == defaultValue
    ensures process[key] != "" ==> GetEnv(Loaded(process, Some(dotenv)), key, defaultValue) == process[key]
  {
  }
}
