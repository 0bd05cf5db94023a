/**
 * The central configuration: a map from the process environment to the
 * settings every other component reads.
 */
module Config {
  import opened Text

  /** The process environment: a variable that is unset is absent from the map. */
  type Env = map<string, string>

  datatype DbSettings = DbSettings(host: string, port: int, database: string, user: string, password: string)

  datatype Settings = Settings(
    baseUrl: string,
    browser: string,
    headless: bool,
    slowMo: int,
    timeout: int,
    screenshotOnFailure: bool,
    db: DbSettings)

  const DefaultBaseUrl := "https://www.saucedemo.com"
  const DefaultBrowser := "chromium"
  const DefaultSlowMo := 0
  const DefaultTimeout := 30000
  const DefaultDbHost := "localhost"
  const DefaultDbPort := 5432
  const DefaultDbName := "saucedemo_db"
  const DefaultDbUser := "test_user"
  const DefaultDbPassword := "test_password"

  /** `process.env[key] || fallback`: an unset or empty variable gives `fallback`. */
  function StringOr(env: Env, key: string, fallback: string): (r: string)
    ensures fallback != "" ==> r != ""
  {
    if key in env && env[key] != "" then env[key] else fallback
  }

  /**
   * `parseInt(process.env[key], 10) || fallback`: an unset variable parses to
   * `NaN`, and both `NaN` and `0` are falsy, so both give `fallback`.
   */
  function IntOr(env: Env, key: string, fallback: int): (r: int)
    ensures fallback != 0 ==> r != 0
  {
    var parsed := if key in env then ParseInt(env[key]) else NaN;
    if parsed.Num? && parsed.value != 0 then parsed.value else fallback
  }

  /** `process.env[key] !== 'false'`: only the exact text `false` turns a flag off. */
  predicate NotFalse(env: Env, key: string) {
    !(key in env && env[key] == "false")
  }

  /** The `config` object. */
  function FromEnv(env: Env): (c: Settings)
    ensures c.baseUrl != "" && c.browser != ""
    ensures c.timeout != 0 && c.db.port != 0
  {
    Settings(
      baseUrl := StringOr(env, "BASE_URL", DefaultBaseUrl),
      browser := StringOr(env, "BROWSER", DefaultBrowser),
      headless := NotFalse(env, "HEADLESS"),
      slowMo := IntOr(env, "SLOW_MO", DefaultSlowMo),
      timeout := IntOr(env, "TIMEOUT", DefaultTimeout),
      screenshotOnFailure := NotFalse(env, "SCREENSHOT_ON_FAILURE"),
      db := DbSettings(
        host := StringOr(env, "DB_HOST", DefaultDbHost),
        port := IntOr(env, "DB_PORT", DefaultDbPort),
        database := StringOr(env, "DB_NAME", DefaultDbName),
        user := StringOr(env, "DB_USER", DefaultDbUser),
        password := StringOr(env, "DB_PASSWORD", DefaultDbPassword)))
  }

  /** With nothing set, every setting takes its default. */
  lemma EmptyEnvGivesDefaults()
    ensures FromEnv(map[]) == Settings(
      "https://www.saucedemo.com", "chromium", true, 0, 30000, true,
      DbSettings("localhost", 5432, "saucedemo_db", "test_user", "test_password"))
  {
  }

  /** Browsers run headless unless `HEADLESS` is exactly `false`. */
  lemma HeadlessUnlessFalse(env: Env)
    ensures !FromEnv(env).headless <==> "HEADLESS" in env && env["HEADLESS"] == "false"
  {
  }

  /** Failure screenshots are on unless `SCREENSHOT_ON_FAILURE` is exactly `false`. */
  lemma ScreenshotsUnlessFalse(env: Env)
    ensures !FromEnv(env).screenshotOnFailure <==>
              "SCREENSHOT_ON_FAILURE" in env && env["SCREENSHOT_ON_FAILURE"] == "false"
  {
  }

  /** A `BASE_URL` that is unset or empty gives the public demo site. */
  lemma BaseUrlDefault(env: Env)
    ensures FromEnv(env).baseUrl == DefaultBaseUrl <==>
              "BASE_URL" !in env || env["BASE_URL"] == "" || env["BASE_URL"] == DefaultBaseUrl
  {
  }

  /** A decimal `TIMEOUT` is taken as is, except that `0` falls back to 30000. */
  lemma {:induction false} TimeoutOfDecimal(env: Env, t: int)
    requires "TIMEOUT" in env && env["TIMEOUT"] == IntToString(t)
    ensures FromEnv(env).timeout == if t == 0 then 30000 else t
  {
    ParseIntOfDecimal(t, "");
    assert IntToString(t) + "" == IntToString(t);
  }

  /** A `TIMEOUT` that does not parse falls back to 30000. */
  lemma TimeoutUnparsable(env: Env)
    requires "TIMEOUT" !in env || ParseInt(env["TIMEOUT"]) == NaN
    ensures FromEnv(env).timeout == 30000
  {
  }

  /** A decimal `SLOW_MO` is taken as is. */
  lemma {:induction false} SlowMoOfDecimal(env: Env, t: int)
    requires "SLOW_MO" in env && env["SLOW_MO"] == IntToString(t)
    ensures FromEnv(env).slowMo == t
  {
    ParseIntOfDecimal(t, "");
    assert IntToString(t) + "" == IntToString(t);
  }

  /** A `SLOW_MO` that is unset or does not parse gives 0. */
  lemma SlowMoUnparsable(env: Env)
    requires "SLOW_MO" !in env || ParseInt(env["SLOW_MO"]) == NaN
    ensures FromEnv(env).slowMo == 0
  {
  }

  /** A decimal `DB_PORT` other than 0 is taken as is, otherwise 5432. */
  lemma {:induction false} DbPortOfDecimal(env: Env, p: int)
    requires "DB_PORT" in env && env["DB_PORT"] == IntToString(p)
    ensures FromEnv(env).db.port == if p == 0 then 5432 else p
  {
    ParseIntOfDecimal(p, "");
    assert IntToString(p) + "" == IntToString(p);
  }
}
