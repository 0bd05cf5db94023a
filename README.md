# SauceDemo BDD framework — a verified model of its core

This project models the core logic of a Playwright + Cucumber test
framework for the SauceDemo shop. It covers:

- the fixed-delay retry helper;
- the inventory and login page objects;
- the per-scenario world and its `Before`/`After` hooks;
- the browser session manager;
- the mock database utility;
- the environment-driven configuration.

## The driver as an oracle

The browser driver (Playwright) is not modelled. It is an oracle, the class `Driver.Driver`:

- Every call the framework makes on the browser, the filesystem or the report is appended to `trace`, with one exception: `page.url()` (pages/LoginPage.js:58) is a synchronous getter that cannot throw, so `Login.IsOnLoginPage` takes the URL as a parameter and the read is not traced.
- What a call answers depends only on its position `n` in the trace:
  - every traced call except `setDefaultTimeout` throws `fails(n)` when that is `Some`; this includes the synchronous `writeFileSync` and `attach`;
  - otherwise a visibility query there answers `visible(n)`;
  - and a text query there answers `texts(n)`.
- `setDefaultTimeout` is recorded but cannot throw.
- A handle created by the call at position `n` is `Handle(kind, n)`.

Awaited calls run one after another. The first call that throws ends a sequence and its error propagates. `Driver.Issued` and `Driver.Outcome` state this.

## How each part is modelled

Each part takes the form of its source:

- **Retry loop.** `retry` is a `while` loop, proved equal to the specification function `WaitUtils.RetryFrom`.
- **Mutable objects.** The browser manager, the world and the database utility are classes whose methods update their fields.
- **Pure code.** The configuration, the slug, the file-name sanitisation and the URL predicate are functions with lemmas.
- **Page objects.** They are immutable after construction, so they are datatypes over a page handle. Their methods modify only the driver.

## String primitives

The JavaScript string primitives the code relies on are defined in module `Text`:

- `\s`;
- `toLowerCase`;
- `replace(/\s+/g, sep)`;
- `replace(/[:.]/g, '-')`;
- `includes`;
- `parseInt(s, 10)`.

## Model

| member | source | states |
|---|---|---|
| WaitUtils.Retry | support/waitUtils.js:61-71 | the loop returns exactly the result and the call/sleep steps of `RetryFrom`; with `maxRetries < 1` it never calls `fn` and completes with `undefined` |
| WaitUtils.RetryReturnsFirstSuccess | support/waitUtils.js:62-68 | when attempt `k <= maxRetries` is the first success, `retry` returns its value; `fn` was called exactly `k` times with `k - 1` sleeps, and no sleep follows the success |
| WaitUtils.RetryRethrowsLastError | support/waitUtils.js:62-68 | when every attempt fails, `fn` is called exactly `maxRetries` times and the last attempt's error is rethrown unchanged; there are `maxRetries - 1` sleeps and none after the last failure |
| WaitUtils.ScheduleShape | support/waitUtils.js:62-68 | the steps alternate: calls of attempts 1, 2, ... in order, each sleep between two calls, and the steps end with a call |
| WaitUtils.ScheduleCounts | support/waitUtils.js:62-68 | a schedule of attempts `first..last` makes `last - first + 1` calls and one sleep fewer |
| WaitUtils.SucceedsFrom | support/waitUtils.js:62-64 | from any attempt on, the first success ends the loop with its value after the schedule up to it |
| WaitUtils.ExhaustedFrom | support/waitUtils.js:62-67 | from any attempt on, if all remaining attempts fail, the last error is thrown after the full schedule |
| WaitUtils.RetryInvariants | support/waitUtils.js:62-70 | for every `fn`, every sleep lasts `delayMs` (no backoff); the steps never end with a sleep; the result is `undefined` iff no attempt is allowed, iff no step happens |
| WaitUtils.DefaultRetryExhausted | support/waitUtils.js:61-68 | with the defaults 3 and 1000, a function that always fails runs three times with two 1000 ms sleeps, and its third error is thrown |
| Inventory.Slug | pages/InventoryPage.js:53 | the slug contains no whitespace and no upper-case letter |
| Inventory.SlugJoinsWords | pages/InventoryPage.js:53 | a word, then a whitespace run of any length, then the rest: the word is lowercased and the run becomes one `-` |
| Inventory.SlugOfWord | pages/InventoryPage.js:53 | a name without whitespace is only lowercased |
| Inventory.SlugLeadingRun | pages/InventoryPage.js:53 | leading whitespace becomes a leading `-`; the slug does not trim |
| Inventory.PrimarySelector | pages/InventoryPage.js:53-54 | the primary selector is exactly `[data-test="add-to-cart-`, then the slug, then `"]` |
| Inventory.SlugExample | pages/InventoryPage.js:53 | "Sauce Labs Backpack" becomes "sauce-labs-backpack" |
| Inventory.SlugIdempotent | pages/InventoryPage.js:53 | slugging a slug changes nothing |
| Inventory.InventoryPage.IsDisplayed | pages/InventoryPage.js:31-36 | waits for the title, then reads it; the result is true iff the text is "Products"; a throw from either call propagates |
| Inventory.InventoryPage.AddProductToCart | pages/InventoryPage.js:49-68 | clicks the primary `add-to-cart-<slug>` locator with a 5000 ms timeout; the fallback runs only if that throws, and clicks "Add to cart" inside the item whose text contains the name; an uncaught fallback error gives `Unresolved` |
| Inventory.InventoryPage.GetCartBadgeCount | pages/InventoryPage.js:74-81 | a throw of the visibility query propagates; an invisible badge gives 0 without reading its text; otherwise the result is `parseInt` of the text, and a throw while reading propagates |
| Inventory.InventoryPage.GoToCart | pages/InventoryPage.js:86-89 | one click on the cart link; its outcome is returned |
| Inventory.BadgeCountOfDecimal | pages/InventoryPage.js:77-78 | a badge that shows a decimal count reads back as that count, so "2" gives 2 |
| Login.IsOnLoginPage | pages/LoginPage.js:57-60 | the URL is on the login page only if "saucedemo.com" occurs in it, and never when "inventory" occurs in it |
| Login.IsOnLoginPageIff | pages/LoginPage.js:57-60 | `isOnLoginPage` holds iff "saucedemo.com" occurs in the URL and "inventory" does not |
| Login.InventoryUrlIsNotLogin | pages/LoginPage.js:57-60 | any URL in which "inventory" occurs is not the login page |
| Login.RootIsLoginPage | pages/LoginPage.js:57-60 | the site root "https://www.saucedemo.com/" is the login page |
| Login.InventoryIsNotLoginPage | pages/LoginPage.js:57-60 | "https://www.saucedemo.com/inventory.html" is not the login page |
| Login.LoginPage.Navigate | pages/LoginPage.js:26-30 | `goto(baseUrl)`, then `waitForLoadState('domcontentloaded')`, stopping at the first throw |
| Login.LoginPage.Login | pages/LoginPage.js:35-40 | fills the username, then the password, then clicks login, stopping at the first throw |
| Login.LoginOrder | pages/LoginPage.js:35-40 | exactly 1, 2 or 3 of the login calls are issued, depending on which throws first; login succeeds iff none of the three throws |
| Login.LoginPage.GetErrorMessage | pages/LoginPage.js:46-51 | waits for the error element, then returns its text unchanged; a throw propagates |
| Config.FromEnv | config/config.js:7-28 | the base URL and browser are never empty; the timeout and database port are never 0 |
| Config.EmptyEnvGivesDefaults | config/config.js:7-28 | with nothing set, every setting takes its default: https://www.saucedemo.com, chromium, headless, 0, 30000, screenshots on, localhost:5432/saucedemo_db, test_user, test_password |
| Config.HeadlessUnlessFalse | config/config.js:13 | `headless` is false iff `HEADLESS` is exactly `false` |
| Config.ScreenshotsUnlessFalse | config/config.js:18 | `screenshotOnFailure` is false iff `SCREENSHOT_ON_FAILURE` is exactly `false` |
| Config.BaseUrlDefault | config/config.js:9 | the base URL is the demo site iff `BASE_URL` is unset, empty, or that URL itself |
| Config.TimeoutOfDecimal | config/config.js:15 | a decimal `TIMEOUT` is used as is, except that `0` falls back to 30000 |
| Config.TimeoutUnparsable | config/config.js:15 | a `TIMEOUT` that is unset or parses to NaN gives 30000 |
| Config.SlowMoOfDecimal | config/config.js:14 | a decimal `SLOW_MO` is used as is |
| Config.SlowMoUnparsable | config/config.js:14 | a `SLOW_MO` that is unset or parses to NaN gives 0 |
| Config.DbPortOfDecimal | config/config.js:23 | a decimal `DB_PORT` other than 0 is used as is, otherwise 5432 |
| Config.StringOr | config/config.js:9-26 | `env[key] \|\| fallback` is never empty when the fallback is not |
| Config.IntOr | config/config.js:14-23 | `parseInt(env[key]) \|\| fallback` is never 0 when the fallback is not |
| BrowserManagement.EngineFor | support/browserManager.js:23-42 | the engine is Firefox iff the lowercased name is "firefox", WebKit iff it is "webkit", and Chromium otherwise |
| BrowserManagement.EngineIgnoresCase | support/browserManager.js:23 | a name and its lowercase form select the same engine |
| BrowserManagement.EngineMixedCase | support/browserManager.js:23-34 | "Firefox" selects Firefox |
| BrowserManagement.EngineUpperCase | support/browserManager.js:23-37 | "WEBKIT" selects WebKit |
| BrowserManagement.EngineFallback | support/browserManager.js:38-41 | "" and "Edge" fall back to Chromium |
| BrowserManagement.LaunchOptionsFor | support/browserManager.js:24-27 | the launch options carry `headless` and `slowMo` straight from the configuration |
| BrowserManagement.LaunchIssued | support/browserManager.js:31-52 | the launch issues 1, 2 or 4 calls, and all 4 iff neither the launch nor the new context throws |
| BrowserManagement.LaunchOutcome | support/browserManager.js:31-55 | the launch resolves iff the launch, new-context and new-page calls all succeed, and then to the page created by the new-page call |
| BrowserManagement.BrowserManager.constructor | support/browserManager.js:12-16 | a new manager holds no browser, no context and no page |
| BrowserManagement.BrowserManager.Launch | support/browserManager.js:22-56 | issues launch, newContext (1280x720, HTTPS errors ignored), setDefaultTimeout(config.timeout) and newPage, up to the first throw; each field is set only once its call succeeded, and the stored page is returned |
| BrowserManagement.BrowserManager.Close | support/browserManager.js:61-72 | closes the page, then the context, then the browser, skipping unset ones; a failing close does not stop later closes, and the fields are left unchanged |
| BrowserManagement.CloseAttemptsEverySetHandle | support/browserManager.js:61-72 | a handle is closed iff it is set; there is one close per set handle and no other call |
| BrowserManagement.CloseOrder | support/browserManager.js:62-71 | with all three set, the order is page, context, browser |
| BrowserManagement.CloseBeforeLaunch | support/browserManager.js:62-71 | `close` before any launch issues nothing |
| World.PageObjectsOver | support/hooks.js:55-60 | each of the six page objects is constructed over the same page |
| World.CustomWorld.BindPageObjects | support/hooks.js:55-60 | the six page-object fields are set over the given page; the page and the start time are untouched |
| Hooks.StatusLabel | support/hooks.js:94 | the label is PASSED iff the status is PASSED; every other status is labelled FAILED |
| Hooks.ShouldCapture | support/hooks.js:70 | the screenshot gate: a captured scenario is never a passed one, and is labelled FAILED |
| Hooks.ScreenshotGate | support/hooks.js:70 | with the settings taken from the environment, a scenario is captured iff it failed and `SCREENSHOT_ON_FAILURE` is not exactly `false` |
| Hooks.ScenarioDuration | support/hooks.js:66 | an unset (or zero) start time gives a duration of 0; otherwise it is `now - start` |
| Hooks.SanitisedName | support/hooks.js:72 | the sanitised scenario name holds no whitespace |
| Hooks.NameJoinsWords | support/hooks.js:72 | words are kept, and each whitespace run between them becomes one `_` |
| Hooks.SanitisedTimestamp | support/hooks.js:71 | the sanitised timestamp has the same length; each `:` and `.` becomes `-`, and every other character is kept |
| Hooks.IsoTimestampSanitised | support/hooks.js:71 | an ISO timestamp keeps its fields and loses its `:`/`.` separators to `-` |
| Hooks.TimestampExample | support/hooks.js:71 | "2024-01-02T03:04:05.678Z" becomes "2024-01-02T03-04-05-678Z" |
| Hooks.ScreenshotFileName | support/hooks.js:76 | the file name starts with `FAIL_` and ends with `.png` |
| Hooks.ScreenshotPath | support/hooks.js:73-77 | the path is the working directory, then `/screenshots/`, then exactly `ScreenshotFileName` of the scenario name and timestamp, which starts with `FAIL_` and ends with `.png` |
| Hooks.FileNameLayout | support/hooks.js:76 | the file name is `FAIL_`, the sanitised name, `_`, the sanitised timestamp and `.png`, each at its offset |
| Hooks.FileNameHasNoWhitespace | support/hooks.js:71-76 | the file name holds no whitespace once the timestamp holds none |
| Hooks.CaptureAttempt | support/hooks.js:79-88 | with no page, nothing is issued; otherwise what is issued is a non-empty prefix of screenshot, write, attach, every issued call but the last succeeded, and it stops short of all three only because its last call threw |
| Hooks.Before | support/hooks.js:39-61 | records the start time, launches, stores the page, runs `goto(baseUrl)` and `waitForLoadState`, then binds all six page objects to the launched page; a throw at any step leaves the later steps undone and the page objects untouched |
| Hooks.After | support/hooks.js:64-96 | captures a screenshot iff the scenario failed and screenshots are on, swallowing any throw in it; always closes the browser afterwards; returns the status label and duration |
| Hooks.RunScenario | support/hooks.js:39-96 | Before then After: every browser, context and page the launch created is closed, whatever threw; a failed launch issues nothing but itself before teardown; the trace ends with the close calls |
| DbUtils.DatabaseUtils.constructor | support/dbUtils.js:15-18 | a new instance is not connected and has no connection |
| DbUtils.DatabaseUtils.Connect | support/dbUtils.js:28-51 | afterwards the instance is connected, with the mock connection object |
| DbUtils.DatabaseUtils.Query | support/dbUtils.js:64-83 | throws "Database is not connected. Call connect() first." when not connected; otherwise returns no rows |
| DbUtils.FirstRow | support/dbUtils.js:95 | null iff there is no row, otherwise the first row |
| DbUtils.DatabaseUtils.QueryOne | support/dbUtils.js:93-96 | propagates `query`'s error; otherwise null, as the mock has no rows |
| DbUtils.DatabaseUtils.WithTransaction | support/dbUtils.js:112-133 | throws without calling `fn` when not connected; otherwise calls `fn` once and returns its result or rethrows its error unchanged |
| DbUtils.DatabaseUtils.Disconnect | support/dbUtils.js:138-150 | a connected instance becomes not connected with no connection; any other is left as it was; consistency of flag and connection is preserved |
| DbUtils.ConnectQueryDisconnect | support/dbUtils.js:28-150 | a query succeeds between `connect` and `disconnect`, and throws the not-connected error after `disconnect` |
| World.CustomWorld.constructor | support/world.js:11-22 | each world has a new, unlaunched browser manager; no page, no start time, and all six page objects null |
| Text.ToLowerAppend | pages/InventoryPage.js:53 | `toLowerCase` distributes over concatenation |
| Text.ToLowerIdempotent | support/browserManager.js:23 | lowercasing an already lowercased name changes nothing |
| Text.SkipWhitespace | config/config.js:14-15 | `parseInt` first drops the leading whitespace: exactly a run of blanks is removed and what is left does not start with one |
| Text.ReplaceRunsJoinsWords | pages/InventoryPage.js:53 | `replace(/\s+/g, sep)` keeps a word and turns the whitespace run after it into one `sep` |
| Text.ReplaceRunsNoWhitespace | pages/InventoryPage.js:53 | after `replace(/\s+/g, sep)` with a separator free of whitespace, no whitespace is left |
| Text.ContainsIff | pages/LoginPage.js:58-59 | `includes` holds iff the substring occurs at some index |
| Text.ParseIntOfDecimal | pages/InventoryPage.js:78 | `parseInt` reads back every integer written in decimal, whatever non-digit text follows |
| Text.ParseIntNaN | config/config.js:14-15 | text whose first non-blank character is neither a sign nor a digit parses to NaN |
| Driver.IssuedStopsAtFirstFailure | support/hooks.js:79-88 | awaited calls stop exactly at the first throw: all of them succeed iff all are issued and none throws; otherwise the error is that of the last call issued, and every earlier call succeeded |

## Left out

- Inventory.InventoryPage.AddProductToCart: the file header says the fallback locates the button by id. The code filters inventory items by their text, and the model follows the code.
- The wait helpers `waitForElement`, `waitForUrlContains`, `waitForNetworkIdle` and `waitForText` (support/waitUtils.js:17-52) are one-line driver calls with no logic of their own.
- Logging (support/logger.js) is not part of this model; log lines are not recorded in the trace.
- support/reportGenerator.js is not part of this model; it generates an HTML report over file I/O.
- The step definitions (steps/*.js) are not part of this model. Neither is the runner configuration (cucumber.js).
- The cart and checkout page objects are modelled only as values bound to a page. Their locator actions are thin driver wrappers.
- `BeforeAll`/`AfterAll` are left out. They only create the output directories and log.
- `dotenv` loading is left out; the environment is a map given as a parameter.
- WaitUtils.Retry: `setTimeout` is recorded as a `Sleep` step, not performed.
- WaitUtils.Retry: rejections are assumed to be objects. A rejection with `null` or `undefined` makes the catch block's `error.message` throw a TypeError, which ends `retry` at once with no sleep and no further attempt; the model keeps retrying instead.
- WaitUtils.Retry: a non-integer `maxRetries` is not modelled.
- Hooks.After: the clock is a parameter, and the two `Date.now()` readings at support/hooks.js:66 are taken as one `now`. The ISO timestamp and the working directory are parameters too.
- Hooks.After: the seconds formatting `toFixed(2)` and the log lines are left out.
- Hooks.ScreenshotPath: `path.join` is modelled as plain joining with `/`. Its normalisation of the whole joined path is not modelled: `//`, `.` and `..` segments are collapsed there, including ones a scenario name puts into the file name (the sanitised name keeps `/`), so a name such as `a/../b` gives `<cwd>/screenshots/b_<timestamp>.png`, without the `FAIL_` prefix, where the model keeps `FAIL_a/../b_<timestamp>.png`.
- Hooks.After: a null page throws at the first screenshot call, and the throw is swallowed; the model issues nothing in that case.
- Inventory.InventoryPage.IsDisplayed: `textContent()` answers a string; the null it can return for a detached element is not modelled.
- Text.ParseInt: `parseInt` is exact on all integers. JavaScript's double precision beyond 2^53, hexadecimal prefixes with radix 16, and `-0` are not modelled. The last does not matter here, because `|| default` treats 0 and -0 alike.
- Text.LowerChar: `toLowerCase` is modelled on ASCII letters only; non-ASCII case mappings are not modelled.
- DbUtils.DatabaseUtils.WithTransaction: rejections are assumed to be objects. A rejection of `fn` with `null` or `undefined` makes the catch block's `error.message` throw a TypeError instead of rethrowing; the model rethrows the rejection unchanged.
- DbUtils.DatabaseUtils.WithTransaction: `fn` is given as the outcome its call settles to, so what `fn` itself does to the instance is not modelled.
- DbUtils.DatabaseUtils.Query: the parameters are accepted and ignored, as in the mock. The commented-out SQL pseudocode (support/dbUtils.js:153-219) is not code.
- Promise scheduling: everything in the framework is awaited in sequence, and the model is sequential.
