/**
 * The Cucumber hooks around every scenario: `Before` launches a browser,
 * opens the base URL and binds the page objects; `After` captures a
 * screenshot of a failed scenario, always tears the browser down, and
 * labels the outcome.
 */
module Hooks {
  import opened Wrappers
  import opened Text
  import opened Driver
  import opened Config
  import opened BrowserManagement
  import opened World
  import Login

  /** Cucumber's result statuses. */
  datatype Status = Unknown | Passed | Skipped | Pending | Undefined | Ambiguous | Failed

  const PassedLabel := "\U{2713} PASSED"
  const FailedLabel := "\U{2717} FAILED"
  const ScreenshotMediaType := "image/png"

  /** The label logged for a finished scenario: PASSED only for a passed one. */
  function StatusLabel(status: Status): (text: string)
    ensures text == PassedLabel <==> status == Passed
    ensures text == FailedLabel <==> status != Passed
  {
    if status == Passed then PassedLabel else FailedLabel
  }

  /**
   * A screenshot is taken iff the scenario failed and screenshots on failure
   * are on; a captured scenario is always labelled FAILED.
   */
  predicate ShouldCapture(status: Status, cfg: Settings): (capture: bool)
    ensures capture ==> StatusLabel(status) == FailedLabel && status != Passed
  {
    status == Failed && cfg.screenshotOnFailure
  }

  /**
   * The gate as the environment sets it: a failed scenario is captured unless
   * `SCREENSHOT_ON_FAILURE` is exactly `false`; no other status is captured.
   */
  lemma ScreenshotGate(status: Status, env: Env)
    ensures ShouldCapture(status, FromEnv(env)) <==>
              status == Failed && !("SCREENSHOT_ON_FAILURE" in env && env["SCREENSHOT_ON_FAILURE"] == "false")
  {
    ScreenshotsUnlessFalse(env);
  }

  /**
   * The duration in milliseconds, `now - (start || now)`: a start time that
   * was never recorded, or is 0, gives 0.
   */
  function ScenarioDuration(start: Option<int>, now: int): (d: int)
    ensures start.None? ==> d == 0
    ensures start.Some? ==> d == if start.value == 0 then 0 else now - start.value
  {
    now - (if start.Some? && start.value != 0 then start.value else now)
  }

  /** The scenario name with every whitespace run replaced by one `_`. */
  function SanitisedName(name: string): (r: string)
    ensures NoWhitespace(r)
  {
    ReplaceRunsNoWhitespace(name, "_");
    ReplaceWhitespaceRuns(name, "_")
  }

  /** The ISO timestamp with every `:` and `.` replaced by `-`. */
  function SanitisedTimestamp(timestamp: string): (r: string)
    ensures |r| == |timestamp|
    ensures forall i :: 0 <= i < |r| ==> r[i] != ':' && r[i] != '.'
    ensures forall i :: 0 <= i < |r| ==>
              r[i] == if timestamp[i] == ':' || timestamp[i] == '.' then '-' else timestamp[i]
  {
    ReplaceEach(timestamp, {':', '.'}, '-')
  }

  /** `FAIL_<name>_<timestamp>.png`. */
  function ScreenshotFileName(name: string, timestamp: string): (f: string)
    ensures StartsWith(f, "FAIL_")
    ensures |f| >= 10 && f[|f| - 4..] == ".png"
  {
    var f := "FAIL_" + SanitisedName(name) + "_" + SanitisedTimestamp(timestamp) + ".png";
    assert f[..5] == "FAIL_";
    assert f[|f| - 4..] == ".png";
    f
  }

  /** The screenshot's path: the file name under `screenshots` in the working directory. */
  function ScreenshotPath(cwd: string, name: string, timestamp: string): (path: string)
    ensures |path| >= |cwd| + 23
    ensures path[..|cwd|] == cwd && path[|cwd|..|cwd| + 13] == "/screenshots/"
    ensures path[|cwd| + 13..|cwd| + 18] == "FAIL_" && path[|path| - 4..] == ".png"
    ensures path[|cwd| + 13..] == ScreenshotFileName(name, timestamp)
  {
    var dir := cwd + "/screenshots/";
    var f := ScreenshotFileName(name, timestamp);
    var path := dir + f;
    assert path[..|cwd|] == cwd;
    assert path[|cwd|..|cwd| + 13] == "/screenshots/";
    assert path[|cwd| + 13..|cwd| + 18] == f[..5];
    assert path[|path| - 4..] == f[|f| - 4..];
    assert path[|cwd| + 13..] == f;
    path
  }

  /**
   * The file name is laid out as `FAIL_`, the sanitised name, `_`, the
   * sanitised timestamp and `.png`, each at a fixed offset.
   */
  lemma FileNameLayout(name: string, timestamp: string)
    ensures var f := ScreenshotFileName(name, timestamp);
            var k := 6 + |SanitisedName(name)|;
            && |f| == k + |timestamp| + 4
            && f[5..k - 1] == SanitisedName(name)
            && f[k - 1] == '_'
            && f[k..|f| - 4] == SanitisedTimestamp(timestamp)
  {
    var name', stamp := SanitisedName(name), SanitisedTimestamp(timestamp);
    var head := "FAIL_" + name' + "_";
    var f := head + stamp + ".png";
    assert ScreenshotFileName(name, timestamp) == f;
    var k := 6 + |name'|;
    assert f[..k] == head;
    assert head[5..k - 1] == name';
    assert f[k..|f| - 4] == stamp;
  }

  /** The file name holds no whitespace once the timestamp holds none. */
  lemma FileNameHasNoWhitespace(name: string, timestamp: string)
    requires NoWhitespace(timestamp)
    ensures NoWhitespace(ScreenshotFileName(name, timestamp))
  {
    FileNameLayout(name, timestamp);
    var f := ScreenshotFileName(name, timestamp);
    var name', stamp := SanitisedName(name), SanitisedTimestamp(timestamp);
    var k := 6 + |name'|;
    forall i | 0 <= i < |f| ensures !IsWhitespace(f[i]) {
      if i < 5 {
        assert f[i] == "FAIL_"[i];
      } else if i < k - 1 {
        assert f[i] == f[5..k - 1][i - 5];
      } else if k <= i < |f| - 4 {
        assert f[i] == f[k..|f| - 4][i - k];
        assert stamp[i - k] == timestamp[i - k] || stamp[i - k] == '-';
      } else if |f| - 4 <= i {
        assert f[i] == ".png"[i - (|f| - 4)];
      }
    }
  }

  /**
   * An ISO timestamp `<date>T<hh>:<mm>:<ss>.<ms>Z` keeps its digits and
   * loses its separators: "2024-01-02T03:04:05.678Z" becomes
   * "2024-01-02T03-04-05-678Z".
   */
  lemma IsoTimestampSanitised(date: string, hh: string, mm: string, ss: string, ms: string)
    requires forall i :: 0 <= i < |date| ==> date[i] != ':' && date[i] != '.'
    requires forall i :: 0 <= i < |hh| ==> hh[i] != ':' && hh[i] != '.'
    requires forall i :: 0 <= i < |mm| ==> mm[i] != ':' && mm[i] != '.'
    requires forall i :: 0 <= i < |ss| ==> ss[i] != ':' && ss[i] != '.'
    requires forall i :: 0 <= i < |ms| ==> ms[i] != ':' && ms[i] != '.'
    ensures SanitisedTimestamp(date + "T" + hh + ":" + mm + ":" + ss + "." + ms + "Z")
            == date + "T" + hh + "-" + mm + "-" + ss + "-" + ms + "Z"
  {
    var targets := {':', '.'};
    var head := date + "T" + hh;
    var tail := ms + "Z";
    ReplaceEachKeeps(head, targets, '-');
    ReplaceEachAtTarget(head, ':', mm, targets, '-');
    ReplaceEachAtTarget(head + ":" + mm, ':', ss, targets, '-');
    ReplaceEachAtTarget(head + ":" + mm + ":" + ss, '.', tail, targets, '-');
    assert date + "T" + hh + ":" + mm + ":" + ss + "." + ms + "Z" == head + ":" + mm + ":" + ss + "." + tail;
    assert date + "T" + hh + "-" + mm + "-" + ss + "-" + ms + "Z" == head + "-" + mm + "-" + ss + "-" + tail;
  }

  /** Proof step for `TimestampExample`: the literal splits into the parts `IsoTimestampSanitised` names. */
  lemma ExampleTimestampParts()
    ensures "2024-01-02" + "T" + "03" + ":" + "04" + ":" + "05" + "." + "678" + "Z" == "2024-01-02T03:04:05.678Z"
    ensures "2024-01-02" + "T" + "03" + "-" + "04" + "-" + "05" + "-" + "678" + "Z" == "2024-01-02T03-04-05-678Z"
  {
  }

  /** The documented timestamp example. */
  lemma TimestampExample()
    ensures SanitisedTimestamp("2024-01-02T03:04:05.678Z") == "2024-01-02T03-04-05-678Z"
  {
    ExampleTimestampParts();
    IsoTimestampSanitised("2024-01-02", "03", "04", "05", "678");
  }

  /**
   * In a scenario name, words are kept and every whitespace run between
   * them, however long, becomes one `_`.
   */
  lemma NameJoinsWords(word: string, run: string, rest: string)
    requires NoWhitespace(word)
    requires run != [] && AllWhitespace(run)
    requires rest == [] || !IsWhitespace(rest[0])
    ensures SanitisedName(word + run + rest) == word + "_" + SanitisedName(rest)
  {
    ReplaceRunsJoinsWords(word, run, rest, "_");
  }

  /** What `Before` does after launching: open the base URL, then wait for the DOM. */
  function NavigationCalls(p: Handle, baseUrl: string): seq<Call> {
    [Goto(p, baseUrl), WaitForLoadState(p, Login.DomContentLoaded)]
  }

  /** The screenshot, the file write and the report attachment, in order. */
  function CaptureCalls(p: Handle, path: string): seq<Call> {
    [Screenshot(p, true), WriteFile(path), Attach(ScreenshotMediaType)]
  }

  /**
   * The calls a screenshot attempt issues from trace position `n`: none
   * without a page (the call on a null page throws at once), otherwise
   * the capture calls up to the first that throws.
   */
  function CaptureAttempt(page: Option<Handle>, path: string, fails: nat -> Option<string>, n: nat): (calls: seq<Call>)
    ensures page.None? ==> calls == []
    ensures page.Some? ==> 1 <= |calls| <= 3 && calls[0] == Screenshot(page.value, true)
    ensures page.Some? ==> calls <= CaptureCalls(page.value, path)
    // The attempt stops exactly at the first throw: every call but the last issued succeeded,
    // and fewer than three are issued only when the last one threw.
    ensures page.Some? ==> forall j :: n <= j < n + |calls| - 1 ==> fails(j).None?
    ensures page.Some? && |calls| < 3 ==> fails(n + |calls| - 1).Some?
  {
    if page.None? then []
    else
      IssuedStopsAtFirstFailure(fails, n, CaptureCalls(page.value, path));
      CaptureCalls(page.value, path)[..Issued(fails, n, CaptureCalls(page.value, path))]
  }

  /**
   * `Before`: record the start time, launch the browser, go to the base URL,
   * wait for the DOM, then construct the six page objects over the page.
   * A throw at any step leaves the later steps undone and propagates.
   */
  method Before(world: CustomWorld, driver: Driver, cfg: Settings, now: int) returns (r: Result<()>)
    requires world.browserManager.Valid()
    modifies world, world.browserManager, driver
    ensures world.browserManager.Valid()
    ensures world.scenarioStartTime == Some(now)
    ensures var n := |old(driver.trace)|;
            world.browserManager.browser
            == if driver.fails(n).None? then Some(Handle(BrowserHandle, n)) else old(world.browserManager.browser)
    ensures var n := |old(driver.trace)|;
            world.browserManager.context
            == if LaunchIssued(driver.fails, n) == 4 then Some(Handle(ContextHandle, n + 1)) else old(world.browserManager.context)
    ensures var launched := LaunchOutcome(driver.fails, |old(driver.trace)|);
            world.browserManager.page == if launched.Ok? then Some(launched.value) else old(world.browserManager.page)
    // The launch throws: nothing else happens.
    ensures var n := |old(driver.trace)|;
            var launched := LaunchOutcome(driver.fails, n);
            launched.Err? ==>
              && r == Err(launched.error)
              && driver.trace == old(driver.trace) + LaunchCalls(cfg, n)[..LaunchIssued(driver.fails, n)]
              && world.page == old(world.page)
              && world.Objects() == old(world.Objects())
    // The launch resolves: the page is stored, then the navigation runs.
    ensures var n := |old(driver.trace)|;
            var launched := LaunchOutcome(driver.fails, n);
            var nav := NavigationCalls(Handle(PageHandle, n + 3), cfg.baseUrl);
            launched.Ok? ==>
              && r == Outcome(driver.fails, n + 4, nav)
              && driver.trace == old(driver.trace) + LaunchCalls(cfg, n) + nav[..Issued(driver.fails, n + 4, nav)]
              && world.page == Some(launched.value)
    // The page objects are bound to the page iff everything succeeded.
    ensures var launched := LaunchOutcome(driver.fails, |old(driver.trace)|);
            launched.Ok? && r.Ok? ==> world.BoundTo(launched.value)
    ensures r.Err? ==> world.Objects() == old(world.Objects())
  {
    ghost var n := |driver.trace|;
    world.scenarioStartTime := Some(now);
    var launched := world.browserManager.Launch(driver, cfg);
    assert launched == LaunchOutcome(driver.fails, n);
    if launched.Err? {
      return Err(launched.error);
    }
    var p := launched.value;
    world.page := Some(p);
    r := driver.PerformAll(NavigationCalls(p, cfg.baseUrl));
    if r.Err? {
      return;
    }
    world.BindPageObjects(p);
    assert world.BoundTo(p);
  }

  /**
   * `After`: for a failed scenario with screenshots on, attempt the capture
   * (any throw in it is swallowed); then always close the browser, whatever
   * the capture did. Returns the label and the duration it logs.
   */
  method After(world: CustomWorld, driver: Driver, cfg: Settings, status: Status,
               scenarioName: string, timestamp: string, cwd: string, now: int)
    returns (statusLabel: string, duration: int)
    modifies driver
    ensures statusLabel == StatusLabel(status)
    ensures duration == ScenarioDuration(world.scenarioStartTime, now)
    ensures var n := |old(driver.trace)|;
            var capture := if ShouldCapture(status, cfg)
                           then CaptureAttempt(world.page, ScreenshotPath(cwd, scenarioName, timestamp), driver.fails, n)
                           else [];
            driver.trace == old(driver.trace) + capture
                            + CloseCalls(world.browserManager.page, world.browserManager.context, world.browserManager.browser)
  {
    duration := ScenarioDuration(world.scenarioStartTime, now);
    if ShouldCapture(status, cfg) {
      var path := ScreenshotPath(cwd, scenarioName, timestamp);
      if world.page.Some? {
        var ignored := driver.PerformAll(CaptureCalls(world.page.value, path));
      }
    }
    world.browserManager.Close(driver);
    statusLabel := StatusLabel(status);
  }

  /**
   * One scenario in a new world: `Before`, then `After`, which Cucumber runs
   * even when `Before` threw. Whatever throws, every browser, context and
   * page that the launch created is closed, and teardown is the last thing
   * that happens.
   */
  method RunScenario(world: CustomWorld, driver: Driver, cfg: Settings, status: Status,
                     scenarioName: string, timestamp: string, cwd: string, start: int, end: int)
    returns (r: Result<()>, statusLabel: string, duration: int)
    requires world.browserManager.Valid()
    requires world.browserManager.browser == None && world.browserManager.context == None
    requires world.browserManager.page == None && world.page == None
    modifies world, world.browserManager, driver
    ensures old(driver.trace) <= driver.trace
    ensures statusLabel == StatusLabel(status)
    ensures world.scenarioStartTime == Some(start)
    // Teardown comes last: the trace ends with the close calls of the handles the manager holds.
    ensures var closes := CloseCalls(world.browserManager.page, world.browserManager.context, world.browserManager.browser);
            |closes| <= |driver.trace| && driver.trace[|driver.trace| - |closes|..] == closes
    ensures var n := |old(driver.trace)|;
            && (driver.fails(n).None? ==> Call.Close(Handle(BrowserHandle, n)) in driver.trace[n..])
            && (LaunchIssued(driver.fails, n) == 4 ==> Call.Close(Handle(ContextHandle, n + 1)) in driver.trace[n..])
            && (LaunchOutcome(driver.fails, n).Ok? ==> Call.Close(Handle(PageHandle, n + 3)) in driver.trace[n..])
            && (driver.fails(n).Some? ==> driver.trace == old(driver.trace) + [LaunchCalls(cfg, n)[0]])
  {
    ghost var n := |driver.trace|;
    r := Before(world, driver, cfg, start);
    ghost var mid := driver.trace;
    var bm := world.browserManager;
    ghost var closes := CloseCalls(bm.page, bm.context, bm.browser);
    statusLabel, duration := After(world, driver, cfg, status, scenarioName, timestamp, cwd, end);
    assert driver.trace[n..] == mid[n..] + (driver.trace[|mid|..|driver.trace| - |closes|]) + closes;
    if driver.fails(n).Some? {
      assert closes == [];
      assert LaunchCalls(cfg, n)[..1] == [LaunchCalls(cfg, n)[0]];
    }
  }
}
