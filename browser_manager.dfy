/**
 * The driver factory: picks the engine named in the configuration, launches
 * it, opens a context and a page, and tears the three down again.
 */
module BrowserManagement {
  import opened Wrappers
  import opened Text
  import opened Driver
  import opened Config

  const ViewportWidth := 1280
  const ViewportHeight := 720

  /** The engine for a configured browser name, compared after lowercasing; anything unknown is Chromium. */
  function EngineFor(browser: string): (e: Engine)
    ensures e == Firefox <==> ToLower(browser) == "firefox"
    ensures e == Webkit <==> ToLower(browser) == "webkit"
    ensures e == Chromium <==> ToLower(browser) != "firefox" && ToLower(browser) != "webkit"
  {
    match ToLower(browser)
    case "firefox" => Firefox
    case "webkit" => Webkit
    case _ => Chromium
  }

  /** The engine choice ignores case: a name and its lowercase form pick the same engine. */
  lemma EngineIgnoresCase(browser: string)
    ensures EngineFor(ToLower(browser)) == EngineFor(browser)
  {
    ToLowerIdempotent(browser);
  }

  /** A capitalised engine name selects that engine. */
  lemma EngineMixedCase()
    ensures EngineFor("Firefox") == Firefox
  {
    assert ToLower("Firefox") == "firefox";
  }

  /** An upper-case engine name selects that engine. */
  lemma EngineUpperCase()
    ensures EngineFor("WEBKIT") == Webkit
  {
    assert ToLower("WEBKIT") == "webkit";
  }

  /** An empty or unknown name falls back to Chromium. */
  lemma EngineFallback()
    ensures EngineFor("") == Chromium
    ensures EngineFor("Edge") == Chromium
  {
    assert ToLower("Edge") == "edge";
  }

  /** The launch options: `headless` and `slowMo` straight from the configuration. */
  function LaunchOptionsFor(cfg: Settings): (o: LaunchOptions)
    ensures o.headless == cfg.headless && o.slowMo == cfg.slowMo
  {
    LaunchOptions(cfg.headless, cfg.slowMo)
  }

  /** The context options: a 1280x720 viewport, HTTPS errors ignored. */
  const ContextOptionsUsed := ContextOptions(ViewportWidth, ViewportHeight, true)

  /**
   * The calls `launch` issues when nothing throws, starting at trace position
   * `n`: the browser is created at `n`, its context at `n + 1`, and the page at
   * `n + 3`, after the context's default timeout is set.
   */
  function LaunchCalls(cfg: Settings, n: nat): seq<Call> {
    [ Launch(EngineFor(cfg.browser), LaunchOptionsFor(cfg)),
      NewContext(Handle(BrowserHandle, n), ContextOptionsUsed),
      SetDefaultTimeout(Handle(ContextHandle, n + 1), cfg.timeout),
      NewPage(Handle(ContextHandle, n + 1)) ]
  }

  /** How many of the launch calls are issued: up to the first that throws (setting the timeout cannot). */
  function LaunchIssued(fails: nat -> Option<string>, n: nat): (k: nat)
    ensures k in {1, 2, 4}
    ensures k == 4 <==> fails(n).None? && fails(n + 1).None?
  {
    if fails(n).Some? then 1 else if fails(n + 1).Some? then 2 else 4
  }

  /** What `launch` resolves to: the first error thrown, or the new page. */
  function LaunchOutcome(fails: nat -> Option<string>, n: nat): (r: Result<Handle>)
    ensures r.Ok? <==> fails(n).None? && fails(n + 1).None? && fails(n + 3).None?
    ensures r.Ok? ==> r.value == Handle(PageHandle, n + 3)
  {
    if fails(n).Some? then Err(fails(n).value)
    else if fails(n + 1).Some? then Err(fails(n + 1).value)
    else if fails(n + 3).Some? then Err(fails(n + 3).value)
    else Ok(Handle(PageHandle, n + 3))
  }

  /** The close calls of `close`: page, then context, then browser, skipping the ones that are unset. */
  function CloseCalls(page: Option<Handle>, context: Option<Handle>, browser: Option<Handle>): seq<Call> {
    (if page.Some? then [Close(page.value)] else [])
    + (if context.Some? then [Close(context.value)] else [])
    + (if browser.Some? then [Close(browser.value)] else [])
  }

  /**
   * Teardown is best-effort and complete: a handle is closed iff it is set,
   * one close per set handle, and nothing else is called.
   */
  lemma CloseAttemptsEverySetHandle(page: Option<Handle>, context: Option<Handle>, browser: Option<Handle>, h: Handle)
    ensures Call.Close(h) in CloseCalls(page, context, browser) <==>
              page == Some(h) || context == Some(h) || browser == Some(h)
    ensures |CloseCalls(page, context, browser)|
            == (if page.Some? then 1 else 0) + (if context.Some? then 1 else 0) + (if browser.Some? then 1 else 0)
    ensures forall c :: c in CloseCalls(page, context, browser) ==> c.Close?
  {
    var first := if page.Some? then [Call.Close(page.value)] else [];
    var second := if context.Some? then [Call.Close(context.value)] else [];
    var third := if browser.Some? then [Call.Close(browser.value)] else [];
    assert CloseCalls(page, context, browser) == first + second + third;
    assert Call.Close(h) in first <==> page == Some(h);
    assert Call.Close(h) in second <==> context == Some(h);
    assert Call.Close(h) in third <==> browser == Some(h);
  }

  /** With all three handles set, the order is page, context, browser. */
  lemma CloseOrder(page: Handle, context: Handle, browser: Handle)
    ensures CloseCalls(Some(page), Some(context), Some(browser)) == [Close(page), Close(context), Close(browser)]
  {
  }

  class BrowserManager {
    var browser: Option<Handle>
    var context: Option<Handle>
    var page: Option<Handle>

    constructor ()
      ensures browser == None && context == None && page == None
      ensures Valid()
    {
      browser := None;
      context := None;
      page := None;
    }

    /** Each field is unset or holds a handle of its own kind. */
    predicate Valid()
      reads this
    {
      && (browser.Some? ==> browser.value.kind == BrowserHandle)
      && (context.Some? ==> context.value.kind == ContextHandle)
      && (page.Some? ==> page.value.kind == PageHandle)
    }

    /**
     * `launch`: each field is assigned only once its call has succeeded; a
     * throw leaves the later fields as they were and propagates.
     */
    method Launch(driver: Driver, cfg: Settings) returns (r: Result<Handle>)
      requires Valid()
      modifies this, driver
      ensures Valid()
      ensures var n := |old(driver.trace)|;
              && driver.trace == old(driver.trace) + LaunchCalls(cfg, n)[..LaunchIssued(driver.fails, n)]
              && r == LaunchOutcome(driver.fails, n)
              && browser == (if driver.fails(n).None? then Some(Handle(BrowserHandle, n)) else old(browser))
              && context == (if LaunchIssued(driver.fails, n) == 4 then Some(Handle(ContextHandle, n + 1)) else old(context))
              && page == (if r.Ok? then Some(r.value) else old(page))
    {
      var n := |driver.trace|;
      var calls := LaunchCalls(cfg, n);
      var launched := driver.Open(calls[0], BrowserHandle);
      if launched.Err? {
        return Err(launched.error);
      }
      browser := Some(launched.value);
      var created := driver.Open(NewContext(launched.value, ContextOptionsUsed), ContextHandle);
      if created.Err? {
        return Err(created.error);
      }
      context := Some(created.value);
      driver.Notify(SetDefaultTimeout(created.value, cfg.timeout));
      var newPage := driver.Open(NewPage(created.value), PageHandle);
      assert driver.trace == old(driver.trace) + calls;
      if newPage.Err? {
        return Err(newPage.error);
      }
      page := Some(newPage.value);
      r := Ok(newPage.value);
    }

    /**
     * `close`: attempt to close the page, the context and the browser, in
     * that order, skipping the unset ones; a failing close is swallowed and
     * the later ones are still attempted. The fields are left as they are.
     */
    method Close(driver: Driver)
      modifies driver
      ensures driver.trace == old(driver.trace) + CloseCalls(page, context, browser)
    {
      if page.Some? {
        var ignored := driver.Perform(Call.Close(page.value));
      }
      if context.Some? {
        var ignored := driver.Perform(Call.Close(context.value));
      }
      if browser.Some? {
        var ignored := driver.Perform(Call.Close(browser.value));
      }
    }
  }

  /** `close` on a manager that never launched issues nothing. */
  lemma CloseBeforeLaunch()
    ensures CloseCalls(None, None, None) == []
  {
  }
}
