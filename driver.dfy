/**
 * The browser driver (Playwright), seen from the framework as an oracle.
 *
 * Every call the framework makes on the driver, the filesystem or the report
 * is appended to `trace`. What a call answers is decided by position: the
 * call recorded at index `n` of the trace throws `fails(n)` when that is
 * `Some`, whether awaited or synchronous like the file write and the report
 * attachment; otherwise a visibility query there answers `visible(n)` and a
 * text query `texts(n)`. Only `setDefaultTimeout`, issued with `Notify`,
 * cannot throw. A handle created by the call at index `n` is
 * `Handle(kind, n)`, so distinct calls give distinct handles.
 */
module Driver {
  import opened Wrappers

  /** The three engines Playwright offers. */
  datatype Engine = Chromium | Firefox | Webkit

  /** The options passed to `<engine>.launch(...)`. */
  datatype LaunchOptions = LaunchOptions(headless: bool, slowMo: int)

  /** The options passed to `browser.newContext(...)`. */
  datatype ContextOptions = ContextOptions(viewportWidth: int, viewportHeight: int, ignoreHTTPSErrors: bool)

  datatype HandleKind = BrowserHandle | ContextHandle | PageHandle

  /** A browser, context or page object returned by the driver. */
  datatype Handle = Handle(kind: HandleKind, id: nat)

  /** One observable call on the outside world, in the order it was issued. */
  datatype Call =
    | Launch(engine: Engine, options: LaunchOptions)
    | NewContext(browser: Handle, contextOptions: ContextOptions)
    | SetDefaultTimeout(context: Handle, ms: int)
    | NewPage(context: Handle)
    | Close(target: Handle)
    | Goto(page: Handle, url: string)
    | WaitForLoadState(page: Handle, state: string)
    | Fill(page: Handle, selector: string, value: string)
      /** `page.locator(selector).click({ timeout })`; `None` is the context's default timeout. */
    | Click(page: Handle, selector: string, timeout: Option<int>)
      /** `page.locator(item).filter({ hasText }).locator(control, { hasText: controlText }).click()`. */
    | ClickWithin(page: Handle, item: string, hasText: string, control: string, controlText: string)
    | WaitVisible(page: Handle, selector: string)
    | IsVisible(page: Handle, selector: string)
    | TextContent(page: Handle, selector: string)
    | Screenshot(page: Handle, fullPage: bool)
    | WriteFile(path: string)
    | Attach(mediaType: string)

  class Driver {
    /** Every call issued so far, oldest first. */
    var trace: seq<Call>
    /** `fails(n)`: the error message thrown by the call at position `n`, if it throws. */
    const fails: nat -> Option<string>
    /** `visible(n)`: the answer of a visibility query at position `n`. */
    const visible: nat -> bool
    /** `texts(n)`: the answer of a text query at position `n`. */
    const texts: nat -> string

    constructor (fails: nat -> Option<string>, visible: nat -> bool, texts: nat -> string)
      ensures trace == []
      ensures this.fails == fails && this.visible == visible && this.texts == texts
    {
      trace := [];
      this.fails := fails;
      this.visible := visible;
      this.texts := texts;
    }

    /** The outcome of the call at position `n`. */
    function OutcomeAt(n: nat): (r: Result<()>)
      ensures r.Ok? <==> fails(n).None?
      ensures r.Err? ==> r.error == fails(n).value
    {
      match fails(n)
      case None => Ok(())
      case Some(message) => Err(message)
    }

    /** An awaited call that may throw and returns nothing of interest. */
    method Perform(c: Call) returns (r: Result<()>)
      modifies this
      ensures trace == old(trace) + [c]
      ensures r == OutcomeAt(|old(trace)|)
    {
      r := OutcomeAt(|trace|);
      trace := trace + [c];
    }

    /**
     * Awaiting `calls` one after another: the first call that throws ends the
     * sequence and its error propagates.
     */
    method PerformAll(calls: seq<Call>) returns (r: Result<()>)
      modifies this
      ensures trace == old(trace) + calls[..Issued(fails, |old(trace)|, calls)]
      ensures r == Outcome(fails, |old(trace)|, calls)
      decreases |calls|
    {
      if calls == [] {
        return Ok(());
      }
      r := Perform(calls[0]);
      if r.Err? {
        return;
      }
      ghost var mid := trace;
      r := PerformAll(calls[1..]);
      assert calls[..Issued(fails, |old(trace)|, calls)]
             == [calls[0]] + calls[1..][..Issued(fails, |mid|, calls[1..])];
    }

    /** A synchronous call that cannot fail, such as `setDefaultTimeout`. */
    method Notify(c: Call)
      modifies this
      ensures trace == old(trace) + [c]
    {
      trace := trace + [c];
    }

    /** An awaited call that creates a browser, context or page. */
    method Open(c: Call, kind: HandleKind) returns (r: Result<Handle>)
      modifies this
      ensures trace == old(trace) + [c]
      ensures r == if fails(|old(trace)|).Some? then Err(fails(|old(trace)|).value)
                   else Ok(Handle(kind, |old(trace)|))
    {
      var n := |trace|;
      r := if fails(n).Some? then Err(fails(n).value) else Ok(Handle(kind, n));
      trace := trace + [c];
    }

    /** `locator.isVisible()`: may throw (a closed page, a strict-mode violation), otherwise answers. */
    method QueryVisible(c: Call) returns (r: Result<bool>)
      modifies this
      ensures trace == old(trace) + [c]
      ensures r == if fails(|old(trace)|).Some? then Err(fails(|old(trace)|).value)
                   else Ok(visible(|old(trace)|))
    {
      var n := |trace|;
      r := if fails(n).Some? then Err(fails(n).value) else Ok(visible(n));
      trace := trace + [c];
    }

    /** `locator.textContent()`: may throw (a timeout), otherwise answers a text. */
    method QueryText(c: Call) returns (r: Result<string>)
      modifies this
      ensures trace == old(trace) + [c]
      ensures r == if fails(|old(trace)|).Some? then Err(fails(|old(trace)|).value)
                   else Ok(texts(|old(trace)|))
    {
      var n := |trace|;
      r := if fails(n).Some? then Err(fails(n).value) else Ok(texts(n));
      trace := trace + [c];
    }
  }

  /**
   * How many of `calls`, awaited one after another from trace position `n`,
   * are issued: all of them, or up to and including the first that throws.
   */
  function Issued(fails: nat -> Option<string>, n: nat, calls: seq<Call>): (k: nat)
    ensures k <= |calls|
    ensures calls != [] ==> k >= 1
    decreases |calls|
  {
    if calls == [] then 0
    else if fails(n).Some? then 1
    else 1 + Issued(fails, n + 1, calls[1..])
  }

  /** The outcome of awaiting `calls` in order from position `n`: the first error, if any. */
  function Outcome(fails: nat -> Option<string>, n: nat, calls: seq<Call>): Result<()>
    decreases |calls|
  {
    if calls == [] then Ok(())
    else if fails(n).Some? then Err(fails(n).value)
    else Outcome(fails, n + 1, calls[1..])
  }

  /**
   * A sequence of awaited calls stops exactly at its first failing call:
   * it completes all calls iff none throws, and otherwise the error is that
   * of the last call issued, and every call before it succeeded.
   */
  lemma {:induction false} IssuedStopsAtFirstFailure(fails: nat -> Option<string>, n: nat, calls: seq<Call>)
    ensures Outcome(fails, n, calls).Ok? <==> Issued(fails, n, calls) == |calls|
                                              && forall j :: n <= j < n + |calls| ==> fails(j).None?
    ensures Outcome(fails, n, calls).Err? ==>
              && 1 <= Issued(fails, n, calls)
              && fails(n + Issued(fails, n, calls) - 1) == Some(Outcome(fails, n, calls).error)
              && forall j :: n <= j < n + Issued(fails, n, calls) - 1 ==> fails(j).None?
    decreases |calls|
  {
    if calls != [] && fails(n).None? {
      IssuedStopsAtFirstFailure(fails, n + 1, calls[1..]);
    }
  }
}
