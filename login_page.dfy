/** The login page object. */
module Login {
  import opened Wrappers
  import opened Text
  import opened Driver

  const UsernameSelector := "[data-test=\"username\"]"
  const PasswordSelector := "[data-test=\"password\"]"
  const LoginButtonSelector := "[data-test=\"login-button\"]"
  const ErrorSelector := "[data-test=\"error\"]"
  const DomContentLoaded := "domcontentloaded"

  /** `isOnLoginPage`: the URL is on the demo site and not on the inventory. */
  predicate IsOnLoginPage(url: string): (onLogin: bool)
    ensures onLogin ==> exists i :: OccursAt(url, "saucedemo.com", i)
    ensures (exists j :: OccursAt(url, "inventory", j)) ==> !onLogin
  {
    ContainsIff(url, "saucedemo.com");
    ContainsIff(url, "inventory");
    Contains(url, "saucedemo.com") && !Contains(url, "inventory")
  }

  /** `isOnLoginPage` holds iff "saucedemo.com" occurs in the URL and "inventory" does not. */
  lemma IsOnLoginPageIff(url: string)
    ensures IsOnLoginPage(url) <==>
              (exists i :: OccursAt(url, "saucedemo.com", i)) && !(exists j :: OccursAt(url, "inventory", j))
  {
    ContainsIff(url, "saucedemo.com");
    ContainsIff(url, "inventory");
  }

  /** Landing on the inventory leaves the login page, whatever else the URL holds. */
  lemma InventoryUrlIsNotLogin(url: string, i: nat)
    requires OccursAt(url, "inventory", i)
    ensures !IsOnLoginPage(url)
  {
    ContainsAt(url, "inventory", i);
  }

  /** The demo site's root page is the login page. */
  lemma RootIsLoginPage()
    ensures IsOnLoginPage("https://www.saucedemo.com/")
  {
    assert "https://www." + "saucedemo.com" + "/" == "https://www.saucedemo.com/";
    ContainsInMiddle("https://www.", "saucedemo.com", "/");
    MissingFirstChar("https://www.saucedemo.com/", "inventory");
  }

  /** The demo site's inventory page is not the login page. */
  lemma InventoryIsNotLoginPage()
    ensures !IsOnLoginPage("https://www.saucedemo.com/inventory.html")
  {
    assert "https://www.saucedemo.com/" + "inventory" + ".html" == "https://www.saucedemo.com/inventory.html";
    ContainsInMiddle("https://www.saucedemo.com/", "inventory", ".html");
  }

  datatype LoginPage = LoginPage(page: Handle) {

    function NavigateCalls(baseUrl: string): seq<Call> {
      [Goto(page, baseUrl), WaitForLoadState(page, DomContentLoaded)]
    }

    function LoginCalls(username: string, password: string): seq<Call> {
      [Fill(page, UsernameSelector, username), Fill(page, PasswordSelector, password),
       Click(page, LoginButtonSelector, None)]
    }

    /** `navigate`: go to the base URL, then wait for `domcontentloaded`. */
    method Navigate(driver: Driver, baseUrl: string) returns (r: Result<()>)
      modifies driver
      ensures driver.trace == old(driver.trace) + NavigateCalls(baseUrl)[..Issued(driver.fails, |old(driver.trace)|, NavigateCalls(baseUrl))]
      ensures r == Outcome(driver.fails, |old(driver.trace)|, NavigateCalls(baseUrl))
    {
      r := driver.PerformAll(NavigateCalls(baseUrl));
    }

    /** `login`: fill the username, then the password, then click the login button. */
    method Login(driver: Driver, username: string, password: string) returns (r: Result<()>)
      modifies driver
      ensures driver.trace == old(driver.trace) + LoginCalls(username, password)[..Issued(driver.fails, |old(driver.trace)|, LoginCalls(username, password))]
      ensures r == Outcome(driver.fails, |old(driver.trace)|, LoginCalls(username, password))
    {
      r := driver.PerformAll(LoginCalls(username, password));
    }

    /** `getErrorMessage`: wait for the error element, then return its text unchanged. */
    method GetErrorMessage(driver: Driver) returns (r: Result<string>)
      modifies driver
      ensures var n := |old(driver.trace)|;
              && (driver.fails(n).Some? ==>
                    r == Err(driver.fails(n).value)
                    && driver.trace == old(driver.trace) + [WaitVisible(page, ErrorSelector)])
              && (driver.fails(n).None? ==>
                    driver.trace == old(driver.trace) + [WaitVisible(page, ErrorSelector), TextContent(page, ErrorSelector)]
                    && r == if driver.fails(n + 1).Some? then Err(driver.fails(n + 1).value) else Ok(driver.texts(n + 1)))
    {
      var waited := driver.Perform(WaitVisible(page, ErrorSelector));
      if waited.Err? {
        return Err(waited.error);
      }
      r := driver.QueryText(TextContent(page, ErrorSelector));
    }
  }

  /**
   * When every call succeeds, `login` issues exactly its three calls, in the
   * order username, password, click; a failing fill stops the rest.
   */
  lemma {:induction false} LoginOrder(p: LoginPage, fails: nat -> Option<string>, n: nat, username: string, password: string)
    ensures var calls := p.LoginCalls(username, password);
            && (fails(n).Some? ==> Issued(fails, n, calls) == 1)
            && (fails(n).None? && fails(n + 1).Some? ==> Issued(fails, n, calls) == 2)
            && (fails(n).None? && fails(n + 1).None? ==> Issued(fails, n, calls) == 3)
            && (Outcome(fails, n, calls).Ok? <==> fails(n).None? && fails(n + 1).None? && fails(n + 2).None?)
  {
    var calls := p.LoginCalls(username, password);
    assert calls[1..][1..][1..] == [];
    IssuedStopsAtFirstFailure(fails, n, calls);
  }
}
