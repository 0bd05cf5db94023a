/**
 * The per-scenario world: the state shared by the hooks and the step
 * definitions of one scenario.
 */
module World {
  import opened Wrappers
  import opened Driver
  import opened Login
  import opened Inventory
  import opened CheckoutPages
  import opened BrowserManagement

  /** The six page-object fields, read together. */
  datatype PageObjects = PageObjects(
    loginPage: Option<LoginPage>,
    inventoryPage: Option<InventoryPage>,
    cartPage: Option<CartPage>,
    checkoutStepOnePage: Option<CheckoutStepOnePage>,
    checkoutStepTwoPage: Option<CheckoutStepTwoPage>,
    checkoutCompletePage: Option<CheckoutCompletePage>)

  /** No page object is constructed. */
  const NoPageObjects := PageObjects(None, None, None, None, None, None)

  /** Every page object constructed over page `p`. */
  function PageObjectsOver(p: Handle): (objects: PageObjects)
    ensures objects.loginPage == Some(LoginPage(p)) && objects.inventoryPage == Some(InventoryPage(p))
    ensures objects.cartPage == Some(CartPage(p))
    ensures objects.checkoutStepOnePage == Some(CheckoutStepOnePage(p))
    ensures objects.checkoutStepTwoPage == Some(CheckoutStepTwoPage(p))
    ensures objects.checkoutCompletePage == Some(CheckoutCompletePage(p))
  {
    PageObjects(Some(LoginPage(p)), Some(InventoryPage(p)), Some(CartPage(p)),
                Some(CheckoutStepOnePage(p)), Some(CheckoutStepTwoPage(p)), Some(CheckoutCompletePage(p)))
  }

  class CustomWorld {
    /** Each world has a browser manager of its own. */
    const browserManager: BrowserManager
    var page: Option<Handle>
    var loginPage: Option<LoginPage>
    var inventoryPage: Option<InventoryPage>
    var cartPage: Option<CartPage>
    var checkoutStepOnePage: Option<CheckoutStepOnePage>
    var checkoutStepTwoPage: Option<CheckoutStepTwoPage>
    var checkoutCompletePage: Option<CheckoutCompletePage>
    /** Set by the `Before` hook; absent until then. */
    var scenarioStartTime: Option<int>

    /** A new world: a new, unlaunched browser manager, no page, no page object. */
    constructor ()
      ensures fresh(browserManager)
      ensures browserManager.browser == None && browserManager.context == None && browserManager.page == None
      ensures browserManager.Valid()
      ensures page == None && scenarioStartTime == None
      ensures Objects() == NoPageObjects
    {
      browserManager := new BrowserManager();
      page := None;
      loginPage := None;
      inventoryPage := None;
      cartPage := None;
      checkoutStepOnePage := None;
      checkoutStepTwoPage := None;
      checkoutCompletePage := None;
      scenarioStartTime := None;
    }

    function Objects(): PageObjects
      reads this
    {
      PageObjects(loginPage, inventoryPage, cartPage, checkoutStepOnePage, checkoutStepTwoPage, checkoutCompletePage)
    }

    /** Construct the six page objects over page `p`, as `Before` does once the page is open. */
    method BindPageObjects(p: Handle)
      modifies this
      ensures Objects() == PageObjectsOver(p)
      ensures page == old(page) && scenarioStartTime == old(scenarioStartTime)
    {
      loginPage := Some(LoginPage(p));
      inventoryPage := Some(InventoryPage(p));
      cartPage := Some(CartPage(p));
      checkoutStepOnePage := Some(CheckoutStepOnePage(p));
      checkoutStepTwoPage := Some(CheckoutStepTwoPage(p));
      checkoutCompletePage := Some(CheckoutCompletePage(p));
    }

    /** The world is bound to page `p`: its page is `p` and every page object is constructed over `p`. */
    predicate BoundTo(p: Handle)
      reads this
    {
      page == Some(p) && Objects() == PageObjectsOver(p)
    }
  }
}
