/**
 * The products (inventory) page object: its title check, the add-to-cart
 * action with its primary and fallback locators, and the cart badge read.
 */
module Inventory {
  import opened Wrappers
  import opened Text
  import opened Driver

  const TitleSelector := "[data-test=\"title\"]"
  const InventoryItemSelector := "[data-test=\"inventory-item\"]"
  const CartBadgeSelector := "[data-test=\"shopping-cart-badge\"]"
  const CartLinkSelector := "[data-test=\"shopping-cart-link\"]"
  const ProductsTitle := "Products"
  const PrimaryClickTimeoutMs := 5000
  const AddToCartText := "Add to cart"

  /** `productName.toLowerCase().replace(/\s+/g, '-')`. */
  function Slug(productName: string): (slug: string)
    ensures NoWhitespace(slug)
    ensures forall i :: 0 <= i < |slug| ==> !IsUpper(slug[i])
  {
    var lower := ToLower(productName);
    ReplaceRunsNoWhitespace(lower, "-");
    ReplaceRunsNoUpper(lower, "-");
    ReplaceWhitespaceRuns(lower, "-")
  }

  const PrimaryPrefix := "[data-test=\"add-to-cart-"

  /**
   * The primary locator: the `data-test` attribute derived from the product
   * name, `add-to-cart-` then the slug, and nothing else.
   */
  function PrimarySelector(productName: string): (selector: string)
    ensures |selector| == |PrimaryPrefix| + |Slug(productName)| + 2
    ensures selector[..|PrimaryPrefix|] == PrimaryPrefix
    ensures selector[|PrimaryPrefix|..|selector| - 2] == Slug(productName)
    ensures selector[|selector| - 2..] == "\"]"
  {
    var selector := PrimaryPrefix + Slug(productName) + "\"]";
    assert selector[..|PrimaryPrefix|] == PrimaryPrefix;
    assert selector[|PrimaryPrefix|..|selector| - 2] == Slug(productName);
    selector
  }

  /** A word keeps its letters, lowercased: "Backpack" becomes "backpack". */
  lemma SlugOfWord(word: string)
    requires NoWhitespace(word)
    ensures Slug(word) == ToLower(word)
  {
    ReplaceRunsKeepsWord(ToLower(word), "", "-");
    assert ToLower(word) + "" == ToLower(word);
  }

  /** Lowercasing keeps a word free of whitespace, a run all whitespace, and a word start a word start. */
  lemma LowerKeepsWhitespace(word: string, run: string, rest: string)
    requires NoWhitespace(word) && AllWhitespace(run)
    requires rest == [] || !IsWhitespace(rest[0])
    ensures NoWhitespace(ToLower(word)) && AllWhitespace(ToLower(run))
    ensures ToLower(rest) == [] || !IsWhitespace(ToLower(rest)[0])
  {
    var lowerWord, lowerRun := ToLower(word), ToLower(run);
    forall i | 0 <= i < |lowerWord| ensures !IsWhitespace(lowerWord[i]) {
      assert lowerWord[i] == LowerChar(word[i]);
    }
    forall i | 0 <= i < |lowerRun| ensures IsWhitespace(lowerRun[i]) {
      assert lowerRun[i] == LowerChar(run[i]);
    }
    if rest != [] {
      assert ToLower(rest)[0] == LowerChar(rest[0]);
    }
  }

  /**
   * A word followed by a whitespace run of any length: the word is lowercased
   * and the run becomes a single `-`, so "Sauce Labs Backpack" becomes
   * "sauce-" followed by the slug of "Labs Backpack".
   */
  lemma SlugJoinsWords(word: string, run: string, rest: string)
    requires NoWhitespace(word)
    requires run != [] && AllWhitespace(run)
    requires rest == [] || !IsWhitespace(rest[0])
    ensures Slug(word + run + rest) == ToLower(word) + "-" + Slug(rest)
  {
    assert word + run + rest == word + (run + rest);
    ToLowerAppend(word, run + rest);
    ToLowerAppend(run, rest);
    assert ToLower(word + run + rest) == ToLower(word) + ToLower(run) + ToLower(rest);
    LowerKeepsWhitespace(word, run, rest);
    ReplaceRunsJoinsWords(ToLower(word), ToLower(run), ToLower(rest), "-");
  }

  /** Leading whitespace becomes a leading `-`: the slug does not trim. */
  lemma SlugLeadingRun(run: string, rest: string)
    requires run != [] && AllWhitespace(run)
    requires rest == [] || !IsWhitespace(rest[0])
    ensures Slug(run + rest) == "-" + Slug(rest)
  {
    ToLowerAppend(run, rest);
    ReplaceRunsCollapsesRun(ToLower(run), ToLower(rest), "-");
  }

  // Proof steps for `SlugExample`: each literal fact is kept in a lemma of its
  // own so that the solver checks it apart from the others.

  lemma ExampleWordsLowered()
    ensures ToLower("Sauce") == "sauce" && ToLower("Labs") == "labs"
  {
  }

  lemma ExampleLastWordLowered()
    ensures ToLower("Backpack") == "backpack"
  {
  }

  lemma ExampleWordsSeparated()
    ensures NoWhitespace("Sauce") && NoWhitespace("Labs") && NoWhitespace("Backpack")
    ensures AllWhitespace(" ") && !IsWhitespace('L') && !IsWhitespace('B')
  {
  }

  lemma ExampleSplits()
    ensures "Sauce" + " " + "Labs Backpack" == "Sauce Labs Backpack"
    ensures "Labs" + " " + "Backpack" == "Labs Backpack"
    ensures "sauce" + "-" + ("labs" + "-" + "backpack") == "sauce-labs-backpack"
  {
  }

  /** The documented example: "Sauce Labs Backpack" becomes "sauce-labs-backpack". */
  lemma SlugExample()
    ensures Slug("Sauce Labs Backpack") == "sauce-labs-backpack"
  {
    ExampleWordsLowered();
    ExampleLastWordLowered();
    ExampleWordsSeparated();
    ExampleSplits();
    SlugOfWord("Backpack");
    SlugJoinsWords("Labs", " ", "Backpack");
    SlugJoinsWords("Sauce", " ", "Labs Backpack");
  }

  /** A slug is its own slug: lowercasing and collapsing whitespace again changes nothing. */
  lemma SlugIdempotent(productName: string)
    ensures Slug(Slug(productName)) == Slug(productName)
  {
    var slug := Slug(productName);
    assert ToLower(slug) == slug;
    ReplaceRunsKeepsWord(slug, "", "-");
    assert slug + "" == slug;
  }

  /** How an add-to-cart resolved: by the primary locator, by the fallback, or not at all. */
  datatype Resolution = ViaPrimary | ViaFallback | Unresolved(error: string)

  /** The click through the primary locator, with its short timeout. */
  function PrimaryClick(page: Handle, productName: string): Call {
    Click(page, PrimarySelector(productName), Some(PrimaryClickTimeoutMs))
  }

  /** The fallback: the "Add to cart" button inside the inventory item whose text contains the name. */
  function FallbackClick(page: Handle, productName: string): Call {
    ClickWithin(page, InventoryItemSelector, productName, "button", AddToCartText)
  }

  datatype InventoryPage = InventoryPage(page: Handle) {

    /** `isDisplayed`: wait for the title, read it, and compare it with "Products". */
    method IsDisplayed(driver: Driver) returns (r: Result<bool>)
      modifies driver
      ensures var n := |old(driver.trace)|;
              && (driver.fails(n).Some? ==>
                    r == Err(driver.fails(n).value)
                    && driver.trace == old(driver.trace) + [WaitVisible(page, TitleSelector)])
              && (driver.fails(n).None? ==>
                    driver.trace == old(driver.trace) + [WaitVisible(page, TitleSelector), TextContent(page, TitleSelector)]
                    && r == if driver.fails(n + 1).Some? then Err(driver.fails(n + 1).value)
                            else Ok(driver.texts(n + 1) == ProductsTitle))
    {
      var waited := driver.Perform(WaitVisible(page, TitleSelector));
      if waited.Err? {
        return Err(waited.error);
      }
      var title := driver.QueryText(TextContent(page, TitleSelector));
      if title.Err? {
        return Err(title.error);
      }
      r := Ok(title.value == ProductsTitle);
    }

    /**
     * `addProductToCart`: click the primary locator with a 5000 ms timeout;
     * only if that throws, click the fallback, whose error is not caught.
     */
    method AddProductToCart(driver: Driver, productName: string) returns (res: Resolution)
      modifies driver
      ensures var n := |old(driver.trace)|;
              && (driver.fails(n).None? ==>
                    res == ViaPrimary
                    && driver.trace == old(driver.trace) + [PrimaryClick(page, productName)])
              && (driver.fails(n).Some? ==>
                    driver.trace == old(driver.trace) + [PrimaryClick(page, productName), FallbackClick(page, productName)]
                    && res == if driver.fails(n + 1).Some? then Unresolved(driver.fails(n + 1).value) else ViaFallback)
    {
      var primary := driver.Perform(PrimaryClick(page, productName));
      if primary.Ok? {
        return ViaPrimary;
      }
      var fallback := driver.Perform(FallbackClick(page, productName));
      res := if fallback.Ok? then ViaFallback else Unresolved(fallback.error);
    }

    /**
     * `getCartBadgeCount`: a throw of the visibility query propagates; 0 when
     * the badge is not visible, without reading its text; otherwise `parseInt`
     * of its text.
     */
    method GetCartBadgeCount(driver: Driver) returns (r: Result<ParsedInt>)
      modifies driver
      ensures var n := |old(driver.trace)|;
              && (driver.fails(n).Some? ==>
                    r == Err(driver.fails(n).value) && driver.trace == old(driver.trace) + [IsVisible(page, CartBadgeSelector)])
              && (driver.fails(n).None? && !driver.visible(n) ==>
                    r == Ok(Num(0)) && driver.trace == old(driver.trace) + [IsVisible(page, CartBadgeSelector)])
              && (driver.fails(n).None? && driver.visible(n) ==>
                    driver.trace == old(driver.trace) + [IsVisible(page, CartBadgeSelector), TextContent(page, CartBadgeSelector)]
                    && r == if driver.fails(n + 1).Some? then Err(driver.fails(n + 1).value)
                            else Ok(ParseInt(driver.texts(n + 1))))
    {
      var isVisible := driver.QueryVisible(IsVisible(page, CartBadgeSelector));
      if isVisible.Err? {
        return Err(isVisible.error);
      }
      if !isVisible.value {
        return Ok(Num(0));
      }
      var text := driver.QueryText(TextContent(page, CartBadgeSelector));
      if text.Err? {
        return Err(text.error);
      }
      r := Ok(ParseInt(text.value));
    }

    /** `goToCart`: click the cart link. */
    method GoToCart(driver: Driver) returns (r: Result<()>)
      modifies driver
      ensures driver.trace == old(driver.trace) + [Click(page, CartLinkSelector, None)]
      ensures r == driver.OutcomeAt(|old(driver.trace)|)
    {
      r := driver.Perform(Click(page, CartLinkSelector, None));
    }
  }

  /** A badge showing a decimal count reads back as that count; "2" gives 2. */
  lemma BadgeCountOfDecimal(count: nat)
    ensures ParseInt(NatToString(count)) == Num(count)
    ensures ParseInt("2") == Num(2)
  {
    ParseIntOfDecimal(count, "");
    assert IntToString(count) + "" == NatToString(count);
    ParseIntOfDecimal(2, "");
    assert IntToString(2) + "" == "2";
  }
}
