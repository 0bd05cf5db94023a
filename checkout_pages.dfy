/**
 * The cart and checkout page objects. Each is bound to the page it was
 * constructed over; their locator actions are not part of this model.
 */
module CheckoutPages {
  import opened Driver

  datatype CartPage = CartPage(page: Handle)
  datatype CheckoutStepOnePage = CheckoutStepOnePage(page: Handle)
  datatype CheckoutStepTwoPage = CheckoutStepTwoPage(page: Handle)
  datatype CheckoutCompletePage = CheckoutCompletePage(page: Handle)
}
