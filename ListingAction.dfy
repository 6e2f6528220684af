/** The purchase control on a listing's detail view: which of three panels
    it shows, and the `isLoading` flag it raises around the purchase
    callback. */
module ListingAction {
  import opened Common

  const InactiveMessage: string := "THIS LISTING IS NO LONGER ACTIVE"
  const SoldOutMessage: string := "SOLD OUT"
  const ProcessingLabel: string := "PROCESSING..."
  const BuyLabel: string := "BUY NOW"

  /** The panel shown: a notice, or the buy button (with its back link). */
  datatype ActionView = NoLongerActive | SoldOut | BuyNow(disabled: bool, caption: string)

  /** The panel for a listing: the active flag is tested before the supply,
      and only the button depends on `isLoading`. */
  function ActionFor(isActive: bool, remainingSupply: int, isLoading: bool): (v: ActionView)
    ensures v == NoLongerActive <==> !isActive
    ensures v == SoldOut <==> isActive && remainingSupply == 0
    ensures v.BuyNow? <==> isActive && remainingSupply != 0
    ensures v.BuyNow? ==> v.disabled == isLoading
    ensures v.BuyNow? ==> (v.caption == ProcessingLabel <==> isLoading) && (v.caption == BuyLabel <==> !isLoading)
  {
    if !isActive then NoLongerActive
    else if remainingSupply == 0 then SoldOut
    else BuyNow(isLoading, if isLoading then ProcessingLabel else BuyLabel)
  }

  /** The loading flag never changes which panel is shown: the two notices
      ignore it, and the button differs between its two values. */
  lemma LoadingOnlyTouchesButton(isActive: bool, remainingSupply: int)
    ensures ActionFor(isActive, remainingSupply, true).BuyNow? == ActionFor(isActive, remainingSupply, false).BuyNow?
    ensures ActionFor(isActive, remainingSupply, true) == ActionFor(isActive, remainingSupply, false)
            <==> !isActive || remainingSupply == 0
  {
    assert ProcessingLabel != BuyLabel by { assert ProcessingLabel[0] != BuyLabel[0]; }
  }

  /** One mounted control: its props are fixed, `isLoading` is its state. */
  class PurchaseButton {
    const isActive: bool
    const remainingSupply: int
    const hasPurchaseHandler: bool
    var isLoading: bool

    constructor (isActive: bool, remainingSupply: int, hasPurchaseHandler: bool)
      ensures this.isActive == isActive && this.remainingSupply == remainingSupply
      ensures this.hasPurchaseHandler == hasPurchaseHandler
      ensures !isLoading
    {
      this.isActive := isActive;
      this.remainingSupply := remainingSupply;
      this.hasPurchaseHandler := hasPurchaseHandler;
      isLoading := false;
    }

    function View(): (v: ActionView)
      reads this
      ensures v.BuyNow? ==> v.disabled == isLoading
    {
      ActionFor(isActive, remainingSupply, isLoading)
    }

    /** `handlePurchase` up to its await: without a callback it returns with
        the flag untouched; otherwise the flag is raised and the callback
        starts. Returns whether the callback was invoked. */
    method BeginPurchase() returns (invoked: bool)
      modifies this
      ensures invoked == hasPurchaseHandler
      ensures isLoading == (hasPurchaseHandler || old(isLoading))
    {
      if !hasPurchaseHandler {
        return false;
      }
      isLoading := true;
      invoked := true;
    }

    /** `handlePurchase` after its await: whether the callback resolved or
        threw, the failure is swallowed and the flag is lowered. */
    method SettlePurchase(outcome: Outcome<()>)
      modifies this
      ensures !isLoading
    {
      // `finally`: a rejected callback is logged to the console, not rethrown
      isLoading := false;
    }
  }

  /** Mounting the control and clicking the buy button once: the panel
      before the click, while the callback runs, and after it settles. An
      available listing with a callback shows "PROCESSING..." on a disabled
      button and then returns to "BUY NOW", whatever the callback does. */
  method ClickBuy(isActive: bool, remainingSupply: int, hasPurchaseHandler: bool, outcome: Outcome<()>)
    returns (before: ActionView, during: ActionView, after: ActionView)
    ensures before == after
    ensures before == ActionFor(isActive, remainingSupply, false)
    ensures isActive && remainingSupply != 0 && hasPurchaseHandler ==>
              during == BuyNow(true, ProcessingLabel) && after == BuyNow(false, BuyLabel)
    ensures !(isActive && remainingSupply != 0 && hasPurchaseHandler) ==> during == before
  {
    var button := new PurchaseButton(isActive, remainingSupply, hasPurchaseHandler);
    before := button.View();
    var invoked := button.BeginPurchase();
    during := button.View();
    if invoked {
      button.SettlePurchase(outcome);
    }
    after := button.View();
  }
}
