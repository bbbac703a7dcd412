/**
 * The client's ordering gate: `handleAddToCart`, which lets a quantity change through
 * only for a customer who is not blocked while the store is open or inside the pre-order
 * window, and the payment confirmation that turns the priced cart into a new order.
 */
module CartGate {
  import opened Wrappers
  import opened Schema
  import opened Cart
  import opened ClientStore
  import opened Availability
  import opened Pricing

  /** The message shown after a quantity button is pressed; `Silent` when none is shown. */
  datatype Notice = Blocked | PreOrderAccepted | StoreClosed(message: string) | AddedToCart | Silent

  /** `settings.nextOpenMessage || "We open at " + settings.openTime`. */
  function ClosedMessage(settings: StoreSettings): (m: string)
    ensures settings.nextOpenMessage != "" ==> m == settings.nextOpenMessage
    ensures settings.nextOpenMessage == "" ==> m == "We open at " + settings.openTime
  {
    if settings.nextOpenMessage != "" then settings.nextOpenMessage else "We open at " + settings.openTime
  }

  /**
   * Adds one of item `id` (`increment`) or takes one away. `nowMs` is the clock reading
   * in milliseconds since local midnight.
   */
  method HandleAddToCart(store: AppStore, settings: StoreSettings, nowMs: int, id: int, increment: bool)
    returns (notice: Notice)
    requires store.Valid()
    modifies store`cart
    ensures store.Valid()
    ensures IsBlocked(store.user) ==> notice == Blocked && store.cart == old(store.cart)
    ensures !IsBlocked(store.user) ==>
      match Evaluate(settings.isOpen, settings.openTime, nowMs)
      case Closed => notice == StoreClosed(ClosedMessage(settings)) && store.cart == old(store.cart)
      case PreOrder =>
        && store.cart == (if increment then Add(old(store.cart), id) else Remove(old(store.cart), id))
        && notice == (if increment then PreOrderAccepted else Silent)
      case Open =>
        && store.cart == (if increment then Add(old(store.cart), id) else Remove(old(store.cart), id))
        && notice == (if increment then AddedToCart else Silent)
  {
    var currentUser := store.user;
    if currentUser.Some? && currentUser.value.isBlocked == Some(true) {
      notice := Blocked;
      return;
    }
    if !settings.isOpen {
      if settings.openTime != "" {
        var parsed := OpenInstant(settings.openTime);
        if parsed.Some? {
          var openDate := parsed.value;
          if nowMs > openDate {
            openDate := openDate + DayMs;
          }
          var diffMs := openDate - nowMs;
          if diffMs <= WindowMs && diffMs > 0 {
            if increment {
              store.AddToCart(id);
              notice := PreOrderAccepted;
            } else {
              store.RemoveFromCart(id);
              notice := Silent;
            }
            return;
          }
        }
      }
      notice := StoreClosed(ClosedMessage(settings));
      return;
    }
    if increment {
      store.AddToCart(id);
      notice := AddedToCart;
    } else {
      store.RemoveFromCart(id);
      notice := Silent;
    }
  }

  /**
   * `handlePaymentConfirm`: the order sent is the priced cart's snapshot under `orderId`
   * with a pending-payment status and the cart page's total, and the cart is emptied.
   * `q` is the quote the cart page computed for the same cart (`ComputeQuote`).
   */
  method ConfirmPayment(store: AppStore, menu: seq<MenuItem>, q: Quote, orderId: string)
    returns (order: OrderInsert)
    requires QuotesCart(q, store.cart, menu)
    modifies store`cart
    ensures store.Valid() && store.cart == []
    ensures order.items == Snapshot(ResolveCart(old(store.cart), menu))
    ensures ItemsTotal(order.items) == Subtotal(ResolveCart(old(store.cart), menu))
    ensures order.status == Some(PendingPayment) && order.orderId == orderId
    ensures order.total == q.total == ItemsTotal(order.items) + q.deliveryFee + PlatformFee
    ensures order == NewOrder(orderId, store.user, ResolveCart(old(store.cart), menu), q)
  {
    var lines := ResolveCart(store.cart, menu);
    SnapshotKeepsSubtotal(lines);
    order := NewOrder(orderId, store.user, lines, q);
    store.ClearCart();
  }
}
