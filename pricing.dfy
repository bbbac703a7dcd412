/**
 * The cart page's pricing: the cart resolved against the menu, the subtotal, the
 * delivery-range test, the delivery and platform fees and the total; then the ordered
 * refusal checks of "place order" and the order snapshot sent on payment confirmation.
 */
module Pricing {
  import opened Wrappers
  import opened Schema
  import opened Cart
  import opened ClientStore

  const FreeDeliveryAbove := 999
  const NearFee := 49
  const FarFee := 99
  const NearKm := 5
  const PlatformFee := 5

  /** A cart entry joined with the menu row it names. */
  datatype Line = Line(item: MenuItem, quantity: int)

  /** The first menu row with id `id`, as `menu.find(m => m.id === id)`. */
  function Lookup(menu: seq<MenuItem>, id: int): (r: Option<MenuItem>)
    ensures r.Some? ==> r.value in menu && r.value.id == id
    ensures r.None? <==> forall k :: 0 <= k < |menu| ==> menu[k].id != id
  {
    if menu == [] then None
    else if menu[0].id == id then Some(menu[0])
    else Lookup(menu[1..], id)
  }

  /** The cart's entries that name a menu row, joined with it, in cart order; the others are dropped. */
  function ResolveCart(cart: seq<Entry>, menu: seq<MenuItem>): (lines: seq<Line>)
    ensures |lines| <= |cart|
  {
    if cart == [] then []
    else
      var rest := ResolveCart(cart[1..], menu);
      match Lookup(menu, cart[0].itemId)
      case Some(m) => [Line(m, cart[0].quantity)] + rest
      case None => rest
  }

  /** `cartItems.reduce((acc, i) => acc + i.price * i.quantity, 0)`. */
  function Subtotal(lines: seq<Line>): int {
    if lines == [] then 0 else lines[0].item.price * lines[0].quantity + Subtotal(lines[1..])
  }

  /** The value the cart's entry `e` contributes: price times quantity, or nothing when the item is off the menu. */
  function EntryValue(e: Entry, menu: seq<MenuItem>): int {
    match Lookup(menu, e.itemId)
    case Some(m) => m.price * e.quantity
    case None => 0
  }

  lemma {:induction false} ResolveAppend(a: seq<Entry>, b: seq<Entry>, menu: seq<MenuItem>)
    ensures ResolveCart(a + b, menu) == ResolveCart(a, menu) + ResolveCart(b, menu)
  {
    if a == [] {
      assert a + b == b;
    } else {
      assert (a + b)[1..] == a[1..] + b;
      ResolveAppend(a[1..], b, menu);
    }
  }

  lemma {:induction false} SubtotalAppend(a: seq<Line>, b: seq<Line>)
    ensures Subtotal(a + b) == Subtotal(a) + Subtotal(b)
  {
    if a == [] {
      assert a + b == b;
    } else {
      assert (a + b)[1..] == a[1..] + b;
      SubtotalAppend(a[1..], b);
    }
  }

  /**
   * The resolved lines are, in order, exactly the entries whose item is on the menu,
   * each with that menu row and the entry's quantity.
   */
  lemma {:induction false} ResolveCartLines(cart: seq<Entry>, menu: seq<MenuItem>, e: Entry)
    ensures ResolveCart(cart + [e], menu) ==
      ResolveCart(cart, menu) + (if Lookup(menu, e.itemId).Some? then [Line(Lookup(menu, e.itemId).value, e.quantity)] else [])
  {
    ResolveAppend(cart, [e], menu);
    assert [e][1..] == [];
  }

  /** The subtotal adds up price times quantity over the entries whose item is on the menu. */
  lemma {:induction false} SubtotalOfCart(cart: seq<Entry>, menu: seq<MenuItem>, e: Entry)
    ensures Subtotal(ResolveCart(cart + [e], menu)) == Subtotal(ResolveCart(cart, menu)) + EntryValue(e, menu)
  {
    ResolveCartLines(cart, menu, e);
    var tail := if Lookup(menu, e.itemId).Some? then [Line(Lookup(menu, e.itemId).value, e.quantity)] else [];
    SubtotalAppend(ResolveCart(cart, menu), tail);
  }

  /** An entry naming an item that is not on the menu changes nothing, wherever it sits in the cart. */
  lemma DroppedEntryIsIgnored(a: seq<Entry>, e: Entry, b: seq<Entry>, menu: seq<MenuItem>)
    requires Lookup(menu, e.itemId).None?
    ensures ResolveCart(a + [e] + b, menu) == ResolveCart(a + b, menu)
    ensures Subtotal(ResolveCart(a + [e] + b, menu)) == Subtotal(ResolveCart(a + b, menu))
  {
    ResolveAppend(a + [e], b, menu);
    ResolveAppend(a, [e], menu);
    ResolveAppend(a, b, menu);
    assert [e][1..] == [];
  }

  /** With prices that are not negative and well-formed quantities, the subtotal is not negative. */
  lemma {:induction false} SubtotalNonNegative(cart: seq<Entry>, menu: seq<MenuItem>)
    requires WellFormed(cart)
    requires forall k :: 0 <= k < |menu| ==> menu[k].price >= 0
    ensures Subtotal(ResolveCart(cart, menu)) >= 0
  {
    if cart != [] {
      assert WellFormed(cart[1..]) by {
        forall j, k | 0 <= j < k < |cart[1..]| ensures cart[1..][j].itemId != cart[1..][k].itemId {
          assert cart[j + 1].itemId != cart[k + 1].itemId;
        }
      }
      SubtotalNonNegative(cart[1..], menu);
      match Lookup(menu, cart[0].itemId)
      case Some(m) =>
        var k :| 0 <= k < |menu| && menu[k] == m;
        assert m.price >= 0 && cart[0].quantity >= 1;
        assert m.price * cart[0].quantity >= 0;
      case None =>
    }
  }

  /** The cart page's price breakdown. `distanceKm` is 0 unless it was computed. */
  datatype Quote = Quote(subtotal: int, distanceKm: real, isOutOfRange: bool, deliveryFee: int, platformFee: int, total: int)

  /** `q` prices `cart` against `menu`: its subtotal is the cart's, and its total adds the two fees to it. */
  predicate QuotesCart(q: Quote, cart: seq<Entry>, menu: seq<MenuItem>) {
    && q.subtotal == Subtotal(ResolveCart(cart, menu))
    && q.platformFee == PlatformFee
    && q.total == q.subtotal + q.deliveryFee + q.platformFee
  }

  /** `settings.locationLat && settings.locationLng`: both store coordinates are set (non-zero). */
  predicate StoreLocated(settings: StoreSettings) {
    settings.locationLat != 0.0 && settings.locationLng != 0.0
  }

  /**
   * Prices the cart. `distanceKm` is the great-circle distance from the customer's location
   * to the store's; it is consulted only when both locations are known.
   */
  method ComputeQuote(cart: seq<Entry>, menu: seq<MenuItem>, user: Option<User>, settings: StoreSettings, distanceKm: real)
    returns (q: Quote)
    ensures q.subtotal == Subtotal(ResolveCart(cart, menu))
    ensures var located := user.Some? && user.value.location.Some? && StoreLocated(settings);
      && q.distanceKm == (if located then distanceKm else 0.0)
      && (q.isOutOfRange <==> located && distanceKm > settings.deliveryRadiusKm as real)
    ensures q.isOutOfRange ==> q.deliveryFee == 0
    ensures !q.isOutOfRange && q.subtotal > FreeDeliveryAbove ==> q.deliveryFee == 0
    ensures !q.isOutOfRange && q.subtotal <= FreeDeliveryAbove ==>
      q.deliveryFee == (if q.distanceKm <= NearKm as real then NearFee else FarFee)
    ensures (user.None? || user.value.location.None?) && q.subtotal <= FreeDeliveryAbove ==> q.deliveryFee == NearFee
    ensures q.platformFee == PlatformFee
    ensures q.total == q.subtotal + q.deliveryFee + PlatformFee
    ensures QuotesCart(q, cart, menu)
  {
    var lines := ResolveCart(cart, menu);
    var subtotal := Subtotal(lines);
    var deliveryFee := 0;
    var distance := 0.0;
    var isOutOfRange := false;
    var hasLocation := user.Some? && user.value.location.Some?;
    if hasLocation && StoreLocated(settings) {
      distance := distanceKm;
      if distance > settings.deliveryRadiusKm as real {
        isOutOfRange := true;
      }
    }
    if isOutOfRange {
      deliveryFee := 0;
    } else if subtotal > FreeDeliveryAbove {
      deliveryFee := 0;
    } else {
      if distance <= NearKm as real {
        deliveryFee := NearFee;
      } else {
        deliveryFee := FarFee;
      }
    }
    if !hasLocation && subtotal <= FreeDeliveryAbove {
      deliveryFee := NearFee;
    }
    q := Quote(subtotal, distance, isOutOfRange, deliveryFee, PlatformFee, subtotal + deliveryFee + PlatformFee);
  }

  /** What "place order" does: refuse with a reason, or go on to the payment step. */
  datatype Checkout = AccountBlocked | LocationRequired | NotDeliverable(distanceKm: real, radiusKm: int) | ProceedToPayment

  /** `handlePlaceOrder`: blocked, then no delivery location, then out of range, are refused in that order. */
  function PlaceOrder(user: Option<User>, q: Quote, radiusKm: int): (r: Checkout)
    ensures r == ProceedToPayment <==> !IsBlocked(user) && user.Some? && user.value.location.Some? && !q.isOutOfRange
    ensures IsBlocked(user) ==> r == AccountBlocked
    ensures !IsBlocked(user) && (user.None? || user.value.location.None?) ==> r == LocationRequired
    ensures r.NotDeliverable? ==> r == NotDeliverable(q.distanceKm, radiusKm) && q.isOutOfRange
  {
    if IsBlocked(user) then AccountBlocked
    else if user.None? || user.value.location.None? then LocationRequired
    else if q.isOutOfRange then NotDeliverable(q.distanceKm, radiusKm)
    else ProceedToPayment
  }

  /** The order lines sent with a new order: a copy of id, name, quantity and price of each resolved line. */
  function Snapshot(lines: seq<Line>): (items: seq<OrderItem>)
    ensures |items| == |lines|
    ensures forall k :: 0 <= k < |lines| ==>
      items[k] == OrderItem(lines[k].item.id, lines[k].item.name, lines[k].quantity, lines[k].item.price)
  {
    if lines == [] then [] else [OrderItem(lines[0].item.id, lines[0].item.name, lines[0].quantity, lines[0].item.price)] + Snapshot(lines[1..])
  }

  /** Price times quantity added up over order lines, as the dashboard shows them. */
  function ItemsTotal(items: seq<OrderItem>): int {
    if items == [] then 0 else items[0].price * items[0].quantity + ItemsTotal(items[1..])
  }

  /** The snapshot carries the subtotal: its lines add up to exactly what the cart page charged for goods. */
  lemma {:induction false} SnapshotKeepsSubtotal(lines: seq<Line>)
    ensures ItemsTotal(Snapshot(lines)) == Subtotal(lines)
  {
    if lines != [] {
      SnapshotKeepsSubtotal(lines[1..]);
      assert Snapshot(lines)[1..] == Snapshot(lines[1..]);
    }
  }

  /** JavaScript's `s || fallback` for an optional text. */
  function OrElse(s: Option<string>, fallback: string): string {
    if s.Some? && s.value != "" then s.value else fallback
  }

  /** The order `handlePaymentConfirm` sends for the priced cart. */
  function NewOrder(orderId: string, user: Option<User>, lines: seq<Line>, q: Quote): (o: OrderInsert)
    ensures o.status == Some(PendingPayment) && o.total == q.total && o.orderId == orderId
    ensures o.items == Snapshot(lines)
    ensures o.customerPhone == (if user.Some? && user.value.phoneNumber != "" then user.value.phoneNumber else "Unknown")
    ensures o.customerName == Some(if user.Some? && user.value.name.Some? && user.value.name.value != ""
                                   then user.value.name.value else "Guest User")
    ensures o.address == Some(if user.Some? && user.value.address.Some? && user.value.address.value != ""
                              then user.value.address.value else "Address not provided")
  {
    OrderInsert(
      orderId,
      if user.Some? then OrElse(Some(user.value.phoneNumber), "Unknown") else "Unknown",
      Some(if user.Some? then OrElse(user.value.name, "Guest User") else "Guest User"),
      Snapshot(lines),
      q.total,
      Some(PendingPayment),
      None,
      Some(if user.Some? then OrElse(user.value.address, "Address not provided") else "Address not provided"))
  }

  /**
   * The worked example: two at 100 and one at 50, three kilometres from a store that
   * delivers within five, is 250 plus the near fee plus the platform fee, 304.
   */
  method ExampleQuote() returns (q: Quote)
    ensures q.subtotal == 250 && !q.isOutOfRange && q.deliveryFee == 49 && q.total == 304
  {
    var biryani := MenuItem(1, "Biryani", "", 100, None, "", "Main Course", false, true);
    var lassi := MenuItem(2, "Lassi", "", 50, None, "", "Drinks", true, true);
    var user := User("9000000000", None, None, Some(Location(28.6, 77.2)), None);
    var cart := [Entry(1, 2), Entry(2, 1)];
    var menu := [biryani, lassi];
    assert Lookup(menu, 1) == Some(biryani);
    assert Lookup(menu[1..], 2) == Some(lassi);
    assert cart[1..][1..] == [];
    assert ResolveCart(cart[1..], menu) == [Line(lassi, 1)];
    assert ResolveCart(cart, menu) == [Line(biryani, 2), Line(lassi, 1)];
    assert Subtotal([Line(lassi, 1)]) == 50;
    q := ComputeQuote(cart, menu, Some(user), DefaultSettings(1), 3.0);
  }
}
