/**
 * The client-side cart: an ordered list of (item id, quantity) entries, and the
 * new-cart computations behind the store's `addToCart` and `removeFromCart` actions.
 */
module Cart {
  import opened Wrappers

  datatype Entry = Entry(itemId: int, quantity: int)

  /** The first entry for `id`, as `cart.find(i => i.itemId === id)`. */
  function Find(cart: seq<Entry>, id: int): (r: Option<Entry>)
    ensures r.Some? ==> r.value in cart && r.value.itemId == id
    ensures r.None? <==> forall k :: 0 <= k < |cart| ==> cart[k].itemId != id
  {
    if cart == [] then None
    else if cart[0].itemId == id then Some(cart[0])
    else Find(cart[1..], id)
  }

  /** Adds `delta` to the quantity of every entry for `id`; the other entries stay as they are. */
  function Bump(cart: seq<Entry>, id: int, delta: int): (r: seq<Entry>)
  {
    seq(|cart|, k requires 0 <= k < |cart| =>
      if cart[k].itemId == id then cart[k].(quantity := cart[k].quantity + delta) else cart[k])
  }

  /** The entries whose id is not `id`, in their order, as `cart.filter(i => i.itemId !== id)`. */
  function Without(cart: seq<Entry>, id: int): (r: seq<Entry>)
    ensures |r| <= |cart|
    ensures forall e :: e in r <==> e in cart && e.itemId != id
  {
    if cart == [] then []
    else if cart[0].itemId == id then Without(cart[1..], id)
    else [cart[0]] + Without(cart[1..], id)
  }

  /** `addToCart(id)`: one more of an item already in the cart, else a new entry of one at the end. */
  function Add(cart: seq<Entry>, id: int): seq<Entry> {
    if Find(cart, id).Some? then Bump(cart, id, 1) else cart + [Entry(id, 1)]
  }

  /** `removeFromCart(id)`: one fewer of an item held more than once, else its entry is dropped. */
  function Remove(cart: seq<Entry>, id: int): seq<Entry> {
    var existing := Find(cart, id);
    if existing.Some? && existing.value.quantity > 1 then Bump(cart, id, -1) else Without(cart, id)
  }

  /** The cart invariant: every quantity is at least one and no item id appears twice. */
  predicate WellFormed(cart: seq<Entry>) {
    && (forall k :: 0 <= k < |cart| ==> cart[k].quantity >= 1)
    && (forall j, k :: 0 <= j < k < |cart| ==> cart[j].itemId != cart[k].itemId)
  }

  /** How many of item `id` the cart holds (0 when it has no entry for it). */
  function QuantityOf(cart: seq<Entry>, id: int): int {
    match Find(cart, id)
    case Some(e) => e.quantity
    case None => 0
  }

  lemma FindIn(cart: seq<Entry>, id: int, k: int)
    requires WellFormed(cart) && 0 <= k < |cart| && cart[k].itemId == id
    ensures Find(cart, id) == Some(cart[k])
  {
    if k > 0 {
      assert cart[0].itemId != id;
      FindIn(cart[1..], id, k - 1);
    }
  }

  lemma WithoutAbsent(cart: seq<Entry>, id: int)
    requires forall k :: 0 <= k < |cart| ==> cart[k].itemId != id
    ensures Without(cart, id) == cart
  {
  }

  lemma {:induction false} WithoutAppend(a: seq<Entry>, b: seq<Entry>, id: int)
    ensures Without(a + b, id) == Without(a, id) + Without(b, id)
  {
    if a == [] {
      assert a + b == b;
    } else {
      assert (a + b)[1..] == a[1..] + b;
      WithoutAppend(a[1..], b, id);
    }
  }

  lemma {:induction false} WithoutWellFormed(cart: seq<Entry>, id: int)
    requires WellFormed(cart)
    ensures WellFormed(Without(cart, id))
  {
    if cart != [] {
      WithoutWellFormed(cart[1..], id);
      var rest := Without(cart[1..], id);
      assert forall e :: e in rest ==> e in cart[1..];
      forall k | 0 <= k < |rest| ensures rest[k].itemId != cart[0].itemId {
        assert rest[k] in cart[1..];
      }
    }
  }

  /** Adding an item already present raises only its quantity, by one; order and length are kept. */
  lemma AddPresent(cart: seq<Entry>, id: int)
    requires Find(cart, id).Some?
    ensures var r := Add(cart, id);
      && |r| == |cart|
      && forall k :: 0 <= k < |cart| ==>
           r[k] == if cart[k].itemId == id then Entry(id, cart[k].quantity + 1) else cart[k]
  {
  }

  /** Adding an item not in the cart appends a single entry of quantity one. */
  lemma AddAbsent(cart: seq<Entry>, id: int)
    requires Find(cart, id).None?
    ensures Add(cart, id) == cart + [Entry(id, 1)]
  {
  }

  /**
   * Removing decrements an entry held more than once, drops an entry held once,
   * and leaves a cart without the item unchanged.
   */
  lemma RemoveCases(cart: seq<Entry>, id: int)
    requires WellFormed(cart)
    ensures Find(cart, id).None? ==> Remove(cart, id) == cart
    ensures Find(cart, id).Some? && Find(cart, id).value.quantity > 1 ==>
      Remove(cart, id) == Bump(cart, id, -1)
    ensures Find(cart, id).Some? && Find(cart, id).value.quantity <= 1 ==>
      Remove(cart, id) == Without(cart, id) && |Remove(cart, id)| == |cart| - 1
  {
    if Find(cart, id).None? {
      WithoutAbsent(cart, id);
    } else if Find(cart, id).value.quantity <= 1 {
      var k :| 0 <= k < |cart| && cart[k] == Find(cart, id).value;
      WithoutDropsOne(cart, id, k);
    }
  }

  /** In a well-formed cart, dropping an item's entries removes exactly its one entry. */
  lemma WithoutDropsOne(cart: seq<Entry>, id: int, k: int)
    requires WellFormed(cart) && 0 <= k < |cart| && cart[k].itemId == id
    ensures Without(cart, id) == cart[..k] + cart[k + 1..]
  {
    var a, b := cart[..k], cart[k + 1..];
    assert cart == a + ([cart[k]] + b);
    WithoutAppend(a, [cart[k]] + b, id);
    WithoutAppend([cart[k]], b, id);
    assert [cart[k]][1..] == [];
    assert Without([cart[k]], id) == [];
    assert forall j :: 0 <= j < |a| ==> a[j] == cart[j];
    WithoutAbsent(a, id);
    assert forall j :: 0 <= j < |b| ==> b[j] == cart[k + 1 + j];
    WithoutAbsent(b, id);
  }

  /** `addToCart` keeps the cart invariant. */
  lemma AddWellFormed(cart: seq<Entry>, id: int)
    requires WellFormed(cart)
    ensures WellFormed(Add(cart, id))
  {
  }

  /** `removeFromCart` keeps the cart invariant. */
  lemma RemoveWellFormed(cart: seq<Entry>, id: int)
    requires WellFormed(cart)
    ensures WellFormed(Remove(cart, id))
  {
    var existing := Find(cart, id);
    if !(existing.Some? && existing.value.quantity > 1) {
      WithoutWellFormed(cart, id);
    } else {
      var r := Bump(cart, id, -1);
      forall k | 0 <= k < |cart| ensures r[k].quantity >= 1 {
        if cart[k].itemId == id { FindIn(cart, id, k); }
      }
    }
  }

  /** `addToCart(id)` followed by `removeFromCart(id)` gives back the cart it started from. */
  lemma AddThenRemove(cart: seq<Entry>, id: int)
    requires WellFormed(cart)
    ensures Remove(Add(cart, id), id) == cart
  {
    var added := Add(cart, id);
    if Find(cart, id).Some? {
      var k :| 0 <= k < |cart| && cart[k] == Find(cart, id).value;
      AddWellFormed(cart, id);
      FindIn(added, id, k);
      assert Remove(added, id) == Bump(added, id, -1);
      assert Bump(added, id, -1) == cart;
    } else {
      AddWellFormed(cart, id);
      FindIn(added, id, |cart|);
      WithoutAppend(cart, [Entry(id, 1)], id);
      WithoutAbsent(cart, id);
    }
  }

  /** Seen as a bag of items, adding raises the count of `id` by one and no other count. */
  lemma AddQuantities(cart: seq<Entry>, id: int, x: int)
    requires WellFormed(cart)
    ensures QuantityOf(Add(cart, id), x) == QuantityOf(cart, x) + (if x == id then 1 else 0)
  {
    var r := Add(cart, id);
    AddWellFormed(cart, id);
    match Find(cart, x)
    case None =>
      if x == id { FindIn(r, id, |cart|); }
      else if Find(cart, id).None? {
        assert forall k :: 0 <= k < |r| ==> r[k].itemId != x;
      }
    case Some(e) =>
      var k :| 0 <= k < |cart| && cart[k] == e;
      FindIn(r, x, k);
  }

  /** Seen as a bag of items, removing lowers the count of `id` by one (not below zero) and no other count. */
  lemma RemoveQuantities(cart: seq<Entry>, id: int, x: int)
    requires WellFormed(cart)
    ensures QuantityOf(Remove(cart, id), x) ==
      if x == id then (if QuantityOf(cart, id) > 1 then QuantityOf(cart, id) - 1 else 0)
      else QuantityOf(cart, x)
  {
    var r := Remove(cart, id);
    RemoveWellFormed(cart, id);
    RemoveCases(cart, id);
    var existing := Find(cart, id);
    if existing.Some? && existing.value.quantity > 1 {
      match Find(cart, x)
      case None =>
      case Some(e) =>
        var k :| 0 <= k < |cart| && cart[k] == e;
        FindIn(r, x, k);
    } else if existing.Some? {
      match Find(cart, x)
      case None =>
        assert forall e :: e in r ==> e in cart;
        assert Find(r, x).None?;
      case Some(e) =>
        if x != id {
          assert e in r;
          var k :| 0 <= k < |r| && r[k] == e;
          FindIn(r, x, k);
        } else {
          assert Find(r, x).None?;
        }
    }
  }
}
