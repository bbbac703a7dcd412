/**
 * The server's storage layer over in-memory tables: the menu, orders, customers, the
 * store-settings singleton, banners, category images and reviews. Each method reads a
 * table and then updates or inserts rows, as the database queries do.
 */
module Storage {
  import opened Wrappers
  import opened Schema

  /** `orders` with the status of the row keyed `orderId` replaced by `status`, whatever it is. */
  function WithStatus(orders: seq<Order>, orderId: string, status: string): (r: seq<Order>)
    ensures |r| == |orders|
    ensures forall k :: 0 <= k < |orders| ==>
      r[k] == if orders[k].orderId == orderId then orders[k].(status := status) else orders[k]
  {
    seq(|orders|, k requires 0 <= k < |orders| =>
      if orders[k].orderId == orderId then orders[k].(status := status) else orders[k])
  }

  /** The index of the order keyed `orderId`, if there is one. */
  function OrderIndex(orders: seq<Order>, orderId: string): (r: Option<nat>)
    ensures r.Some? ==> r.value < |orders| && orders[r.value].orderId == orderId
    ensures r.None? <==> forall k :: 0 <= k < |orders| ==> orders[k].orderId != orderId
  {
    if orders == [] then None
    else if orders[0].orderId == orderId then Some(0)
    else match OrderIndex(orders[1..], orderId)
      case None => None
      case Some(k) => Some(k + 1)
  }

  /** The orders placed from `phone`, in table order. */
  function OrdersOf(orders: seq<Order>, phone: string): (r: seq<Order>)
    ensures forall o :: o in r <==> o in orders && o.customerPhone == phone
  {
    if orders == [] then []
    else
      assert forall o :: o in orders <==> o == orders[0] || o in orders[1..];
      (if orders[0].customerPhone == phone then [orders[0]] else []) + OrdersOf(orders[1..], phone)
  }

  /** The reviews of order `orderId`. */
  function ReviewsOf(reviews: seq<Review>, orderId: string): (r: seq<Review>)
    ensures forall v :: v in r <==> v in reviews && v.orderId == orderId
  {
    if reviews == [] then []
    else
      assert forall v :: v in reviews <==> v == reviews[0] || v in reviews[1..];
      (if reviews[0].orderId == orderId then [reviews[0]] else []) + ReviewsOf(reviews[1..], orderId)
  }

  /** Whether `upsertCustomer` has any column to update. */
  predicate SuppliesAny(data: CustomerInsert) {
    data.name.Given? || data.address.Given? || data.locationLat.Given? || data.locationLng.Given?
  }

  /** `c` with the supplied (not undefined) name, address and coordinates written over it. */
  function PatchCustomer(c: Customer, data: CustomerInsert): Customer {
    c.(name := if data.name.Given? then data.name.value else c.name,
       address := if data.address.Given? then data.address.value else c.address,
       locationLat := if data.locationLat.Given? then data.locationLat.value else c.locationLat,
       locationLng := if data.locationLng.Given? then data.locationLng.value else c.locationLng)
  }

  /**
   * An upsert on a known phone changes only the supplied columns, never the blocked flag,
   * the join time or the phone; with nothing supplied it changes nothing; and
   * repeating it changes nothing more.
   */
  lemma PatchCustomerSpec(c: Customer, data: CustomerInsert)
    ensures var p := PatchCustomer(c, data);
      && p.isBlocked == c.isBlocked && p.joinedAt == c.joinedAt && p.phoneNumber == c.phoneNumber
      && (data.name.Undefined? ==> p.name == c.name)
      && (data.name.Given? ==> p.name == data.name.value)
      && (data.locationLat.Undefined? ==> p.locationLat == c.locationLat)
      && (!SuppliesAny(data) ==> p == c)
      && PatchCustomer(p, data) == p
  {
  }

  /** The menu rows other than `id`, in their order. */
  function WithoutItem(menu: seq<MenuItem>, id: int): (r: seq<MenuItem>)
    ensures forall m :: m in r <==> m in menu && m.id != id
    ensures UniqueMenuIds(menu) ==> UniqueMenuIds(r)
  {
    if menu == [] then []
    else
      var rest := WithoutItem(menu[1..], id);
      assert forall m :: m in menu <==> m == menu[0] || m in menu[1..];
      assert UniqueMenuIds(menu) ==> forall m :: m in rest ==> m.id != menu[0].id by {
        if UniqueMenuIds(menu) {
          forall m | m in rest ensures m.id != menu[0].id {
            var k :| 0 <= k < |menu[1..]| && menu[1..][k] == m;
            assert menu[k + 1] == m;
          }
        }
      }
      if menu[0].id == id then rest else [menu[0]] + rest
  }

  /** `banners` with the row `id` patched. */
  function PatchBanners(banners: seq<Banner>, id: int, updates: BannerPatch): (r: seq<Banner>)
    ensures |r| == |banners|
    ensures forall k :: 0 <= k < |banners| ==>
      r[k] == if banners[k].id == id then PatchBanner(banners[k], updates) else banners[k]
    ensures forall k :: 0 <= k < |banners| ==> r[k].id == banners[k].id
  {
    seq(|banners|, k requires 0 <= k < |banners| =>
      if banners[k].id == id then PatchBanner(banners[k], updates) else banners[k])
  }

  function BannerIndex(banners: seq<Banner>, id: int): (r: Option<nat>)
    ensures r.Some? ==> r.value < |banners| && banners[r.value].id == id
    ensures r.None? <==> forall k :: 0 <= k < |banners| ==> banners[k].id != id
  {
    if banners == [] then None
    else if banners[0].id == id then Some(0)
    else match BannerIndex(banners[1..], id)
      case None => None
      case Some(k) => Some(k + 1)
  }

  /** The three banners seeded into an empty table, with consecutive ids from `first`. */
  function DefaultBanners(first: int): (r: seq<Banner>)
    ensures |r| == 3 && forall k :: 0 <= k < 3 ==> r[k].id == first + k && r[k].linkedItemIds == Some([])
  {
    [Banner(first, "50% OFF", "On your first order", "Order Now", "", "from-orange-500 to-red-500", Some([])),
     Banner(first + 1, "Fastest Delivery", "Within 5km radius", "", "", "from-neutral-900 to-neutral-800", Some([])),
     Banner(first + 2, "Veg Delight", "Try our new paneer specials", "View Menu", "", "from-green-600 to-emerald-800", Some([]))]
  }

  /** `menu` rows for `items`, with serial ids counting up from `first`. */
  function NumberedRows(items: seq<MenuItemInsert>, first: int): (r: seq<MenuItem>)
    ensures |r| == |items| && forall k :: 0 <= k < |items| ==> r[k] == MenuItemRow(first + k, items[k])
  {
    seq(|items|, k requires 0 <= k < |items| => MenuItemRow(first + k, items[k]))
  }

  class DatabaseStorage {
    var menu: seq<MenuItem>
    var nextMenuId: int
    var orders: seq<Order>
    var customers: map<string, Customer>
    var settings: seq<StoreSettings>
    var nextSettingsId: int
    var banners: seq<Banner>
    var nextBannerId: int
    var categories: map<string, CategoryImage>
    var reviews: seq<Review>

    /** The tables' keys: serial ids below the next one, unique order ids, keyed rows, at most one settings row. */
    ghost predicate Valid()
      reads this
    {
      && UniqueMenuIds(menu) && (forall k :: 0 <= k < |menu| ==> menu[k].id < nextMenuId)
      && UniqueOrderIds(orders)
      && (forall p :: p in customers ==> customers[p].phoneNumber == p)
      && |settings| <= 1 && (forall k :: 0 <= k < |settings| ==> settings[k].id < nextSettingsId)
      && (forall k :: 0 <= k < |banners| ==> banners[k].id < nextBannerId)
      && (forall i, j :: 0 <= i < j < |banners| ==> banners[i].id != banners[j].id)
      && (forall c :: c in categories ==> categories[c].category == c)
    }

    /** Empty tables. */
    constructor ()
      ensures Valid()
      ensures menu == [] && orders == [] && customers == map[] && settings == [] && banners == []
      ensures categories == map[] && reviews == []
    {
      menu, nextMenuId, orders, customers := [], 1, [], map[];
      settings, nextSettingsId, banners, nextBannerId := [], 1, [], 1;
      categories, reviews := map[], [];
    }

    /** Deletes every menu row and inserts `items`, which get fresh serial ids. */
    method ReplaceAllMenuItems(items: seq<MenuItemInsert>) returns (rows: seq<MenuItem>)
      requires Valid()
      modifies this`menu, this`nextMenuId
      ensures Valid()
      ensures rows == menu && menu == NumberedRows(items, old(nextMenuId))
      ensures nextMenuId == old(nextMenuId) + |items|
    {
      menu := NumberedRows(items, nextMenuId);
      nextMenuId := nextMenuId + |items|;
      rows := menu;
    }

    /** Deletes the menu row `id`, if any; orders keep their own copies of item details. */
    method DeleteMenuItem(id: int)
      requires Valid()
      modifies this`menu
      ensures Valid() && menu == WithoutItem(old(menu), id)
    {
      menu := WithoutItem(menu, id);
    }

    /** Inserts a new order; a second order with the same `orderId` breaks the unique key and is refused. */
    method CreateOrder(ins: OrderInsert, now: int) returns (r: Result<Order, string>)
      requires Valid()
      modifies this`orders
      ensures Valid()
      ensures OrderIndex(old(orders), ins.orderId).Some? ==> r.Failure? && orders == old(orders)
      ensures OrderIndex(old(orders), ins.orderId).None? ==>
        r == Success(OrderRow(ins, now)) && orders == old(orders) + [OrderRow(ins, now)]
    {
      if OrderIndex(orders, ins.orderId).Some? {
        return Failure("duplicate orderId");
      }
      var row := OrderRow(ins, now);
      orders := orders + [row];
      r := Success(row);
    }

    /** Sets the status of order `orderId` to `status`, checking nothing about the transition. */
    method UpdateOrderStatus(orderId: string, status: string) returns (r: Option<Order>)
      requires Valid()
      modifies this`orders
      ensures Valid()
      ensures orders == WithStatus(old(orders), orderId, status)
      ensures OrderIndex(old(orders), orderId).None? <==> r.None?
      ensures r.None? ==> orders == old(orders)
      ensures r.Some? ==> var k := OrderIndex(old(orders), orderId).value;
        r.value == old(orders)[k].(status := status) && orders[k] == r.value
    {
      var index := OrderIndex(orders, orderId);
      orders := WithStatus(orders, orderId, status);
      if index.None? {
        assert orders == old(orders);
        r := None;
      } else {
        r := Some(orders[index.value]);
      }
    }

    /** The orders placed from `phone`. */
    method GetOrdersByPhone(phone: string) returns (r: seq<Order>)
      ensures r == OrdersOf(orders, phone)
    {
      r := OrdersOf(orders, phone);
    }

    /** Inserts a customer, or patches the supplied columns of the existing row with that phone. */
    method UpsertCustomer(data: CustomerInsert, now: int) returns (c: Customer)
      requires Valid()
      modifies this`customers
      ensures Valid()
      ensures data.phoneNumber in old(customers) ==>
        c == PatchCustomer(old(customers)[data.phoneNumber], data) && customers == old(customers)[data.phoneNumber := c]
      ensures data.phoneNumber !in old(customers) ==>
        c == CustomerRow(data, now) && customers == old(customers)[data.phoneNumber := c]
    {
      if data.phoneNumber in customers {
        var existing := customers[data.phoneNumber];
        if !SuppliesAny(data) {
          c := existing;
          PatchCustomerSpec(existing, data);
          assert customers == customers[data.phoneNumber := c];
          return;
        }
        c := PatchCustomer(existing, data);
        customers := customers[data.phoneNumber := c];
      } else {
        c := CustomerRow(data, now);
        customers := customers[data.phoneNumber := c];
      }
    }

    /** Flips the blocked flag of the customer `phone`; an unknown phone changes nothing. */
    method ToggleCustomerBlock(phone: string) returns (r: Option<Customer>)
      requires Valid()
      modifies this`customers
      ensures Valid()
      ensures customers == ToggledBlock(old(customers), phone)
      ensures phone !in old(customers) ==> r.None? && customers == old(customers)
      ensures phone in old(customers) ==>
        && r == Some(old(customers)[phone].(isBlocked := !old(customers)[phone].isBlocked))
        && customers == old(customers)[phone := r.value]
    {
      if phone !in customers {
        return None;
      }
      var customer := customers[phone];
      var updated := customer.(isBlocked := !customer.isBlocked);
      customers := customers[phone := updated];
      r := Some(updated);
    }

    /** The settings row, created with the defaults on the first read of an empty table. */
    method GetSettings() returns (s: StoreSettings)
      requires Valid()
      modifies this`settings, this`nextSettingsId
      ensures Valid() && |settings| == 1 && s == settings[0]
      ensures old(|settings|) == 1 ==> settings == old(settings) && nextSettingsId == old(nextSettingsId)
      ensures old(|settings|) == 0 ==> s == DefaultSettings(old(nextSettingsId)) && nextSettingsId == old(nextSettingsId) + 1
    {
      if |settings| == 0 {
        var created := DefaultSettings(nextSettingsId);
        settings := [created];
        nextSettingsId := nextSettingsId + 1;
        return created;
      }
      s := settings[0];
    }

    /** Patches the settings row, creating it first if the table is empty. */
    method UpdateSettings(updates: SettingsPatch) returns (s: StoreSettings)
      requires Valid()
      modifies this`settings, this`nextSettingsId
      ensures Valid() && settings == [s]
      ensures old(|settings|) == 1 ==> s == PatchSettings(old(settings)[0], updates)
      ensures old(|settings|) == 0 ==> s == PatchSettings(DefaultSettings(old(nextSettingsId)), updates)
    {
      var current := GetSettings();
      s := PatchSettings(current, updates);
      settings := [s];
    }

    /** The banners, seeded with the three defaults when the table is empty. */
    method GetBanners() returns (r: seq<Banner>)
      requires Valid()
      modifies this`banners, this`nextBannerId
      ensures Valid() && r == banners
      ensures old(banners) != [] ==> banners == old(banners) && nextBannerId == old(nextBannerId)
      ensures old(banners) == [] ==> banners == DefaultBanners(old(nextBannerId)) && nextBannerId == old(nextBannerId) + 3
    {
      if banners == [] {
        banners := DefaultBanners(nextBannerId);
        nextBannerId := nextBannerId + 3;
      }
      r := banners;
    }

    /** Patches the banner `id`, if there is one. */
    method UpdateBanner(id: int, updates: BannerPatch) returns (r: Option<Banner>)
      requires Valid()
      modifies this`banners
      ensures Valid() && banners == PatchBanners(old(banners), id, updates)
      ensures BannerIndex(old(banners), id).None? <==> r.None?
      ensures r.Some? ==> r.value == PatchBanner(old(banners)[BannerIndex(old(banners), id).value], updates)
    {
      var index := BannerIndex(banners, id);
      banners := PatchBanners(banners, id, updates);
      if index.None? {
        r := None;
      } else {
        r := Some(banners[index.value]);
      }
    }

    /** Sets the image of `category`, and its visibility when given; a new category is hidden unless told otherwise. */
    method UpsertCategoryImage(category: string, image: string, visible: Option<bool>) returns (r: CategoryImage)
      requires Valid()
      modifies this`categories
      ensures Valid() && categories == old(categories)[category := r]
      ensures category in old(categories) ==>
        r == CategoryImage(category, image, visible.GetOr(old(categories)[category].visible))
      ensures category !in old(categories) ==> r == CategoryImage(category, image, visible.GetOr(false))
    {
      if category in categories {
        var existing := categories[category];
        r := existing.(image := image, visible := visible.GetOr(existing.visible));
      } else {
        r := CategoryImage(category, image, visible.GetOr(false));
      }
      categories := categories[category := r];
    }

    /** Flips the visibility of `category`; an unknown one is created visible with no image. */
    method ToggleCategoryVisibility(category: string) returns (r: CategoryImage)
      requires Valid()
      modifies this`categories
      ensures Valid() && categories == old(categories)[category := r]
      ensures category in old(categories) ==> r == old(categories)[category].(visible := !old(categories)[category].visible)
      ensures category !in old(categories) ==> r == CategoryImage(category, "", true)
    {
      if category in categories {
        r := categories[category].(visible := !categories[category].visible);
      } else {
        r := CategoryImage(category, "", true);
      }
      categories := categories[category := r];
    }

    /**
     * Makes exactly the listed categories visible: every row is hidden, then each listed
     * category is shown, and one without a row is created with no image.
     */
    method SetVisibleCategories(list: seq<string>)
      requires Valid()
      modifies this`categories
      ensures Valid()
      ensures forall c :: c in categories <==> c in old(categories) || c in list
      ensures forall c :: c in categories ==> (categories[c].visible <==> c in list)
      ensures forall c :: c in old(categories) ==> categories[c].image == old(categories)[c].image
      ensures forall c :: c in categories && c !in old(categories) ==> categories[c].image == ""
    {
      var m := map c | c in categories :: categories[c].(visible := false);
      var i := 0;
      while i < |list|
        invariant 0 <= i <= |list|
        invariant forall c :: c in m ==> m[c].category == c
        invariant forall c :: c in m <==> c in old(categories) || c in list[..i]
        invariant forall c :: c in m ==> (m[c].visible <==> c in list[..i])
        invariant forall c :: c in old(categories) ==> m[c].image == old(categories)[c].image
        invariant forall c :: c in m && c !in old(categories) ==> m[c].image == ""
      {
        assert list[..i + 1] == list[..i] + [list[i]];
        var cat := list[i];
        if cat in m {
          m := m[cat := m[cat].(visible := true)];
        } else {
          m := m[cat := CategoryImage(cat, "", true)];
        }
        i := i + 1;
      }
      assert list[..i] == list;
      categories := m;
    }

    /** The reviews of order `orderId`. */
    method GetReviewsByOrder(orderId: string) returns (r: seq<Review>)
      ensures r == ReviewsOf(reviews, orderId)
    {
      r := ReviewsOf(reviews, orderId);
    }

    /** Stores a review. */
    method CreateReview(review: Review) returns (r: Review)
      requires Valid()
      modifies this`reviews
      ensures Valid() && reviews == old(reviews) + [review] && r == review
    {
      reviews := reviews + [review];
      r := review;
    }
  }

  /** The customers table after `toggleCustomerBlock(phone)`, as that method leaves it. */
  function ToggledBlock(customers: map<string, Customer>, phone: string): map<string, Customer> {
    if phone in customers then customers[phone := customers[phone].(isBlocked := !customers[phone].isBlocked)]
    else customers
  }

  /** Toggling the same customer twice restores the table exactly. */
  lemma ToggleTwiceRestores(customers: map<string, Customer>, phone: string)
    ensures ToggledBlock(ToggledBlock(customers, phone), phone) == customers
  {
    if phone in customers {
      var once := ToggledBlock(customers, phone);
      assert once[phone].(isBlocked := !once[phone].isBlocked) == customers[phone];
    }
  }
}
