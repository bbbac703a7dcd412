/**
 * The records of the application's tables: menu items, orders, customers, the store-settings
 * singleton, banners, category images and reviews, with the column defaults the database
 * applies when an insert leaves a column out.
 */
module Schema {
  import opened Wrappers

  /** A row of `menu_items`. `id` is the serial primary key; money is in whole rupees. */
  datatype MenuItem = MenuItem(
    id: int,
    name: string,
    description: string,
    price: int,
    originalPrice: Option<int>,
    image: string,
    category: string,
    isVeg: bool,
    available: bool)

  /** An insert into `menu_items`; a column with a default may be left out. */
  datatype MenuItemInsert = MenuItemInsert(
    name: string,
    description: Option<string>,
    price: int,
    originalPrice: Option<int>,
    image: Option<string>,
    category: string,
    isVeg: Option<bool>,
    available: Option<bool>)

  /** The row the database stores for `ins` under serial id `id`. */
  function MenuItemRow(id: int, ins: MenuItemInsert): MenuItem {
    MenuItem(id, ins.name, ins.description.GetOr(""), ins.price, ins.originalPrice,
             ins.image.GetOr(""), ins.category, ins.isVeg.GetOr(true), ins.available.GetOr(true))
  }

  /** One line of an order: a frozen copy of the menu item and quantity at order time. */
  datatype OrderItem = OrderItem(itemId: int, name: string, quantity: int, price: int)

  /** A row of `orders`; `orderId` is a unique key and `createdAt` is a clock reading. */
  datatype Order = Order(
    orderId: string,
    customerPhone: string,
    customerName: string,
    items: seq<OrderItem>,
    total: int,
    status: string,
    transactionId: Option<string>,
    address: string,
    createdAt: int)

  /** An insert into `orders`. */
  datatype OrderInsert = OrderInsert(
    orderId: string,
    customerPhone: string,
    customerName: Option<string>,
    items: seq<OrderItem>,
    total: int,
    status: Option<string>,
    transactionId: Option<string>,
    address: Option<string>)

  /** The persisted order statuses. */
  const PendingPayment := "pending_payment"
  const Preparing := "preparing"
  const Ready := "ready"
  const OnTheWay := "on_the_way"
  const Delivered := "delivered"
  const Rejected := "rejected"
  const Refunded := "refunded"

  /** The row the database stores for `ins`, created at time `now`. */
  function OrderRow(ins: OrderInsert, now: int): Order {
    Order(ins.orderId, ins.customerPhone, ins.customerName.GetOr(""), ins.items, ins.total,
          ins.status.GetOr(PendingPayment), ins.transactionId, ins.address.GetOr(""), now)
  }

  /** A row of `customers`; `phoneNumber` is a unique key. */
  datatype Customer = Customer(
    phoneNumber: string,
    name: Option<string>,
    address: Option<string>,
    locationLat: Option<real>,
    locationLng: Option<real>,
    isBlocked: bool,
    joinedAt: int)

  /** A customer insert or upsert request; every column but the phone may be left out. */
  datatype CustomerInsert = CustomerInsert(
    phoneNumber: string,
    name: Field<Option<string>>,
    address: Field<Option<string>>,
    locationLat: Field<Option<real>>,
    locationLng: Field<Option<real>>,
    isBlocked: Option<bool>)

  /** The value a nullable column receives from an insert: the given value, or `NULL`. */
  function Column<T>(f: Field<Option<T>>): Option<T> {
    match f
    case Undefined => None
    case Given(v) => v
  }

  /** The row the database stores for a customer insert at time `now`. */
  function CustomerRow(ins: CustomerInsert, now: int): Customer {
    Customer(ins.phoneNumber, Column(ins.name), Column(ins.address), Column(ins.locationLat),
             Column(ins.locationLng), ins.isBlocked.GetOr(false), now)
  }

  /** The single row of `store_settings`. */
  datatype StoreSettings = StoreSettings(
    id: int,
    storeName: string,
    upiId: string,
    deliveryRadiusKm: int,
    locationLat: real,
    locationLng: real,
    isOpen: bool,
    openTime: string,
    closeTime: string,
    nextOpenMessage: string,
    merchantUsername: string,
    merchantPassword: string)

  /** The settings row an insert with no values creates, under serial id `id`. */
  function DefaultSettings(id: int): StoreSettings {
    StoreSettings(id, "Monisha Kitchen", "7013849563-2@ybl", 5, 28.6139, 77.2090, true,
                  "10:00", "22:00", "", "NaBo", "MnD@0246")
  }

  /** A partial update of the settings row: each given field replaces the stored one. */
  datatype SettingsPatch = SettingsPatch(
    storeName: Option<string>,
    upiId: Option<string>,
    deliveryRadiusKm: Option<int>,
    locationLat: Option<real>,
    locationLng: Option<real>,
    isOpen: Option<bool>,
    openTime: Option<string>,
    closeTime: Option<string>,
    nextOpenMessage: Option<string>,
    merchantUsername: Option<string>,
    merchantPassword: Option<string>)

  function PatchSettings(s: StoreSettings, p: SettingsPatch): StoreSettings {
    StoreSettings(s.id, p.storeName.GetOr(s.storeName), p.upiId.GetOr(s.upiId),
                  p.deliveryRadiusKm.GetOr(s.deliveryRadiusKm), p.locationLat.GetOr(s.locationLat),
                  p.locationLng.GetOr(s.locationLng), p.isOpen.GetOr(s.isOpen),
                  p.openTime.GetOr(s.openTime), p.closeTime.GetOr(s.closeTime),
                  p.nextOpenMessage.GetOr(s.nextOpenMessage),
                  p.merchantUsername.GetOr(s.merchantUsername),
                  p.merchantPassword.GetOr(s.merchantPassword))
  }

  /** A row of `banners`; `linkedItemIds` is a nullable list of menu item ids. */
  datatype Banner = Banner(
    id: int,
    title: string,
    subtitle: string,
    cta: string,
    image: string,
    gradient: string,
    linkedItemIds: Option<seq<int>>)

  /** A partial update of one banner. */
  datatype BannerPatch = BannerPatch(
    title: Option<string>,
    subtitle: Option<string>,
    cta: Option<string>,
    image: Option<string>,
    gradient: Option<string>,
    linkedItemIds: Option<seq<int>>)

  function PatchBanner(b: Banner, p: BannerPatch): Banner {
    Banner(b.id, p.title.GetOr(b.title), p.subtitle.GetOr(b.subtitle), p.cta.GetOr(b.cta),
           p.image.GetOr(b.image), p.gradient.GetOr(b.gradient),
           if p.linkedItemIds.Some? then p.linkedItemIds else b.linkedItemIds)
  }

  /** A row of `category_images`; `category` is a unique key. */
  datatype CategoryImage = CategoryImage(category: string, image: string, visible: bool)

  /** A stored review of one menu item of one order. */
  datatype Review = Review(
    orderId: string,
    menuItemId: int,
    customerPhone: string,
    customerName: string,
    stars: int,
    comment: string)

  /** Every id in `menu` names one row (`id` is the primary key). */
  predicate UniqueMenuIds(menu: seq<MenuItem>) {
    forall i, j :: 0 <= i < j < |menu| ==> menu[i].id != menu[j].id
  }

  /** Every `orderId` in `orders` names one row (the column is unique). */
  predicate UniqueOrderIds(orders: seq<Order>) {
    forall i, j :: 0 <= i < j < |orders| ==> orders[i].orderId != orders[j].orderId
  }

  /** Inserting a menu item fills the left-out columns with their defaults and keeps the rest. */
  lemma MenuItemDefaults(id: int, ins: MenuItemInsert)
    ensures var m := MenuItemRow(id, ins);
      && m.id == id && m.name == ins.name && m.price == ins.price && m.category == ins.category
      && m.originalPrice == ins.originalPrice
      && (ins.description.None? ==> m.description == "")
      && (ins.image.None? ==> m.image == "")
      && (ins.isVeg.None? ==> m.isVeg)
      && (ins.available.None? ==> m.available)
  {
  }

  /** A new order's status is `pending_payment` unless the insert names one; text columns default to "". */
  lemma OrderDefaults(ins: OrderInsert, now: int)
    ensures var o := OrderRow(ins, now);
      && o.status == (if ins.status.Some? then ins.status.value else PendingPayment)
      && (ins.customerName.None? ==> o.customerName == "")
      && (ins.address.None? ==> o.address == "")
      && o.items == ins.items && o.total == ins.total && o.createdAt == now
  {
  }

  /** A new customer is unblocked unless the insert says otherwise, and nullable columns left out are `NULL`. */
  lemma CustomerDefaults(ins: CustomerInsert, now: int)
    ensures var c := CustomerRow(ins, now);
      && c.isBlocked == (ins.isBlocked == Some(true))
      && (ins.name.Undefined? ==> c.name.None?)
      && (ins.address.Undefined? ==> c.address.None?)
      && c.phoneNumber == ins.phoneNumber && c.joinedAt == now
  {
  }

  /** Patching settings changes exactly the given fields and never the row id. */
  lemma PatchSettingsSpec(s: StoreSettings, p: SettingsPatch)
    ensures var t := PatchSettings(s, p);
      && t.id == s.id
      && (p.isOpen.None? ==> t.isOpen == s.isOpen)
      && (p.isOpen.Some? ==> t.isOpen == p.isOpen.value)
      && (p.deliveryRadiusKm.None? ==> t.deliveryRadiusKm == s.deliveryRadiusKm)
      && (p.merchantPassword.None? ==> t.merchantPassword == s.merchantPassword)
      && (p == SettingsPatch(None, None, None, None, None, None, None, None, None, None, None) ==> t == s)
  {
  }
}
