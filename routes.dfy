/**
 * The server's request rules: the merchant session set and its guard, merchant login and
 * logout, the merchant-only order-status, block and settings routes, the credential
 * stripping of settings responses, and the admission checks of `POST /api/reviews`.
 */
module Routes {
  import opened Wrappers
  import opened Schema
  import opened Storage

  /** A JSON value of a settings response. */
  datatype Value = VText(s: string) | VInt(i: int) | VReal(r: real) | VBool(b: bool)

  const CredentialKeys: set<string> := {"merchantUsername", "merchantPassword"}

  /** The settings row as the JSON object the database returns. */
  function SettingsObject(s: StoreSettings): (obj: map<string, Value>)
    ensures CredentialKeys <= obj.Keys
  {
    map["id" := VInt(s.id), "storeName" := VText(s.storeName), "upiId" := VText(s.upiId),
        "deliveryRadiusKm" := VInt(s.deliveryRadiusKm), "locationLat" := VReal(s.locationLat),
        "locationLng" := VReal(s.locationLng), "isOpen" := VBool(s.isOpen),
        "openTime" := VText(s.openTime), "closeTime" := VText(s.closeTime),
        "nextOpenMessage" := VText(s.nextOpenMessage), "merchantUsername" := VText(s.merchantUsername),
        "merchantPassword" := VText(s.merchantPassword)]
  }

  /** `const { merchantUsername, merchantPassword, ...publicSettings } = row`. */
  function PublicSettings(obj: map<string, Value>): map<string, Value> {
    obj - CredentialKeys
  }

  /**
   * A settings response keeps every field of the row except the two credentials, which it
   * never contains.
   */
  lemma PublicSettingsSpec(s: StoreSettings)
    ensures var pub := PublicSettings(SettingsObject(s));
      && "merchantUsername" !in pub && "merchantPassword" !in pub
      && pub.Keys == SettingsObject(s).Keys - CredentialKeys
      && (forall k :: k in pub ==> pub[k] == SettingsObject(s)[k])
      && "storeName" in pub && pub["storeName"] == VText(s.storeName)
      && "isOpen" in pub && pub["isOpen"] == VBool(s.isOpen)
  {
  }

  /** What a route answers: a status code and a body. */
  datatype Body =
    | Message(text: string)
    | OrderBody(order: Order)
    | CustomerBody(customer: Customer)
    | SettingsBody(fields: map<string, Value>)
    | TokenBody(token: string)
    | ReviewBody(review: Review)
    | Done
  datatype Response = Response(code: int, body: Body)

  const Unauthorized := Response(401, Message("Unauthorized"))
  const NotFound := Response(404, Message("Not found"))

  /** `!token` in JavaScript for a header that may be missing. */
  predicate Present(s: Option<string>) {
    s.Some? && s.value != ""
  }

  /** The body of `POST /api/reviews`; `None` is a missing field. */
  datatype ReviewRequest = ReviewRequest(
    orderId: Option<string>,
    menuItemId: Option<int>,
    customerPhone: Option<string>,
    customerName: Option<string>,
    stars: Option<int>,
    comment: Option<string>)

  /** The 400 check: order, item and phone present (the item id non-zero) and stars a number from 1 to 5. */
  predicate WellFormedReview(req: ReviewRequest) {
    && Present(req.orderId)
    && req.menuItemId.Some? && req.menuItemId.value != 0
    && Present(req.customerPhone)
    && req.stars.Some? && 1 <= req.stars.value <= 5
  }

  /** The 403 check: the first of the phone's orders with that id exists and is delivered. */
  predicate DeliveredToCaller(orders: seq<Order>, phone: string, orderId: string) {
    var mine := OrdersOf(orders, phone);
    exists k :: 0 <= k < |mine| && mine[k].orderId == orderId && mine[k].status == Delivered
      && forall j :: 0 <= j < k ==> mine[j].orderId != orderId
  }

  /** The 409 check: the order already has a review of that item. */
  predicate AlreadyReviewed(reviews: seq<Review>, orderId: string, menuItemId: int) {
    exists v :: v in reviews && v.orderId == orderId && v.menuItemId == menuItemId
  }

  /** At most one review per order and item. */
  predicate OneReviewPerItem(reviews: seq<Review>) {
    forall i, j :: 0 <= i < j < |reviews| ==>
      !(reviews[i].orderId == reviews[j].orderId && reviews[i].menuItemId == reviews[j].menuItemId)
  }

  /** The review a well-formed request stores: name and comment default to "". */
  function ReviewFor(req: ReviewRequest): Review
    requires WellFormedReview(req)
  {
    Review(req.orderId.value, req.menuItemId.value, req.customerPhone.value,
           if Present(req.customerName) then req.customerName.value else "",
           req.stars.value,
           if Present(req.comment) then req.comment.value else "")
  }

  /** The first order in `orders` with id `orderId`, as `orders.find(...)`. */
  function FindOrder(orders: seq<Order>, orderId: string): (r: Option<Order>)
    ensures r.Some? ==> exists k :: (0 <= k < |orders| && orders[k] == r.value && r.value.orderId == orderId
      && forall j :: 0 <= j < k ==> orders[j].orderId != orderId)
    ensures r.None? <==> forall k :: 0 <= k < |orders| ==> orders[k].orderId != orderId
  {
    if orders == [] then None
    else if orders[0].orderId == orderId then Some(orders[0])
    else
      var r := FindOrder(orders[1..], orderId);
      if r.Some? then
        ghost var k :| 0 <= k < |orders[1..]| && orders[1..][k] == r.value && r.value.orderId == orderId
          && forall j :: 0 <= j < k ==> orders[1..][j].orderId != orderId;
        assert orders[k + 1] == r.value;
        r
      else r
  }

  /** `array.find(r => r.menuItemId === id)`. */
  function FindReview(reviews: seq<Review>, menuItemId: int): (r: Option<Review>)
    ensures r.Some? ==> r.value in reviews && r.value.menuItemId == menuItemId
    ensures r.None? <==> forall v :: v in reviews ==> v.menuItemId != menuItemId
  {
    if reviews == [] then None
    else if reviews[0].menuItemId == menuItemId then Some(reviews[0])
    else
      assert forall v :: v in reviews <==> v == reviews[0] || v in reviews[1..];
      FindReview(reviews[1..], menuItemId)
  }

  class Server {
    const db: DatabaseStorage
    var sessions: set<string>

    ghost predicate Valid()
      reads this, db
    {
      db.Valid() && OneReviewPerItem(db.reviews)
    }

    constructor (storage: DatabaseStorage)
      requires storage.Valid() && OneReviewPerItem(storage.reviews)
      ensures Valid() && db == storage && sessions == {}
    {
      db := storage;
      sessions := {};
    }

    /** `requireMerchantAuth`: the `x-merchant-token` header is present and names a live session. */
    predicate Authorized(token: Option<string>)
      reads this
    {
      Present(token) && token.value in sessions
    }

    /**
     * `POST /api/merchant/login`. `freshToken` stands for the random token the server
     * would draw. Only the settings' credentials open a session.
     */
    method Login(username: Option<string>, password: Option<string>, freshToken: string) returns (resp: Response)
      requires Valid()
      modifies this`sessions, db`settings, db`nextSettingsId
      ensures Valid()
      ensures !Present(username) || !Present(password) ==>
        && resp.code == 400 && sessions == old(sessions)
        && db.settings == old(db.settings) && db.nextSettingsId == old(db.nextSettingsId)
      ensures Present(username) && Present(password) ==>
        && db.settings == (if old(|db.settings|) == 1 then old(db.settings) else [DefaultSettings(old(db.nextSettingsId))])
        && var s := db.settings[0];
           if username.value == s.merchantUsername && password.value == s.merchantPassword
           then resp == Response(200, TokenBody(freshToken)) && sessions == old(sessions) + {freshToken}
           else resp.code == 401 && sessions == old(sessions)
    {
      if !Present(username) || !Present(password) {
        return Response(400, Message("Username and password required"));
      }
      var settings := db.GetSettings();
      if username.value == settings.merchantUsername && password.value == settings.merchantPassword {
        sessions := sessions + {freshToken};
        return Response(200, TokenBody(freshToken));
      }
      resp := Response(401, Message("Invalid credentials"));
    }

    /** `POST /api/merchant/logout`: drops the presented token, if any, and always succeeds. */
    method Logout(token: Option<string>) returns (resp: Response)
      modifies this`sessions
      ensures resp == Response(200, Done)
      ensures sessions == if Present(token) then old(sessions) - {token.value} else old(sessions)
    {
      if Present(token) {
        sessions := sessions - {token.value};
      }
      resp := Response(200, Done);
    }

    /** `PATCH /api/orders/:orderId/status`. */
    method PatchOrderStatus(token: Option<string>, orderId: string, status: string) returns (resp: Response)
      requires Valid()
      modifies db`orders
      ensures Valid()
      ensures !Authorized(token) ==> resp == Unauthorized && db.orders == old(db.orders)
      ensures Authorized(token) ==>
        && db.orders == WithStatus(old(db.orders), orderId, status)
        && (OrderIndex(old(db.orders), orderId).None? ==> resp == NotFound)
        && (OrderIndex(old(db.orders), orderId).Some? ==>
             resp == Response(200, OrderBody(old(db.orders)[OrderIndex(old(db.orders), orderId).value].(status := status))))
    {
      if !Authorized(token) {
        return Unauthorized;
      }
      var order := db.UpdateOrderStatus(orderId, status);
      if order.None? {
        return NotFound;
      }
      resp := Response(200, OrderBody(order.value));
    }

    /** `PATCH /api/customers/:phone/block`. */
    method PatchCustomerBlock(token: Option<string>, phone: string) returns (resp: Response)
      requires Valid()
      modifies db`customers
      ensures Valid()
      ensures !Authorized(token) ==> resp == Unauthorized && db.customers == old(db.customers)
      ensures Authorized(token) && phone !in old(db.customers) ==> resp == NotFound && db.customers == old(db.customers)
      ensures Authorized(token) && phone in old(db.customers) ==>
        var c := old(db.customers)[phone].(isBlocked := !old(db.customers)[phone].isBlocked);
        resp == Response(200, CustomerBody(c)) && db.customers == old(db.customers)[phone := c]
    {
      if !Authorized(token) {
        return Unauthorized;
      }
      var customer := db.ToggleCustomerBlock(phone);
      if customer.None? {
        return NotFound;
      }
      resp := Response(200, CustomerBody(customer.value));
    }

    /** `GET /api/settings`: public, and stripped of the credentials. */
    method GetSettings() returns (resp: Response)
      requires Valid()
      modifies db`settings, db`nextSettingsId
      ensures Valid()
      ensures db.settings == (if old(|db.settings|) == 1 then old(db.settings) else [DefaultSettings(old(db.nextSettingsId))])
      ensures resp == Response(200, SettingsBody(PublicSettings(SettingsObject(db.settings[0]))))
    {
      var s := db.GetSettings();
      resp := Response(200, SettingsBody(PublicSettings(SettingsObject(s))));
    }

    /** `PATCH /api/settings`: merchant only; answers with the patched row, stripped of the credentials. */
    method PatchSettings(token: Option<string>, updates: SettingsPatch) returns (resp: Response)
      requires Valid()
      modifies db`settings, db`nextSettingsId
      ensures Valid()
      ensures !Authorized(token) ==> resp == Unauthorized && db.settings == old(db.settings)
      ensures Authorized(token) ==>
        && db.settings == [Schema.PatchSettings(
             if old(|db.settings|) == 1 then old(db.settings[0]) else DefaultSettings(old(db.nextSettingsId)),
             updates)]
        && resp == Response(200, SettingsBody(PublicSettings(SettingsObject(db.settings[0]))))
    {
      if !Authorized(token) {
        return Unauthorized;
      }
      var s := db.UpdateSettings(updates);
      resp := Response(200, SettingsBody(PublicSettings(SettingsObject(s))));
    }

    /**
     * `POST /api/reviews`: answers `ReviewCode` and stores the review exactly when it
     * admits it; `ReviewCodeSpec` says what each code means.
     */
    method PostReview(req: ReviewRequest) returns (resp: Response)
      requires Valid()
      modifies db`reviews
      ensures Valid()
      ensures resp.code == ReviewCode(db.orders, old(db.reviews), req)
      ensures resp.code == 200 ==> (WellFormedReview(req) && resp.body == ReviewBody(ReviewFor(req))
        && db.reviews == old(db.reviews) + [ReviewFor(req)])
      ensures resp.code != 200 ==> db.reviews == old(db.reviews)
    {
      if !WellFormedReview(req) {
        return Response(400, Message("Invalid review data. Stars must be 1-5, orderId/menuItemId/customerPhone required."));
      }
      var orderId, menuItemId, phone := req.orderId.value, req.menuItemId.value, req.customerPhone.value;
      var orders := db.GetOrdersByPhone(phone);
      var order := FindOrder(orders, orderId);
      if order.None? || order.value.status != Delivered {
        return Response(403, Message("Can only review delivered orders belonging to you."));
      }
      var existing := db.GetReviewsByOrder(orderId);
      var alreadyReviewed := FindReview(existing, menuItemId);
      if alreadyReviewed.Some? {
        return Response(409, Message("Already reviewed this item for this order."));
      }
      NoMatchNotReviewed(db.reviews, orderId, menuItemId);
      AdmittedReviewKeepsKey(db.reviews, ReviewFor(req));
      var review := db.CreateReview(ReviewFor(req));
      resp := Response(200, ReviewBody(review));
    }
  }

  /** The status `POST /api/reviews` answers, as its checks decide it in order. */
  function ReviewCode(orders: seq<Order>, reviews: seq<Review>, req: ReviewRequest): int {
    if !WellFormedReview(req) then 400
    else
      var order := FindOrder(OrdersOf(orders, req.customerPhone.value), req.orderId.value);
      if order.None? || order.value.status != Delivered then 403
      else if FindReview(ReviewsOf(reviews, req.orderId.value), req.menuItemId.value).Some? then 409
      else 200
  }

  lemma NoMatchNotReviewed(reviews: seq<Review>, orderId: string, menuItemId: int)
    requires FindReview(ReviewsOf(reviews, orderId), menuItemId).None?
    ensures !AlreadyReviewed(reviews, orderId, menuItemId)
  {
    var mine := ReviewsOf(reviews, orderId);
    forall v | v in reviews && v.orderId == orderId
      ensures v.menuItemId != menuItemId
    {
      assert v in mine;
    }
  }

  /**
   * What each answer of `POST /api/reviews` means: 400 for a malformed body, 403 unless
   * the caller's order is delivered, 409 for a second review of the same item of the
   * same order, and 200 otherwise.
   */
  lemma ReviewCodeSpec(orders: seq<Order>, reviews: seq<Review>, req: ReviewRequest)
    ensures ReviewCode(orders, reviews, req) in {200, 400, 403, 409}
    ensures ReviewCode(orders, reviews, req) == 400 <==> !WellFormedReview(req)
    ensures WellFormedReview(req) ==>
      ((ReviewCode(orders, reviews, req) == 403) <==>
        !DeliveredToCaller(orders, req.customerPhone.value, req.orderId.value))
    ensures WellFormedReview(req) && DeliveredToCaller(orders, req.customerPhone.value, req.orderId.value) ==>
      ((ReviewCode(orders, reviews, req) == 409) <==> AlreadyReviewed(reviews, req.orderId.value, req.menuItemId.value))
  {
    if WellFormedReview(req) {
      var phone, orderId, menuItemId := req.customerPhone.value, req.orderId.value, req.menuItemId.value;
      var mine := OrdersOf(orders, phone);
      var order := FindOrder(mine, orderId);
      if order.Some? {
        var k :| 0 <= k < |mine| && mine[k] == order.value && order.value.orderId == orderId
          && forall j :: 0 <= j < k ==> mine[j].orderId != orderId;
        if DeliveredToCaller(orders, phone, orderId) {
          var k' :| 0 <= k' < |mine| && mine[k'].orderId == orderId && mine[k'].status == Delivered
            && forall j :: 0 <= j < k' ==> mine[j].orderId != orderId;
          assert k == k';
        }
      }
      var found := FindReview(ReviewsOf(reviews, orderId), menuItemId);
      if found.None? {
        NoMatchNotReviewed(reviews, orderId, menuItemId);
      } else {
        assert found.value in reviews && found.value.orderId == orderId;
      }
    }
  }

  /** A second review of the same item of the same order is refused with 409 and changes nothing. */
  lemma SecondReviewConflicts(orders: seq<Order>, reviews: seq<Review>, req: ReviewRequest)
    requires WellFormedReview(req) && DeliveredToCaller(orders, req.customerPhone.value, req.orderId.value)
    ensures ReviewCode(orders, reviews + [ReviewFor(req)], req) == 409
  {
    assert ReviewFor(req) in reviews + [ReviewFor(req)];
    ReviewCodeSpec(orders, reviews + [ReviewFor(req)], req);
  }

  /** The unique key the review checks keep: appending a review that is not already there keeps one per item. */
  lemma AdmittedReviewKeepsKey(reviews: seq<Review>, v: Review)
    requires OneReviewPerItem(reviews) && !AlreadyReviewed(reviews, v.orderId, v.menuItemId)
    ensures OneReviewPerItem(reviews + [v])
  {
    var all := reviews + [v];
    forall i, j | 0 <= i < j < |all|
      ensures !(all[i].orderId == all[j].orderId && all[i].menuItemId == all[j].menuItemId)
    {
      if j == |reviews| {
        assert all[i] in reviews;
      }
    }
  }
}
