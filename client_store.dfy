/**
 * The client's persisted application store: the cart, the signed-in customer and the
 * merchant session fields, each action replacing some of these fields.
 */
module ClientStore {
  import opened Wrappers
  import opened Cart

  datatype ViewMode = CustomerView | MerchantView

  datatype Location = Location(lat: real, lng: real)

  /** The signed-in customer as the client keeps it. */
  datatype User = User(
    phoneNumber: string,
    name: Option<string>,
    address: Option<string>,
    location: Option<Location>,
    isBlocked: Option<bool>)

  /**
   * The argument of `updateProfile`: a name and an address, and a location that is either
   * left out (`Undefined`) or given, where a given `None` is an explicit `undefined`.
   */
  datatype ProfileDetails = ProfileDetails(name: string, address: string, location: Field<Option<Location>>)

  /** `{ ...user, ...details }`: the details overwrite the fields they carry; the phone number stays. */
  function Overlay(user: User, details: ProfileDetails): (u: User)
    ensures u.phoneNumber == user.phoneNumber && u.isBlocked == user.isBlocked
    ensures u.name == Some(details.name) && u.address == Some(details.address)
    ensures u.location == (match details.location case Undefined => user.location case Given(l) => l)
  {
    user.(name := Some(details.name), address := Some(details.address),
          location := match details.location case Undefined => user.location case Given(l) => l)
  }

  /** True when the signed-in customer is flagged as blocked (`user?.isBlocked`). */
  predicate IsBlocked(user: Option<User>) {
    user.Some? && user.value.isBlocked == Some(true)
  }

  class AppStore {
    var cart: seq<Entry>
    var viewMode: ViewMode
    var isMerchantAuthenticated: bool
    var merchantToken: Option<string>
    var merchantLocationSet: bool
    var user: Option<User>
    var isAuthenticated: bool

    /** The store invariant: the cart is well formed. */
    ghost predicate Valid()
      reads this
    {
      WellFormed(cart)
    }

    /** A fresh store with the initial state the source declares. */
    constructor ()
      ensures Valid()
      ensures cart == [] && viewMode == CustomerView && !isMerchantAuthenticated
      ensures merchantToken == None && !merchantLocationSet && user == None && !isAuthenticated
    {
      cart := [];
      viewMode := CustomerView;
      isMerchantAuthenticated := false;
      merchantToken := None;
      merchantLocationSet := false;
      user := None;
      isAuthenticated := false;
    }

    method AddToCart(itemId: int)
      requires Valid()
      modifies this`cart
      ensures Valid()
      ensures cart == Add(old(cart), itemId)
      ensures forall x :: QuantityOf(cart, x) == QuantityOf(old(cart), x) + (if x == itemId then 1 else 0)
    {
      forall x ensures QuantityOf(Add(cart, itemId), x) == QuantityOf(cart, x) + (if x == itemId then 1 else 0) {
        AddQuantities(cart, itemId, x);
      }
      AddWellFormed(cart, itemId);
      cart := Add(cart, itemId);
    }

    method RemoveFromCart(itemId: int)
      requires Valid()
      modifies this`cart
      ensures Valid()
      ensures cart == Remove(old(cart), itemId)
      ensures Find(old(cart), itemId).None? ==> cart == old(cart)
      ensures forall x :: x != itemId ==> QuantityOf(cart, x) == QuantityOf(old(cart), x)
    {
      forall x | x != itemId ensures QuantityOf(Remove(cart, itemId), x) == QuantityOf(cart, x) {
        RemoveQuantities(cart, itemId, x);
      }
      RemoveCases(cart, itemId);
      RemoveWellFormed(cart, itemId);
      cart := Remove(cart, itemId);
    }

    method ClearCart()
      modifies this`cart
      ensures Valid() && cart == []
    {
      cart := [];
    }

    method ToggleViewMode()
      modifies this`viewMode
      ensures viewMode == if old(viewMode) == CustomerView then MerchantView else CustomerView
    {
      viewMode := if viewMode == CustomerView then MerchantView else CustomerView;
    }

    method MerchantLogin(token: string)
      modifies this`isMerchantAuthenticated, this`merchantToken, this`viewMode, this`merchantLocationSet
      ensures isMerchantAuthenticated && merchantToken == Some(token)
      ensures viewMode == MerchantView && !merchantLocationSet
    {
      isMerchantAuthenticated, merchantToken := true, Some(token);
      viewMode, merchantLocationSet := MerchantView, false;
    }

    method MerchantLogout()
      modifies this`isMerchantAuthenticated, this`merchantToken, this`viewMode, this`merchantLocationSet
      ensures !isMerchantAuthenticated && merchantToken == None
      ensures viewMode == CustomerView && !merchantLocationSet
    {
      isMerchantAuthenticated, merchantToken := false, None;
      viewMode, merchantLocationSet := CustomerView, false;
    }

    method SetMerchantLocationSet()
      modifies this`merchantLocationSet
      ensures merchantLocationSet
    {
      merchantLocationSet := true;
    }

    /** Signs a customer in with only a phone number; earlier profile fields are discarded. */
    method Login(phoneNumber: string)
      modifies this`isAuthenticated, this`user
      ensures isAuthenticated && user == Some(User(phoneNumber, None, None, None, None))
    {
      isAuthenticated := true;
      user := Some(User(phoneNumber, None, None, None, None));
    }

    /** Overlays the profile details onto the signed-in customer; does nothing when nobody is signed in. */
    method UpdateProfile(details: ProfileDetails)
      modifies this`user
      ensures old(user).None? ==> user == None
      ensures old(user).Some? ==> user == Some(Overlay(old(user).value, details))
    {
      if user.Some? {
        user := Some(Overlay(user.value, details));
      }
    }

    method SetUser(u: Option<User>)
      modifies this`user
      ensures user == u
    {
      user := u;
    }

    method Logout()
      modifies this`isAuthenticated, this`user, this`cart
      ensures Valid() && !isAuthenticated && user == None && cart == []
    {
      isAuthenticated, user, cart := false, None, [];
    }
  }

  /** Signing in or editing the profile never marks the customer as blocked: only `setUser` can. */
  lemma ProfileActionsNeverBlock(user: Option<User>, phone: string, details: ProfileDetails)
    requires !IsBlocked(user)
    ensures !IsBlocked(Some(User(phone, None, None, None, None)))
    ensures user.Some? ==> !IsBlocked(Some(Overlay(user.value, details)))
  {
  }
}
