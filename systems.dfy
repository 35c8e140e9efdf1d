/**
 * The three controllers of assets/js/auth.js, cart.js and wishlist.js as objects over
 * one shared `LocalStorage`. The `userLoggedIn` / `userLoggedOut` window events become
 * direct calls from the auth system into the cart and wishlist reactions; a cart or
 * wishlist system that was never constructed is passed as `null`, as
 * `window.cartSystem` would be undefined.
 */
module Systems {

  import opened Wrappers
  import opened Auth
  import Cart
  import Wishlist
  import Lists
  import opened Storage

  /** How `handleSignup` ends: the new user, or the message it shows. */
  datatype SignupOutcome =
    | SignedUp(user: User)
    | InvalidEmail           // "Please enter a valid email address"
    | ShortPassword          // "Password must be at least 6 characters long"
    | EmailInUse             // "User with this email already exists"
    | SignupNotEncodable     // `btoa` threw; the handler stops before saving

  /**
   * How `handleLogin` ends. A password `btoa` cannot encode also ends in
   * `InvalidCredentials` (see `Auth.Authenticate`).
   */
  datatype LoginOutcome =
    | LoggedIn(user: User)
    | InvalidCredentials     // "Invalid email or password", whichever was wrong

  /** How a click on an add-to-cart button ends. */
  datatype CartClick = AuthModalOpened | CartNoProduct | AddedToCart

  /** How a click on a heart button ends. */
  datatype HeartClick = HeartAuthModalOpened | HeartNoProduct | AddedToWishlist | RemovedFromWishlist

  class AuthSystem {

    const store: LocalStorage
    /** `btoa`: `None` where it throws (a character above U+00FF). */
    const encode: string -> Option<string>
    var currentUser: Option<User>

    /** `new AuthSystem()`: start logged out, then restore the persisted session. */
    constructor (store: LocalStorage, encode: string -> Option<string>)
      ensures this.store == store && this.encode == encode
      ensures currentUser == StoredSession(store.items)
    {
      this.store := store;
      this.encode := encode;
      currentUser := None;
      new;
      LoadUserFromStorage();
    }

    /** `loadUserFromStorage`: adopt the persisted session when there is one. */
    method LoadUserFromStorage()
      modifies this`currentUser
      ensures currentUser == if StoredSession(store.items).Some? then StoredSession(store.items) else old(currentUser)
    {
      var stored := StoredSession(store.items);
      if stored.Some? {
        currentUser := stored;
      }
    }

    /** `isLoggedIn`. */
    function IsLoggedIn(): bool
      reads this
    {
      currentUser.Some?
    }

    /** `getCurrentUser`. */
    function GetCurrentUser(): Option<User>
      reads this
    {
      currentUser
    }

    /** `getUsers`. */
    function GetUsers(): seq<User>
      reads this, store
    {
      StoredUsers(store.items)
    }

    /** The loaded cart and wishlist systems use this auth system and the same storage. */
    predicate Wired(cart: CartSystem?, wishlist: WishlistSystem?)
    {
      && (cart != null ==> cart.auth == this && cart.store == store)
      && (wishlist != null ==> wishlist.auth == this && wishlist.store == store)
    }

    /**
     * `loginUser`: set and persist the session, then let the cart and the wishlist
     * reload the user's persisted collections (the `userLoggedIn` listeners).
     */
    method LoginUser(user: User, cart: CartSystem?, wishlist: WishlistSystem?)
      requires Wired(cart, wishlist)
      modifies this`currentUser, store, cart, wishlist
      ensures currentUser == Some(user)
      ensures store.items == old(store.items)[SessionKey := SessionUser(user)]
      ensures cart != null ==> cart.cart == StoredCart(old(store.items), user.id)
      ensures wishlist != null ==> wishlist.wishlist == StoredWishlist(old(store.items), user.id)
    {
      currentUser := Some(user);
      store.SetItem(SessionKey, SessionUser(user));
      SessionWriteKeepsUserData(old(store.items), user, user.id);
      if cart != null {
        cart.OnUserLoggedIn();
      }
      if wishlist != null {
        wishlist.OnUserLoggedIn();
      }
    }

    /**
     * `logout`: null the session and remove its key, then clear the cart directly and
     * through the `userLoggedOut` listeners. The session is gone before the cart and
     * wishlist save, so their saves write nothing and every persisted collection
     * survives.
     */
    method Logout(cart: CartSystem?, wishlist: WishlistSystem?)
      requires Wired(cart, wishlist)
      modifies this`currentUser, store, cart, wishlist
      ensures !IsLoggedIn()
      ensures store.items == old(store.items) - {SessionKey}
      ensures forall id :: StoredCart(store.items, id) == StoredCart(old(store.items), id)
      ensures forall id :: StoredWishlist(store.items, id) == StoredWishlist(old(store.items), id)
      ensures StoredUsers(store.items) == StoredUsers(old(store.items))
      ensures cart != null ==> cart.cart == []
      ensures wishlist != null ==> wishlist.wishlist == []
    {
      currentUser := None;
      store.RemoveItem(SessionKey);
      if cart != null {
        cart.ClearCart();
      }
      if cart != null {
        cart.OnUserLoggedOut();
      }
      if wishlist != null {
        wishlist.OnUserLoggedOut();
      }
      forall id
        ensures StoredCart(store.items, id) == StoredCart(old(store.items), id)
        ensures StoredWishlist(store.items, id) == StoredWishlist(old(store.items), id)
      {
        SessionRemovalKeepsUserData(old(store.items), id);
      }
      SessionRemovalKeepsUserData(old(store.items), "");
    }

    /**
     * `handleSignup` with the trimmed form values; `id` and `createdAt` are the clock
     * readings the source takes. Checks run in the source's order: email shape,
     * password length, free email.
     */
    method HandleSignup(name: string, email: string, password: string, id: string, createdAt: string,
                        cart: CartSystem?, wishlist: WishlistSystem?) returns (outcome: SignupOutcome)
      requires Wired(cart, wishlist)
      modifies this`currentUser, store, cart, wishlist
      ensures !ValidateEmail(email) ==> outcome == InvalidEmail
      ensures ValidateEmail(email) && |password| < 6 ==> outcome == ShortPassword
      ensures ValidateEmail(email) && |password| >= 6 && !EmailFree(old(GetUsers()), email) ==> outcome == EmailInUse
      ensures (ValidateEmail(email) && |password| >= 6 && EmailFree(old(GetUsers()), email) && encode(password).None?)
                ==> outcome == SignupNotEncodable
      ensures outcome.SignedUp? <==>
                ValidateEmail(email) && |password| >= 6 && EmailFree(old(GetUsers()), email) && encode(password).Some?
      ensures !outcome.SignedUp? ==>
                && currentUser == old(currentUser) && store.items == old(store.items)
                && (cart != null ==> cart.cart == old(cart.cart))
                && (wishlist != null ==> wishlist.wishlist == old(wishlist.wishlist))
      ensures outcome.SignedUp? ==>
                && outcome.user == User(id, name, email, encode(password).value, createdAt)
                && GetUsers() == old(GetUsers()) + [outcome.user]
                && currentUser == Some(outcome.user)
                && store.items == old(store.items)[UsersKey := UserList(GetUsers())][SessionKey := SessionUser(outcome.user)]
                && FindCredentials(GetUsers(), email, encode(password)) == Found(outcome.user)
                && Authenticate(GetUsers(), email, encode(password)) == Some(outcome.user)
                && (cart != null ==> cart.cart == StoredCart(old(store.items), id))
                && (wishlist != null ==> wishlist.wishlist == StoredWishlist(old(store.items), id))
      ensures UniqueEmails(old(GetUsers())) ==> UniqueEmails(GetUsers())
    {
      if !ValidateEmail(email) {
        return InvalidEmail;
      }
      if |password| < 6 {
        return ShortPassword;
      }
      var users := GetUsers();
      if !EmailFree(users, email) {
        return EmailInUse;
      }
      var encoded := encode(password);
      if encoded.None? {
        return SignupNotEncodable;
      }
      var newUser := User(id, name, email, encoded.value, createdAt);
      users := users + [newUser];
      store.SetItem(UsersKey, UserList(users));
      UsersWriteKeepsUserData(old(store.items), users, id);
      LoginUser(newUser, cart, wishlist);
      SessionWriteKeepsUserData(old(store.items)[UsersKey := UserList(users)], newUser, id);
      LoginFindsSignedUpUser(old(GetUsers()), newUser);
      if UniqueEmails(old(GetUsers())) {
        SignupKeepsEmailsUnique(old(GetUsers()), newUser);
      }
      outcome := SignedUp(newUser);
    }

    /**
     * `handleLogin`: log in the first stored user whose email and encoded password both
     * match; otherwise change nothing.
     */
    method HandleLogin(email: string, password: string, cart: CartSystem?, wishlist: WishlistSystem?)
      returns (outcome: LoginOutcome)
      requires Wired(cart, wishlist)
      modifies this`currentUser, store, cart, wishlist
      ensures outcome.LoggedIn? <==>
                exists j :: 0 <= j < |old(GetUsers())| && Matches(old(GetUsers())[j], email, encode(password))
      ensures outcome == match Authenticate(old(GetUsers()), email, encode(password))
                         case Some(u) => LoggedIn(u)
                         case None => InvalidCredentials
      ensures !outcome.LoggedIn? ==>
                && currentUser == old(currentUser) && store.items == old(store.items)
                && (cart != null ==> cart.cart == old(cart.cart))
                && (wishlist != null ==> wishlist.wishlist == old(wishlist.wishlist))
      ensures outcome.LoggedIn? ==>
                && currentUser == Some(outcome.user)
                && store.items == old(store.items)[SessionKey := SessionUser(outcome.user)]
                && (cart != null ==> cart.cart == StoredCart(old(store.items), outcome.user.id))
                && (wishlist != null ==> wishlist.wishlist == StoredWishlist(old(store.items), outcome.user.id))
    {
      var users := GetUsers();
      match Authenticate(users, email, encode(password))
      case Some(u) =>
        LoginUser(u, cart, wishlist);
        outcome := LoggedIn(u);
      case None =>
        outcome := InvalidCredentials;
    }
  }

  /** A page button, with the `data-cart-listener-added` mark and the click handlers the cart attached. */
  class Button {

    var cartListenerAdded: bool
    var cartHandlers: nat

    /** A button as the page renders it: unmarked, no handler. */
    constructor ()
      ensures !cartListenerAdded && cartHandlers == 0
    {
      cartListenerAdded := false;
      cartHandlers := 0;
    }
  }

  /** The mark tells the truth: a marked button carries exactly one cart handler, an unmarked one none. */
  ghost predicate BoundOnce(b: Button)
    reads b
  {
    b.cartHandlers == if b.cartListenerAdded then 1 else 0
  }

  class CartSystem {

    const store: LocalStorage
    /** `window.authSystem`, which `saveCartToStorage` and `loadCartFromStorage` dereference. */
    const auth: AuthSystem
    var cart: seq<Cart.CartLine>

    /** `new CartSystem()`: load the current user's cart. */
    constructor (store: LocalStorage, auth: AuthSystem)
      ensures this.store == store && this.auth == auth
      ensures cart == CartLoaded(store.items, auth.currentUser)
    {
      this.store := store;
      this.auth := auth;
      cart := [];
      new;
      LoadCartFromStorage();
    }

    /** `saveCartToStorage`. */
    method SaveCartToStorage()
      modifies store
      ensures store.items == CartSaved(old(store.items), auth.currentUser, cart)
    {
      if auth.IsLoggedIn() {
        var userId := auth.GetCurrentUser().value.id;
        store.SetItem(CartKey(userId), CartLines(cart));
      }
    }

    /** `loadCartFromStorage`. */
    method LoadCartFromStorage()
      modifies this`cart
      ensures cart == CartLoaded(store.items, auth.currentUser)
    {
      if auth.IsLoggedIn() {
        var userId := auth.GetCurrentUser().value.id;
        cart := StoredCart(store.items, userId);
      } else {
        cart := [];
      }
    }

    /** `addToCart`: merge on name and price or append, then save. */
    method AddToCart(product: Cart.CartLine)
      modifies this`cart, store
      ensures cart == Cart.Added(old(cart), product)
      ensures store.items == CartSaved(old(store.items), auth.currentUser, cart)
      ensures Cart.DistinctProducts(old(cart)) ==> Cart.DistinctProducts(cart)
      ensures Cart.PositiveQuantities(old(cart)) && product.quantity > 0 ==> Cart.PositiveQuantities(cart)
    {
      if Cart.DistinctProducts(cart) {
        Cart.AddKeepsProductsDistinct(cart, product);
      }
      if Cart.PositiveQuantities(cart) && product.quantity > 0 {
        Cart.AddKeepsQuantitiesPositive(cart, product);
      }
      match Cart.FindSameProduct(cart, product) {
        case Some(i) =>
          cart := cart[i := cart[i].(quantity := cart[i].quantity + 1)];
        case None =>
          cart := cart + [product];
      }
      SaveCartToStorage();
    }

    /** `removeFromCart`: drop the lines with this id, then save. */
    method RemoveFromCart(id: string)
      modifies this`cart, store
      ensures cart == Cart.Removed(old(cart), id)
      ensures store.items == CartSaved(old(store.items), auth.currentUser, cart)
      ensures Cart.DistinctProducts(old(cart)) ==> Cart.DistinctProducts(cart)
      ensures Cart.PositiveQuantities(old(cart)) ==> Cart.PositiveQuantities(cart)
    {
      Cart.RemoveKeepsInvariants(cart, id);
      cart := Cart.Removed(cart, id);
      SaveCartToStorage();
    }

    /** `updateQuantity`: nothing for an unknown id; remove for `q <= 0`; else set and save. */
    method UpdateQuantity(id: string, q: int)
      modifies this`cart, store
      ensures cart == Cart.QuantityUpdated(old(cart), id, q)
      ensures store.items == if Cart.FindId(old(cart), id).None? then old(store.items)
                             else CartSaved(old(store.items), auth.currentUser, cart)
      ensures Cart.DistinctProducts(old(cart)) ==> Cart.DistinctProducts(cart)
      ensures Cart.PositiveQuantities(old(cart)) ==> Cart.PositiveQuantities(cart)
    {
      Cart.UpdateKeepsInvariants(cart, id, q);
      match Cart.FindId(cart, id)
      case None =>
      case Some(i) =>
        if q <= 0 {
          RemoveFromCart(id);
        } else {
          cart := cart[i := cart[i].(quantity := q)];
          SaveCartToStorage();
        }
    }

    /** `clearCart`: empty the cart, then save (nothing is written when logged out). */
    method ClearCart()
      modifies this`cart, store
      ensures cart == [] && GetCartSummary() == Cart.CartSummary([], 0, 0)
      ensures store.items == CartSaved(old(store.items), auth.currentUser, [])
    {
      cart := [];
      SaveCartToStorage();
    }

    /** `getCartSummary`. */
    function GetCartSummary(): Cart.CartSummary
      reads this
    {
      Cart.Summary(cart)
    }

    /**
     * `handleAddToCart` with the extracted product (`None` when no product card or no
     * product could be read): logged out, it opens the auth modal and changes nothing.
     */
    method HandleAddToCart(product: Option<Cart.CartLine>) returns (outcome: CartClick)
      modifies this`cart, store
      ensures !auth.IsLoggedIn() ==> outcome == AuthModalOpened
      ensures auth.IsLoggedIn() && product.None? ==> outcome == CartNoProduct
      ensures outcome != AddedToCart ==> cart == old(cart) && store.items == old(store.items)
      ensures outcome == AddedToCart <==> auth.IsLoggedIn() && product.Some?
      ensures outcome == AddedToCart ==>
                && cart == Cart.Added(old(cart), product.value)
                && store.items == old(store.items)[CartKey(auth.currentUser.value.id) := CartLines(cart)]
      ensures Cart.DistinctProducts(old(cart)) ==> Cart.DistinctProducts(cart)
      ensures Cart.PositiveQuantities(old(cart)) && (product.Some? ==> product.value.quantity > 0) ==>
                Cart.PositiveQuantities(cart)
    {
      if !auth.IsLoggedIn() {
        return AuthModalOpened;
      }
      if product.None? {
        return CartNoProduct;
      }
      AddToCart(product.value);
      outcome := AddedToCart;
    }

    /**
     * `setupCartButtons`, given the button enclosing each cart icon found (`null` where
     * an icon has none, the `!button` guard; the selector only finds icons inside a
     * button, so the page never passes one): bind the buttons not yet marked, and mark them.
     */
    method SetupCartButtons(found: seq<Button?>)
      modifies set b: Button | b in found
      ensures forall b: Button :: b in found ==> b.cartListenerAdded
      ensures forall b: Button :: b in found ==>
                b.cartHandlers == if old(b.cartListenerAdded) then old(b.cartHandlers) else old(b.cartHandlers) + 1
      ensures forall b: Button :: b in found && old(BoundOnce(b)) ==> BoundOnce(b)
    {
      var i := 0;
      while i < |found|
        invariant 0 <= i <= |found|
        invariant forall b: Button :: b in found[..i] ==> b.cartListenerAdded
        invariant forall b: Button :: b in found ==>
                    b.cartHandlers == if b in found[..i] && !old(b.cartListenerAdded) then old(b.cartHandlers) + 1 else old(b.cartHandlers)
        invariant forall b: Button :: b in found && b !in found[..i] ==> b.cartListenerAdded == old(b.cartListenerAdded)
      {
        var button := found[i];
        assert found[..i + 1] == found[..i] + [button];
        if button != null && !button.cartListenerAdded {
          button.cartListenerAdded := true;
          button.cartHandlers := button.cartHandlers + 1;
        }
        i := i + 1;
      }
      assert found[..i] == found;
    }

    /** The `userLoggedIn` listener: reload the new user's cart. */
    method OnUserLoggedIn()
      modifies this`cart
      ensures cart == CartLoaded(store.items, auth.currentUser)
    {
      LoadCartFromStorage();
    }

    /** The `userLoggedOut` listener: clear the cart. */
    method OnUserLoggedOut()
      modifies this`cart, store
      ensures cart == []
      ensures store.items == CartSaved(old(store.items), auth.currentUser, [])
    {
      ClearCart();
    }
  }

  class WishlistSystem {

    const store: LocalStorage
    /** `window.authSystem`, which the save and load dereference. */
    const auth: AuthSystem
    var wishlist: seq<Wishlist.WishlistEntry>

    /** `new WishlistSystem()`: load the current user's wishlist. */
    constructor (store: LocalStorage, auth: AuthSystem)
      ensures this.store == store && this.auth == auth
      ensures wishlist == WishlistLoaded(store.items, auth.currentUser)
    {
      this.store := store;
      this.auth := auth;
      wishlist := [];
      new;
      LoadWishlistFromStorage();
    }

    /** `saveWishlistToStorage`. */
    method SaveWishlistToStorage()
      modifies store
      ensures store.items == WishlistSaved(old(store.items), auth.currentUser, wishlist)
    {
      if auth.IsLoggedIn() {
        var userId := auth.GetCurrentUser().value.id;
        store.SetItem(WishlistKey(userId), WishlistEntries(wishlist));
      }
    }

    /** `loadWishlistFromStorage`. */
    method LoadWishlistFromStorage()
      modifies this`wishlist
      ensures wishlist == WishlistLoaded(store.items, auth.currentUser)
    {
      if auth.IsLoggedIn() {
        var userId := auth.GetCurrentUser().value.id;
        wishlist := StoredWishlist(store.items, userId);
      } else {
        wishlist := [];
      }
    }

    /** `isInWishlist`. */
    function IsInWishlist(entry: Wishlist.WishlistEntry): bool
      reads this
    {
      Wishlist.Contains(wishlist, entry.id)
    }

    /** `addToWishlist`: append and save when the id is new; otherwise touch nothing. */
    method AddToWishlist(entry: Wishlist.WishlistEntry)
      modifies this`wishlist, store
      ensures wishlist == Wishlist.Added(old(wishlist), entry)
      ensures IsInWishlist(entry)
      ensures store.items == if Wishlist.Contains(old(wishlist), entry.id) then old(store.items)
                             else WishlistSaved(old(store.items), auth.currentUser, wishlist)
      ensures Wishlist.UniqueIds(old(wishlist)) ==> Wishlist.UniqueIds(wishlist)
    {
      if Wishlist.UniqueIds(wishlist) {
        Wishlist.AddKeepsIdsUnique(wishlist, entry);
      }
      Wishlist.AddMakesMember(wishlist, entry);
      if !Wishlist.Contains(wishlist, entry.id) {
        wishlist := wishlist + [entry];
        SaveWishlistToStorage();
      }
    }

    /** `removeFromWishlist`, by id or by entry: drop the matching entries, then save. */
    method RemoveFromWishlist(target: Wishlist.EntryRef)
      modifies this`wishlist, store
      ensures wishlist == Wishlist.Removed(old(wishlist), target)
      ensures !Wishlist.Contains(wishlist, Wishlist.RefId(target))
      ensures store.items == WishlistSaved(old(store.items), auth.currentUser, wishlist)
      ensures Wishlist.UniqueIds(old(wishlist)) ==> Wishlist.UniqueIds(wishlist)
    {
      if Wishlist.UniqueIds(wishlist) {
        Wishlist.RemoveKeepsIdsUnique(wishlist, target);
      }
      wishlist := Wishlist.Removed(wishlist, target);
      Lists.WithoutRemovesId(old(wishlist), Wishlist.EntryId, Wishlist.RefId(target));
      SaveWishlistToStorage();
    }

    /** `clearWishlist`: empty the wishlist, then save (nothing is written when logged out). */
    method ClearWishlist()
      modifies this`wishlist, store
      ensures wishlist == [] && GetWishlistSummary().totalItems == 0
      ensures store.items == WishlistSaved(old(store.items), auth.currentUser, [])
    {
      wishlist := [];
      SaveWishlistToStorage();
    }

    /** `getWishlistSummary`. */
    function GetWishlistSummary(): Wishlist.WishlistSummary
      reads this
    {
      Wishlist.Summary(wishlist)
    }

    /**
     * `handleAddToWishlist` with the extracted entry: logged out, it opens the auth
     * modal and changes nothing; otherwise it toggles the entry's membership.
     */
    method HandleAddToWishlist(entry: Option<Wishlist.WishlistEntry>) returns (outcome: HeartClick)
      modifies this`wishlist, store
      ensures !auth.IsLoggedIn() ==> outcome == HeartAuthModalOpened
      ensures auth.IsLoggedIn() && entry.None? ==> outcome == HeartNoProduct
      ensures outcome == HeartAuthModalOpened || outcome == HeartNoProduct ==>
                wishlist == old(wishlist) && store.items == old(store.items)
      ensures auth.IsLoggedIn() && entry.Some? ==>
                && wishlist == Wishlist.Toggled(old(wishlist), entry.value)
                && store.items == old(store.items)[WishlistKey(auth.currentUser.value.id) := WishlistEntries(wishlist)]
                && outcome == if Wishlist.Contains(old(wishlist), entry.value.id) then RemovedFromWishlist else AddedToWishlist
      ensures Wishlist.UniqueIds(old(wishlist)) ==> Wishlist.UniqueIds(wishlist)
    {
      if !auth.IsLoggedIn() {
        return HeartAuthModalOpened;
      }
      if entry.None? {
        return HeartNoProduct;
      }
      if IsInWishlist(entry.value) {
        RemoveFromWishlist(Wishlist.ByEntry(entry.value));
        outcome := RemovedFromWishlist;
      } else {
        AddToWishlist(entry.value);
        outcome := AddedToWishlist;
      }
    }

    /** The `userLoggedIn` listener: reload the new user's wishlist. */
    method OnUserLoggedIn()
      modifies this`wishlist
      ensures wishlist == WishlistLoaded(store.items, auth.currentUser)
    {
      LoadWishlistFromStorage();
    }

    /** The `userLoggedOut` listener: clear the wishlist. */
    method OnUserLoggedOut()
      modifies this`wishlist, store
      ensures wishlist == []
      ensures store.items == WishlistSaved(old(store.items), auth.currentUser, [])
    {
      ClearWishlist();
    }
  }
}
