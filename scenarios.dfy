/** Whole flows across the three systems, proved from their contracts alone. */
module Scenarios {

  import opened Wrappers
  import opened Auth
  import Cart
  import Wishlist
  import opened Storage
  import opened Systems

  /** The "Runner" product at 1999 that the flow below adds. */
  function Runner(productId: string, image: string): Cart.CartLine
  {
    Cart.CartLine(productId, "Runner", 1999, image, None, 1)
  }

  /** The page after loading on an empty storage: the three systems, wired, everything empty. */
  method LoadPage(encode: string -> Option<string>) returns (auth: AuthSystem, cart: CartSystem, wishlist: WishlistSystem)
    ensures fresh(auth) && fresh(auth.store) && fresh(cart) && fresh(wishlist)
    ensures auth.encode == encode && auth.Wired(cart, wishlist)
    ensures auth.store.items == map[] && auth.currentUser == None
  {
    var store := new LocalStorage(map[]);
    auth := new AuthSystem(store, encode);
    cart := new CartSystem(store, auth);
    wishlist := new WishlistSystem(store, auth);
  }

  /** On empty storage, sign up "a@x.com" / "secret1": the new user is the only one and is logged in. */
  method SignUpOnEmptyStorage(auth: AuthSystem, cart: CartSystem, wishlist: WishlistSystem, userId: string, createdAt: string)
    returns (user: User)
    requires auth.Wired(cart, wishlist) && auth.store.items == map[] && auth.encode("secret1").Some?
    modifies auth`currentUser, auth.store, cart, wishlist
    ensures user == User(userId, "Asha", "a@x.com", auth.encode("secret1").value, createdAt)
    ensures auth.currentUser == Some(user)
    ensures auth.store.items == map[UsersKey := UserList([user]), SessionKey := SessionUser(user)]
    ensures cart.cart == [] && wishlist.wishlist == []
  {
    EmailAccepted("a", "x", "com");
    assert "a" + "@" + "x" + "." + "com" == "a@x.com";
    var signup := auth.HandleSignup("Asha", "a@x.com", "secret1", userId, createdAt, cart, wishlist);
    assert signup.SignedUp?;
    user := signup.user;
    assert auth.GetUsers() == [user];
    assert auth.store.items == map[][UsersKey := UserList([user])][SessionKey := SessionUser(user)];
  }

  /** Logged in as `user` with an empty cart, add `product`: it is the one line, persisted under the user's key. */
  method AddFirstProduct(auth: AuthSystem, cart: CartSystem, user: User, product: Cart.CartLine)
    requires cart.auth == auth && cart.store == auth.store && auth.currentUser == Some(user) && cart.cart == []
    modifies cart`cart, cart.store
    ensures cart.cart == [product]
    ensures auth.store.items == old(auth.store.items)[CartKey(user.id) := CartLines([product])]
  {
    Cart.AddAppendsNewProduct([], product);
    var click := cart.HandleAddToCart(Some(product));
    assert click == AddedToCart;
  }

  /** Logged in as `user` with an empty cart, add `product` and log out: the product stays persisted. */
  method ShopAndLogOut(auth: AuthSystem, cart: CartSystem, wishlist: WishlistSystem, user: User, product: Cart.CartLine)
    requires auth.Wired(cart, wishlist) && auth.currentUser == Some(user) && cart.cart == []
    requires auth.store.items == map[UsersKey := UserList([user]), SessionKey := SessionUser(user)]
    modifies auth`currentUser, auth.store, cart, wishlist
    ensures auth.currentUser == None
    ensures StoredUsers(auth.store.items) == [user]
    ensures StoredCart(auth.store.items, user.id) == [product]
    ensures StoredWishlist(auth.store.items, user.id) == []
  {
    KeysDisjoint(user.id, user.id);
    AddFirstProduct(auth, cart, user, product);
    ghost var shopped := auth.store.items;
    assert StoredUsers(shopped) == [user];
    assert StoredCart(shopped, user.id) == [product];
    assert WishlistKey(user.id) !in shopped;
    auth.Logout(cart, wishlist);
  }

  /**
   * On an empty storage: sign up "a@x.com" / "secret1", add one "Runner" at 1999, log
   * out, log back in with the same credentials. The login finds the signed-up user and
   * the cart shows exactly that one line, quantity 1, price 1999, while the wishlist,
   * never touched, is empty.
   */
  method SignupShopLogoutLogin(encode: string -> Option<string>, userId: string, createdAt: string,
                               productId: string, image: string)
    returns (login: LoginOutcome, shown: seq<Cart.CartLine>, wished: seq<Wishlist.WishlistEntry>)
    requires encode("secret1").Some?
    ensures login.LoggedIn? && login.user.id == userId && login.user.email == "a@x.com"
    ensures shown == [Runner(productId, image)]
    ensures wished == []
  {
    var auth, cart, wishlist := LoadPage(encode);
    var user := SignUpOnEmptyStorage(auth, cart, wishlist, userId, createdAt);
    ShopAndLogOut(auth, cart, wishlist, user, Runner(productId, image));
    LoginFindsSignedUpUser([], user);
    login := auth.HandleLogin("a@x.com", "secret1", cart, wishlist);
    shown := cart.cart;
    wished := wishlist.wishlist;
  }

  /**
   * The page runs the binding pass twice over the same buttons (once at start-up,
   * once after login), with one button reached through two icons: each button ends
   * up with exactly one cart handler.
   */
  method BindTwice(encode: string -> Option<string>) returns (first: nat, second: nat)
    ensures first == 1 && second == 1
  {
    var auth, cart, wishlist := LoadPage(encode);
    var a := new Button();
    var b := new Button();
    cart.SetupCartButtons([a, b, a]);
    cart.SetupCartButtons([a, b]);
    first, second := a.cartHandlers, b.cartHandlers;
  }
}
