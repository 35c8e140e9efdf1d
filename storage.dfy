/**
 * The browser's `localStorage` as the three systems use it: one map from key to
 * stored value, written under four kinds of key.
 */
module Storage {

  import opened Wrappers
  import opened Auth
  import Cart
  import Wishlist

  /** The global user list (assets/js/auth.js:131, 279). */
  const UsersKey: string := "footcap_users"

  /** The session pointer (assets/js/auth.js:159, 168, 195). */
  const SessionKey: string := "footcap_current_user"

  /** A user's cart (assets/js/cart.js:502, 509). */
  function CartKey(userId: string): string
  {
    "footcap_cart_" + userId
  }

  /** A user's wishlist (assets/js/wishlist.js:417, 424). */
  function WishlistKey(userId: string): string
  {
    "footcap_wishlist_" + userId
  }

  /**
   * The decoded contents of a key. Each key holds JSON text in the browser; the model
   * keeps the value the text encodes.
   */
  datatype Stored =
    | UserList(users: seq<User>)
    | SessionUser(user: User)
    | CartLines(lines: seq<Cart.CartLine>)
    | WishlistEntries(entries: seq<Wishlist.WishlistEntry>)

  type Items = map<string, Stored>

  /** No two kinds of key ever coincide, and a user's keys are distinct from every other user's. */
  lemma KeysDisjoint(id: string, id': string)
    ensures CartKey(id) != UsersKey && CartKey(id) != SessionKey && CartKey(id) != WishlistKey(id')
    ensures WishlistKey(id) != UsersKey && WishlistKey(id) != SessionKey
    ensures UsersKey != SessionKey
    ensures CartKey(id) == CartKey(id') <==> id == id'
    ensures WishlistKey(id) == WishlistKey(id') <==> id == id'
  {
    assert CartKey(id)[8] == 'c' && CartKey(id)[9] == 'a';
    assert WishlistKey(id)[8] == 'w' && WishlistKey(id')[8] == 'w';
    assert UsersKey[8] == 'u' && SessionKey[8] == 'c' && SessionKey[9] == 'u';
    if CartKey(id) == CartKey(id') {
      assert id == CartKey(id)[13..] && id' == CartKey(id')[13..];
    }
    if WishlistKey(id) == WishlistKey(id') {
      assert id == WishlistKey(id)[17..] && id' == WishlistKey(id')[17..];
    }
  }

  /** `getUsers`: the stored list, or the empty list when the key is missing. */
  function StoredUsers(items: Items): seq<User>
  {
    if UsersKey in items && items[UsersKey].UserList? then items[UsersKey].users else []
  }

  /** The user the session pointer holds, if any. */
  function StoredSession(items: Items): Option<User>
  {
    if SessionKey in items && items[SessionKey].SessionUser? then Some(items[SessionKey].user) else None
  }

  /** The cart persisted for a user, or the empty cart when there is none. */
  function StoredCart(items: Items, userId: string): seq<Cart.CartLine>
  {
    var key := CartKey(userId);
    if key in items && items[key].CartLines? then items[key].lines else []
  }

  /** The wishlist persisted for a user, or the empty wishlist when there is none. */
  function StoredWishlist(items: Items, userId: string): seq<Wishlist.WishlistEntry>
  {
    var key := WishlistKey(userId);
    if key in items && items[key].WishlistEntries? then items[key].entries else []
  }

  /** `saveCartToStorage`: write the cart under the current user's key, or nothing when logged out. */
  function CartSaved(items: Items, session: Option<User>, lines: seq<Cart.CartLine>): Items
  {
    if session.Some? then items[CartKey(session.value.id) := CartLines(lines)] else items
  }

  /** `loadCartFromStorage`: the current user's persisted cart, or the empty cart when logged out. */
  function CartLoaded(items: Items, session: Option<User>): seq<Cart.CartLine>
  {
    if session.Some? then StoredCart(items, session.value.id) else []
  }

  /** `saveWishlistToStorage`: write under the current user's key, or nothing when logged out. */
  function WishlistSaved(items: Items, session: Option<User>, entries: seq<Wishlist.WishlistEntry>): Items
  {
    if session.Some? then items[WishlistKey(session.value.id) := WishlistEntries(entries)] else items
  }

  /** `loadWishlistFromStorage`: the current user's persisted wishlist, or empty when logged out. */
  function WishlistLoaded(items: Items, session: Option<User>): seq<Wishlist.WishlistEntry>
  {
    if session.Some? then StoredWishlist(items, session.value.id) else []
  }

  /**
   * Saving a cart writes one key only: the user list, the session pointer, every
   * wishlist and every other user's cart read the same afterwards. Logged out, it
   * writes nothing.
   */
  lemma CartSaveTouchesOnlyOwnKey(items: Items, session: Option<User>, lines: seq<Cart.CartLine>, other: string)
    ensures session.None? ==> CartSaved(items, session, lines) == items
    ensures StoredUsers(CartSaved(items, session, lines)) == StoredUsers(items)
    ensures StoredSession(CartSaved(items, session, lines)) == StoredSession(items)
    ensures StoredWishlist(CartSaved(items, session, lines), other) == StoredWishlist(items, other)
    ensures session.Some? && other != session.value.id ==>
              StoredCart(CartSaved(items, session, lines), other) == StoredCart(items, other)
  {
    if session.Some? {
      KeysDisjoint(session.value.id, other);
    }
  }

  /** Saving a wishlist writes one key only, and nothing when logged out. */
  lemma WishlistSaveTouchesOnlyOwnKey(items: Items, session: Option<User>, entries: seq<Wishlist.WishlistEntry>, other: string)
    ensures session.None? ==> WishlistSaved(items, session, entries) == items
    ensures StoredUsers(WishlistSaved(items, session, entries)) == StoredUsers(items)
    ensures StoredSession(WishlistSaved(items, session, entries)) == StoredSession(items)
    ensures StoredCart(WishlistSaved(items, session, entries), other) == StoredCart(items, other)
    ensures session.Some? && other != session.value.id ==>
              StoredWishlist(WishlistSaved(items, session, entries), other) == StoredWishlist(items, other)
  {
    if session.Some? {
      KeysDisjoint(other, session.value.id);
      KeysDisjoint(session.value.id, other);
    }
  }

  /** A saved cart is what the next load for the same user yields; logged out a load yields nothing. */
  lemma CartSaveLoadRoundTrip(items: Items, session: Option<User>, lines: seq<Cart.CartLine>)
    ensures session.Some? ==> CartLoaded(CartSaved(items, session, lines), session) == lines
    ensures session.None? ==> CartLoaded(items, session) == []
  {
  }

  /** A saved wishlist is what the next load for the same user yields; logged out a load yields nothing. */
  lemma WishlistSaveLoadRoundTrip(items: Items, session: Option<User>, entries: seq<Wishlist.WishlistEntry>)
    ensures session.Some? ==> WishlistLoaded(WishlistSaved(items, session, entries), session) == entries
    ensures session.None? ==> WishlistLoaded(items, session) == []
  {
  }

  /** Dropping the session pointer leaves every persisted cart, wishlist and the user list as they were. */
  lemma SessionRemovalKeepsUserData(items: Items, id: string)
    ensures StoredCart(items - {SessionKey}, id) == StoredCart(items, id)
    ensures StoredWishlist(items - {SessionKey}, id) == StoredWishlist(items, id)
    ensures StoredUsers(items - {SessionKey}) == StoredUsers(items)
    ensures StoredSession(items - {SessionKey}) == None
  {
    KeysDisjoint(id, id);
  }

  /** Writing the session pointer leaves every persisted cart, wishlist and the user list as they were. */
  lemma SessionWriteKeepsUserData(items: Items, u: User, id: string)
    ensures StoredCart(items[SessionKey := SessionUser(u)], id) == StoredCart(items, id)
    ensures StoredWishlist(items[SessionKey := SessionUser(u)], id) == StoredWishlist(items, id)
    ensures StoredUsers(items[SessionKey := SessionUser(u)]) == StoredUsers(items)
    ensures StoredSession(items[SessionKey := SessionUser(u)]) == Some(u)
  {
    KeysDisjoint(id, id);
  }

  /** Writing the user list leaves every persisted cart, wishlist and the session pointer as they were. */
  lemma UsersWriteKeepsUserData(items: Items, users: seq<User>, id: string)
    ensures StoredCart(items[UsersKey := UserList(users)], id) == StoredCart(items, id)
    ensures StoredWishlist(items[UsersKey := UserList(users)], id) == StoredWishlist(items, id)
    ensures StoredSession(items[UsersKey := UserList(users)]) == StoredSession(items)
    ensures StoredUsers(items[UsersKey := UserList(users)]) == users
  {
    KeysDisjoint(id, id);
  }

  /** `localStorage`: string keys mapped to stored values. */
  class LocalStorage {

    var items: Items

    constructor (initial: Items)
      ensures items == initial
    {
      items := initial;
    }

    /** `localStorage.setItem`. */
    method SetItem(key: string, value: Stored)
      modifies this
      ensures items == old(items)[key := value]
    {
      items := items[key := value];
    }

    /** `localStorage.removeItem`. */
    method RemoveItem(key: string)
      modifies this
      ensures items == old(items) - {key}
    {
      items := items - {key};
    }
  }
}
