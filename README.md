# Footcap sessions, carts and wishlists in Dafny

Footcap is a client-side shoe shop. Under its DOM wiring sit three controllers that share the
browser's `localStorage`:

- `AuthSystem` (assets/js/auth.js) keeps the registered users under `footcap_users` and the session under `footcap_current_user`. It signs users up, logs them in and logs them out.
- `CartSystem` (assets/js/cart.js) keeps the logged-in user's cart lines under `footcap_cart_<userId>`. A line is merged on name and price.
- `WishlistSystem` (assets/js/wishlist.js) keeps the logged-in user's wishlist entries under `footcap_wishlist_<userId>`. An entry is keyed by id.

The model keeps the source's shape:

- Each controller is a class. Its field is a `seq` that the methods reassign, and every mutation is followed by the save the source performs.
- Storage is one `LocalStorage` object holding a map from key to stored value.
- The `userLoggedIn` and `userLoggedOut` window events become direct calls. The auth system calls the cart's and the wishlist's listener methods. A system that was never constructed is passed as `null`.
- `find`, `filter` and `reduce` are recursive functions, and the `some` checks are quantified predicates (`Lists.HasId`, `Auth.EmailFree`). The methods assign through them.
- The `forEach` binding pass of `setupCartButtons` is a `while` loop over button objects.

Modules:

- `Wrappers` holds `Option`.
- `Lists` is the filter-by-id that both the cart and the wishlist use.
- `Auth` holds users, the email check and the credential lookup.
- `Cart` and `Wishlist` hold what each operation does to the sequence, with the lemmas about it.
- `Storage` holds the keys, the stored values and the per-user save and load.
- `Systems` holds the three controller classes and the buttons.
- `Scenarios` holds whole flows proved from the contracts alone.

`Systems` is one module because auth.js and cart.js reach each other through window globals.

Nondeterministic and foreign inputs are parameters:

- `btoa` is the auth system's `encode: string -> Option<string>`. `None` stands for the exception `btoa` throws on characters above U+00FF.
- The user id and the creation time, which the source takes from the clock.
- The product a click extracts from the page, which is `None` when no product card or no product could be read.

## Model

| member | source | states |
|---|---|---|
| `Auth.ValidateEmail` | assets/js/auth.js:283-286 | `validateEmail`: an accepted email has at least five characters and an `@` that is not the first character. The exact language is stated by the two rows below |
| `Auth.EmailAccepted` | assets/js/auth.js:283-286 | every string `A@B.C` with `A`, `B`, `C` non-empty runs of `[^\s@]` passes `validateEmail` |
| `Auth.EmailShape` | assets/js/auth.js:283-286 | every string `validateEmail` accepts splits as `A@B.C` with `A`, `B`, `C` non-empty runs of `[^\s@]`, the converse of the row above |
| `Auth.EmailHasOneAt` | assets/js/auth.js:283-286 | an accepted email has no whitespace and exactly one `@`, which is not the first character |
| `Auth.FirstIndexOf` | assets/js/auth.js:284 | the index found is the first occurrence of the character, and `None` means the character does not occur |
| `Auth.FindCredentials` | assets/js/auth.js:145-146 | the lookup as written. It returns the first user whose email and encoded password both match. It returns not-found only when no user matches. It fails on encoding exactly when the password cannot be encoded and some user has the email, because `hashPassword` runs only after the email compare |
| `Auth.EncodableLoginHidesCause` | assets/js/auth.js:146-154 | with a password `btoa` can encode, the written lookup never throws, and it answers not-found exactly when no user matches. A wrong email and a wrong password therefore get the same answer |
| `Auth.EncodingFailureRevealsEmail` | assets/js/auth.js:146 | with a password `btoa` cannot encode, the written lookup throws when the email is registered and answers not-found otherwise, so the outcome tells registered emails apart |
| `Auth.LoginLeakExample` | assets/js/auth.js:146 | one stored user "a@x.com" and an unencodable password: the lookup throws for "a@x.com" and answers not-found for "b@x.com" |
| `Auth.Authenticate` | assets/js/auth.js:146-154 | the intended lookup. It finds a user exactly when some user matches both credentials, and then it is the first such user. An unencodable password matches nobody, so every failure gets the one undifferentiated answer |
| `Auth.AuthenticateAgreesOnSuccess` | assets/js/auth.js:146-154 | where the written lookup finds a user, the intended one finds the same user. For every encodable password the two agree outright |
| `Auth.LoginFindsSignedUpUser` | assets/js/auth.js:113-131 | a user appended by a signup whose email no earlier user had is what a login with the same email and encoded password finds |
| `Auth.SignupKeepsEmailsUnique` | assets/js/auth.js:113-131 | appending a user whose email is free keeps emails pairwise distinct |
| `Systems.AuthSystem.IsLoggedIn` | assets/js/auth.js:341-343 | `isLoggedIn`: whether a session user is held. Its partners are `Logout`, which makes it false, and `LoginUser`, which makes it true |
| `Systems.AuthSystem.GetCurrentUser` | assets/js/auth.js:345-347 | `getCurrentUser`: a plain read of the session field, with no property of its own |
| `Systems.AuthSystem.GetUsers` | assets/js/auth.js:278-281 | `getUsers`: the list stored under `footcap_users`, read through `Storage.StoredUsers` |
| `Systems.AuthSystem.constructor` | assets/js/auth.js:9-20 | a new auth system starts as the persisted session says |
| `Systems.AuthSystem.LoadUserFromStorage` | assets/js/auth.js:194-199 | the persisted session user is adopted when present; otherwise the session is left as it was |
| `Systems.AuthSystem.LoginUser` | assets/js/auth.js:157-164 | the session becomes the user and is written under `footcap_current_user`, nothing else is written, and the loaded cart and wishlist become that user's persisted ones |
| `Systems.AuthSystem.Logout` | assets/js/auth.js:166-192 | afterwards `isLoggedIn` is false and the only storage change is the removed session key. Every persisted cart and wishlist and the user list are unchanged, and the in-memory cart and wishlist are empty |
| `Systems.AuthSystem.HandleSignup` | assets/js/auth.js:94-137 | the checks run in order: bad email, then short password, then taken email, then an unencodable password. Each failure leaves session, storage, cart and wishlist unchanged. Success appends exactly the new user with the encoded password, logs them in, and a login with the same credentials then finds them. If the stored emails were pairwise distinct before, they still are |
| `Systems.AuthSystem.HandleLogin` | assets/js/auth.js:139-155 | login succeeds exactly when some stored user matches both email and encoded password, and then sets the session to the first such user. Otherwise session, storage, cart and wishlist are unchanged. The outcome follows the intended lookup `Auth.Authenticate`, so an unencodable password also gets "Invalid email or password" (see Findings) |
| `Storage.StoredUsers` | assets/js/auth.js:278-281 | the stored user list, or the empty list when the key is missing. `Storage.UsersWriteKeepsUserData` states what a write to it does |
| `Storage.StoredSession` | assets/js/auth.js:194-199 | the stored session user, if any. `Storage.SessionWriteKeepsUserData` and `Storage.SessionRemovalKeepsUserData` state what a write and a removal do |
| `Storage.CartSaved` | assets/js/cart.js:499-504 | the storage after `saveCartToStorage`. `Storage.CartSaveTouchesOnlyOwnKey` and `Storage.CartSaveLoadRoundTrip` state its properties |
| `Storage.CartLoaded` | assets/js/cart.js:506-514 | the cart `loadCartFromStorage` yields, the inverse of `CartSaved` by `Storage.CartSaveLoadRoundTrip` |
| `Storage.WishlistSaved` | assets/js/wishlist.js:414-419 | the storage after `saveWishlistToStorage`. `Storage.WishlistSaveTouchesOnlyOwnKey` and `Storage.WishlistSaveLoadRoundTrip` state its properties |
| `Storage.WishlistLoaded` | assets/js/wishlist.js:421-429 | the wishlist `loadWishlistFromStorage` yields, the inverse of `WishlistSaved` by `Storage.WishlistSaveLoadRoundTrip` |
| `Storage.LocalStorage.SetItem` | assets/js/cart.js:502 | `localStorage.setItem`: the key now maps to the value and no other key changes |
| `Storage.LocalStorage.RemoveItem` | assets/js/auth.js:168 | `localStorage.removeItem`: the key is gone and no other key changes |
| `Storage.KeysDisjoint` | assets/js/cart.js:499-514 | the users key, the session key, every cart key and every wishlist key are pairwise distinct, and cart or wishlist keys of different user ids differ |
| `Storage.SessionWriteKeepsUserData` | assets/js/auth.js:157-159 | writing the session key leaves the user list and every cart and wishlist as they were |
| `Storage.SessionRemovalKeepsUserData` | assets/js/auth.js:166-168 | removing the session key leaves the user list and every cart and wishlist as they were, and no session remains |
| `Storage.UsersWriteKeepsUserData` | assets/js/auth.js:129-131 | writing the user list leaves the session and every cart and wishlist as they were |
| `Storage.CartSaveTouchesOnlyOwnKey` | assets/js/cart.js:499-504 | a cart save changes only `footcap_cart_<currentUser.id>`: the users, the session, all wishlists and every other user's cart read the same. Logged out it writes nothing |
| `Storage.CartSaveLoadRoundTrip` | assets/js/cart.js:499-514 | a load after a save for the same user gives back the saved cart, and a load while logged out gives the empty cart |
| `Storage.WishlistSaveTouchesOnlyOwnKey` | assets/js/wishlist.js:414-419 | a wishlist save changes only `footcap_wishlist_<currentUser.id>`. Logged out it writes nothing |
| `Storage.WishlistSaveLoadRoundTrip` | assets/js/wishlist.js:414-429 | a load after a save for the same user gives back the saved wishlist, and a load while logged out gives the empty wishlist |
| `Cart.Added` | assets/js/cart.js:157-172 | after `addToCart` some line has the product's name and price, and the cart grew by at most one line |
| `Cart.Removed` | assets/js/cart.js:179-183 | after `removeFromCart` no line has the id, and the cart did not grow |
| `Cart.QuantityUpdated` | assets/js/cart.js:185-196 | `updateQuantity` never grows the cart. A positive `q` keeps the line count, and `q <= 0` leaves no line with the id |
| `Cart.TotalItems` | assets/js/cart.js:565 | the `reduce` of quantities. Its properties are in `Cart.TotalsConcat`, `Cart.TotalsUpdate` and `Cart.TotalItemsBound` |
| `Cart.TotalPrice` | assets/js/cart.js:566 | the `reduce` of price times quantity. Its properties are in `Cart.TotalsConcat`, `Cart.TotalsUpdate` and `Cart.AddRaisesTotals` |
| `Cart.FindSameProduct` | assets/js/cart.js:162-164 | the index found is the first line with the product's name and price, and `None` means no line has them |
| `Cart.FindId` | assets/js/cart.js:186 | the index found is the first line with the id, and `None` means no line has it |
| `Cart.AddMergesMatchingLine` | assets/js/cart.js:162-168 | in a cart without duplicate products, a product matching line `i` raises exactly that line's quantity by 1. The line count and every other line stay unchanged |
| `Cart.AddAppendsNewProduct` | assets/js/cart.js:169-171 | a product matching no line is appended once, unchanged, at the end |
| `Cart.AddKeepsProductsDistinct` | assets/js/cart.js:161-171 | if no two lines share name and price before `addToCart`, none do after |
| `Cart.AddKeepsQuantitiesPositive` | assets/js/cart.js:157-172 | `addToCart` keeps every quantity positive |
| `Cart.AddTwiceMerges` | assets/js/cart.js:157-172 | adding the same name and price twice to a cart without them gives one new line of quantity 2 |
| `Cart.AddTwoNamesAppendsBoth` | assets/js/cart.js:157-172 | two products differing in name give two new lines, in order, each of quantity 1 |
| `Cart.AddRaisesTotals` | assets/js/cart.js:157-172 | with quantity 1, `addToCart` raises `totalItems` by 1 and `totalPrice` by the product's price, in both the merge and the append case |
| `Cart.TotalsConcat` | assets/js/cart.js:562-568 | `totalItems` and `totalPrice` are sums: the totals of a concatenation are the sums of the parts' totals |
| `Cart.TotalsUpdate` | assets/js/cart.js:562-568 | replacing one line changes each total by that line's difference alone |
| `Cart.TotalItemsBound` | assets/js/cart.js:565 | with positive quantities `totalItems` is at least the number of lines |
| `Cart.EmptySummary` | assets/js/cart.js:198-203 | the empty cart's summary is zero items and zero price |
| `Cart.RemoveKeepsOthersInOrder` | assets/js/cart.js:179-183 | `removeFromCart` keeps exactly the lines with another id and leaves none with the id. It distributes over concatenation, so the kept lines keep their order |
| `Cart.RemoveIdempotent` | assets/js/cart.js:179-183 | removing the same id twice equals removing it once |
| `Cart.RemoveAbsentId` | assets/js/cart.js:179-183 | removing an id no line carries changes nothing |
| `Cart.RemoveKeepsInvariants` | assets/js/cart.js:179-183 | the result holds only lines of the original cart, so distinct products and positive quantities are kept |
| `Cart.RemoveLowersTotals` | assets/js/cart.js:179-183 | with positive quantities, removing lines never raises `totalItems`, and it lowers it when some line had the id |
| `Cart.UpdateNonPositiveRemoves` | assets/js/cart.js:185-190 | `updateQuantity(id, q)` with `q <= 0` equals `removeFromCart(id)`, whether or not the id is present |
| `Cart.UpdateUnknownIdUnchanged` | assets/js/cart.js:185-187 | `updateQuantity` with an id no line carries changes nothing |
| `Cart.UpdatePositiveSetsQuantity` | assets/js/cart.js:186-191 | with `q > 0` only the quantity of the first line with the id changes, to `q`. The line count, the other lines and the line's other fields stay, and `totalItems` moves by the difference |
| `Cart.UpdateKeepsInvariants` | assets/js/cart.js:185-196 | `updateQuantity` keeps products distinct and, with a positive `q` or a removal, quantities positive |
| `Systems.CartSystem.constructor` | assets/js/cart.js:9-19 | a new cart system holds the current user's persisted cart, or the empty cart when logged out |
| `Systems.CartSystem.SaveCartToStorage` | assets/js/cart.js:499-504 | the cart is written under the current user's cart key, and nothing is written when logged out |
| `Systems.CartSystem.LoadCartFromStorage` | assets/js/cart.js:506-514 | the cart becomes the current user's persisted cart, or the empty cart when there is none or nobody is logged in |
| `Systems.CartSystem.AddToCart` | assets/js/cart.js:157-177 | the cart becomes the merge-or-append of the product, then it is saved. Distinct products are kept, and so are positive quantities when the product's quantity is positive |
| `Systems.CartSystem.RemoveFromCart` | assets/js/cart.js:179-183 | the cart loses every line with the id, then it is saved. Distinct products and positive quantities are kept |
| `Systems.CartSystem.UpdateQuantity` | assets/js/cart.js:185-196 | an unknown id changes nothing and saves nothing. Otherwise `q <= 0` removes the id's lines and a positive `q` sets the first line's quantity, and the cart is saved. Distinct products and positive quantities are kept |
| `Systems.CartSystem.ClearCart` | assets/js/cart.js:198-203 | the cart is empty and its summary is zero items and zero price, then it is saved, which writes nothing when logged out |
| `Systems.CartSystem.HandleAddToCart` | assets/js/cart.js:76-108 | logged out, it opens the auth modal and changes neither cart nor storage. Logged in with a product, it adds the product and writes only the user's cart key. Distinct products and positive quantities are kept |
| `Systems.CartSystem.GetCartSummary` | assets/js/cart.js:562-568 | `getCartSummary`: the lines with their two `reduce` totals. `Cart.EmptySummary`, `Cart.AddRaisesTotals` and `Cart.RemoveLowersTotals` state how the totals move |
| `Systems.CartSystem.SetupCartButtons` | assets/js/cart.js:52-74 | every button reached is marked, and a button gets one more handler only if it was unmarked. A `null` entry stands for the `!button` guard, which the selector `button ion-icon[...]` never triggers. A button whose mark matched its handler count still does, so repeated passes leave at most one handler |
| `Systems.CartSystem.OnUserLoggedIn` | assets/js/cart.js:37-42 | on login the cart is reloaded from the new user's key |
| `Systems.CartSystem.OnUserLoggedOut` | assets/js/cart.js:44-46 | on logout the cart is cleared |
| `Wishlist.Added` | assets/js/wishlist.js:178-187 | after `addToWishlist(e)` some entry has `e`'s id. The old entries stay as a prefix, and at most one entry is added |
| `Wishlist.Removed` | assets/js/wishlist.js:189-194 | after `removeFromWishlist` no entry has the referenced id, and the wishlist did not grow |
| `Wishlist.Toggled` | assets/js/wishlist.js:114-125 | the heart toggle flips membership: afterwards the id is present exactly when it was absent before |
| `Wishlist.AddMakesMember` | assets/js/wishlist.js:178-187 | after `addToWishlist(e)`, `isInWishlist(e)` holds. Only when no entry had `e`'s id is `e` appended; otherwise the wishlist is unchanged |
| `Wishlist.AddKeepsIdsUnique` | assets/js/wishlist.js:180-183 | if no two entries share an id before `addToWishlist`, none do after |
| `Wishlist.RemoveKeepsOthersInOrder` | assets/js/wishlist.js:189-194 | `removeFromWishlist` keeps exactly the entries with another id, in order, and `isInWishlist` is false afterwards |
| `Wishlist.RemoveIdempotent` | assets/js/wishlist.js:189-194 | removing twice equals removing once |
| `Wishlist.RemoveByIdOrEntry` | assets/js/wishlist.js:191 | passing the id string and passing the entry remove the same entries |
| `Wishlist.RemoveKeepsIdsUnique` | assets/js/wishlist.js:189-194 | removing keeps ids unique |
| `Wishlist.ToggleTwiceRestoresMembership` | assets/js/wishlist.js:114-125 | toggling the same entry twice restores its membership |
| `Wishlist.ToggleTwiceAbsentIsIdentity` | assets/js/wishlist.js:114-125 | toggling an absent entry twice gives back the very same wishlist |
| `Wishlist.ToggleTwicePresentMovesToEnd` | assets/js/wishlist.js:114-125 | toggling a present entry twice moves it behind all the other entries, because the re-add appends |
| `Wishlist.SummaryCountsEntries` | assets/js/wishlist.js:469-474 | `totalItems` is the wishlist length. An add raises it by one exactly when the id was new, a remove never raises it, and it is 0 for the empty wishlist |
| `Systems.WishlistSystem.constructor` | assets/js/wishlist.js:9-18 | a new wishlist system holds the current user's persisted wishlist, or the empty wishlist when logged out |
| `Systems.WishlistSystem.SaveWishlistToStorage` | assets/js/wishlist.js:414-419 | the wishlist is written under the current user's wishlist key, and nothing is written when logged out |
| `Systems.WishlistSystem.LoadWishlistFromStorage` | assets/js/wishlist.js:421-429 | the wishlist becomes the current user's persisted one, or empty when there is none or nobody is logged in |
| `Systems.WishlistSystem.IsInWishlist` | assets/js/wishlist.js:209-211 | `isInWishlist`: whether an entry with the id is held. `Systems.WishlistSystem.AddToWishlist` makes it true and `Wishlist.RemoveKeepsOthersInOrder` makes it false |
| `Systems.WishlistSystem.AddToWishlist` | assets/js/wishlist.js:178-187 | the entry is appended and saved only if its id is new; otherwise wishlist and storage are untouched. Either way the entry is then a member, and unique ids stay unique |
| `Systems.WishlistSystem.RemoveFromWishlist` | assets/js/wishlist.js:189-207 | every entry with the referenced id is dropped, none is left, and the wishlist is saved. Unique ids stay unique |
| `Systems.WishlistSystem.ClearWishlist` | assets/js/wishlist.js:213-218 | the wishlist is empty and its summary counts 0, then it is saved, which writes nothing when logged out |
| `Systems.WishlistSystem.HandleAddToWishlist` | assets/js/wishlist.js:87-129 | logged out, it opens the auth modal and changes neither wishlist nor storage. Logged in with an entry, it removes the entry if present and adds it otherwise, then writes only the user's wishlist key. Unique ids stay unique |
| `Systems.WishlistSystem.GetWishlistSummary` | assets/js/wishlist.js:469-474 | `getWishlistSummary`: the entries and their count. `Wishlist.SummaryCountsEntries` states how the count moves |
| `Systems.WishlistSystem.OnUserLoggedIn` | assets/js/wishlist.js:22-25 | on login the wishlist is reloaded from the new user's key |
| `Systems.WishlistSystem.OnUserLoggedOut` | assets/js/wishlist.js:27-29 | on logout the wishlist is cleared |
| `Scenarios.LoadPage` | assets/js/auth.js:352-356 | loading the page on empty storage builds the auth, cart and wishlist systems over one storage, wired to each other, logged out and empty. The cart and wishlist are built at assets/js/cart.js:572-575 and assets/js/wishlist.js:497-501 |
| `Scenarios.SignupShopLogoutLogin` | assets/js/cart.js:37-46 | on empty storage the flow is: sign up "a@x.com" / "secret1", add "Runner" at 1999, log out, log in again. The login succeeds for that user, the cart shows exactly that line with quantity 1 and price 1999, and the wishlist is empty |
| `Scenarios.BindTwice` | assets/js/cart.js:57-72 | two binding passes over the same buttons, with one button reached through two icons, leave each button with exactly one cart handler |

## Left out

- Product extraction (`extractProductInfo` in both files) is left out. It reads the DOM, parses prices with a regular expression and `parseFloat`, and makes ids from `Date.now()` and `Math.random()`. The model takes the extracted product as an input with an integer price and a given id.
- Because wishlist ids are regenerated on every click, the real heart button almost always adds. The toggle is modelled on a fixed entry, and no de-duplication by name is claimed.
- Prices are integers. The source's floating-point prices and `toLocaleString` formatting are not modelled.
- Password encoding (`btoa`) is a foreign call, so it is the `encode` parameter. The model does not claim that it is injective or reversible.
- JSON encoding of stored values is not modelled. A key holds the decoded value directly, and a value of another kind under a key reads as absent. The modelled writes never produce one (`Storage.KeysDisjoint`). Corrupted JSON, which the source does not handle, is not modelled.
- `.trim()` of the form values is left out. `HandleSignup` takes the name and email already trimmed, and `HandleLogin` takes the email already trimmed. The password is passed as typed, as the source reads it untrimmed (assets/js/auth.js:100, 143).
- Systems.AuthSystem.HandleLogin: follows the intended lookup `Auth.Authenticate`, so an unencodable password ends in `InvalidCredentials`. The source's uncaught `btoa` exception for a registered email is modelled only by `Auth.FindCredentials` and the lemmas beside it (see Findings).
- `localStorage.setItem` can throw, for instance when the storage quota is exceeded. The in-memory change then stays unsaved. The model's `SetItem` always succeeds.
- Systems.AuthSystem.HandleSignup: the password length is counted in Unicode scalar values, while JavaScript's `length` counts UTF-16 code units, so the two differ for characters outside the Basic Multilingual Plane.
- The `alert` branch of `handleAddToCart` and `handleAddToWishlist` for a missing `window.authSystem` is not modelled. Both constructors already dereference `window.authSystem` when they load from storage, so neither system can exist without it. The model's cart and wishlist therefore hold a non-null auth system.
- All HTML rendering, notifications and modal open/close are left out, because they are DOM writes and `setTimeout` animation timing. This covers `updateUserStatus`, `updateCartUI`, `renderCartItems`, `addCartCountToHeader`, `updateWishlistUI`, `updateHeartButton`, `resetAllHeartButtons`, the wishlist modal, `showMessage`, `openAuthModal`, `closeAuthModal` and `switchTab`.
- Checkout and order submission (assets/js/cart.js:235-376) are left out. They use `FormData`, `Date` and `alert`.
- Event plumbing is left out: `CustomEvent` dispatch, and the delayed `setupCartButtons` after login (assets/js/cart.js:41), which is a `setTimeout`. The binding pass itself is modelled.
- Also left out of the event plumbing: the wishlist's clone-and-replace binding and document-level delegation (assets/js/wishlist.js:35-84), and the fallback submit delegation with its `eventListenersSetup` flag (assets/js/auth.js:359-377).
- The global console helpers (`debugCart`, `window.clearCart`, `debugWishlist`, `openWishlist`, `window.clearWishlist`) are left out: they only log or repeat what `clearCart`, `clearWishlist` and the modal code already do.
- assets/js/script.js, assets/js/navigation.js and assets/js/typing-effect.js are not part of this model. They are navbar, scrolling and animation glue.
- Two users signed up in the same millisecond would receive the same id and share cart and wishlist keys. The id is a parameter here, and the model makes no claim about id uniqueness.

## Findings

| source | as written | input that shows it | evidently intended | confidence | as-written member | corrected member |
|---|---|---|---|---|---|---|
| assets/js/auth.js:146 | `handleLogin` calls `hashPassword` (`btoa`) inside the `find` callback, after the email compare. A password with a character above U+00FF makes `btoa` throw only for a registered email, so no message is shown. An unregistered email gets "Invalid email or password". The outcome tells registered emails apart | stored user "a@x.com", login with a password containing "€", once as "a@x.com" and once as "b@x.com" | every failed login gets the same "Invalid email or password", whatever the cause | not executed | `Auth.FindCredentials`, `Auth.EncodingFailureRevealsEmail`, `Auth.LoginLeakExample` | `Auth.Authenticate`, used by `Systems.AuthSystem.HandleLogin` |
