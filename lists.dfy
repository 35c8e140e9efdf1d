/**
 * `Array.prototype.filter(item => item.id !== id)`, the operation both the cart
 * (assets/js/cart.js:180) and the wishlist (assets/js/wishlist.js:193) use to drop
 * entries by id. It is stated once, over any element type whose id `idOf` reads.
 */
module Lists {

  /** True when some element of `s` carries the id `id` (`Array.prototype.some`). */
  predicate HasId<T>(s: seq<T>, idOf: T -> string, id: string)
  {
    exists i :: 0 <= i < |s| && idOf(s[i]) == id
  }

  /** The elements of `s` whose id differs from `id`, in their original order. */
  function Without<T>(s: seq<T>, idOf: T -> string, id: string): seq<T>
  {
    if |s| == 0 then []
    else (if idOf(s[0]) == id then [] else [s[0]]) + Without(s[1..], idOf, id)
  }

  /** Filtering distributes over concatenation: the kept elements stay in the order they had. */
  lemma {:induction false} WithoutConcat<T>(a: seq<T>, b: seq<T>, idOf: T -> string, id: string)
    ensures Without(a + b, idOf, id) == Without(a, idOf, id) + Without(b, idOf, id)
  {
    if |a| == 0 {
      assert a + b == b;
    } else {
      assert (a + b)[1..] == a[1..] + b;
      WithoutConcat(a[1..], b, idOf, id);
    }
  }

  /** An element survives exactly when it was there and does not carry the id. */
  lemma {:induction false} WithoutMembership<T>(s: seq<T>, idOf: T -> string, id: string, x: T)
    ensures x in Without(s, idOf, id) <==> x in s && idOf(x) != id
  {
    if |s| > 0 {
      WithoutMembership(s[1..], idOf, id, x);
      assert s == [s[0]] + s[1..];
    }
  }

  /** After the filter no element carries the id. */
  lemma {:induction false} WithoutRemovesId<T>(s: seq<T>, idOf: T -> string, id: string)
    ensures !HasId(Without(s, idOf, id), idOf, id)
  {
    var r := Without(s, idOf, id);
    if HasId(r, idOf, id) {
      var i :| 0 <= i < |r| && idOf(r[i]) == id;
      WithoutMembership(s, idOf, id, r[i]);
    }
  }

  /** Filtering an id that no element carries changes nothing. */
  lemma {:induction false} WithoutAbsent<T>(s: seq<T>, idOf: T -> string, id: string)
    requires !HasId(s, idOf, id)
    ensures Without(s, idOf, id) == s
  {
    if |s| > 0 {
      assert idOf(s[0]) != id;
      assert forall i :: 0 <= i < |s[1..]| ==> idOf(s[1..][i]) == idOf(s[i + 1]);
      WithoutAbsent(s[1..], idOf, id);
      assert s == [s[0]] + s[1..];
    }
  }

  /** Filtering the same id twice is filtering it once. */
  lemma WithoutIdempotent<T>(s: seq<T>, idOf: T -> string, id: string)
    ensures Without(Without(s, idOf, id), idOf, id) == Without(s, idOf, id)
  {
    WithoutRemovesId(s, idOf, id);
    WithoutAbsent(Without(s, idOf, id), idOf, id);
  }

  /** The filter never grows the sequence. */
  lemma {:induction false} WithoutLength<T>(s: seq<T>, idOf: T -> string, id: string)
    ensures |Without(s, idOf, id)| <= |s|
    ensures HasId(s, idOf, id) ==> |Without(s, idOf, id)| < |s|
  {
    if |s| > 0 {
      WithoutLength(s[1..], idOf, id);
      if HasId(s, idOf, id) && idOf(s[0]) != id {
        var i :| 0 <= i < |s| && idOf(s[i]) == id;
        assert idOf(s[1..][i - 1]) == id;
      }
    }
  }
}
