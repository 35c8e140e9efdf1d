/**
 * The pure part of assets/js/wishlist.js: what each wishlist operation does to the
 * sequence of entries, which is a set keyed by entry id.
 */
module Wishlist {

  import opened Wrappers
  import Lists

  /** A wishlist entry as `extractProductInfo` builds it (price as an integer amount). */
  datatype WishlistEntry = WishlistEntry(id: string, name: string, price: int, image: string, badge: Option<string>, addedAt: string)

  function EntryId(e: WishlistEntry): string { e.id }

  /** `removeFromWishlist` takes either an id string or an entry. */
  datatype EntryRef = ById(id: string) | ByEntry(entry: WishlistEntry)

  function RefId(r: EntryRef): string
  {
    match r
    case ById(id) => id
    case ByEntry(e) => e.id
  }

  /** `isInWishlist`: some entry carries this id. */
  predicate Contains(entries: seq<WishlistEntry>, id: string)
  {
    Lists.HasId(entries, EntryId, id)
  }

  /** No two entries share an id. */
  predicate UniqueIds(entries: seq<WishlistEntry>)
  {
    forall i, j :: 0 <= i < j < |entries| ==> entries[i].id != entries[j].id
  }

  /** `addToWishlist`: append a copy of `e` unless an entry already has its id. */
  function Added(entries: seq<WishlistEntry>, e: WishlistEntry): (r: seq<WishlistEntry>)
    ensures Contains(r, e.id)
    ensures entries <= r && |r| <= |entries| + 1
  {
    if Contains(entries, e.id) then entries
    else
      assert EntryId((entries + [e])[|entries|]) == e.id;
      entries + [e]
  }

  /** `removeFromWishlist`: drop every entry with the referenced id. */
  function Removed(entries: seq<WishlistEntry>, target: EntryRef): (r: seq<WishlistEntry>)
    ensures !Contains(r, RefId(target))
    ensures |r| <= |entries|
  {
    Lists.WithoutLength(entries, EntryId, RefId(target));
    Lists.WithoutRemovesId(entries, EntryId, RefId(target));
    Lists.Without(entries, EntryId, RefId(target))
  }

  /** The heart-button branch of `handleAddToWishlist`: remove when present, otherwise add. */
  function Toggled(entries: seq<WishlistEntry>, e: WishlistEntry): (r: seq<WishlistEntry>)
    ensures Contains(r, e.id) <==> !Contains(entries, e.id)
  {
    if Contains(entries, e.id) then Removed(entries, ByEntry(e)) else Added(entries, e)
  }

  /** The object `getWishlistSummary` returns. */
  datatype WishlistSummary = WishlistSummary(items: seq<WishlistEntry>, totalItems: nat)

  function Summary(entries: seq<WishlistEntry>): WishlistSummary
  {
    WishlistSummary(entries, |entries|)
  }

  /** After `addToWishlist(e)`, `isInWishlist(e)` holds, and only `e` may have been added. */
  lemma AddMakesMember(entries: seq<WishlistEntry>, e: WishlistEntry)
    ensures Contains(Added(entries, e), e.id)
    ensures Contains(entries, e.id) ==> Added(entries, e) == entries
    ensures !Contains(entries, e.id) ==> Added(entries, e) == entries + [e]
  {
    if !Contains(entries, e.id) {
      assert Added(entries, e)[|entries|] == e;
    }
  }

  /** `addToWishlist` never creates a second entry with the same id. */
  lemma AddKeepsIdsUnique(entries: seq<WishlistEntry>, e: WishlistEntry)
    requires UniqueIds(entries)
    ensures UniqueIds(Added(entries, e))
  {
    var r := Added(entries, e);
    if !Contains(entries, e.id) {
      forall i, j | 0 <= i < j < |r| ensures r[i].id != r[j].id {
        if j == |entries| {
          assert EntryId(entries[i]) != e.id;
        }
      }
    }
  }

  /**
   * `removeFromWishlist` keeps exactly the entries with another id, in their original
   * order, and `isInWishlist` is false for the id afterwards.
   */
  lemma RemoveKeepsOthersInOrder(entries: seq<WishlistEntry>, target: EntryRef, a: seq<WishlistEntry>, b: seq<WishlistEntry>, x: WishlistEntry)
    requires entries == a + b
    ensures Removed(entries, target) == Removed(a, target) + Removed(b, target)
    ensures x in Removed(entries, target) <==> x in entries && x.id != RefId(target)
    ensures !Contains(Removed(entries, target), RefId(target))
  {
    Lists.WithoutConcat(a, b, EntryId, RefId(target));
    Lists.WithoutMembership(entries, EntryId, RefId(target), x);
    Lists.WithoutRemovesId(entries, EntryId, RefId(target));
  }

  /** Removing twice is removing once. */
  lemma RemoveIdempotent(entries: seq<WishlistEntry>, target: EntryRef)
    ensures Removed(Removed(entries, target), target) == Removed(entries, target)
  {
    Lists.WithoutIdempotent(entries, EntryId, RefId(target));
  }

  /** The id string and the entry carrying it remove the same entries. */
  lemma RemoveByIdOrEntry(entries: seq<WishlistEntry>, e: WishlistEntry)
    ensures Removed(entries, ById(e.id)) == Removed(entries, ByEntry(e))
  {
  }

  /** Removing keeps ids unique. */
  lemma {:induction false} RemoveKeepsIdsUnique(entries: seq<WishlistEntry>, target: EntryRef)
    requires UniqueIds(entries)
    ensures UniqueIds(Removed(entries, target))
  {
    if |entries| > 0 {
      var rest := entries[1..];
      assert UniqueIds(rest) by {
        forall i, j | 0 <= i < j < |rest| ensures rest[i].id != rest[j].id {
          assert rest[i] == entries[i + 1] && rest[j] == entries[j + 1];
        }
      }
      RemoveKeepsIdsUnique(rest, target);
      var kept := Removed(rest, target);
      forall x | x in kept ensures x.id != entries[0].id {
        Lists.WithoutMembership(rest, EntryId, RefId(target), x);
      }
    }
  }

  /** Toggling the same entry twice restores its membership. */
  lemma ToggleTwiceRestoresMembership(entries: seq<WishlistEntry>, e: WishlistEntry)
    ensures Contains(Toggled(Toggled(entries, e), e), e.id) == Contains(entries, e.id)
  {
    var once := Toggled(entries, e);
    if Contains(entries, e.id) {
      Lists.WithoutRemovesId(entries, EntryId, e.id);
      AddMakesMember(once, e);
    } else {
      AddMakesMember(entries, e);
      Lists.WithoutRemovesId(once, EntryId, e.id);
    }
  }

  /** Toggling an absent entry twice gives back the very same wishlist: no net change. */
  lemma ToggleTwiceAbsentIsIdentity(entries: seq<WishlistEntry>, e: WishlistEntry)
    requires !Contains(entries, e.id)
    ensures Toggled(Toggled(entries, e), e) == entries
  {
    AddMakesMember(entries, e);
    Lists.WithoutConcat(entries, [e], EntryId, e.id);
    Lists.WithoutAbsent(entries, EntryId, e.id);
  }

  /** Toggling a present entry twice moves it to the end, after the other entries. */
  lemma ToggleTwicePresentMovesToEnd(entries: seq<WishlistEntry>, e: WishlistEntry)
    requires Contains(entries, e.id)
    ensures Toggled(Toggled(entries, e), e) == Removed(entries, ById(e.id)) + [e]
  {
    Lists.WithoutRemovesId(entries, EntryId, e.id);
  }

  /** The summary counts the entries; with unique ids that is the number of distinct ids. */
  lemma SummaryCountsEntries(entries: seq<WishlistEntry>, e: WishlistEntry)
    ensures Summary(entries).totalItems == |entries|
    ensures Summary(Added(entries, e)).totalItems == |entries| + (if Contains(entries, e.id) then 0 else 1)
    ensures Summary(Removed(entries, ByEntry(e))).totalItems <= |entries|
    ensures Summary([]).totalItems == 0
  {
    Lists.WithoutLength(entries, EntryId, e.id);
  }
}
