/**
 * The navigation bar's cart badge: the item count is the number of seats plus
 * the quantities of all snacks, and the badge is drawn only for a signed-in
 * user and only when that count is positive.
 */
module Navbar {
  import opened CartContext

  /** `seats.length + snacks.reduce((s, i) => s + i.quantity, 0)`. */
  function ItemCount(seats: seq<CartSeat>, snacks: seq<CartSnack>): int {
    |seats| + QuantitySum(snacks)
  }

  /** The badge is inside the signed-in branch and needs `itemCount > 0`. */
  predicate ShowBadge(signedIn: bool, seats: seq<CartSeat>, snacks: seq<CartSnack>) {
    signedIn && ItemCount(seats, snacks) > 0
  }

  /** An empty cart counts 0 items and shows no badge. */
  lemma EmptyCartCount(signedIn: bool)
    ensures ItemCount([], []) == 0 && !ShowBadge(signedIn, [], [])
  {
  }

  /** With positive quantities every seat and every snack entry counts at least once. */
  lemma CountCoversEntries(seats: seq<CartSeat>, snacks: seq<CartSnack>)
    requires ValidSnacks(snacks)
    ensures ItemCount(seats, snacks) >= |seats| + |snacks|
  {
    QuantitySumAtLeastLength(snacks);
  }

  /** For a signed-in user on a valid cart, the badge shows exactly when the cart holds a seat or a snack. */
  lemma BadgeIffNonEmpty(seats: seq<CartSeat>, snacks: seq<CartSnack>)
    requires ValidSnacks(snacks)
    ensures ShowBadge(true, seats, snacks) <==> seats != [] || snacks != []
  {
    QuantitySumAtLeastLength(snacks);
  }

  /** A signed-out visitor never sees the badge. */
  lemma NoBadgeSignedOut(seats: seq<CartSeat>, snacks: seq<CartSnack>)
    ensures !ShowBadge(false, seats, snacks)
  {
  }

  /** `addSeat` raises the count by exactly one. */
  lemma AddSeatCount(seats: seq<CartSeat>, snacks: seq<CartSnack>, seat: CartSeat)
    ensures ItemCount(seats + [seat], snacks) == ItemCount(seats, snacks) + 1
  {
  }

  /** On a valid cart, `addSnack` raises the count by exactly one, whether the snack was new or already there. */
  lemma AddSnackCount(seats: seq<CartSeat>, snacks: seq<CartSnack>, item: SnackItem)
    requires ValidSnacks(snacks)
    ensures ItemCount(seats, AddedSnack(snacks, item)) == ItemCount(seats, snacks) + 1
  {
    AddSnackTotals(snacks, item);
  }
}
