/**
 * The snacks page: the quantity shown on each card, the split of the catalog
 * into combos and regular snacks, and the card's Add / minus / plus buttons,
 * which only call the cart with `qty - 1` or `qty + 1`.
 */
module Snacks {
  import opened Wrappers
  import opened CartContext

  /** A row of the `snacks` table as the page reads it. */
  datatype Snack = Snack(id: string, name: string, price: int, image_url: Option<string>, category: Option<string>)

  /**
   * `getQty(id)`: the quantity of the cart entry with that id, 0 when there is
   * none. (`?.quantity || 0` also turns a stored 0 into 0, the same value.)
   */
  function GetQty(cartSnacks: seq<CartSnack>, id: string): (q: int)
    ensures !HasSnack(cartSnacks, id) ==> q == 0
    ensures HasSnack(cartSnacks, id) ==>
      exists k :: FirstWithId(cartSnacks, k, id) && q == cartSnacks[k].quantity
  {
    match FindSnack(cartSnacks, id)
    case Some(entry) => entry.quantity
    case None => 0
  }

  /** With unique ids, `getQty` reads the quantity of the one entry with that id. */
  lemma GetQtyAt(cartSnacks: seq<CartSnack>, k: nat)
    requires UniqueSnackIds(cartSnacks) && k < |cartSnacks|
    ensures GetQty(cartSnacks, cartSnacks[k].id) == cartSnacks[k].quantity
  {
    FindSnackAt(cartSnacks, k);
  }

  /** On a valid cart, `getQty` is 0 exactly when the snack is not in the cart. */
  lemma GetQtyZeroIffAbsent(cartSnacks: seq<CartSnack>, id: string)
    requires ValidSnacks(cartSnacks)
    ensures GetQty(cartSnacks, id) == 0 <==> !HasSnack(cartSnacks, id)
  {
    if HasSnack(cartSnacks, id) {
      var k :| 0 <= k < |cartSnacks| && cartSnacks[k].id == id;
      GetQtyAt(cartSnacks, k);
    }
  }

  /** What the card passes to `addSnack`. */
  function ItemOf(snack: Snack): SnackItem {
    SnackItem(snack.id, snack.name, snack.price, snack.image_url)
  }

  predicate IsCombo(snack: Snack) {
    snack.category == Some("combo")
  }

  /** `snackList.filter((s) => s.category === "combo")`. */
  function Combos(snackList: seq<Snack>): (r: seq<Snack>)
    ensures forall x :: x in r <==> x in snackList && IsCombo(x)
  {
    if snackList == [] then []
    else if IsCombo(snackList[0]) then [snackList[0]] + Combos(snackList[1..])
    else Combos(snackList[1..])
  }

  /** `snackList.filter((s) => s.category !== "combo")`; a snack with no category is regular. */
  function Regular(snackList: seq<Snack>): (r: seq<Snack>)
    ensures forall x :: x in r <==> x in snackList && !IsCombo(x)
  {
    if snackList == [] then []
    else if IsCombo(snackList[0]) then Regular(snackList[1..])
    else [snackList[0]] + Regular(snackList[1..])
  }

  /**
   * The two sections partition the catalog: together they hold every snack as
   * often as the catalog does, so their lengths add up to the whole.
   */
  lemma {:induction false} CombosRegularPartition(snackList: seq<Snack>)
    ensures multiset(Combos(snackList)) + multiset(Regular(snackList)) == multiset(snackList)
    ensures |Combos(snackList)| + |Regular(snackList)| == |snackList|
  {
    if snackList != [] {
      CombosRegularPartition(snackList[1..]);
      assert snackList == [snackList[0]] + snackList[1..];
      assert multiset(snackList) == multiset([snackList[0]]) + multiset(snackList[1..]);
    }
  }

  /** The combo section keeps the catalog's order: the filter distributes over concatenation. */
  lemma {:induction false} CombosKeepOrder(a: seq<Snack>, b: seq<Snack>)
    ensures Combos(a + b) == Combos(a) + Combos(b)
  {
    if a == [] {
      assert a + b == b;
    } else {
      var ab := a + b;
      assert ab[0] == a[0] && ab[1..] == a[1..] + b;
      CombosKeepOrder(a[1..], b);
    }
  }

  /** The regular section keeps the catalog's order as well. */
  lemma {:induction false} RegularKeepOrder(a: seq<Snack>, b: seq<Snack>)
    ensures Regular(a + b) == Regular(a) + Regular(b)
  {
    if a == [] {
      assert a + b == b;
    } else {
      var ab := a + b;
      assert ab[0] == a[0] && ab[1..] == a[1..] + b;
      RegularKeepOrder(a[1..], b);
    }
  }

  /** "Add" on a card showing 0 puts the snack in the cart with quantity 1. */
  lemma AddFromZero(cartSnacks: seq<CartSnack>, snack: Snack)
    requires ValidSnacks(cartSnacks) && GetQty(cartSnacks, snack.id) == 0
    ensures GetQty(AddedSnack(cartSnacks, ItemOf(snack)), snack.id) == 1
  {
    GetQtyZeroIffAbsent(cartSnacks, snack.id);
    var r := AddedSnack(cartSnacks, ItemOf(snack));
    AddSnackKeepsValid(cartSnacks, ItemOf(snack));
    GetQtyAt(r, |cartSnacks|);
  }

  /** "Minus" lowers the shown quantity by one; at quantity 1 it removes the entry, so the card shows 0 again. */
  lemma MinusStep(cartSnacks: seq<CartSnack>, id: string, next: int)
    requires ValidSnacks(cartSnacks) && GetQty(cartSnacks, id) >= 1
    requires next == GetQty(cartSnacks, id) - 1
    ensures GetQty(UpdatedQuantity(cartSnacks, id, next), id) == next
    ensures next == 0 ==> !HasSnack(UpdatedQuantity(cartSnacks, id, next), id)
  {
    var k :| 0 <= k < |cartSnacks| && cartSnacks[k].id == id;
    GetQtyAt(cartSnacks, k);
    var r := UpdatedQuantity(cartSnacks, id, next);
    if next > 0 {
      UpdateQuantitySets(cartSnacks, id, next);
      assert r[k] == cartSnacks[k].(quantity := next);
      UpdateQuantityKeepsValid(cartSnacks, id, next);
      GetQtyAt(r, k);
    } else {
      UpdateQuantityRemoves(cartSnacks, id, next);
    }
  }

  /** "Plus" raises the shown quantity by exactly one. */
  lemma PlusStep(cartSnacks: seq<CartSnack>, id: string, next: int)
    requires ValidSnacks(cartSnacks) && GetQty(cartSnacks, id) >= 1
    requires next == GetQty(cartSnacks, id) + 1
    ensures GetQty(UpdatedQuantity(cartSnacks, id, next), id) == next
  {
    var k :| 0 <= k < |cartSnacks| && cartSnacks[k].id == id;
    GetQtyAt(cartSnacks, k);
    var r := SetQuantity(cartSnacks, id, next);
    assert r == UpdatedQuantity(cartSnacks, id, next);
    assert r[k] == cartSnacks[k].(quantity := next);
    UpdateQuantityKeepsValid(cartSnacks, id, next);
    GetQtyAt(r, k);
  }

  /** The card's "Add" button: `onAdd={() => addSnack(snack)}`. */
  method PressAdd(cart: Cart, snack: Snack)
    modifies cart
    ensures cart.snacks == AddedSnack(old(cart.snacks), ItemOf(snack))
    ensures ValidSnacks(old(cart.snacks)) && GetQty(old(cart.snacks), snack.id) == 0 ==>
      GetQty(cart.snacks, snack.id) == 1
    ensures cart.seats == old(cart.seats) && cart.selectedShow == old(cart.selectedShow)
  {
    if ValidSnacks(cart.snacks) && GetQty(cart.snacks, snack.id) == 0 {
      AddFromZero(cart.snacks, snack);
    }
    cart.AddSnack(ItemOf(snack));
  }

  /** The card's minus button: `onUpdate(qty - 1)` with the quantity the card shows. */
  method PressMinus(cart: Cart, snack: Snack)
    modifies cart
    ensures cart.snacks == UpdatedQuantity(old(cart.snacks), snack.id, GetQty(old(cart.snacks), snack.id) - 1)
    ensures ValidSnacks(old(cart.snacks)) && GetQty(old(cart.snacks), snack.id) >= 1 ==>
      GetQty(cart.snacks, snack.id) == GetQty(old(cart.snacks), snack.id) - 1
    ensures ValidSnacks(old(cart.snacks)) && GetQty(old(cart.snacks), snack.id) == 1 ==>
      !HasSnack(cart.snacks, snack.id)
    ensures cart.seats == old(cart.seats) && cart.selectedShow == old(cart.selectedShow)
  {
    var next := GetQty(cart.snacks, snack.id) - 1;
    if ValidSnacks(cart.snacks) && GetQty(cart.snacks, snack.id) >= 1 {
      MinusStep(cart.snacks, snack.id, next);
    }
    cart.UpdateSnackQty(snack.id, next);
  }

  /** The card's plus button: `onUpdate(qty + 1)` with the quantity the card shows. */
  method PressPlus(cart: Cart, snack: Snack)
    modifies cart
    ensures cart.snacks == UpdatedQuantity(old(cart.snacks), snack.id, GetQty(old(cart.snacks), snack.id) + 1)
    ensures ValidSnacks(old(cart.snacks)) && GetQty(old(cart.snacks), snack.id) >= 1 ==>
      GetQty(cart.snacks, snack.id) == GetQty(old(cart.snacks), snack.id) + 1
    ensures cart.seats == old(cart.seats) && cart.selectedShow == old(cart.selectedShow)
  {
    var next := GetQty(cart.snacks, snack.id) + 1;
    if ValidSnacks(cart.snacks) && GetQty(cart.snacks, snack.id) >= 1 {
      PlusStep(cart.snacks, snack.id, next);
    }
    cart.UpdateSnackQty(snack.id, next);
  }
}
