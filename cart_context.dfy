/**
 * The cart aggregate held by the `CartProvider`: the selected show, the list
 * of chosen seats and the list of chosen snacks with their quantities, the
 * operations that overwrite those lists, and the totals derived from them.
 *
 * Each list transformation of the provider (`filter`, `map`, append) is a pure
 * function below; the `Cart` class's methods assign its result to the field,
 * as the provider's `setSeats`/`setSnacks` callbacks do.
 */
module CartContext {
  import opened Wrappers

  /** Price of one seat, in rupees. */
  const SEAT_PRICE: int := 200

  datatype CartSeat = CartSeat(id: string, seat_number: string, show_id: string)

  datatype CartSnack = CartSnack(id: string, name: string, price: int, image_url: Option<string>, quantity: int)

  /** What `addSnack` receives: a snack without a quantity. */
  datatype SnackItem = SnackItem(id: string, name: string, price: int, image_url: Option<string>)

  datatype SelectedShow = SelectedShow(id: string, movie_title: string, show_time: string, screen: string)

  /* ---------------------------------------------------------------------- */
  /* Seats                                                                   */
  /* ---------------------------------------------------------------------- */

  predicate HasSeat(seats: seq<CartSeat>, id: string) {
    exists i :: 0 <= i < |seats| && seats[i].id == id
  }

  predicate UniqueSeatIds(seats: seq<CartSeat>) {
    forall i, j :: 0 <= i < j < |seats| ==> seats[i].id != seats[j].id
  }

  /** `seats.filter((s) => s.id !== seatId)`. */
  function WithoutSeat(seats: seq<CartSeat>, seatId: string): (r: seq<CartSeat>)
    ensures forall x :: x in r <==> x in seats && x.id != seatId
    ensures !HasSeat(r, seatId)
    ensures |r| <= |seats|
  {
    if seats == [] then []
    else if seats[0].id == seatId then WithoutSeat(seats[1..], seatId)
    else [seats[0]] + WithoutSeat(seats[1..], seatId)
  }

  /** Removing keeps the relative order: the filter distributes over concatenation. */
  lemma {:induction false} WithoutSeatAppend(a: seq<CartSeat>, b: seq<CartSeat>, seatId: string)
    ensures WithoutSeat(a + b, seatId) == WithoutSeat(a, seatId) + WithoutSeat(b, seatId)
  {
    if a != [] {
      assert (a + b)[1..] == a[1..] + b;
      WithoutSeatAppend(a[1..], b, seatId);
    } else {
      assert a + b == b;
    }
  }

  /** Removing an id that is not in the list leaves the list as it was. */
  lemma {:induction false} WithoutSeatAbsent(seats: seq<CartSeat>, seatId: string)
    requires !HasSeat(seats, seatId)
    ensures WithoutSeat(seats, seatId) == seats
  {
    if seats != [] {
      assert !HasSeat(seats[1..], seatId) by {
        forall i | 0 <= i < |seats[1..]| ensures seats[1..][i].id != seatId {
          assert seats[1..][i] == seats[i + 1];
        }
      }
      WithoutSeatAbsent(seats[1..], seatId);
      assert seats[0].id != seatId;
      assert [seats[0]] + seats[1..] == seats;
    }
  }

  /** The tail of a list with unique ids has unique ids and does not hold the head's id. */
  lemma SeatTailUnique(x: CartSeat, rest: seq<CartSeat>)
    requires UniqueSeatIds([x] + rest)
    ensures UniqueSeatIds(rest) && !HasSeat(rest, x.id)
  {
    var r := [x] + rest;
    forall k | 0 <= k < |rest| ensures rest[k].id != x.id {
      assert r[0] == x && r[k + 1] == rest[k];
      assert r[0].id != r[k + 1].id;
    }
    forall i, j | 0 <= i < j < |rest| ensures rest[i].id != rest[j].id {
      assert r[i + 1] == rest[i] && r[j + 1] == rest[j];
    }
  }

  /** A head whose id is not in a tail with unique ids keeps the ids unique. */
  lemma SeatConsUnique(x: CartSeat, rest: seq<CartSeat>)
    requires UniqueSeatIds(rest) && !HasSeat(rest, x.id)
    ensures UniqueSeatIds([x] + rest)
  {
    var r := [x] + rest;
    forall i, j | 0 <= i < j < |r| ensures r[i].id != r[j].id {
      assert r[j] == rest[j - 1];
      if i > 0 {
        assert r[i] == rest[i - 1];
      }
    }
  }

  /** Removing a seat cannot create a duplicate id. */
  lemma {:induction false} WithoutSeatUnique(seats: seq<CartSeat>, seatId: string)
    requires UniqueSeatIds(seats)
    ensures UniqueSeatIds(WithoutSeat(seats, seatId))
  {
    if seats != [] {
      var tail := seats[1..];
      assert seats == [seats[0]] + tail;
      SeatTailUnique(seats[0], tail);
      WithoutSeatUnique(tail, seatId);
      if seats[0].id != seatId {
        var rest := WithoutSeat(tail, seatId);
        assert !HasSeat(rest, seats[0].id) by {
          forall k | 0 <= k < |rest| ensures rest[k].id != seats[0].id {
            assert rest[k] in tail;
          }
        }
        SeatConsUnique(seats[0], rest);
      }
    }
  }

  /** Appending a seat whose id is new keeps the ids unique. */
  lemma AppendSeatUnique(seats: seq<CartSeat>, seat: CartSeat)
    requires UniqueSeatIds(seats) && !HasSeat(seats, seat.id)
    ensures UniqueSeatIds(seats + [seat])
  {
    var r := seats + [seat];
    forall i, j | 0 <= i < j < |r| ensures r[i].id != r[j].id {
      assert r[i] == seats[i];
      if j < |seats| {
        assert r[j] == seats[j];
      }
    }
  }

  /* ---------------------------------------------------------------------- */
  /* Snacks                                                                  */
  /* ---------------------------------------------------------------------- */

  predicate HasSnack(snacks: seq<CartSnack>, id: string) {
    exists i :: 0 <= i < |snacks| && snacks[i].id == id
  }

  predicate UniqueSnackIds(snacks: seq<CartSnack>) {
    forall i, j :: 0 <= i < j < |snacks| ==> snacks[i].id != snacks[j].id
  }

  /** What the provider keeps true of its snack list: one entry per id, each with quantity at least 1. */
  predicate ValidSnacks(snacks: seq<CartSnack>) {
    UniqueSnackIds(snacks) && forall i :: 0 <= i < |snacks| ==> snacks[i].quantity >= 1
  }

  /** Entry `k` is the first one carrying `id`. */
  predicate FirstWithId(snacks: seq<CartSnack>, k: int, id: string) {
    0 <= k < |snacks| && snacks[k].id == id && forall j :: 0 <= j < k ==> snacks[j].id != id
  }

  /** `snacks.find((s) => s.id === id)`: the first entry with that id. */
  function FindSnack(snacks: seq<CartSnack>, id: string): (r: Option<CartSnack>)
    ensures r.None? <==> !HasSnack(snacks, id)
    ensures r.Some? ==> r.value in snacks && r.value.id == id
    ensures r.Some? ==> exists k :: FirstWithId(snacks, k, id) && snacks[k] == r.value
  {
    if snacks == [] then None
    else if snacks[0].id == id then
      assert FirstWithId(snacks, 0, id);
      Some(snacks[0])
    else
      var r := FindSnack(snacks[1..], id);
      assert HasSnack(snacks[1..], id) ==> HasSnack(snacks, id) by {
        if HasSnack(snacks[1..], id) {
          var i :| 0 <= i < |snacks[1..]| && snacks[1..][i].id == id;
          assert snacks[i + 1].id == id;
        }
      }
      assert HasSnack(snacks, id) ==> HasSnack(snacks[1..], id) by {
        if HasSnack(snacks, id) {
          var i :| 0 <= i < |snacks| && snacks[i].id == id;
          assert i != 0 && snacks[1..][i - 1].id == id;
        }
      }
      assert r.Some? ==> exists k :: FirstWithId(snacks, k, id) && snacks[k] == r.value by {
        if r.Some? {
          var k :| FirstWithId(snacks[1..], k, id) && snacks[1..][k] == r.value;
          forall j | 0 <= j < k + 1 ensures snacks[j].id != id {
            if j > 0 {
              assert snacks[j] == snacks[1..][j - 1];
            }
          }
          assert FirstWithId(snacks, k + 1, id);
        }
      }
      r
  }

  /** With unique ids, `find` returns the one entry that carries the id. */
  lemma {:induction false} FindSnackAt(snacks: seq<CartSnack>, k: nat)
    requires UniqueSnackIds(snacks) && k < |snacks|
    ensures FindSnack(snacks, snacks[k].id) == Some(snacks[k])
  {
    if k > 0 {
      var tail := snacks[1..];
      assert UniqueSnackIds(tail) by {
        forall i, j | 0 <= i < j < |tail| ensures tail[i].id != tail[j].id {
          assert tail[i] == snacks[i + 1] && tail[j] == snacks[j + 1];
        }
      }
      assert snacks[0].id != snacks[k].id;
      FindSnackAt(tail, k - 1);
      assert tail[k - 1] == snacks[k];
    }
  }

  /** `snacks.filter((s) => s.id !== snackId)`. */
  function WithoutSnack(snacks: seq<CartSnack>, snackId: string): (r: seq<CartSnack>)
    ensures forall x :: x in r <==> x in snacks && x.id != snackId
    ensures !HasSnack(r, snackId)
    ensures |r| <= |snacks|
  {
    if snacks == [] then []
    else if snacks[0].id == snackId then WithoutSnack(snacks[1..], snackId)
    else [snacks[0]] + WithoutSnack(snacks[1..], snackId)
  }

  /** `snacks.map((s) => s.id === id ? { ...s, quantity: s.quantity + 1 } : s)`. */
  function IncrementSnack(snacks: seq<CartSnack>, id: string): (r: seq<CartSnack>)
    ensures |r| == |snacks|
    ensures forall i :: 0 <= i < |snacks| ==>
      r[i] == if snacks[i].id == id then snacks[i].(quantity := snacks[i].quantity + 1) else snacks[i]
  {
    if snacks == [] then []
    else
      var head := if snacks[0].id == id then snacks[0].(quantity := snacks[0].quantity + 1) else snacks[0];
      [head] + IncrementSnack(snacks[1..], id)
  }

  /** `snacks.map((s) => s.id === snackId ? { ...s, quantity: qty } : s)`. */
  function SetQuantity(snacks: seq<CartSnack>, snackId: string, qty: int): (r: seq<CartSnack>)
    ensures |r| == |snacks|
    ensures forall i :: 0 <= i < |snacks| ==>
      r[i] == if snacks[i].id == snackId then snacks[i].(quantity := qty) else snacks[i]
  {
    if snacks == [] then []
    else
      var head := if snacks[0].id == snackId then snacks[0].(quantity := qty) else snacks[0];
      [head] + SetQuantity(snacks[1..], snackId, qty)
  }

  /** The entry `addSnack` appends for a snack not yet in the cart. */
  function NewEntry(item: SnackItem): CartSnack {
    CartSnack(item.id, item.name, item.price, item.image_url, 1)
  }

  /** The list `addSnack(item)` leaves: bump an existing entry, or append a new one. */
  function AddedSnack(snacks: seq<CartSnack>, item: SnackItem): seq<CartSnack> {
    match FindSnack(snacks, item.id)
    case Some(_) => IncrementSnack(snacks, item.id)
    case None => snacks + [NewEntry(item)]
  }

  /** The list `updateSnackQty(snackId, qty)` leaves. */
  function UpdatedQuantity(snacks: seq<CartSnack>, snackId: string, qty: int): seq<CartSnack> {
    if qty <= 0 then WithoutSnack(snacks, snackId) else SetQuantity(snacks, snackId, qty)
  }

  /** `addSnack` on an id already in the cart: same length, that entry's quantity up by one, nothing else changed. */
  lemma AddSnackExisting(snacks: seq<CartSnack>, item: SnackItem)
    requires HasSnack(snacks, item.id)
    ensures var r := AddedSnack(snacks, item);
      && |r| == |snacks|
      && forall i :: 0 <= i < |snacks| ==>
           if snacks[i].id == item.id then r[i] == snacks[i].(quantity := snacks[i].quantity + 1)
           else r[i] == snacks[i]
  {
  }

  /** `addSnack` on a new id appends an entry with quantity 1 at the end. */
  lemma AddSnackNew(snacks: seq<CartSnack>, item: SnackItem)
    requires !HasSnack(snacks, item.id)
    ensures AddedSnack(snacks, item) == snacks + [CartSnack(item.id, item.name, item.price, item.image_url, 1)]
  {
  }

  /** `updateSnackQty` with a quantity of zero or less deletes the entry and keeps every other one. */
  lemma UpdateQuantityRemoves(snacks: seq<CartSnack>, snackId: string, qty: int)
    requires qty <= 0
    ensures var r := UpdatedQuantity(snacks, snackId, qty);
      !HasSnack(r, snackId) && forall x :: x in snacks && x.id != snackId ==> x in r
  {
  }

  /** `updateSnackQty` with a positive quantity sets that entry's quantity and touches nothing else. */
  lemma UpdateQuantitySets(snacks: seq<CartSnack>, snackId: string, qty: int)
    requires qty > 0
    ensures var r := UpdatedQuantity(snacks, snackId, qty);
      && |r| == |snacks|
      && forall i :: 0 <= i < |snacks| ==>
           if snacks[i].id == snackId then r[i] == snacks[i].(quantity := qty) else r[i] == snacks[i]
  {
  }

  /** `updateSnackQty` only maps, never inserts: a positive quantity for an absent id changes nothing. */
  lemma UpdateQuantityAbsent(snacks: seq<CartSnack>, snackId: string, qty: int)
    requires qty > 0 && !HasSnack(snacks, snackId)
    ensures UpdatedQuantity(snacks, snackId, qty) == snacks
  {
    var r := UpdatedQuantity(snacks, snackId, qty);
    assert forall i :: 0 <= i < |snacks| ==> r[i] == snacks[i];
  }

  /** The tail of a list with unique ids has unique ids and does not hold the head's id. */
  lemma SnackTailUnique(x: CartSnack, rest: seq<CartSnack>)
    requires UniqueSnackIds([x] + rest)
    ensures UniqueSnackIds(rest) && !HasSnack(rest, x.id)
  {
    var r := [x] + rest;
    forall k | 0 <= k < |rest| ensures rest[k].id != x.id {
      assert r[0] == x && r[k + 1] == rest[k];
      assert r[0].id != r[k + 1].id;
    }
    forall i, j | 0 <= i < j < |rest| ensures rest[i].id != rest[j].id {
      assert r[i + 1] == rest[i] && r[j + 1] == rest[j];
    }
  }

  /** A head whose id is not in a tail with unique ids keeps the ids unique. */
  lemma SnackConsUnique(x: CartSnack, rest: seq<CartSnack>)
    requires UniqueSnackIds(rest) && !HasSnack(rest, x.id)
    ensures UniqueSnackIds([x] + rest)
  {
    var r := [x] + rest;
    forall i, j | 0 <= i < j < |r| ensures r[i].id != r[j].id {
      assert r[j] == rest[j - 1];
      if i > 0 {
        assert r[i] == rest[i - 1];
      }
    }
  }

  /** Removing a snack cannot create a duplicate id. */
  lemma {:induction false} WithoutSnackUnique(snacks: seq<CartSnack>, snackId: string)
    requires UniqueSnackIds(snacks)
    ensures UniqueSnackIds(WithoutSnack(snacks, snackId))
  {
    if snacks != [] {
      var tail := snacks[1..];
      assert snacks == [snacks[0]] + tail;
      SnackTailUnique(snacks[0], tail);
      WithoutSnackUnique(tail, snackId);
      if snacks[0].id != snackId {
        var rest := WithoutSnack(tail, snackId);
        assert !HasSnack(rest, snacks[0].id) by {
          forall k | 0 <= k < |rest| ensures rest[k].id != snacks[0].id {
            assert rest[k] in tail;
          }
        }
        SnackConsUnique(snacks[0], rest);
      }
    }
  }

  /** `removeSnack` keeps the snack list valid. */
  lemma RemoveSnackKeepsValid(snacks: seq<CartSnack>, snackId: string)
    requires ValidSnacks(snacks)
    ensures ValidSnacks(WithoutSnack(snacks, snackId))
  {
    WithoutSnackUnique(snacks, snackId);
    var r := WithoutSnack(snacks, snackId);
    forall i | 0 <= i < |r| ensures r[i].quantity >= 1 {
      assert r[i] in snacks;
    }
  }

  /** `addSnack` keeps the snack list valid: no duplicate id, no quantity below 1. */
  lemma AddSnackKeepsValid(snacks: seq<CartSnack>, item: SnackItem)
    requires ValidSnacks(snacks)
    ensures ValidSnacks(AddedSnack(snacks, item))
  {
    var r := AddedSnack(snacks, item);
    if !HasSnack(snacks, item.id) {
      forall i, j | 0 <= i < j < |r| ensures r[i].id != r[j].id {
        assert r[i] == snacks[i];
        if j < |snacks| {
          assert r[j] == snacks[j];
        }
      }
    }
  }

  /** `updateSnackQty` keeps the snack list valid: a non-positive quantity deletes, a positive one is stored. */
  lemma UpdateQuantityKeepsValid(snacks: seq<CartSnack>, snackId: string, qty: int)
    requires ValidSnacks(snacks)
    ensures ValidSnacks(UpdatedQuantity(snacks, snackId, qty))
  {
    if qty <= 0 {
      RemoveSnackKeepsValid(snacks, snackId);
    }
  }

  /* ---------------------------------------------------------------------- */
  /* Derived totals                                                          */
  /* ---------------------------------------------------------------------- */

  /** `getSeatTotal`. */
  function SeatTotal(seats: seq<CartSeat>): int {
    |seats| * SEAT_PRICE
  }

  /** `getSnackTotal`: the sum of price times quantity over the snack list. */
  function SnackTotal(snacks: seq<CartSnack>): int {
    if snacks == [] then 0 else snacks[0].price * snacks[0].quantity + SnackTotal(snacks[1..])
  }

  /** `getTotal`. */
  function CartTotal(seats: seq<CartSeat>, snacks: seq<CartSnack>): int {
    SeatTotal(seats) + SnackTotal(snacks)
  }

  /** `snacks.reduce((s, i) => s + i.quantity, 0)`: the snack count the pages display. */
  function QuantitySum(snacks: seq<CartSnack>): int {
    if snacks == [] then 0 else snacks[0].quantity + QuantitySum(snacks[1..])
  }

  lemma {:induction false} SnackTotalAppend(a: seq<CartSnack>, b: seq<CartSnack>)
    ensures SnackTotal(a + b) == SnackTotal(a) + SnackTotal(b)
    ensures QuantitySum(a + b) == QuantitySum(a) + QuantitySum(b)
  {
    if a == [] {
      assert a + b == b;
    } else {
      assert (a + b)[1..] == a[1..] + b;
      SnackTotalAppend(a[1..], b);
    }
  }

  /**
   * Changing one entry of a snack list changes its totals by the difference of
   * that entry alone.
   */
  lemma {:induction false} PointUpdateTotals(s: seq<CartSnack>, r: seq<CartSnack>, k: nat)
    requires |r| == |s| && k < |s|
    requires forall i :: 0 <= i < |s| && i != k ==> r[i] == s[i]
    ensures SnackTotal(r) - SnackTotal(s) == r[k].price * r[k].quantity - s[k].price * s[k].quantity
    ensures QuantitySum(r) - QuantitySum(s) == r[k].quantity - s[k].quantity
  {
    if k == 0 {
      assert r[1..] == s[1..];
    } else {
      PointUpdateTotals(s[1..], r[1..], k - 1);
    }
  }

  /** With unique ids, the increment changes the entry at `k` alone, raising its quantity by one. */
  lemma IncrementOnlyAt(snacks: seq<CartSnack>, k: nat)
    requires UniqueSnackIds(snacks) && k < |snacks|
    ensures var r := IncrementSnack(snacks, snacks[k].id);
      && |r| == |snacks|
      && r[k] == snacks[k].(quantity := snacks[k].quantity + 1)
      && forall i :: 0 <= i < |snacks| && i != k ==> r[i] == snacks[i]
  {
    var r := IncrementSnack(snacks, snacks[k].id);
    forall i | 0 <= i < |snacks| && i != k ensures r[i] == snacks[i] {
      if i < k {
        assert snacks[i].id != snacks[k].id;
      } else {
        assert snacks[k].id != snacks[i].id;
      }
    }
  }

  /** One more of an entry adds its price to the entry's part of `getSnackTotal`. */
  lemma OneMoreOfEntry(e: CartSnack, bumped: CartSnack)
    requires bumped == e.(quantity := e.quantity + 1)
    ensures bumped.price * bumped.quantity == e.price * e.quantity + e.price
  {
    var p, q := e.price, e.quantity;
    assert p * (q + 1) == p * q + p;
  }

  /** With unique ids, incrementing entry `k` adds one to the count and its price to the total. */
  lemma IncrementTotals(snacks: seq<CartSnack>, k: nat)
    requires UniqueSnackIds(snacks) && k < |snacks|
    ensures QuantitySum(IncrementSnack(snacks, snacks[k].id)) == QuantitySum(snacks) + 1
    ensures SnackTotal(IncrementSnack(snacks, snacks[k].id)) == SnackTotal(snacks) + snacks[k].price
  {
    var r := IncrementSnack(snacks, snacks[k].id);
    IncrementOnlyAt(snacks, k);
    PointUpdateTotals(snacks, r, k);
    OneMoreOfEntry(snacks[k], r[k]);
  }

  /** `addSnack` on a snack already in the cart adds one more of the stored entry. */
  lemma AddExistingSnackTotals(snacks: seq<CartSnack>, item: SnackItem, k: nat)
    requires UniqueSnackIds(snacks) && k < |snacks| && snacks[k].id == item.id
    ensures QuantitySum(AddedSnack(snacks, item)) == QuantitySum(snacks) + 1
    ensures SnackTotal(AddedSnack(snacks, item)) == SnackTotal(snacks) + snacks[k].price
  {
    AddSnackIncrements(snacks, item);
    IncrementTotals(snacks, k);
  }

  /** `addSnack` on a snack already in the cart is the increment map. */
  lemma AddSnackIncrements(snacks: seq<CartSnack>, item: SnackItem)
    requires HasSnack(snacks, item.id)
    ensures AddedSnack(snacks, item) == IncrementSnack(snacks, item.id)
  {
  }

  /** `addSnack` on a new snack adds one item at the given price. */
  lemma AddNewSnackTotals(snacks: seq<CartSnack>, item: SnackItem)
    requires !HasSnack(snacks, item.id)
    ensures QuantitySum(AddedSnack(snacks, item)) == QuantitySum(snacks) + 1
    ensures SnackTotal(AddedSnack(snacks, item)) == SnackTotal(snacks) + item.price
  {
    var e := NewEntry(item);
    AddSnackNew(snacks, item);
    SnackTotalAppend(snacks, [e]);
    assert [e][1..] == [];
    assert e.quantity == 1 && e.price == item.price;
    assert SnackTotal([e]) == e.price * 1;
  }

  /**
   * `addSnack` puts one more item in the cart: the snack count rises by one and
   * the snack total by the entry's price (the stored price if the snack was
   * there already, the given one otherwise).
   */
  lemma AddSnackTotals(snacks: seq<CartSnack>, item: SnackItem)
    requires ValidSnacks(snacks)
    ensures QuantitySum(AddedSnack(snacks, item)) == QuantitySum(snacks) + 1
    ensures SnackTotal(AddedSnack(snacks, item)) == SnackTotal(snacks) + FindSnack(snacks, item.id).GetOr(NewEntry(item)).price
  {
    if HasSnack(snacks, item.id) {
      var k :| 0 <= k < |snacks| && snacks[k].id == item.id;
      AddExistingSnackTotals(snacks, item, k);
      FindSnackAt(snacks, k);
    } else {
      AddNewSnackTotals(snacks, item);
    }
  }

  /** Every quantity of a valid list is positive, so the snack count is at least the number of entries. */
  lemma {:induction false} QuantitySumAtLeastLength(snacks: seq<CartSnack>)
    requires forall i :: 0 <= i < |snacks| ==> snacks[i].quantity >= 1
    ensures QuantitySum(snacks) >= |snacks|
  {
    if snacks != [] {
      assert forall i :: 0 <= i < |snacks[1..]| ==> snacks[1..][i] == snacks[i + 1];
      QuantitySumAtLeastLength(snacks[1..]);
    }
  }

  /* ---------------------------------------------------------------------- */
  /* The provider's state                                                    */
  /* ---------------------------------------------------------------------- */

  class Cart {
    var selectedShow: Option<SelectedShow>
    var seats: seq<CartSeat>
    var snacks: seq<CartSnack>

    /** A fresh provider: no show, no seats, no snacks. */
    constructor ()
      ensures selectedShow == None && seats == [] && snacks == []
    {
      selectedShow := None;
      seats := [];
      snacks := [];
    }

    /** `setSelectedShow`: replaces the show and nothing else; seats of another show stay. */
    method SetSelectedShow(show: Option<SelectedShow>)
      modifies this
      ensures selectedShow == show
      ensures seats == old(seats) && snacks == old(snacks)
    {
      selectedShow := show;
    }

    method AddSeat(seat: CartSeat)
      modifies this
      ensures seats == old(seats) + [seat] && |seats| == |old(seats)| + 1
      ensures selectedShow == old(selectedShow) && snacks == old(snacks)
    {
      seats := seats + [seat];
    }

    method RemoveSeat(seatId: string)
      modifies this
      ensures seats == WithoutSeat(old(seats), seatId)
      ensures !HasSeat(seats, seatId)
      ensures UniqueSeatIds(old(seats)) ==> UniqueSeatIds(seats)
      ensures selectedShow == old(selectedShow) && snacks == old(snacks)
    {
      if UniqueSeatIds(seats) {
        WithoutSeatUnique(seats, seatId);
      }
      seats := WithoutSeat(seats, seatId);
    }

    method AddSnack(item: SnackItem)
      modifies this
      ensures snacks == AddedSnack(old(snacks), item)
      ensures ValidSnacks(old(snacks)) ==> ValidSnacks(snacks) && QuantitySum(snacks) == QuantitySum(old(snacks)) + 1
      ensures selectedShow == old(selectedShow) && seats == old(seats)
    {
      if ValidSnacks(snacks) {
        AddSnackKeepsValid(snacks, item);
        AddSnackTotals(snacks, item);
      }
      snacks := AddedSnack(snacks, item);
    }

    method RemoveSnack(snackId: string)
      modifies this
      ensures snacks == WithoutSnack(old(snacks), snackId)
      ensures ValidSnacks(old(snacks)) ==> ValidSnacks(snacks)
      ensures selectedShow == old(selectedShow) && seats == old(seats)
    {
      if ValidSnacks(snacks) {
        RemoveSnackKeepsValid(snacks, snackId);
      }
      snacks := WithoutSnack(snacks, snackId);
    }

    method UpdateSnackQty(snackId: string, qty: int)
      modifies this
      ensures snacks == UpdatedQuantity(old(snacks), snackId, qty)
      ensures ValidSnacks(old(snacks)) ==> ValidSnacks(snacks)
      ensures selectedShow == old(selectedShow) && seats == old(seats)
    {
      if ValidSnacks(snacks) {
        UpdateQuantityKeepsValid(snacks, snackId, qty);
      }
      if qty <= 0 {
        snacks := WithoutSnack(snacks, snackId);
      } else {
        snacks := SetQuantity(snacks, snackId, qty);
      }
    }

    function GetSeatTotal(): int
      reads this
    {
      SeatTotal(seats)
    }

    function GetSnackTotal(): int
      reads this
    {
      SnackTotal(snacks)
    }

    function GetTotal(): int
      reads this
    {
      GetSeatTotal() + GetSnackTotal()
    }

    method ClearCart()
      modifies this
      ensures selectedShow == None && seats == [] && snacks == []
      ensures GetSeatTotal() == 0 && GetSnackTotal() == 0 && GetTotal() == 0
    {
      selectedShow := None;
      seats := [];
      snacks := [];
    }
  }
}
