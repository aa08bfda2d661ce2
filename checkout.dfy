/**
 * `handlePayment`: the guard, the order insert carrying the cart's total, the
 * loop that books each cart seat and writes its `order_seats` row, the loop
 * that writes one `order_items` row per cart snack, and the final `clearCart`.
 * The writes run one after another with no transaction: nothing is rolled
 * back and the seats' booked flags are never read.
 */
module Checkout {
  import opened Wrappers
  import opened CartContext
  import opened Database

  const CONFIRMED: string := "Confirmed"

  /** What the page does after the click: a "Missing info" toast, a "Payment failed" toast, or the success page. */
  datatype PaymentOutcome = MissingInfo | PaymentFailed(message: string) | Paid(orderId: string)

  /** The columns of the order insert. */
  function OrderValues(userId: string, show: SelectedShow, total: int, paymentId: string): OrderInsert {
    OrderInsert(Some(paymentId), show.id, CONFIRMED, total, userId)
  }

  /** The seats table after each seat of `cartSeats`, in order, has been marked booked. */
  function BookedAll(rows: seq<SeatRow>, cartSeats: seq<CartSeat>): seq<SeatRow> {
    if cartSeats == [] then rows
    else MarkBooked(BookedAll(rows, cartSeats[..|cartSeats| - 1]), cartSeats[|cartSeats| - 1].id)
  }

  /** The `order_seats` rows the seat loop writes: one per cart seat, in cart order. */
  function SeatClaims(orderId: string, cartSeats: seq<CartSeat>): seq<OrderSeatRow> {
    if cartSeats == [] then []
    else SeatClaims(orderId, cartSeats[..|cartSeats| - 1]) + [OrderSeatRow(orderId, cartSeats[|cartSeats| - 1].id)]
  }

  /** The `order_items` rows the snack loop writes: one per cart snack, in cart order. */
  function ItemRows(orderId: string, cartSnacks: seq<CartSnack>): seq<OrderItemRow> {
    if cartSnacks == [] then []
    else
      var last := cartSnacks[|cartSnacks| - 1];
      ItemRows(orderId, cartSnacks[..|cartSnacks| - 1]) + [OrderItemRow(orderId, last.quantity, last.id)]
  }

  /** The guard of `handlePayment`: a user, a selected show and at least one seat. */
  predicate CanPay(user: Option<string>, show: Option<SelectedShow>, cartSeats: seq<CartSeat>) {
    user.Some? && show.Some? && |cartSeats| > 0
  }

  /** The table contents, for saying that a path writes nothing. */
  function Snapshot(db: Tables): (seq<SeatRow>, seq<OrderRow>, seq<OrderSeatRow>, seq<OrderItemRow>)
    reads db
  {
    (db.seats, db.orders, db.orderSeats, db.orderItems)
  }

  /** `for (const seat of seats)`: book the seat, then write its `order_seats` row. */
  method BookCartSeats(db: Tables, orderId: string, seats: seq<CartSeat>)
    modifies db
    ensures db.seats == BookedAll(old(db.seats), seats)
    ensures db.orderSeats == old(db.orderSeats) + SeatClaims(orderId, seats)
    ensures db.orders == old(db.orders) && db.orderItems == old(db.orderItems)
  {
    var i := 0;
    while i < |seats|
      invariant 0 <= i <= |seats|
      invariant db.seats == BookedAll(old(db.seats), seats[..i])
      invariant db.orderSeats == old(db.orderSeats) + SeatClaims(orderId, seats[..i])
      invariant db.orders == old(db.orders) && db.orderItems == old(db.orderItems)
    {
      assert seats[..i + 1][..i] == seats[..i];
      db.BookSeat(seats[i].id);
      db.InsertOrderSeat(OrderSeatRow(orderId, seats[i].id));
      i := i + 1;
    }
    assert seats[..i] == seats;
  }

  /** `for (const snack of snacks)`: write one `order_items` row with the cart quantity. */
  method SaveOrderItems(db: Tables, orderId: string, snacks: seq<CartSnack>)
    modifies db
    ensures db.orderItems == old(db.orderItems) + ItemRows(orderId, snacks)
    ensures db.seats == old(db.seats) && db.orders == old(db.orders) && db.orderSeats == old(db.orderSeats)
  {
    var j := 0;
    while j < |snacks|
      invariant 0 <= j <= |snacks|
      invariant db.orderItems == old(db.orderItems) + ItemRows(orderId, snacks[..j])
      invariant db.seats == old(db.seats) && db.orders == old(db.orders) && db.orderSeats == old(db.orderSeats)
    {
      assert snacks[..j + 1][..j] == snacks[..j];
      db.InsertOrderItem(OrderItemRow(orderId, snacks[j].quantity, snacks[j].id));
      j := j + 1;
    }
    assert snacks[..j] == snacks;
  }

  method HandlePayment(user: Option<string>, cart: Cart, db: Tables, paymentId: string, answer: InsertAnswer)
    returns (outcome: PaymentOutcome)
    modifies cart, db
    ensures !CanPay(user, old(cart.selectedShow), old(cart.seats)) ==>
      outcome == MissingInfo && unchanged(cart) && Snapshot(db) == old(Snapshot(db))
    ensures CanPay(user, old(cart.selectedShow), old(cart.seats)) && answer.InsertFailed? ==>
      outcome == PaymentFailed(answer.message) && unchanged(cart) && Snapshot(db) == old(Snapshot(db))
    ensures CanPay(user, old(cart.selectedShow), old(cart.seats)) && answer.Inserted? ==>
      && outcome == Paid(answer.id)
      && db.orders == old(db.orders) + [StoredOrder(
           OrderValues(user.value, old(cart.selectedShow).value, old(cart.GetTotal()), paymentId),
           answer.id, answer.created_at)]
      && db.seats == BookedAll(old(db.seats), old(cart.seats))
      && db.orderSeats == old(db.orderSeats) + SeatClaims(answer.id, old(cart.seats))
      && db.orderItems == old(db.orderItems) + ItemRows(answer.id, old(cart.snacks))
      && cart.selectedShow == None && cart.seats == [] && cart.snacks == []
  {
    if !CanPay(user, cart.selectedShow, cart.seats) {
      return MissingInfo;
    }
    var values := OrderValues(user.value, cart.selectedShow.value, cart.GetTotal(), paymentId);
    var order := db.InsertOrder(values, answer);
    if order.None? {
      return PaymentFailed(answer.message);
    }
    var orderId := order.value.id;
    BookCartSeats(db, orderId, cart.seats);
    SaveOrderItems(db, orderId, cart.snacks);
    cart.ClearCart();
    outcome := Paid(orderId);
  }

  /**
   * After the seat loop every seat row whose id is in the cart is booked and
   * every other row is exactly as before.
   */
  lemma {:induction false} BookedAllEffect(rows: seq<SeatRow>, cartSeats: seq<CartSeat>)
    ensures var r := BookedAll(rows, cartSeats);
      && |r| == |rows|
      && forall i :: 0 <= i < |rows| ==>
           r[i] == if HasSeat(cartSeats, rows[i].id) then rows[i].(is_booked := true) else rows[i]
  {
    if cartSeats != [] {
      var init := cartSeats[..|cartSeats| - 1];
      var last := cartSeats[|cartSeats| - 1];
      BookedAllEffect(rows, init);
      forall i | 0 <= i < |rows|
        ensures HasSeat(cartSeats, rows[i].id) <==> HasSeat(init, rows[i].id) || last.id == rows[i].id
      {
        if HasSeat(cartSeats, rows[i].id) {
          var k :| 0 <= k < |cartSeats| && cartSeats[k].id == rows[i].id;
          if k < |cartSeats| - 1 {
            assert init[k] == cartSeats[k];
          }
        }
        if HasSeat(init, rows[i].id) {
          var k :| 0 <= k < |init| && init[k].id == rows[i].id;
          assert cartSeats[k] == init[k];
        }
      }
    }
  }

  /** Number of claim rows for a seat. */
  function ClaimCount(claims: seq<OrderSeatRow>, seatId: string): nat {
    if claims == [] then 0
    else ClaimCount(claims[..|claims| - 1], seatId) + (if claims[|claims| - 1].seat_id == seatId then 1 else 0)
  }

  /** Number of item rows for a snack. */
  function ItemCount(items: seq<OrderItemRow>, snackId: string): nat {
    if items == [] then 0
    else ItemCount(items[..|items| - 1], snackId) + (if items[|items| - 1].snack_id == snackId then 1 else 0)
  }

  /** The claim rows carry the new order's id and the cart seats' ids, one row per seat, in cart order. */
  lemma {:induction false} SeatClaimsShape(orderId: string, cartSeats: seq<CartSeat>)
    ensures var c := SeatClaims(orderId, cartSeats);
      |c| == |cartSeats| && forall k :: 0 <= k < |c| ==> c[k] == OrderSeatRow(orderId, cartSeats[k].id)
  {
    if cartSeats != [] {
      var init := cartSeats[..|cartSeats| - 1];
      SeatClaimsShape(orderId, init);
      assert forall k :: 0 <= k < |init| ==> init[k] == cartSeats[k];
    }
  }

  /** A seat that is not in the cart gets no claim row. */
  lemma {:induction false} ClaimCountAbsent(orderId: string, cartSeats: seq<CartSeat>, seatId: string)
    requires !HasSeat(cartSeats, seatId)
    ensures ClaimCount(SeatClaims(orderId, cartSeats), seatId) == 0
  {
    if cartSeats != [] {
      var init := cartSeats[..|cartSeats| - 1];
      assert !HasSeat(init, seatId) by {
        forall k | 0 <= k < |init| ensures init[k].id != seatId {
          assert init[k] == cartSeats[k];
        }
      }
      ClaimCountAbsent(orderId, init, seatId);
      var c := SeatClaims(orderId, cartSeats);
      assert c[..|c| - 1] == SeatClaims(orderId, init);
    }
  }

  /** With unique cart seat ids, each cart seat gets exactly one claim row for the new order. */
  lemma {:induction false} OneClaimPerSeat(orderId: string, cartSeats: seq<CartSeat>, k: nat)
    requires UniqueSeatIds(cartSeats) && k < |cartSeats|
    ensures ClaimCount(SeatClaims(orderId, cartSeats), cartSeats[k].id) == 1
  {
    var n := |cartSeats|;
    var init := cartSeats[..n - 1];
    var c := SeatClaims(orderId, cartSeats);
    assert c[..|c| - 1] == SeatClaims(orderId, init);
    assert UniqueSeatIds(init) by {
      forall i, j | 0 <= i < j < |init| ensures init[i].id != init[j].id {
        assert init[i] == cartSeats[i] && init[j] == cartSeats[j];
      }
    }
    if k == n - 1 {
      assert !HasSeat(init, cartSeats[k].id) by {
        forall i | 0 <= i < |init| ensures init[i].id != cartSeats[k].id {
          assert init[i] == cartSeats[i];
        }
      }
      ClaimCountAbsent(orderId, init, cartSeats[k].id);
    } else {
      assert init[k] == cartSeats[k];
      OneClaimPerSeat(orderId, init, k);
    }
  }

  /** The item rows carry the new order's id, each cart snack's id and its cart quantity, in cart order. */
  lemma {:induction false} ItemRowsShape(orderId: string, cartSnacks: seq<CartSnack>)
    ensures var rows := ItemRows(orderId, cartSnacks);
      |rows| == |cartSnacks| && forall k :: 0 <= k < |rows| ==>
        rows[k] == OrderItemRow(orderId, cartSnacks[k].quantity, cartSnacks[k].id)
  {
    if cartSnacks != [] {
      var init := cartSnacks[..|cartSnacks| - 1];
      ItemRowsShape(orderId, init);
      assert forall k :: 0 <= k < |init| ==> init[k] == cartSnacks[k];
    }
  }

  /** With unique snack ids, each cart snack gets exactly one item row. */
  lemma {:induction false} OneItemPerSnack(orderId: string, cartSnacks: seq<CartSnack>, k: nat)
    requires UniqueSnackIds(cartSnacks) && k < |cartSnacks|
    ensures ItemCount(ItemRows(orderId, cartSnacks), cartSnacks[k].id) == 1
  {
    var n := |cartSnacks|;
    var init := cartSnacks[..n - 1];
    var rows := ItemRows(orderId, cartSnacks);
    assert rows[..|rows| - 1] == ItemRows(orderId, init);
    assert UniqueSnackIds(init) by {
      forall i, j | 0 <= i < j < |init| ensures init[i].id != init[j].id {
        assert init[i] == cartSnacks[i] && init[j] == cartSnacks[j];
      }
    }
    if k == n - 1 {
      ItemCountAbsent(orderId, init, cartSnacks[k].id);
    } else {
      assert init[k] == cartSnacks[k];
      OneItemPerSnack(orderId, init, k);
    }
  }

  lemma {:induction false} ItemCountAbsent(orderId: string, cartSnacks: seq<CartSnack>, snackId: string)
    requires forall i :: 0 <= i < |cartSnacks| ==> cartSnacks[i].id != snackId
    ensures ItemCount(ItemRows(orderId, cartSnacks), snackId) == 0
  {
    if cartSnacks != [] {
      var init := cartSnacks[..|cartSnacks| - 1];
      assert forall i :: 0 <= i < |init| ==> init[i] == cartSnacks[i];
      ItemCountAbsent(orderId, init, snackId);
      var rows := ItemRows(orderId, cartSnacks);
      assert rows[..|rows| - 1] == ItemRows(orderId, init);
    }
  }
}
