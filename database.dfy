/**
 * The four tables checkout and the admin dashboard write, with the row shapes
 * of the generated database types, held in memory. Each method is one write
 * the pages issue (`insert`, or `update(...).eq("id", ...)`).
 */
module Database {
  import opened Wrappers

  datatype SeatRow = SeatRow(id: string, is_booked: bool, seat_number: string, show_id: string)

  datatype OrderRow = OrderRow(
    created_at: string, id: string, payment_id: Option<string>, show_id: string,
    status: string, total_amount: int, user_id: string)

  /** The columns an order insert supplies; the database adds `id` and `created_at`. */
  datatype OrderInsert = OrderInsert(
    payment_id: Option<string>, show_id: string, status: string, total_amount: int, user_id: string)

  /** An `order_seats` row (its generated key column is not modelled). */
  datatype OrderSeatRow = OrderSeatRow(order_id: string, seat_id: string)

  /** An `order_items` row (its generated key column is not modelled). */
  datatype OrderItemRow = OrderItemRow(order_id: string, quantity: int, snack_id: string)

  /** What the database answers to `insert(...).select().single()`: the new key and timestamp, or an error. */
  datatype InsertAnswer = Inserted(id: string, created_at: string) | InsertFailed(message: string)

  /** The row the database stores for an accepted insert. */
  function StoredOrder(values: OrderInsert, id: string, createdAt: string): OrderRow {
    OrderRow(createdAt, id, values.payment_id, values.show_id, values.status, values.total_amount, values.user_id)
  }

  /** `update({ is_booked: true }).eq("id", seatId)`: every row with that id is booked, no other row changes. */
  function MarkBooked(rows: seq<SeatRow>, seatId: string): (r: seq<SeatRow>)
    ensures |r| == |rows|
    ensures forall i :: 0 <= i < |rows| ==>
      r[i] == if rows[i].id == seatId then rows[i].(is_booked := true) else rows[i]
  {
    if rows == [] then []
    else
      var head := if rows[0].id == seatId then rows[0].(is_booked := true) else rows[0];
      [head] + MarkBooked(rows[1..], seatId)
  }

  /** `update({ status }).eq("id", orderId)`: every order with that id gets the status, nothing else changes. */
  function WithStatus(orders: seq<OrderRow>, orderId: string, status: string): (r: seq<OrderRow>)
    ensures |r| == |orders|
    ensures forall i :: 0 <= i < |orders| ==>
      r[i] == if orders[i].id == orderId then orders[i].(status := status) else orders[i]
  {
    if orders == [] then []
    else
      var head := if orders[0].id == orderId then orders[0].(status := status) else orders[0];
      [head] + WithStatus(orders[1..], orderId, status)
  }

  class Tables {
    var seats: seq<SeatRow>
    var orders: seq<OrderRow>
    var orderSeats: seq<OrderSeatRow>
    var orderItems: seq<OrderItemRow>

    constructor (seats0: seq<SeatRow>, orders0: seq<OrderRow>, orderSeats0: seq<OrderSeatRow>, orderItems0: seq<OrderItemRow>)
      ensures seats == seats0 && orders == orders0 && orderSeats == orderSeats0 && orderItems == orderItems0
    {
      seats, orders, orderSeats, orderItems := seats0, orders0, orderSeats0, orderItems0;
    }

    /** Insert into `orders`; on failure nothing is stored. */
    method InsertOrder(values: OrderInsert, answer: InsertAnswer) returns (stored: Option<OrderRow>)
      modifies this
      ensures answer.InsertFailed? ==> stored == None && orders == old(orders)
      ensures answer.Inserted? ==>
        stored == Some(StoredOrder(values, answer.id, answer.created_at)) && orders == old(orders) + [stored.value]
      ensures seats == old(seats) && orderSeats == old(orderSeats) && orderItems == old(orderItems)
    {
      match answer
      case InsertFailed(_) =>
        stored := None;
      case Inserted(id, createdAt) =>
        stored := Some(StoredOrder(values, id, createdAt));
        orders := orders + [stored.value];
    }

    method BookSeat(seatId: string)
      modifies this
      ensures seats == MarkBooked(old(seats), seatId)
      ensures orders == old(orders) && orderSeats == old(orderSeats) && orderItems == old(orderItems)
    {
      seats := MarkBooked(seats, seatId);
    }

    method InsertOrderSeat(row: OrderSeatRow)
      modifies this
      ensures orderSeats == old(orderSeats) + [row]
      ensures seats == old(seats) && orders == old(orders) && orderItems == old(orderItems)
    {
      orderSeats := orderSeats + [row];
    }

    method InsertOrderItem(row: OrderItemRow)
      modifies this
      ensures orderItems == old(orderItems) + [row]
      ensures seats == old(seats) && orders == old(orders) && orderSeats == old(orderSeats)
    {
      orderItems := orderItems + [row];
    }

    method UpdateOrderStatus(orderId: string, status: string)
      modifies this
      ensures orders == WithStatus(old(orders), orderId, status)
      ensures seats == old(seats) && orderSeats == old(orderSeats) && orderItems == old(orderItems)
    {
      orders := WithStatus(orders, orderId, status);
    }
  }
}
