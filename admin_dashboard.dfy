/**
 * The admin dashboard: the show filter over the order list, the revenue and
 * per-status counts of the filtered list, and `updateStatus`, which writes the
 * new status to the `orders` table and to the page's own copy of the list.
 * Any status replaces any other: no order of statuses is enforced.
 */
module AdminDashboard {
  import opened Database

  const ALL_SHOWS: string := "all"

  /** `orders.filter((o) => o.show_id === showId)`. */
  function OrdersOfShow(orders: seq<OrderRow>, showId: string): (r: seq<OrderRow>)
    ensures forall o :: o in r <==> o in orders && o.show_id == showId
    ensures |r| <= |orders|
  {
    if orders == [] then []
    else if orders[0].show_id == showId then [orders[0]] + OrdersOfShow(orders[1..], showId)
    else OrdersOfShow(orders[1..], showId)
  }

  /** `filtered`: every order for "all", otherwise the orders of the chosen show. */
  function Filtered(orders: seq<OrderRow>, filterShow: string): seq<OrderRow> {
    if filterShow == ALL_SHOWS then orders else OrdersOfShow(orders, filterShow)
  }

  /** With "all" the filter keeps everything; otherwise exactly the orders of that show. */
  lemma FilteredContents(orders: seq<OrderRow>, filterShow: string)
    ensures filterShow == ALL_SHOWS ==> Filtered(orders, filterShow) == orders
    ensures filterShow != ALL_SHOWS ==>
      forall o :: o in Filtered(orders, filterShow) <==> o in orders && o.show_id == filterShow
  {
  }

  /** The show filter keeps the list's order: it distributes over concatenation. */
  lemma {:induction false} OrdersOfShowAppend(a: seq<OrderRow>, b: seq<OrderRow>, showId: string)
    ensures OrdersOfShow(a + b, showId) == OrdersOfShow(a, showId) + OrdersOfShow(b, showId)
  {
    if a == [] {
      assert a + b == b;
    } else {
      var ab := a + b;
      assert ab[0] == a[0] && ab[1..] == a[1..] + b;
      OrdersOfShowAppend(a[1..], b, showId);
    }
  }

  /** `totalRevenue`: the sum of `total_amount` over a list of orders. */
  function TotalRevenue(orders: seq<OrderRow>): int {
    if orders == [] then 0 else orders[0].total_amount + TotalRevenue(orders[1..])
  }

  /** `orders.filter((o) => o.status === status).length`. */
  function StatusCount(orders: seq<OrderRow>, status: string): nat {
    if orders == [] then 0
    else (if orders[0].status == status then 1 else 0) + StatusCount(orders[1..], status)
  }

  lemma {:induction false} TotalRevenueAppend(a: seq<OrderRow>, b: seq<OrderRow>)
    ensures TotalRevenue(a + b) == TotalRevenue(a) + TotalRevenue(b)
  {
    if a == [] {
      assert a + b == b;
    } else {
      assert (a + b)[1..] == a[1..] + b;
      TotalRevenueAppend(a[1..], b);
    }
  }

  /** The revenue of all orders is the revenue of one show plus that of the rest. */
  lemma {:induction false} RevenueSplitsByShow(orders: seq<OrderRow>, showId: string)
    ensures TotalRevenue(orders) == TotalRevenue(OrdersOfShow(orders, showId)) + TotalRevenue(OtherShows(orders, showId))
  {
    if orders != [] {
      RevenueSplitsByShow(orders[1..], showId);
    }
  }

  /** The orders of every show but one (used only to state how revenue splits). */
  function OtherShows(orders: seq<OrderRow>, showId: string): seq<OrderRow> {
    if orders == [] then []
    else if orders[0].show_id != showId then [orders[0]] + OtherShows(orders[1..], showId)
    else OtherShows(orders[1..], showId)
  }

  /** A count of one status never exceeds the list, and the Confirmed and Preparing cards together never exceed the Orders card. */
  lemma {:induction false} StatusCountsBounded(orders: seq<OrderRow>)
    ensures StatusCount(orders, "Confirmed") + StatusCount(orders, "Preparing") <= |orders|
  {
    if orders != [] {
      StatusCountsBounded(orders[1..]);
    }
  }

  /** A status count is 0 exactly when no order has that status, and at most the list's length. */
  lemma {:induction false} StatusCountMeaning(orders: seq<OrderRow>, status: string)
    ensures StatusCount(orders, status) <= |orders|
    ensures StatusCount(orders, status) == 0 <==> forall o :: o in orders ==> o.status != status
  {
    if orders != [] {
      StatusCountMeaning(orders[1..], status);
      assert forall o :: o in orders <==> o == orders[0] || o in orders[1..];
    }
  }

  /** Setting the same status twice is the same as setting it once. */
  lemma UpdateStatusIdempotent(orders: seq<OrderRow>, orderId: string, status: string)
    ensures WithStatus(WithStatus(orders, orderId, status), orderId, status) == WithStatus(orders, orderId, status)
  {
    var once := WithStatus(orders, orderId, status);
    var twice := WithStatus(once, orderId, status);
    assert forall i :: 0 <= i < |orders| ==> twice[i] == once[i];
  }

  /** No transition order is enforced: a Ready order can be set back to Preparing. */
  lemma UpdateStatusAnyDirection(orders: seq<OrderRow>, k: nat)
    requires k < |orders| && orders[k].status == "Ready"
    ensures WithStatus(orders, orders[k].id, "Preparing")[k].status == "Preparing"
  {
  }

  /** A status change never changes the revenue. */
  lemma {:induction false} UpdateStatusKeepsRevenue(orders: seq<OrderRow>, orderId: string, status: string)
    ensures TotalRevenue(WithStatus(orders, orderId, status)) == TotalRevenue(orders)
  {
    if orders != [] {
      UpdateStatusKeepsRevenue(orders[1..], orderId, status);
      var r := WithStatus(orders, orderId, status);
      assert r[1..] == WithStatus(orders[1..], orderId, status);
    }
  }

  /** A status change never moves an order in or out of a show's filter: filtering and updating commute. */
  lemma {:induction false} UpdateStatusCommutesWithFilter(orders: seq<OrderRow>, orderId: string, status: string, showId: string)
    ensures OrdersOfShow(WithStatus(orders, orderId, status), showId) == WithStatus(OrdersOfShow(orders, showId), orderId, status)
  {
    if orders != [] {
      UpdateStatusCommutesWithFilter(orders[1..], orderId, status, showId);
      var r := WithStatus(orders, orderId, status);
      assert r[1..] == WithStatus(orders[1..], orderId, status);
      if orders[0].show_id == showId {
        var f := OrdersOfShow(orders, showId);
        assert f == [orders[0]] + OrdersOfShow(orders[1..], showId);
        var w := WithStatus(f, orderId, status);
        assert w[1..] == WithStatus(f[1..], orderId, status);
        assert f[1..] == OrdersOfShow(orders[1..], showId);
      }
    }
  }

  /** The page's state: the order list it shows and the selected filter. */
  class Dashboard {
    var orders: seq<OrderRow>
    var filterShow: string

    constructor (orders0: seq<OrderRow>)
      ensures orders == orders0 && filterShow == ALL_SHOWS
    {
      orders := orders0;
      filterShow := ALL_SHOWS;
    }

    /** The list the table and the cards are computed from. */
    function Shown(): seq<OrderRow>
      reads this
    {
      Filtered(orders, filterShow)
    }

    /** The Revenue card. */
    function Revenue(): int
      reads this
    {
      TotalRevenue(Shown())
    }

    /** The Confirmed and Preparing cards never add up to more than the Orders card. */
    lemma CardsBounded()
      ensures StatusCount(Shown(), "Confirmed") + StatusCount(Shown(), "Preparing") <= |Shown()|
    {
      StatusCountsBounded(Shown());
    }

    /** The show selector: `setFilterShow`. */
    method SetFilter(showId: string)
      modifies this
      ensures filterShow == showId && orders == old(orders)
    {
      filterShow := showId;
    }

    /** `updateStatus(orderId, status)`: the table write, then the same change to the page's copy. */
    method UpdateStatus(db: Tables, orderId: string, status: string)
      modifies this, db
      ensures db.orders == WithStatus(old(db.orders), orderId, status)
      ensures orders == WithStatus(old(orders), orderId, status)
      ensures filterShow == old(filterShow)
      ensures db.seats == old(db.seats) && db.orderSeats == old(db.orderSeats) && db.orderItems == old(db.orderItems)
      ensures Revenue() == old(Revenue())
    {
      UpdateStatusKeepsRevenue(Shown(), orderId, status);
      if filterShow != ALL_SHOWS {
        UpdateStatusCommutesWithFilter(orders, orderId, status, filterShow);
      }
      db.UpdateOrderStatus(orderId, status);
      orders := WithStatus(orders, orderId, status);
    }
  }
}
