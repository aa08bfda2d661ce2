/**
 * The seat page: an 8 x 8 grid of the show's seats, lookups by text and by
 * id, and the toggle that adds or removes a seat in the cart.
 */
module SeatSelection {
  import opened Wrappers
  import opened Decimal
  import opened CartContext

  /** The page's view of a row of the `seats` table. */
  datatype Seat = Seat(id: string, seat_number: string, is_booked: bool)

  const ROWS: seq<string> := ["A", "B", "C", "D", "E", "F", "G", "H"]
  const COLS: nat := 8

  /** `${row}${col}`: the row letter followed by the column in decimal. */
  function SeatLabel(row: string, col: nat): string {
    row + NatToDecimal(col)
  }

  /** Index `k` holds the first seat numbered `number`. */
  predicate FirstNumbered(seats: seq<Seat>, k: int, number: string) {
    0 <= k < |seats| && seats[k].seat_number == number
    && forall j :: 0 <= j < k ==> seats[j].seat_number != number
  }

  /** `getSeat(row, col)`: the first seat whose number is the label of that cell, if any. */
  function GetSeat(seats: seq<Seat>, row: string, col: nat): (r: Option<Seat>)
    ensures r.None? <==> forall i :: 0 <= i < |seats| ==> seats[i].seat_number != SeatLabel(row, col)
    ensures r.Some? ==> exists k :: FirstNumbered(seats, k, SeatLabel(row, col)) && seats[k] == r.value
  {
    if seats == [] then None
    else if seats[0].seat_number == SeatLabel(row, col) then
      assert FirstNumbered(seats, 0, SeatLabel(row, col));
      Some(seats[0])
    else
      var r := GetSeat(seats[1..], row, col);
      assert forall i :: 1 <= i < |seats| ==> seats[i] == seats[1..][i - 1];
      assert r.Some? ==> exists k :: FirstNumbered(seats, k, SeatLabel(row, col)) && seats[k] == r.value by {
        if r.Some? {
          var k :| FirstNumbered(seats[1..], k, SeatLabel(row, col)) && seats[1..][k] == r.value;
          assert seats[k + 1] == r.value;
          forall j | 0 <= j < k + 1 ensures seats[j].seat_number != SeatLabel(row, col) {
            if j > 0 {
              assert seats[j] == seats[1..][j - 1];
            }
          }
          assert FirstNumbered(seats, k + 1, SeatLabel(row, col));
        }
      }
      r
  }

  /** `isSelected(seatId)`: some cart seat has that id. */
  function IsSelected(cartSeats: seq<CartSeat>, seatId: string): (r: bool)
    ensures r <==> HasSeat(cartSeats, seatId)
  {
    if cartSeats == [] then false
    else if cartSeats[0].id == seatId then true
    else
      assert forall i :: 1 <= i < |cartSeats| ==> cartSeats[i] == cartSeats[1..][i - 1];
      IsSelected(cartSeats[1..], seatId)
  }

  /** The entry `toggleSeat` adds: the seat tagged with the route's show id. */
  function CartEntry(seat: Seat, showId: string): CartSeat {
    CartSeat(seat.id, seat.seat_number, showId)
  }

  /** The cart seat list `toggleSeat(seat)` leaves behind. */
  function Toggled(cartSeats: seq<CartSeat>, seat: Seat, showId: string): seq<CartSeat> {
    if seat.is_booked then cartSeats
    else if IsSelected(cartSeats, seat.id) then WithoutSeat(cartSeats, seat.id)
    else cartSeats + [CartEntry(seat, showId)]
  }

  method ToggleSeat(cart: Cart, seat: Seat, showId: string)
    modifies cart
    ensures cart.seats == Toggled(old(cart.seats), seat, showId)
    ensures cart.selectedShow == old(cart.selectedShow) && cart.snacks == old(cart.snacks)
  {
    if seat.is_booked {
      return;
    }
    if IsSelected(cart.seats, seat.id) {
      cart.RemoveSeat(seat.id);
    } else {
      cart.AddSeat(CartEntry(seat, showId));
    }
  }

  /** Toggling a booked seat changes nothing. */
  lemma ToggleBookedIsNoOp(cartSeats: seq<CartSeat>, seat: Seat, showId: string)
    requires seat.is_booked
    ensures Toggled(cartSeats, seat, showId) == cartSeats
  {
  }

  /**
   * Toggling an unbooked seat flips whether it is selected: a selected seat is
   * removed, an unselected one is appended at the end, tagged with `showId`.
   */
  lemma ToggleFlipsSelection(cartSeats: seq<CartSeat>, seat: Seat, showId: string)
    requires !seat.is_booked
    ensures var r := Toggled(cartSeats, seat, showId);
      && (HasSeat(r, seat.id) <==> !HasSeat(cartSeats, seat.id))
      && (!HasSeat(cartSeats, seat.id) ==> r == cartSeats + [CartSeat(seat.id, seat.seat_number, showId)])
  {
    var r := Toggled(cartSeats, seat, showId);
    if !HasSeat(cartSeats, seat.id) {
      assert r[|cartSeats|].id == seat.id;
    }
  }

  /** An already selected id is never added again, so toggling keeps the cart's seat ids unique. */
  lemma ToggleKeepsUnique(cartSeats: seq<CartSeat>, seat: Seat, showId: string)
    requires UniqueSeatIds(cartSeats)
    ensures UniqueSeatIds(Toggled(cartSeats, seat, showId))
  {
    if !seat.is_booked {
      if IsSelected(cartSeats, seat.id) {
        WithoutSeatUnique(cartSeats, seat.id);
      } else {
        AppendSeatUnique(cartSeats, CartEntry(seat, showId));
      }
    }
  }

  /** Toggling an unbooked, unselected seat twice gives back the original list. */
  lemma ToggleTwiceRestores(cartSeats: seq<CartSeat>, seat: Seat, showId: string)
    requires !seat.is_booked && !HasSeat(cartSeats, seat.id)
    ensures Toggled(Toggled(cartSeats, seat, showId), seat, showId) == cartSeats
  {
    var entry := CartEntry(seat, showId);
    var once := cartSeats + [entry];
    assert once[|cartSeats|] == entry;
    assert IsSelected(once, seat.id);
    WithoutSeatAppend(cartSeats, [entry], seat.id);
    WithoutSeatAbsent(cartSeats, seat.id);
    assert WithoutSeat([entry], seat.id) == [];
  }

  /** The text the grid looks up in cell `k` (row `k / COLS`, column `k % COLS + 1`). */
  function GridLabel(k: nat): string
    requires k < |ROWS| * COLS
  {
    SeatLabel(ROWS[k / COLS], k % COLS + 1)
  }

  /** All labels the grid queries, row by row. */
  function GridLabels(): seq<string> {
    seq(|ROWS| * COLS, k requires 0 <= k < |ROWS| * COLS => GridLabel(k))
  }

  /** The grid renders one cell per seat text, `getSeat` applied to each. */
  function Grid(seats: seq<Seat>): seq<Option<Seat>> {
    seq(|ROWS| * COLS, k requires 0 <= k < |ROWS| * COLS => GetSeat(seats, ROWS[k / COLS], k % COLS + 1))
  }

  /** A grid text: a row letter A..H followed by one column digit 1..8. */
  predicate IsGridLabel(text: string) {
    |text| == 2 && 'A' <= text[0] <= 'H' && '1' <= text[1] <= '8'
  }

  lemma GridLabelShape(k: nat)
    requires k < |ROWS| * COLS
    ensures var text := GridLabel(k);
      && IsGridLabel(text)
      && (text[0] as int) - ('A' as int) == k / COLS
      && (text[1] as int) - ('1' as int) == k % COLS
  {
    SingleDigit(k % COLS + 1);
    var r := k / COLS;
    assert ROWS[r] == [(('A' as int) + r) as char] by {
      assert r < 8;
      if r == 0 { } else if r == 1 { } else if r == 2 { } else if r == 3 { }
      else if r == 4 { } else if r == 5 { } else if r == 6 { } else { }
    }
  }

  /** The grid queries exactly rows A..H by columns 1..8: 64 distinct labels, and every such text once. */
  lemma GridIsRowsByCols()
    ensures |GridLabels()| == 64
    ensures forall i, j :: 0 <= i < j < |GridLabels()| ==> GridLabels()[i] != GridLabels()[j]
    ensures forall text :: text in GridLabels() <==> IsGridLabel(text)
  {
    var g := GridLabels();
    forall i, j | 0 <= i < j < |g| ensures g[i] != g[j] {
      GridLabelShape(i);
      GridLabelShape(j);
      assert i == (i / COLS) * COLS + i % COLS;
      assert j == (j / COLS) * COLS + j % COLS;
    }
    forall text ensures text in g <==> IsGridLabel(text) {
      if text in g {
        var k :| 0 <= k < |g| && g[k] == text;
        GridLabelShape(k);
      }
      if IsGridLabel(text) {
        var r := (text[0] as int) - ('A' as int);
        var c := (text[1] as int) - ('1' as int);
        var k := r * COLS + c;
        assert k / COLS == r && k % COLS == c;
        GridLabelShape(k);
        assert g[k] == text;
      }
    }
  }

  /** Every cell that shows a seat shows the seat whose number is that cell's text. */
  lemma GridCellsMatchLabels(seats: seq<Seat>, k: nat)
    requires k < |ROWS| * COLS
    ensures Grid(seats)[k].Some? ==> Grid(seats)[k].value in seats && Grid(seats)[k].value.seat_number == GridLabels()[k]
    ensures Grid(seats)[k].None? <==> forall i :: 0 <= i < |seats| ==> seats[i].seat_number != GridLabels()[k]
  {
  }

  /** The price the summary shows, `cartSeats.length * 200`; it is the cart's seat total. */
  function DisplayedSeatPrice(cartSeats: seq<CartSeat>): (p: int)
    ensures p == SeatTotal(cartSeats)
  {
    |cartSeats| * 200
  }
}
