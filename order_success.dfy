/**
 * The order-success page: the once-a-second countdown to the show, which
 * splits the remaining whole seconds into hours, minutes and seconds, and the
 * list of seat labels read from the order's `order_seats` rows.
 */
module OrderSuccess {
  import opened Wrappers
  import opened Decimal

  const SHOW_STARTED: string := "Show started!"

  /** Hours, minutes and seconds of a countdown. */
  datatype Hms = Hms(h: nat, m: nat, s: nat)

  /**
   * `Math.floor(diff / 3600)`, `Math.floor((diff % 3600) / 60)` and `diff % 60`
   * for a positive `diff`, where JavaScript's and Dafny's division agree.
   */
  function Decompose(diff: nat): (t: Hms)
    ensures t.h * 3600 + t.m * 60 + t.s == diff
    ensures t.m < 60 && t.s < 60
  {
    Hms(diff / 3600, (diff % 3600) / 60, diff % 60)
  }

  /** The split is the only one with minutes and seconds below 60, so decomposing a composed time gives it back. */
  lemma DecomposeRoundTrip(t: Hms)
    requires t.m < 60 && t.s < 60
    ensures Decompose(t.h * 3600 + t.m * 60 + t.s) == t
  {
    var rest := t.m * 60 + t.s;
    assert rest < 3600;
    assert (t.h * 3600 + rest) / 3600 == t.h;
    assert (t.h * 3600 + rest) % 3600 == rest;
    assert rest / 60 == t.m;
  }

  /** `${h}h ${m}m ${s}s`. */
  function CountdownText(t: Hms): (text: string)
    ensures |text| >= 8 && IsDigit(text[0]) && text[|text| - 1] == 's'
  {
    NatToDecimal(t.h) + ("h " + (NatToDecimal(t.m) + ("m " + (NatToDecimal(t.s) + "s"))))
  }

  /** Two digit strings each followed by text that starts with a non-digit are split at the same place. */
  lemma SplitAtNonDigit(x: string, u: string, y: string, v: string)
    requires AllDigits(x) && AllDigits(y)
    requires |u| >= 1 && !IsDigit(u[0]) && |v| >= 1 && !IsDigit(v[0])
    requires x + u == y + v
    ensures x == y && u == v
  {
    DigitPrefixOf(x, u);
    DigitPrefixOf(y, v);
    assert x == (x + u)[..|x|];
    assert u == (x + u)[|x|..];
  }

  /** The number of leading digits of a string. */
  function DigitPrefixLength(w: string): (n: nat)
    ensures n <= |w|
  {
    if w != [] && IsDigit(w[0]) then 1 + DigitPrefixLength(w[1..]) else 0
  }

  lemma {:induction false} DigitPrefixOf(x: string, u: string)
    requires AllDigits(x) && |u| >= 1 && !IsDigit(u[0])
    ensures DigitPrefixLength(x + u) == |x|
  {
    if x == [] {
      assert x + u == u;
    } else {
      assert (x + u)[0] == x[0];
      assert (x + u)[1..] == x[1..] + u;
      DigitPrefixOf(x[1..], u);
    }
  }

  /** A common prefix can be dropped. */
  lemma DropPrefix(p: string, u: string, v: string)
    requires p + u == p + v
    ensures u == v
  {
    assert u == (p + u)[|p|..];
  }

  /** Different countdowns never show the same text. */
  lemma CountdownTextInjective(a: Hms, b: Hms)
    requires CountdownText(a) == CountdownText(b)
    ensures a == b
  {
    var sa, sb := NatToDecimal(a.s) + "s", NatToDecimal(b.s) + "s";
    var ma, mb := NatToDecimal(a.m) + ("m " + sa), NatToDecimal(b.m) + ("m " + sb);
    SplitAtNonDigit(NatToDecimal(a.h), "h " + ma, NatToDecimal(b.h), "h " + mb);
    NatToDecimalInjective(a.h, b.h);
    DropPrefix("h ", ma, mb);
    SplitAtNonDigit(NatToDecimal(a.m), "m " + sa, NatToDecimal(b.m), "m " + sb);
    NatToDecimalInjective(a.m, b.m);
    DropPrefix("m ", sa, sb);
    SplitAtNonDigit(NatToDecimal(a.s), "s", NatToDecimal(b.s), "s");
    NatToDecimalInjective(a.s, b.s);
  }

  /** What one tick of the timer does: the text it shows and whether it stops the timer. */
  datatype Tick = Tick(countdown: string, stop: bool)

  /** The interval body for the seconds left, `differenceInSeconds(show_time, now)`. */
  function OnTick(diff: int): (r: Tick)
    ensures r.stop <==> diff <= 0
    ensures diff <= 0 ==> r.countdown == SHOW_STARTED
    ensures diff > 0 ==> exists t: Hms :: t.m < 60 && t.s < 60 && t.h * 3600 + t.m * 60 + t.s == diff && r.countdown == CountdownText(t)
  {
    if diff <= 0 then Tick(SHOW_STARTED, true)
    else Tick(CountdownText(Decompose(diff)), false)
  }

  /** While the show has not started, the text never says it has. */
  lemma RunningNeverShowsStarted(diff: int)
    requires diff > 0
    ensures OnTick(diff).countdown != SHOW_STARTED
  {
    var text := OnTick(diff).countdown;
    assert !IsDigit(SHOW_STARTED[0]);
    assert IsDigit(text[0]);
  }

  /** While the timer runs, the text tells the seconds left exactly: two different times never show the same text. */
  lemma OnTickInjective(d1: int, d2: int)
    requires d1 > 0 && d2 > 0 && OnTick(d1).countdown == OnTick(d2).countdown
    ensures d1 == d2
  {
    CountdownTextInjective(Decompose(d1), Decompose(d2));
  }

  /** The joined `seats` record of an `order_seats` row. */
  datatype SeatRef = SeatRef(seat_number: string)

  /** A row of `order_seats.select("seat_id, seats(seat_number)")`; the join may be missing. */
  datatype OrderSeatView = OrderSeatView(seat_id: string, seats: Option<SeatRef>)

  /** `s.seats?.seat_number || ""`; an empty seat number already is "". */
  function SeatText(row: OrderSeatView): string {
    match row.seats
    case Some(ref) => ref.seat_number
    case None => ""
  }

  /** The page's seat list: one label per row, in row order. */
  function SeatLabels(rows: seq<OrderSeatView>): (r: seq<string>)
    ensures |r| == |rows|
    ensures forall i :: 0 <= i < |rows| ==> r[i] == SeatText(rows[i])
  {
    if rows == [] then [] else [SeatText(rows[0])] + SeatLabels(rows[1..])
  }

  /** A row whose seat could not be joined contributes an empty label, and only such rows and seats numbered "" do. */
  lemma SeatLabelEmpty(rows: seq<OrderSeatView>, i: nat)
    requires i < |rows|
    ensures SeatLabels(rows)[i] == "" <==>
      rows[i].seats == None || rows[i].seats.value.seat_number == ""
  {
  }
}
