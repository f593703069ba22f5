/**
 * What the three menu screens share around the cart: the bill id, the
 * dd-mm-yyyy and HH:MM stamps, the order payload and `handleCheckout`.
 * The screens differ in the price they send: Food Court sends the
 * GST-inclusive total, Main Cafe and Time Out the subtotal.
 */
module Checkout {
  import opened Wrappers
  import Text
  import Cart

  datatype Counter = MainCafe | FoodCourt | TimeOut

  // ---- Bill id ----

  /** `n` consecutive characters starting at `first`. */
  function Run(first: char, n: nat): (r: string)
    requires first as int + n <= 0xD800
    ensures |r| == n && forall i :: 0 <= i < n ==> r[i] as int == first as int + i
  {
    seq(n, i requires 0 <= i < n => (first as int + i) as char)
  }

  /** The 62 characters a bill id is drawn from: upper-case letters, lower-case letters, digits, in that order. */
  const BillAlphabet: string := Run('A', 26) + Run('a', 26) + Run('0', 10)

  predicate IsAlphanumeric(c: char) {
    'A' <= c <= 'Z' || 'a' <= c <= 'z' || '0' <= c <= '9'
  }

  /** The six random draws, each `Math.floor(Math.random() * 62)`. */
  predicate ValidDraws(draws: seq<int>) {
    |draws| == 6 && forall k :: 0 <= k < 6 ==> 0 <= draws[k] < |BillAlphabet|
  }

  /** The bill id the draws select: one alphabet character per draw. */
  function BillIdFrom(draws: seq<int>): string
    requires ValidDraws(draws)
  {
    seq(6, k requires 0 <= k < 6 => BillAlphabet[draws[k]])
  }

  /** `generateBillId`: appends the character of each draw to `result`, six times. */
  method GenerateBillId(draws: seq<int>) returns (id: string)
    requires ValidDraws(draws)
    ensures id == BillIdFrom(draws)
  {
    id := "";
    for i := 0 to 6
      invariant |id| == i
      invariant forall k :: 0 <= k < i ==> id[k] == BillAlphabet[draws[k]]
    {
      id := id + [BillAlphabet[draws[i]]];
    }
  }

  /** The position of `c` in the alphabet. */
  function AlphabetIndex(c: char): (i: nat)
    requires IsAlphanumeric(c)
    ensures i < |BillAlphabet| && BillAlphabet[i] == c
  {
    if 'A' <= c <= 'Z' then c as int - 'A' as int
    else if 'a' <= c <= 'z' then 26 + (c as int - 'a' as int)
    else 52 + (c as int - '0' as int)
  }

  /** Every bill id is six alphanumeric characters, and different draws give different ids. */
  lemma BillIdShape(draws: seq<int>, other: seq<int>)
    requires ValidDraws(draws) && ValidDraws(other)
    ensures |BillIdFrom(draws)| == 6
    ensures forall k :: 0 <= k < 6 ==> IsAlphanumeric(BillIdFrom(draws)[k])
    ensures BillIdFrom(draws) == BillIdFrom(other) <==> draws == other
  {
    var a, b := BillIdFrom(draws), BillIdFrom(other);
    if a == b {
      forall k | 0 <= k < 6 ensures draws[k] == other[k] {
        assert a[k] == b[k];
        assert AlphabetIndex(a[k]) == draws[k];
      }
    }
  }

  /** Every string of six alphanumeric characters is the bill id of some draws. */
  lemma EveryIdReachable(id: string)
    requires |id| == 6 && forall k :: 0 <= k < 6 ==> IsAlphanumeric(id[k])
    ensures exists draws :: ValidDraws(draws) && BillIdFrom(draws) == id
  {
    var draws := seq(6, k requires 0 <= k < 6 => AlphabetIndex(id[k]));
    assert ValidDraws(draws);
    assert BillIdFrom(draws) == id;
  }

  // ---- Date and time stamps ----

  /** A reading of the local clock; `month` is `getMonth() + 1`. Years have four digits. */
  datatype Clock = Clock(year: int, month: int, day: int, hour: int, minute: int)

  predicate ValidClock(c: Clock) {
    1000 <= c.year <= 9999 && 1 <= c.month <= 12 && 1 <= c.day <= 31 &&
    0 <= c.hour < 24 && 0 <= c.minute < 60
  }

  /** `String(n).padStart(2, '0')`. */
  function TwoDigits(n: nat): string {
    Text.PadStart(Text.Decimal(n), 2, '0')
  }

  /** `formatDate`: dd-mm-yyyy. */
  function FormatDate(c: Clock): string
    requires ValidClock(c)
  {
    TwoDigits(c.day) + "-" + TwoDigits(c.month) + "-" + Text.Decimal(c.year)
  }

  /** `formatTime`: HH:MM on the 24-hour clock. */
  function FormatTime(c: Clock): string
    requires ValidClock(c)
  {
    TwoDigits(c.hour) + ":" + TwoDigits(c.minute)
  }

  lemma DigitsFree(s: string, sep: char)
    requires Text.AllDigits(s) && !Text.IsDigit(sep)
    ensures sep !in s
  {
  }

  /**
   * The date stamp is ten characters; split on '-' it gives back the day,
   * the month (each as two digits) and the year.
   */
  lemma FormatDateParts(c: Clock)
    requires ValidClock(c)
    ensures |FormatDate(c)| == 10
    ensures var parts := Text.Split(FormatDate(c), '-');
      |parts| == 3 && parts == [TwoDigits(c.day), TwoDigits(c.month), Text.Decimal(c.year)] &&
      |parts[0]| == 2 && |parts[1]| == 2 &&
      Text.AllDigits(parts[0]) && Text.AllDigits(parts[1]) && Text.AllDigits(parts[2]) &&
      Text.DigitsValue(parts[0]) == c.day && Text.DigitsValue(parts[1]) == c.month &&
      Text.DigitsValue(parts[2]) == c.year
  {
    var d, m, y := TwoDigits(c.day), TwoDigits(c.month), Text.Decimal(c.year);
    Text.TwoDigits(c.day);
    Text.TwoDigits(c.month);
    Text.DigitsValueOfDecimal(c.year);
    DigitsFree(d, '-');
    DigitsFree(m, '-');
    DigitsFree(y, '-');
    Text.SplitJoin([d, m, y], '-');
    assert Text.Join([d, m, y], '-') == FormatDate(c) by {
      assert [d, m, y][1..] == [m, y];
      assert [m, y][1..] == [y];
      assert Text.Join([m, y], '-') == m + "-" + y;
      assert d + "-" + m + "-" + y == d + "-" + (m + "-" + y);
    }
  }

  /** The time stamp is five characters; split on ':' it gives back the hour and the minute. */
  lemma FormatTimeParts(c: Clock)
    requires ValidClock(c)
    ensures |FormatTime(c)| == 5
    ensures var parts := Text.Split(FormatTime(c), ':');
      |parts| == 2 && parts == [TwoDigits(c.hour), TwoDigits(c.minute)] &&
      Text.AllDigits(parts[0]) && Text.AllDigits(parts[1]) &&
      Text.DigitsValue(parts[0]) == c.hour && Text.DigitsValue(parts[1]) == c.minute
  {
    var h, m := TwoDigits(c.hour), TwoDigits(c.minute);
    Text.TwoDigits(c.hour);
    Text.TwoDigits(c.minute);
    DigitsFree(h, ':');
    DigitsFree(m, ':');
    Text.SplitJoin([h, m], ':');
    assert Text.Join([h, m], ':') == FormatTime(c) by {
      assert [h, m][1..] == [m];
    }
  }

  // ---- The order payload ----

  /** The stored user as checkout reads it; a missing or empty field is "". */
  datatype StoredUser = StoredUser(userId: string, id: string, username: string)

  /** The body posted to the order endpoint; `price` is the amount before `toString`. */
  datatype Order = Order(
    userid: string, username: string, fooditems: string, price: real,
    billid: string, date: string, time: string)

  /** `cart.map(item => item.fname)`. */
  function Names(cart: seq<Cart.Line>): (names: seq<string>)
    ensures |names| == |cart| && forall i :: 0 <= i < |cart| ==> names[i] == cart[i].fname
  {
    seq(|cart|, i requires 0 <= i < |cart| => cart[i].fname)
  }

  /** `fooditems`: the line names joined by ','. */
  function FoodItems(cart: seq<Cart.Line>): string {
    Text.Join(Names(cart), ',')
  }

  /** `userData.userId || userData.id || '1'`. */
  function OrderUserId(user: StoredUser): string {
    if user.userId != "" then user.userId else if user.id != "" then user.id else "1"
  }

  /** `userData.username || 'Customer'`. */
  function OrderUsername(user: StoredUser): string {
    if user.username != "" then user.username else "Customer"
  }

  /** The amount a screen sends: Food Court the GST-inclusive total, the others the subtotal. */
  function OrderPrice(counter: Counter, cart: seq<Cart.Line>): real {
    if counter == FoodCourt then Cart.TotalWithGst(cart) else Cart.Subtotal(cart)
  }

  function OrderFor(counter: Counter, cart: seq<Cart.Line>, user: StoredUser, now: Clock, billid: string): Order
    requires ValidClock(now)
  {
    Order(OrderUserId(user), OrderUsername(user), FoodItems(cart), OrderPrice(counter, cart),
      billid, FormatDate(now), FormatTime(now))
  }

  /** Main Cafe and Time Out send the subtotal; Food Court adds the 5% GST on top of it. */
  lemma OrderPrices(cart: seq<Cart.Line>)
    ensures OrderPrice(MainCafe, cart) == Cart.Subtotal(cart)
    ensures OrderPrice(TimeOut, cart) == Cart.Subtotal(cart)
    ensures OrderPrice(FoodCourt, cart) == Cart.Subtotal(cart) + Cart.Gst(cart)
    ensures OrderPrice(FoodCourt, cart) == OrderPrice(MainCafe, cart) * 1.05
  {
  }

  /** When no name contains ',', splitting `fooditems` on ',' gives the names back in cart order. */
  lemma FoodItemsRoundTrip(cart: seq<Cart.Line>)
    requires cart != []
    requires forall i :: 0 <= i < |cart| ==> ',' !in cart[i].fname
    ensures Text.Split(FoodItems(cart), ',') == Names(cart)
  {
    Text.SplitJoin(Names(cart), ',');
  }

  /** The user fields fall back in order: `userId`, then `id`, then "1"; the name falls back to "Customer". */
  lemma OrderUserFallbacks(user: StoredUser)
    ensures OrderUserId(user) != "" && OrderUsername(user) != ""
    ensures user.userId != "" ==> OrderUserId(user) == user.userId
    ensures user.userId == "" && user.id != "" ==> OrderUserId(user) == user.id
    ensures user.userId == "" && user.id == "" ==> OrderUserId(user) == "1"
    ensures user.username != "" ==> OrderUsername(user) == user.username
  {
  }

  // ---- handleCheckout ----

  /** How the order request ended: a response with its status, or no response at all. */
  datatype PostReply = Replied(status: nat) | NoReply

  /**
   * axios's default `validateStatus`: only a 2xx response resolves the
   * request; any other status rejects it, like a missing response.
   */
  predicate Resolves(reply: PostReply) {
    reply.Replied? && 200 <= reply.status < 300
  }

  /** The alert the checkout ends with. */
  datatype CheckoutOutcome =
    | EmptyCart
    | LoginRequired
    | Placed(order: Order)
    | Declined(order: Order)
    | ConnectionFailed(order: Order)

  /** A menu screen's cart state. */
  class MenuScreen {
    const counter: Counter
    var cart: seq<Cart.Line>

    predicate Valid()
      reads this
    {
      Cart.Valid(cart)
    }

    constructor (counter: Counter)
      ensures this.counter == counter && cart == [] && Valid()
    {
      this.counter := counter;
      cart := [];
    }

    /** `addToCart`. */
    method AddToCart(item: Cart.MenuItem)
      requires Valid()
      modifies this
      ensures Valid() && cart == Cart.Add(old(cart), item)
    {
      cart := Cart.Add(cart, item);
    }

    /** `removeFromCart`; the screen only offers it for a line in the cart. */
    method RemoveFromCart(fid: string)
      requires Valid() && Cart.InCart(cart, fid)
      modifies this
      ensures Valid() && cart == Cart.Remove(old(cart), fid)
    {
      cart := Cart.Remove(cart, fid);
    }

    /**
     * `handleCheckout`, with the stored user, the clock, the bill id draws and
     * the order endpoint's reply as parameters. An empty cart or a missing user
     * stops before any request; otherwise the order is built and posted, and
     * the cart is cleared only on status 200 or 201. Another 2xx status asks
     * to try again; a rejected request (no response, or a status outside
     * 2xx) lands in the `catch` and blames the connection.
     */
    method HandleCheckout(session: Option<StoredUser>, now: Clock, draws: seq<int>, reply: PostReply)
      returns (outcome: CheckoutOutcome)
      requires Valid() && ValidClock(now) && ValidDraws(draws)
      modifies this
      ensures Valid()
      ensures old(cart) == [] ==> outcome == EmptyCart
      ensures old(cart) != [] && session == None ==> outcome == LoginRequired
      ensures old(cart) != [] && session != None ==>
        !outcome.EmptyCart? && !outcome.LoginRequired? &&
        outcome.order == OrderFor(counter, old(cart), session.value, now, BillIdFrom(draws)) &&
        (outcome.Placed? <==> reply == Replied(200) || reply == Replied(201)) &&
        (outcome.Declined? <==> Resolves(reply) && reply.status != 200 && reply.status != 201) &&
        (outcome.ConnectionFailed? <==> !Resolves(reply))
      ensures cart == if outcome.Placed? then [] else old(cart)
    {
      if |cart| == 0 {
        return EmptyCart;
      }
      if session == None {
        return LoginRequired;
      }
      var user := session.value;
      var billid := GenerateBillId(draws);
      var order := Order(OrderUserId(user), OrderUsername(user), FoodItems(cart), OrderPrice(counter, cart),
        billid, FormatDate(now), FormatTime(now));
      if !Resolves(reply) {
        outcome := ConnectionFailed(order);
      } else if reply.status == 200 || reply.status == 201 {
        outcome := Placed(order);
        cart := [];
      } else {
        outcome := Declined(order);
      }
    }
  }
}
