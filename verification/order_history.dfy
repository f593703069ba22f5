/**
 * The Home screen's order history: `fetchUserOrders` cleans the stored name,
 * asks the order endpoint for that user's orders, drops orders without a
 * user name, keeps the first order of each bill id, and sorts the rest
 * newest first. Also the screen's display name, its dd/mm/yyyy date and
 * the restaurant an order is attributed to.
 */
module OrderHistory {
  import opened Wrappers
  import Text
  import Seqs
  import Http
  import Greeting
  import Checkout

  /** An order as the order endpoint returns it; an absent field is "". */
  datatype OrderRecord = OrderRecord(
    billid: string, username: string, fooditems: string, price: string, date: string, time: string)

  const NoOrdersMessage := "No orders found for your account."
  const NoDataMessage := "No order data available from server."

  // ---- Cleaning the user name ----

  /** The cleaning at the top of `fetchUserOrders`, one reassignment per step; there is no trim first. */
  method CleanUsername(username: string) returns (clean: string)
    ensures clean == Greeting.StripWelcome(username)
  {
    clean := username;
    if clean != "" && Greeting.HasWelcome(clean) {
      clean := Text.Trim(clean[|Greeting.WelcomePrefix|..]);
    }
    if clean != "" && Text.EndsWith(clean, '!') {
      clean := Text.Trim(clean[..|clean| - 1]);
    }
  }

  // ---- The valid-order filter ----

  /** `order.username && order.username.trim() !== ''`. */
  predicate IsValidOrder(order: OrderRecord) {
    !Text.IsBlank(order.username)
  }

  function ValidOrders(orders: seq<OrderRecord>): seq<OrderRecord> {
    Seqs.Filter(orders, IsValidOrder)
  }

  /** The filter keeps, in order, exactly the orders whose user name is not blank. */
  lemma ValidOrdersMeans(orders: seq<OrderRecord>)
    ensures Seqs.IsSubsequence(ValidOrders(orders), orders)
    ensures forall i :: 0 <= i < |ValidOrders(orders)| ==>
      (ValidOrders(orders)[i].username != "" && Text.Trim(ValidOrders(orders)[i].username) != "")
    ensures forall x :: x in ValidOrders(orders) <==> x in orders && IsValidOrder(x)
  {
    Seqs.FilterMeans(orders, IsValidOrder);
    Seqs.FilterMembers(orders, IsValidOrder);
    forall i | 0 <= i < |ValidOrders(orders)|
      ensures ValidOrders(orders)[i].username != "" && Text.Trim(ValidOrders(orders)[i].username) != ""
    {
      Text.BlankIffTrimsToEmpty(ValidOrders(orders)[i].username);
    }
  }

  // ---- De-duplication by bill id ----

  /** The first order in `orders` with bill id `billid`, if any. */
  function FirstWith(orders: seq<OrderRecord>, billid: string): Option<OrderRecord>
    decreases |orders|
  {
    if orders == [] then None
    else if orders[0].billid == billid then Some(orders[0])
    else FirstWith(orders[1..], billid)
  }

  function BillIds(orders: seq<OrderRecord>): set<string> {
    set k | 0 <= k < |orders| :: orders[k].billid
  }

  /** What the `forEach` keeps, given the bill ids already `seen`. */
  function KeepFirst(orders: seq<OrderRecord>, seen: set<string>): seq<OrderRecord>
    decreases |orders|
  {
    if orders == [] then []
    else if orders[0].billid != "" && orders[0].billid !in seen then
      [orders[0]] + KeepFirst(orders[1..], seen + {orders[0].billid})
    else KeepFirst(orders[1..], seen)
  }

  lemma BillIdsCons(o: OrderRecord, t: seq<OrderRecord>)
    ensures BillIds([o] + t) == {o.billid} + BillIds(t)
  {
    var r := [o] + t;
    assert r[0] == o;
    forall b | b in BillIds(t) ensures b in BillIds(r) {
      var k :| 0 <= k < |t| && t[k].billid == b;
      assert r[k + 1] == t[k];
    }
    forall b | b in BillIds(r) ensures b == o.billid || b in BillIds(t) {
      var k :| 0 <= k < |r| && r[k].billid == b;
      if k > 0 {
        assert r[k] == t[k - 1];
      }
    }
  }

  /** The de-duplication keeps orders of its input, in their original order. */
  lemma {:induction false} KeepFirstSubsequence(orders: seq<OrderRecord>, seen: set<string>)
    ensures Seqs.IsSubsequence(KeepFirst(orders, seen), orders)
    decreases |orders|
  {
    if orders != [] {
      var o := orders[0];
      if o.billid != "" && o.billid !in seen {
        KeepFirstSubsequence(orders[1..], seen + {o.billid});
        assert KeepFirst(orders, seen)[1..] == KeepFirst(orders[1..], seen + {o.billid});
      } else {
        KeepFirstSubsequence(orders[1..], seen);
      }
    }
  }

  /** Every kept bill id is non-empty and unseen before, and no two kept orders share one. */
  lemma {:induction false} KeepFirstFresh(orders: seq<OrderRecord>, seen: set<string>)
    ensures forall k :: 0 <= k < |KeepFirst(orders, seen)| ==>
      KeepFirst(orders, seen)[k].billid != "" && KeepFirst(orders, seen)[k].billid !in seen
    ensures forall j, k :: 0 <= j < k < |KeepFirst(orders, seen)| ==>
      KeepFirst(orders, seen)[j].billid != KeepFirst(orders, seen)[k].billid
    decreases |orders|
  {
    if orders != [] {
      var o := orders[0];
      if o.billid != "" && o.billid !in seen {
        var r, t := KeepFirst(orders, seen), KeepFirst(orders[1..], seen + {o.billid});
        KeepFirstFresh(orders[1..], seen + {o.billid});
        assert r == [o] + t;
        assert forall k :: 0 < k < |r| ==> r[k] == t[k - 1];
      } else {
        KeepFirstFresh(orders[1..], seen);
        assert KeepFirst(orders, seen) == KeepFirst(orders[1..], seen);
      }
    }
  }

  /** Each kept order is the first in the input with its bill id. */
  lemma {:induction false} KeepFirstFirst(orders: seq<OrderRecord>, seen: set<string>)
    ensures forall k :: 0 <= k < |KeepFirst(orders, seen)| ==>
      FirstWith(orders, KeepFirst(orders, seen)[k].billid) == Some(KeepFirst(orders, seen)[k])
    decreases |orders|
  {
    if orders != [] {
      var o := orders[0];
      var r := KeepFirst(orders, seen);
      if o.billid != "" && o.billid !in seen {
        var t := KeepFirst(orders[1..], seen + {o.billid});
        KeepFirstFirst(orders[1..], seen + {o.billid});
        KeepFirstFresh(orders[1..], seen + {o.billid});
        assert r == [o] + t;
        forall k | 0 < k < |r| ensures FirstWith(orders, r[k].billid) == Some(r[k]) {
          assert r[k] == t[k - 1];
          assert t[k - 1].billid != o.billid;
        }
      } else {
        KeepFirstFirst(orders[1..], seen);
        KeepFirstFresh(orders[1..], seen);
        assert r == KeepFirst(orders[1..], seen);
      }
    }
  }

  /** Every non-empty bill id of the input not seen before is among the kept ones. */
  lemma {:induction false} KeepFirstCovers(orders: seq<OrderRecord>, seen: set<string>)
    ensures forall i :: 0 <= i < |orders| && orders[i].billid != "" && orders[i].billid !in seen ==>
      orders[i].billid in BillIds(KeepFirst(orders, seen))
    decreases |orders|
  {
    if orders != [] {
      var o := orders[0];
      var r := KeepFirst(orders, seen);
      assert forall i :: 0 < i < |orders| ==> orders[i] == orders[1..][i - 1];
      if o.billid != "" && o.billid !in seen {
        KeepFirstCovers(orders[1..], seen + {o.billid});
        BillIdsCons(o, KeepFirst(orders[1..], seen + {o.billid}));
      } else {
        KeepFirstCovers(orders[1..], seen);
      }
    }
  }

  /**
   * The de-duplication keeps a subsequence of its input; every bill id kept is
   * non-empty and was not seen before; the kept bill ids are pairwise distinct;
   * each kept order is the first with its bill id; and every non-empty bill id
   * not seen before is kept.
   */
  lemma KeepFirstMeans(orders: seq<OrderRecord>, seen: set<string>)
    ensures var r := KeepFirst(orders, seen);
      Seqs.IsSubsequence(r, orders) &&
      (forall k :: 0 <= k < |r| ==> r[k].billid != "" && r[k].billid !in seen) &&
      (forall j, k :: 0 <= j < k < |r| ==> r[j].billid != r[k].billid) &&
      (forall k :: 0 <= k < |r| ==> FirstWith(orders, r[k].billid) == Some(r[k])) &&
      (forall i :: 0 <= i < |orders| && orders[i].billid != "" && orders[i].billid !in seen ==>
        orders[i].billid in BillIds(r))
  {
    KeepFirstSubsequence(orders, seen);
    KeepFirstFresh(orders, seen);
    KeepFirstFirst(orders, seen);
    KeepFirstCovers(orders, seen);
  }

  /** The loop of `fetchUserOrders` that pushes each order whose bill id is truthy and not yet in the set. */
  method DedupByBillId(orders: seq<OrderRecord>) returns (unique: seq<OrderRecord>)
    ensures unique == KeepFirst(orders, {})
    ensures Seqs.IsSubsequence(unique, orders)
    ensures forall k :: 0 <= k < |unique| ==> unique[k].billid != ""
    ensures forall j, k :: 0 <= j < k < |unique| ==> unique[j].billid != unique[k].billid
    ensures forall k :: 0 <= k < |unique| ==> FirstWith(orders, unique[k].billid) == Some(unique[k])
    ensures forall i :: 0 <= i < |orders| && orders[i].billid != "" ==> orders[i].billid in BillIds(unique)
  {
    unique := [];
    var seen: set<string> := {};
    for i := 0 to |orders|
      invariant unique + KeepFirst(orders[i..], seen) == KeepFirst(orders, {})
    {
      var order := orders[i];
      assert orders[i..][1..] == orders[i + 1..];
      if order.billid != "" && order.billid !in seen {
        seen := seen + {order.billid};
        unique := unique + [order];
      }
    }
    assert orders[|orders|..] == [];
    KeepFirstMeans(orders, {});
  }

  // ---- Sorting newest first ----

  /** A parsed date and time. */
  datatype Stamp = Stamp(year: int, month: int, day: int, hour: int, minute: int)

  /** Gregorian leap years. */
  predicate LeapYear(year: int) {
    (year % 4 == 0 && year % 100 != 0) || year % 400 == 0
  }

  /** The number of days in a month of the Gregorian calendar. */
  function DaysInMonth(year: int, month: int): (days: int)
    ensures 28 <= days <= 31
  {
    if month == 2 then (if LeapYear(year) then 29 else 28)
    else if month == 4 || month == 6 || month == 9 || month == 11 then 30
    else 31
  }

  /** A minute of a day that exists in the calendar. */
  predicate ValidStamp(s: Stamp) {
    0 <= s.year && 1 <= s.month <= 12 && 1 <= s.day <= DaysInMonth(s.year, s.month) &&
    0 <= s.hour < 24 && 0 <= s.minute < 60
  }

  /** What `new Date(0)` stands for when an order has no date: 1970-01-01 00:00. */
  const Epoch := Stamp(1970, 1, 1, 0, 0)

  predicate IsNumber(s: string, minLength: nat, maxLength: nat) {
    minLength <= |s| <= maxLength && Text.AllDigits(s)
  }

  /**
   * A dd-mm-yyyy date (day and month of one or two digits) that exists in
   * the calendar: a day such as 31-02-2024 is outside the model.
   */
  predicate WellFormedDate(date: string) {
    var p := Text.Split(date, '-');
    |p| == 3 && IsNumber(p[0], 1, 2) && IsNumber(p[1], 1, 2) && IsNumber(p[2], 4, 4) &&
    1 <= Text.DigitsValue(p[1]) <= 12 &&
    1 <= Text.DigitsValue(p[0]) <= DaysInMonth(Text.DigitsValue(p[2]), Text.DigitsValue(p[1]))
  }

  /** An HH:MM time on the 24-hour clock. */
  predicate WellFormedTime(time: string) {
    var p := Text.Split(time, ':');
    |p| == 2 && IsNumber(p[0], 2, 2) && IsNumber(p[1], 2, 2) &&
    Text.DigitsValue(p[0]) < 24 && Text.DigitsValue(p[1]) < 60
  }

  /** The orders the sort is modelled on: no date, or a well-formed date with no time or a well-formed time. */
  predicate WellFormedStamp(order: OrderRecord) {
    order.date == "" || (WellFormedDate(order.date) && (order.time == "" || WellFormedTime(order.time)))
  }

  predicate AllWellFormed(orders: seq<OrderRecord>) {
    forall i :: 0 <= i < |orders| ==> WellFormedStamp(orders[i])
  }

  /** `parseDateTime`: the date's three parts, and the time or "00:00"; no date stands for the epoch. */
  function StampOf(order: OrderRecord): (s: Stamp)
    requires WellFormedStamp(order)
    ensures ValidStamp(s)
  {
    if order.date == "" then Epoch
    else
      var p := Text.Split(order.date, '-');
      var t := Text.Split(if order.time == "" then "00:00" else order.time, ':');
      MidnightParts();
      Stamp(Text.DigitsValue(p[2]), Text.DigitsValue(p[1]), Text.DigitsValue(p[0]),
        Text.DigitsValue(t[0]), Text.DigitsValue(t[1]))
  }

  /** The "00:00" that stands for a missing time splits into two two-digit parts. */
  lemma MidnightParts()
    ensures Text.Split("00:00", ':') == ["00", "00"]
    ensures WellFormedTime("00:00")
  {
    assert "00:00" == "00" + [':'] + "00";
    Text.SplitPrefixed("00", ':', "00");
    Text.SplitFree("00", ':');
  }

  /** `a` is strictly earlier than `b`: the (year, month, day, hour, minute) order. */
  predicate Earlier(a: Stamp, b: Stamp) {
    a.year < b.year || (a.year == b.year && (a.month < b.month || (a.month == b.month &&
    (a.day < b.day || (a.day == b.day && (a.hour < b.hour || (a.hour == b.hour && a.minute < b.minute)))))))
  }

  /**
   * A number of minutes, counting every month as 31 days: on the stamps of
   * calendar dates it orders them as the calendar does (see `RankOrder`).
   */
  function Rank(s: Stamp): int {
    (((s.year * 12 + (s.month - 1)) * 31 + (s.day - 1)) * 24 + s.hour) * 60 + s.minute
  }

  /** The rank agrees with the calendar order on valid stamps, and distinguishes them. */
  lemma RankOrder(a: Stamp, b: Stamp)
    requires ValidStamp(a) && ValidStamp(b)
    ensures Rank(a) < Rank(b) <==> Earlier(a, b)
    ensures Rank(a) == Rank(b) <==> a == b
  {
  }

  /** The key the comparator subtracts. */
  function SortKey(order: OrderRecord): int
    requires WellFormedStamp(order)
  {
    Rank(StampOf(order))
  }

  /** Every pair in newest-first order. */
  predicate NewestFirst(orders: seq<OrderRecord>)
    requires AllWellFormed(orders)
  {
    forall i, j :: 0 <= i < j < |orders| ==> SortKey(orders[i]) >= SortKey(orders[j])
  }

  /** One step of a stable sort: `x` goes before the first element it is not older than. */
  function Insert(x: OrderRecord, sorted: seq<OrderRecord>): (r: seq<OrderRecord>)
    requires WellFormedStamp(x) && AllWellFormed(sorted)
    ensures AllWellFormed(r)
    decreases |sorted|
  {
    if sorted == [] then [x]
    else if SortKey(x) >= SortKey(sorted[0]) then [x] + sorted
    else
      var rest := Insert(x, sorted[1..]);
      assert forall i :: 0 < i < |[sorted[0]] + rest| ==> ([sorted[0]] + rest)[i] == rest[i - 1];
      [sorted[0]] + rest
  }

  /** Inserting adds `x` and loses nothing. */
  lemma {:induction false} InsertPermutes(x: OrderRecord, sorted: seq<OrderRecord>)
    requires WellFormedStamp(x) && AllWellFormed(sorted)
    ensures multiset(Insert(x, sorted)) == multiset([x] + sorted)
    decreases |sorted|
  {
    if sorted != [] && SortKey(x) < SortKey(sorted[0]) {
      InsertPermutes(x, sorted[1..]);
      assert sorted == [sorted[0]] + sorted[1..];
    }
  }

  /**
   * `uniqueOrders.sort(...)` with the comparator `dateTimeB - dateTimeA`, as the
   * stable sort the language provides: newest first, ties in their original order.
   */
  function SortNewestFirst(orders: seq<OrderRecord>): (r: seq<OrderRecord>)
    requires AllWellFormed(orders)
    ensures multiset(r) == multiset(orders)
    ensures AllWellFormed(r)
    decreases |orders|
  {
    if orders == [] then []
    else
      var rest := SortNewestFirst(orders[1..]);
      InsertPermutes(orders[0], rest);
      assert orders == [orders[0]] + orders[1..];
      Insert(orders[0], rest)
  }

  lemma InsertMembers(x: OrderRecord, sorted: seq<OrderRecord>)
    requires WellFormedStamp(x) && AllWellFormed(sorted)
    ensures forall y :: y in Insert(x, sorted) <==> y == x || y in sorted
  {
    var r := Insert(x, sorted);
    InsertPermutes(x, sorted);
    forall y ensures y in r <==> y == x || y in sorted {
      assert y in r <==> y in multiset(r);
      assert y in [x] + sorted <==> y in multiset([x] + sorted);
    }
  }

  lemma ConsNewestFirst(h: OrderRecord, t: seq<OrderRecord>)
    requires WellFormedStamp(h) && AllWellFormed(t) && NewestFirst(t)
    requires forall k :: 0 <= k < |t| ==> SortKey(h) >= SortKey(t[k])
    ensures AllWellFormed([h] + t) && NewestFirst([h] + t)
  {
    var r := [h] + t;
    assert forall k :: 0 < k < |r| ==> r[k] == t[k - 1];
  }

  lemma {:induction false} InsertKeepsOrder(x: OrderRecord, sorted: seq<OrderRecord>)
    requires WellFormedStamp(x) && AllWellFormed(sorted) && NewestFirst(sorted)
    ensures NewestFirst(Insert(x, sorted))
    decreases |sorted|
  {
    if sorted == [] {
    } else if SortKey(x) >= SortKey(sorted[0]) {
      ConsNewestFirst(x, sorted);
    } else {
      var s0, tail := sorted[0], sorted[1..];
      assert forall k :: 0 <= k < |tail| ==> tail[k] == sorted[k + 1];
      InsertKeepsOrder(x, tail);
      var rest := Insert(x, tail);
      InsertMembers(x, tail);
      forall k | 0 <= k < |rest| ensures SortKey(s0) >= SortKey(rest[k]) {
        var y := rest[k];
        assert y in rest;
        if y != x {
          var m :| 0 <= m < |tail| && tail[m] == y;
        }
      }
      ConsNewestFirst(s0, rest);
    }
  }

  /** The sort returns its input in newest-first order. */
  lemma {:induction false} SortIsNewestFirst(orders: seq<OrderRecord>)
    requires AllWellFormed(orders)
    ensures NewestFirst(SortNewestFirst(orders))
    decreases |orders|
  {
    if orders != [] {
      SortIsNewestFirst(orders[1..]);
      InsertKeepsOrder(orders[0], SortNewestFirst(orders[1..]));
    }
  }

  /** The orders with sort key `key`. */
  predicate HasKey(order: OrderRecord, key: int) {
    WellFormedStamp(order) && SortKey(order) == key
  }

  /** The orders of `orders` with sort key `key`, in their order there. */
  function WithKey(orders: seq<OrderRecord>, key: int): seq<OrderRecord>
    decreases |orders|
  {
    if orders == [] then []
    else (if HasKey(orders[0], key) then [orders[0]] else []) + WithKey(orders[1..], key)
  }

  lemma WithKeyCons(o: OrderRecord, s: seq<OrderRecord>, key: int)
    ensures WithKey([o] + s, key) == (if HasKey(o, key) then [o] else []) + WithKey(s, key)
  {
    assert ([o] + s)[1..] == s;
  }

  /** Two neighbours that do not both have the key can trade places without changing the keyed orders. */
  lemma WithKeySwap(a: OrderRecord, b: OrderRecord, s: seq<OrderRecord>, key: int)
    requires !(HasKey(a, key) && HasKey(b, key))
    ensures WithKey([a] + ([b] + s), key) == WithKey([b] + ([a] + s), key)
  {
    WithKeyCons(a, [b] + s, key);
    WithKeyCons(b, s, key);
    WithKeyCons(b, [a] + s, key);
    WithKeyCons(a, s, key);
  }

  lemma {:induction false} InsertIsStable(x: OrderRecord, sorted: seq<OrderRecord>, key: int)
    requires WellFormedStamp(x) && AllWellFormed(sorted)
    ensures WithKey(Insert(x, sorted), key) == WithKey([x] + sorted, key)
    decreases |sorted|
  {
    if sorted != [] && SortKey(x) < SortKey(sorted[0]) {
      var s0, tail := sorted[0], sorted[1..];
      var rest := Insert(x, tail);
      assert Insert(x, sorted) == [s0] + rest;
      assert sorted == [s0] + tail;
      calc {
        WithKey([s0] + rest, key);
        { WithKeyCons(s0, rest, key); }
        (if HasKey(s0, key) then [s0] else []) + WithKey(rest, key);
        { InsertIsStable(x, tail, key); }
        (if HasKey(s0, key) then [s0] else []) + WithKey([x] + tail, key);
        { WithKeyCons(s0, [x] + tail, key); }
        WithKey([s0] + ([x] + tail), key);
        { WithKeySwap(s0, x, tail, key); }
        WithKey([x] + sorted, key);
      }
    } else {
      assert Insert(x, sorted) == [x] + sorted;
    }
  }

  /** The sort is stable: the orders sharing a key keep their relative order. */
  lemma {:induction false} SortIsStable(orders: seq<OrderRecord>, key: int)
    requires AllWellFormed(orders)
    ensures WithKey(SortNewestFirst(orders), key) == WithKey(orders, key)
    decreases |orders|
  {
    if orders != [] {
      var rest := SortNewestFirst(orders[1..]);
      SortIsStable(orders[1..], key);
      InsertIsStable(orders[0], rest, key);
      assert ([orders[0]] + rest)[1..] == rest;
    }
  }

  /** An order without a date sorts after every order dated after 1970. */
  lemma UndatedLast(orders: seq<OrderRecord>)
    requires AllWellFormed(orders)
    ensures var r := SortNewestFirst(orders);
      forall i, j ::
        (0 <= i < |r| && 0 <= j < |r| && r[i].date == "" && r[j].date != "" && StampOf(r[j]).year > 1970) ==> j < i
  {
    var r := SortNewestFirst(orders);
    SortIsNewestFirst(orders);
    forall i, j | 0 <= i < |r| && 0 <= j < |r| && r[i].date == "" && r[j].date != "" && StampOf(r[j]).year > 1970
      ensures j < i
    {
      RankOrder(StampOf(r[i]), StampOf(r[j]));
    }
  }

  // ---- fetchUserOrders ----

  /** The whole pipeline on an array reply. */
  function ProcessOrders(list: seq<OrderRecord>): seq<OrderRecord>
    requires AllWellFormed(list)
  {
    var unique := KeepFirst(ValidOrders(list), {});
    KeepFirstMeans(ValidOrders(list), {});
    ValidOrdersMeans(list);
    Seqs.SubsequenceMembers(unique, ValidOrders(list));
    Seqs.SubsequenceMembers(ValidOrders(list), list);
    SortNewestFirst(unique)
  }

  /** Every order shown has a user name, a bill id of its own, and the list runs newest first. */
  lemma ProcessedOrders(list: seq<OrderRecord>)
    requires AllWellFormed(list)
    ensures var r := ProcessOrders(list);
      AllWellFormed(r) && NewestFirst(r) &&
      (forall k :: 0 <= k < |r| ==> IsValidOrder(r[k]) && r[k].billid != "" && r[k] in list) &&
      (forall j, k :: 0 <= j < k < |r| ==> r[j].billid != r[k].billid)
  {
    var valid := ValidOrders(list);
    var unique := KeepFirst(valid, {});
    var r := ProcessOrders(list);
    KeepFirstMeans(valid, {});
    ValidOrdersMeans(list);
    Seqs.SubsequenceMembers(unique, valid);
    SortIsNewestFirst(unique);
    forall k | 0 <= k < |r| ensures IsValidOrder(r[k]) && r[k].billid != "" && r[k] in list {
      assert r[k] in multiset(unique);
    }
    DistinctIdsPermuted(unique, r);
  }

  predicate DistinctIds(s: seq<OrderRecord>) {
    forall j, k :: 0 <= j < k < |s| ==> s[j].billid != s[k].billid
  }

  /** Reordering keeps bill ids pairwise distinct. */
  lemma DistinctIdsPermuted(a: seq<OrderRecord>, b: seq<OrderRecord>)
    requires DistinctIds(a) && multiset(a) == multiset(b)
    ensures DistinctIds(b)
  {
    forall j, k | 0 <= j < k < |b| ensures b[j].billid != b[k].billid {
      assert b[j] in multiset(a) && b[k] in multiset(a);
      var p :| 0 <= p < |a| && a[p] == b[j];
      var q :| 0 <= q < |a| && a[q] == b[k];
      if b[j] == b[k] {
        MultisetTwoPositions(b, j, k);
        DistinctIdsOnce(a, p);
        assert false;
      } else {
        assert p != q;
      }
    }
  }

  /** Two positions holding the same value count twice in the multiset. */
  lemma MultisetTwoPositions(s: seq<OrderRecord>, j: nat, k: nat)
    requires j < k < |s| && s[j] == s[k]
    ensures multiset(s)[s[j]] >= 2
  {
    assert s == s[..j] + [s[j]] + s[j + 1..k] + [s[k]] + s[k + 1..];
  }

  /** With pairwise distinct bill ids, each order occurs once. */
  lemma {:induction false} DistinctIdsOnce(s: seq<OrderRecord>, a: nat)
    requires a < |s| && DistinctIds(s)
    ensures multiset(s)[s[a]] == 1
    decreases |s|
  {
    var x := s[a];
    var tail := s[1..];
    assert s == [s[0]] + tail;
    assert multiset(s) == multiset([s[0]]) + multiset(tail);
    if a == 0 {
      forall k | 0 <= k < |tail| ensures tail[k] != x {
        assert tail[k] == s[k + 1];
      }
      assert x !in tail;
    } else {
      assert DistinctIds(tail) by {
        forall j, k | 0 <= j < k < |tail| ensures tail[j].billid != tail[k].billid {
          assert tail[j] == s[j + 1] && tail[k] == s[k + 1];
        }
      }
      DistinctIdsOnce(tail, a - 1);
      assert tail[a - 1] == x;
      assert s[0].billid != x.billid;
    }
  }

  /** How the order request ended. */
  datatype FetchReply =
    | Received(data: Option<seq<OrderRecord>>)   // a response; `None` when its data is not an array
    | Failed(failure: Http.Failure)

  /** The `catch` of `fetchUserOrders`. */
  function FetchFailureMessage(f: Http.Failure): string {
    match f
    case Response(status, _) =>
      if status == 400 then "Bad request. Please check your username."
      else if status == 404 then NoOrdersMessage
      else if status == 500 then "Server error. Please try again later."
      else "Failed to load order history. Please try again later."
    case NoResponse => Http.NetworkError
    case Unexpected => "Failed to load order history. Please try again later."
  }

  /** A 404 and an empty history read the same; every failure shows a message. */
  lemma FetchFailureMessages(f: Http.Failure, data: string)
    ensures FetchFailureMessage(Http.Response(404, data)) == NoOrdersMessage
    ensures FetchFailureMessage(f) != ""
  {
  }

  /** The screen's order list and error text. */
  class HomeScreen {
    var orders: seq<OrderRecord>
    var orderError: string

    constructor ()
      ensures orders == [] && orderError == ""
    {
      orders := [];
      orderError := "";
    }

    /**
     * `fetchUserOrders`: returns the cleaned name it queries with. An array
     * reply replaces the list with the processed orders; anything else leaves
     * the list and sets an error.
     */
    method FetchUserOrders(username: string, reply: FetchReply) returns (queried: string)
      requires reply.Received? && reply.data.Some? ==> AllWellFormed(reply.data.value)
      modifies this
      ensures queried == Greeting.StripWelcome(username)
      ensures reply.Received? && reply.data.Some? ==>
        orders == ProcessOrders(reply.data.value) &&
        orderError == (if orders == [] then NoOrdersMessage else "")
      ensures reply == Received(None) ==> orders == old(orders) && orderError == NoDataMessage
      ensures reply.Failed? ==> orders == old(orders) && orderError == FetchFailureMessage(reply.failure)
    {
      orderError := "";
      queried := CleanUsername(username);
      match reply {
        case Received(Some(list)) =>
          var valid := ValidOrders(list);
          var unique := DedupByBillId(valid);
          assert unique == KeepFirst(ValidOrders(list), {});
          orders := ProcessOrders(list);
          if |orders| == 0 {
            orderError := NoOrdersMessage;
          }
        case Received(None) =>
          orderError := NoDataMessage;
        case Failed(f) =>
          orderError := FetchFailureMessage(f);
      }
    }
  }

  // ---- Display helpers ----

  /** The signed-in user as Home reads it; an absent field is "". */
  datatype SessionUser = SessionUser(username: string, contactNumber: string)

  /** `getDisplayName`: the trimmed, cleaned name; else the contact number; else "User". */
  function DisplayName(user: Option<SessionUser>): string {
    match user
    case None => "User"
    case Some(u) =>
      if !Text.IsBlank(u.username) then Greeting.StripWelcome(Text.Trim(u.username))
      else if u.contactNumber != "" then u.contactNumber
      else "User"
  }

  /** A stored greeting shows as the bare name; a blank name falls back to the contact number, then "User". */
  lemma DisplayNameCases(user: SessionUser, welcome: string, name: string)
    requires |welcome| == |Greeting.WelcomePrefix| && Text.ToLower(welcome) == Greeting.WelcomePrefix
    requires name != [] && !Text.IsSpace(name[0]) && !Text.IsSpace(name[|name| - 1])
    ensures DisplayName(Some(SessionUser(welcome + name + "!", user.contactNumber))) == name
    ensures Text.IsBlank(user.username) ==>
      DisplayName(Some(user)) == (if user.contactNumber != "" then user.contactNumber else "User")
  {
    var s := welcome + name + "!";
    assert !Text.IsSpace(s[|s| - 1]);
    assert !Text.IsSpace(s[0]) by {
      assert s[0] == welcome[0];
      assert Text.ToLower(welcome)[0] == 'w';
    }
    Text.TrimOfTrimmed(s);
    assert !Text.IsBlank(s);
    Greeting.GreetingRoundTrip(welcome, name);
  }

  /** Home's `formatDate`: "N/A" for no date, d/m/y when the first three '-' parts are present, else the text. */
  function FormatOrderDate(date: string): string {
    if date == "" then "N/A"
    else
      var p := Text.Split(date, '-');
      if |p| >= 3 && p[0] != "" && p[1] != "" && p[2] != "" then p[0] + "/" + p[1] + "/" + p[2]
      else date
  }

  /** A date stamped at checkout shows with slashes; a string without '-' shows as it is. */
  lemma FormatOrderDateCases(c: Checkout.Clock, date: string)
    requires Checkout.ValidClock(c)
    ensures FormatOrderDate(Checkout.FormatDate(c)) ==
      Checkout.TwoDigits(c.day) + "/" + Checkout.TwoDigits(c.month) + "/" + Text.Decimal(c.year)
    ensures date != "" && '-' !in date ==> FormatOrderDate(date) == date
  {
    Checkout.FormatDateParts(c);
    if date != "" && '-' !in date {
      Text.SplitFree(date, '-');
    }
  }

  /** Which counter an order is attributed to; nothing is shown for an order without items. */
  function RestaurantOf(fooditems: string): Option<string> {
    if fooditems == "" then None
    else
      var lower := Text.ToLower(fooditems);
      if Text.Contains(lower, "cake") || Text.Contains(lower, "pastry") || Text.Contains(lower, "mousse") ||
        Text.Contains(lower, "brownie") || Text.Contains(lower, "ice cream") then Some("Food Court")
      else if Text.Contains(lower, "chowmin") || Text.Contains(lower, "biriyani") || Text.Contains(lower, "rice") ||
        Text.Contains(lower, "dosa") || Text.Contains(lower, "idli") then Some("Main Cafe")
      else if Text.Contains(lower, "burger") || Text.Contains(lower, "patties") || Text.Contains(lower, "fritters") ||
        Text.Contains(lower, "hot dog") then Some("Time Out")
      else Some("Unknown Center")
  }

  predicate FoodCourtWord(lower: string) {
    Text.Contains(lower, "cake") || Text.Contains(lower, "pastry") || Text.Contains(lower, "mousse") ||
    Text.Contains(lower, "brownie") || Text.Contains(lower, "ice cream")
  }

  predicate MainCafeWord(lower: string) {
    Text.Contains(lower, "chowmin") || Text.Contains(lower, "biriyani") || Text.Contains(lower, "rice") ||
    Text.Contains(lower, "dosa") || Text.Contains(lower, "idli")
  }

  predicate TimeOutWord(lower: string) {
    Text.Contains(lower, "burger") || Text.Contains(lower, "patties") || Text.Contains(lower, "fritters") ||
    Text.Contains(lower, "hot dog")
  }

  /**
   * Keyword priority: Food Court words win, then Main Cafe, then Time Out; an
   * order mixing a pastry and a biriyani is a Food Court order.
   */
  lemma RestaurantPriority(fooditems: string)
    requires fooditems != ""
    ensures var lower := Text.ToLower(fooditems);
      (RestaurantOf(fooditems) == Some("Food Court") <==> FoodCourtWord(lower)) &&
      (RestaurantOf(fooditems) == Some("Main Cafe") <==> !FoodCourtWord(lower) && MainCafeWord(lower)) &&
      (RestaurantOf(fooditems) == Some("Time Out") <==>
        !FoodCourtWord(lower) && !MainCafeWord(lower) && TimeOutWord(lower)) &&
      (RestaurantOf(fooditems) == Some("Unknown Center") <==>
        !FoodCourtWord(lower) && !MainCafeWord(lower) && !TimeOutWord(lower))
  {
  }
}
