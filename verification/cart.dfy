/**
 * The cart engine that each of the three counter screens (Main Cafe, Food
 * Court, Time Out) carries as an identical copy: an ordered list of lines
 * merged by food id, a subtotal, a fixed 5% GST and the grand total.
 * Money is exact (`real`); the screens' floating-point rounding is not modelled.
 */
module Cart {
  import Seqs

  /** A menu entry as a counter's endpoint returns it. */
  datatype MenuItem = MenuItem(fid: string, fname: string, price: real)

  /** A cart line: the item's fields spread into a record, plus a quantity. */
  datatype Line = Line(fid: string, fname: string, price: real, quantity: int)

  /** Position of the first line with food id `fid` (what `find` returns), or |cart| when there is none. */
  function IndexOf(cart: seq<Line>, fid: string): (k: nat)
    ensures k <= |cart|
    ensures k < |cart| ==> cart[k].fid == fid
    decreases |cart|
  {
    if cart == [] then 0
    else if cart[0].fid == fid then 0
    else 1 + IndexOf(cart[1..], fid)
  }

  predicate InCart(cart: seq<Line>, fid: string) {
    IndexOf(cart, fid) < |cart|
  }

  /** The cart invariant: food ids are pairwise distinct and every quantity is at least 1. */
  predicate Valid(cart: seq<Line>)
    decreases |cart|
  {
    cart == [] || (cart[0].quantity >= 1 && !InCart(cart[1..], cart[0].fid) && Valid(cart[1..]))
  }

  /** The `map` both handlers use: change the quantity of the lines with food id `fid` by `delta`. */
  function Bump(cart: seq<Line>, fid: string, delta: int): (r: seq<Line>)
    ensures |r| == |cart|
    decreases |cart|
  {
    if cart == [] then []
    else
      var head := if cart[0].fid == fid then cart[0].(quantity := cart[0].quantity + delta) else cart[0];
      [head] + Bump(cart[1..], fid, delta)
  }

  /** The `filter` that `removeFromCart` uses to drop a line. */
  function Without(cart: seq<Line>, fid: string): seq<Line> {
    Seqs.Filter(cart, (l: Line) => l.fid != fid)
  }

  /** Number of items in the cart: the sum of the line quantities. */
  function ItemCount(cart: seq<Line>): int
    decreases |cart|
  {
    if cart == [] then 0 else cart[0].quantity + ItemCount(cart[1..])
  }

  /** `calculateSubtotal` (`calculateTotal` in Time Out): the sum of price times quantity. */
  function Subtotal(cart: seq<Line>): real
    decreases |cart|
  {
    if cart == [] then 0.0 else cart[0].price * cart[0].quantity as real + Subtotal(cart[1..])
  }

  /** `calculateGST`: 5% of the subtotal. */
  function Gst(cart: seq<Line>): real {
    Subtotal(cart) * 0.05
  }

  /** `calculateTotalWithGST`: subtotal plus GST, that is 105% of the subtotal. */
  function TotalWithGst(cart: seq<Line>): (r: real)
    ensures r == Subtotal(cart) + Gst(cart)
    ensures r == Subtotal(cart) * 1.05
  {
    var subtotal := Subtotal(cart);
    subtotal + subtotal * 0.05
  }

  /** `addToCart`: increment the line with the item's food id, or append a new line with quantity 1. */
  function Add(cart: seq<Line>, item: MenuItem): (r: seq<Line>)
    ensures InCart(r, item.fid)
    ensures forall f :: InCart(r, f) <==> InCart(cart, f) || f == item.fid
    ensures Valid(cart) ==> Valid(r) && ItemCount(r) == ItemCount(cart) + 1
  {
    if InCart(cart, item.fid) then
      var r := Bump(cart, item.fid, 1);
      IdsAfterBump(cart, item.fid, 1);
      assert Valid(cart) ==> Valid(r) && ItemCount(r) == ItemCount(cart) + 1 by {
        if Valid(cart) {
          ValidAfterBump(cart, item.fid, 1);
          SumsAfterBump(cart, item.fid, 1);
        }
      }
      r
    else
      var line := Line(item.fid, item.fname, item.price, 1);
      var r := cart + [line];
      SumsAfterAppend(cart, line);
      IdsAfterAppend(cart, line);
      assert Valid(cart) ==> Valid(r) by {
        if Valid(cart) {
          ValidAfterAppend(cart, line);
        }
      }
      r
  }

  /**
   * `removeFromCart`: drop the line when its quantity is 1, otherwise decrement it.
   * The source reads `existingItem.quantity` without checking that the line
   * exists, so the food id must be in the cart.
   */
  function Remove(cart: seq<Line>, fid: string): (r: seq<Line>)
    requires InCart(cart, fid)
    ensures forall f :: f != fid ==> (InCart(r, f) <==> InCart(cart, f))
    ensures Valid(cart) ==> Valid(r) && ItemCount(r) == ItemCount(cart) - 1
    ensures Valid(cart) ==> (InCart(r, fid) <==> cart[IndexOf(cart, fid)].quantity > 1)
  {
    if cart[IndexOf(cart, fid)].quantity == 1 then
      var r := Without(cart, fid);
      IdsWithout(cart, fid);
      assert Valid(cart) ==> Valid(r) && ItemCount(r) == ItemCount(cart) - 1 by {
        if Valid(cart) {
          SumsWithout(cart, fid);
        }
      }
      r
    else
      var r := Bump(cart, fid, -1);
      IdsAfterBump(cart, fid, -1);
      assert Valid(cart) ==> cart[IndexOf(cart, fid)].quantity > 1 && Valid(r) && ItemCount(r) == ItemCount(cart) - 1 by {
        if Valid(cart) {
          QuantityPositive(cart, fid);
          ValidAfterBump(cart, fid, -1);
          SumsAfterBump(cart, fid, -1);
        }
      }
      r
  }

  /** The price the cart adds for one more `item`: that of its existing line, else the item's own. */
  function UnitPrice(cart: seq<Line>, item: MenuItem): real {
    if InCart(cart, item.fid) then cart[IndexOf(cart, item.fid)].price else item.price
  }

  // ---- The cart invariant ----

  /** `Valid` says what its name promises: distinct food ids and quantities of at least 1. */
  lemma {:induction false} ValidMeans(cart: seq<Line>)
    ensures Valid(cart) <==>
      (forall i, j :: 0 <= i < j < |cart| ==> cart[i].fid != cart[j].fid) &&
      (forall i :: 0 <= i < |cart| ==> cart[i].quantity >= 1)
    decreases |cart|
  {
    if cart != [] {
      var t := cart[1..];
      ValidMeans(t);
      assert forall j :: 0 < j < |cart| ==> cart[j] == t[j - 1];
      IndexOfFirst(t, cart[0].fid);
      if !InCart(t, cart[0].fid) {
        assert forall j :: 0 <= j < |t| ==> t[j].fid != cart[0].fid;
      } else {
        assert t[IndexOf(t, cart[0].fid)].fid == cart[0].fid;
        assert cart[1 + IndexOf(t, cart[0].fid)].fid == cart[0].fid;
      }
    }
  }

  // ---- Lemmas about the two handlers ----

  /** Adding an item whose food id is new appends one line with quantity 1 and keeps every earlier line. */
  lemma AddNewAppends(cart: seq<Line>, item: MenuItem)
    requires !InCart(cart, item.fid)
    ensures |Add(cart, item)| == |cart| + 1
    ensures Add(cart, item)[..|cart|] == cart
    ensures Add(cart, item)[|cart|] == Line(item.fid, item.fname, item.price, 1)
  {
  }

  /** Adding an item already in a valid cart increments that line only; length and order are unchanged. */
  lemma AddExistingIncrements(cart: seq<Line>, item: MenuItem)
    requires Valid(cart) && InCart(cart, item.fid)
    ensures |Add(cart, item)| == |cart|
    ensures var k := IndexOf(cart, item.fid);
      Add(cart, item)[k] == cart[k].(quantity := cart[k].quantity + 1) &&
      forall i :: 0 <= i < |cart| && i != k ==> Add(cart, item)[i] == cart[i]
  {
    ValidMeans(cart);
    BumpAt(cart, item.fid, 1);
  }

  /** Removing the food id of a line with quantity 1 deletes exactly that line. */
  lemma RemoveLastDrops(cart: seq<Line>, fid: string)
    requires Valid(cart) && InCart(cart, fid) && cart[IndexOf(cart, fid)].quantity == 1
    ensures var k := IndexOf(cart, fid); Remove(cart, fid) == cart[..k] + cart[k + 1..]
  {
    WithoutDeletes(cart, fid);
  }

  /** Removing the food id of a line with quantity above 1 decrements that line only. */
  lemma RemoveDecrements(cart: seq<Line>, fid: string)
    requires Valid(cart) && InCart(cart, fid) && cart[IndexOf(cart, fid)].quantity > 1
    ensures |Remove(cart, fid)| == |cart|
    ensures var k := IndexOf(cart, fid);
      Remove(cart, fid)[k] == cart[k].(quantity := cart[k].quantity - 1) &&
      forall i :: 0 <= i < |cart| && i != k ==> Remove(cart, fid)[i] == cart[i]
  {
    ValidMeans(cart);
    BumpAt(cart, fid, -1);
  }

  /** Adding an item and then removing its food id gives back the cart. */
  lemma AddThenRemove(cart: seq<Line>, item: MenuItem)
    requires Valid(cart)
    ensures Remove(Add(cart, item), item.fid) == cart
  {
    var fid := item.fid;
    var added := Add(cart, item);
    if InCart(cart, fid) {
      var k := IndexOf(cart, fid);
      assert added == Bump(cart, fid, 1);
      assert added[IndexOf(added, fid)].quantity > 1 by {
        IdsAfterBump(cart, fid, 1);
        QuantityPositive(cart, fid);
        BumpAt(cart, fid, 1);
      }
      assert Remove(added, fid) == Bump(added, fid, -1);
      BumpInverse(cart, fid, 1);
    } else {
      var line := Line(fid, item.fname, item.price, 1);
      assert added == cart + [line];
      IdsAfterAppend(cart, line);
      assert IndexOf(added, fid) == |cart| && added[|cart|] == line;
      assert Remove(added, fid) == Without(added, fid);
      AppendThenFilter(cart, line);
    }
  }

  /** Adding changes the subtotal by the unit price of the item's line. */
  lemma AddSubtotal(cart: seq<Line>, item: MenuItem)
    requires Valid(cart)
    ensures Subtotal(Add(cart, item)) == Subtotal(cart) + UnitPrice(cart, item)
  {
    if InCart(cart, item.fid) {
      SumsAfterBump(cart, item.fid, 1);
    } else {
      SumsAfterAppend(cart, Line(item.fid, item.fname, item.price, 1));
    }
  }

  /** Removing lowers the subtotal by the price of the line removed from. */
  lemma RemoveSubtotal(cart: seq<Line>, fid: string)
    requires Valid(cart) && InCart(cart, fid)
    ensures Subtotal(Remove(cart, fid)) == Subtotal(cart) - cart[IndexOf(cart, fid)].price
  {
    if cart[IndexOf(cart, fid)].quantity == 1 {
      assert Remove(cart, fid) == Without(cart, fid);
      SumsWithout(cart, fid);
    } else {
      assert Remove(cart, fid) == Bump(cart, fid, -1);
      SumsAfterBump(cart, fid, -1);
    }
  }

  /**
   * When a food id determines its menu item, the subtotal after two additions
   * does not depend on their order.
   */
  lemma AddOrderIrrelevant(cart: seq<Line>, a: MenuItem, b: MenuItem)
    requires Valid(cart)
    requires a.fid == b.fid ==> a == b
    ensures Subtotal(Add(Add(cart, a), b)) == Subtotal(Add(Add(cart, b), a))
  {
    AddSubtotal(cart, a);
    AddSubtotal(cart, b);
    AddSubtotal(Add(cart, a), b);
    AddSubtotal(Add(cart, b), a);
    if a.fid != b.fid {
      UnitPriceAfterOtherAdd(cart, a, b);
      UnitPriceAfterOtherAdd(cart, b, a);
    }
  }

  /** Adding `a` does not change the unit price of another food id `b`. */
  lemma UnitPriceAfterOtherAdd(cart: seq<Line>, a: MenuItem, b: MenuItem)
    requires a.fid != b.fid
    ensures UnitPrice(Add(cart, a), b) == UnitPrice(cart, b)
  {
    if InCart(cart, a.fid) {
      IdsAfterBump(cart, a.fid, 1);
      BumpAt(cart, a.fid, 1);
    } else {
      IdsAfterAppend(cart, Line(a.fid, a.fname, a.price, 1));
    }
  }

  /** With prices that are not negative, the amounts are ordered 0 <= GST <= subtotal <= total. */
  lemma {:induction false} AmountsNonNegative(cart: seq<Line>)
    requires Valid(cart)
    requires forall i :: 0 <= i < |cart| ==> cart[i].price >= 0.0
    ensures 0.0 <= Gst(cart) <= Subtotal(cart) <= TotalWithGst(cart)
    decreases |cart|
  {
    if cart != [] {
      assert forall i :: 0 <= i < |cart[1..]| ==> cart[1..][i] == cart[i + 1];
      AmountsNonNegative(cart[1..]);
      var q := cart[0].quantity as real;
      assert cart[0].price * q >= 0.0 by {
        assert q >= 1.0 && cart[0].price >= 0.0;
      }
    }
  }

  /** Adding one item priced 20 twice: one line of quantity 2, subtotal 40, GST 2, total 42. */
  lemma TwoAddsScenario(name: string)
    ensures var item := MenuItem("F001", name, 20.0);
      var cart := Add(Add([], item), item);
      cart == [Line("F001", name, 20.0, 2)] &&
      Subtotal(cart) == 40.0 && Gst(cart) == 2.0 && TotalWithGst(cart) == 42.0
  {
    var item := MenuItem("F001", name, 20.0);
    var once := Add([], item);
    assert once == [Line("F001", name, 20.0, 1)];
    assert InCart(once, "F001");
    var twice := Add(once, item);
    assert twice == [Line("F001", name, 20.0, 2)];
    assert Subtotal(twice) == 40.0 by {
      assert twice[1..] == [];
    }
  }

  /** Adding one item and removing it once empties the cart. */
  lemma AddRemoveScenario(item: MenuItem)
    ensures Remove(Add([], item), item.fid) == []
  {
    AddThenRemove([], item);
  }

  // ---- Helper lemmas ----

  /** `IndexOf` finds the first line with the food id. */
  lemma {:induction false} IndexOfFirst(cart: seq<Line>, fid: string)
    ensures forall i :: 0 <= i < IndexOf(cart, fid) ==> cart[i].fid != fid
    decreases |cart|
  {
    if cart != [] && cart[0].fid != fid {
      IndexOfFirst(cart[1..], fid);
      assert forall i :: 0 < i < |cart| ==> cart[i] == cart[1..][i - 1];
    }
  }

  /** `Bump` changes exactly the lines with the food id. */
  lemma {:induction false} BumpAt(cart: seq<Line>, fid: string, delta: int)
    ensures forall i :: 0 <= i < |cart| ==>
      (Bump(cart, fid, delta)[i] == if cart[i].fid == fid then cart[i].(quantity := cart[i].quantity + delta) else cart[i])
    decreases |cart|
  {
    if cart != [] {
      BumpAt(cart[1..], fid, delta);
      assert forall i :: 0 < i < |cart| ==> cart[i] == cart[1..][i - 1];
    }
  }

  /** Bumping by `delta` and then by `-delta` changes nothing. */
  lemma {:induction false} BumpInverse(cart: seq<Line>, fid: string, delta: int)
    ensures Bump(Bump(cart, fid, delta), fid, -delta) == cart
    decreases |cart|
  {
    if cart != [] {
      BumpInverse(cart[1..], fid, delta);
      assert Bump(cart, fid, delta)[1..] == Bump(cart[1..], fid, delta);
    }
  }

  /** Filtering out the food id of a line just appended for a new food id gives the cart back. */
  lemma AppendThenFilter(cart: seq<Line>, line: Line)
    requires !InCart(cart, line.fid)
    ensures Without(cart + [line], line.fid) == cart
  {
    var keep := (l: Line) => l.fid != line.fid;
    IndexOfFirst(cart, line.fid);
    Seqs.FilterAppend(cart, [line], keep);
    Seqs.FilterKeepsAll(cart, keep);
  }

  lemma {:induction false} IdsAfterBump(cart: seq<Line>, fid: string, delta: int)
    ensures forall f :: IndexOf(Bump(cart, fid, delta), f) == IndexOf(cart, f)
    decreases |cart|
  {
    if cart != [] {
      IdsAfterBump(cart[1..], fid, delta);
      assert Bump(cart, fid, delta)[1..] == Bump(cart[1..], fid, delta);
    }
  }

  lemma {:induction false} IdsAfterAppend(cart: seq<Line>, line: Line)
    ensures forall f ::
      (IndexOf(cart + [line], f) == if InCart(cart, f) then IndexOf(cart, f) else if line.fid == f then |cart| else |cart| + 1)
    decreases |cart|
  {
    if cart == [] {
      assert [] + [line] == [line];
      assert [line][1..] == [];
    } else {
      assert (cart + [line])[1..] == cart[1..] + [line];
      IdsAfterAppend(cart[1..], line);
    }
  }

  lemma {:induction false} IdsWithout(cart: seq<Line>, fid: string)
    ensures !InCart(Without(cart, fid), fid)
    ensures forall f :: f != fid ==> (InCart(Without(cart, fid), f) <==> InCart(cart, f))
    decreases |cart|
  {
    if cart != [] {
      IdsWithout(cart[1..], fid);
      if cart[0].fid == fid {
        assert Without(cart, fid) == Without(cart[1..], fid);
      } else {
        var r, t := Without(cart, fid), Without(cart[1..], fid);
        assert r == [cart[0]] + t;
        assert r[1..] == t;
        forall f | f != fid ensures InCart(r, f) <==> InCart(cart, f) {
          if cart[0].fid != f {
            assert IndexOf(r, f) == 1 + IndexOf(t, f);
            assert IndexOf(cart, f) == 1 + IndexOf(cart[1..], f);
            assert InCart(t, f) <==> InCart(cart[1..], f);
          }
        }
      }
    }
  }

  /** In a valid cart, filtering out a food id deletes its one line. */
  lemma {:induction false} WithoutDeletes(cart: seq<Line>, fid: string)
    requires Valid(cart) && InCart(cart, fid)
    ensures Without(cart, fid) == cart[..IndexOf(cart, fid)] + cart[IndexOf(cart, fid) + 1..]
    decreases |cart|
  {
    var t := cart[1..];
    var k := IndexOf(cart, fid);
    if cart[0].fid == fid {
      assert Without(cart, fid) == cart[..k] + cart[k + 1..] by {
        IndexOfFirst(t, fid);
        Seqs.FilterKeepsAll(t, (l: Line) => l.fid != fid);
        assert cart[..k] + cart[k + 1..] == t;
      }
    } else {
      assert Without(cart, fid) == cart[..k] + cart[k + 1..] by {
        WithoutDeletes(t, fid);
        var j := IndexOf(t, fid);
        assert k == j + 1;
        assert cart[..k] == [cart[0]] + t[..j];
        assert cart[k + 1..] == t[j + 1..];
      }
    }
  }

  lemma {:induction false} QuantityPositive(cart: seq<Line>, fid: string)
    requires Valid(cart) && InCart(cart, fid)
    ensures cart[IndexOf(cart, fid)].quantity >= 1
    decreases |cart|
  {
    if cart[0].fid != fid {
      QuantityPositive(cart[1..], fid);
    }
  }

  lemma {:induction false} ValidAfterBump(cart: seq<Line>, fid: string, delta: int)
    requires Valid(cart)
    requires delta >= 0 || (InCart(cart, fid) ==> cart[IndexOf(cart, fid)].quantity + delta >= 1)
    ensures Valid(Bump(cart, fid, delta))
    decreases |cart|
  {
    if cart != [] {
      var t := cart[1..];
      assert Bump(cart, fid, delta)[1..] == Bump(t, fid, delta);
      IdsAfterBump(t, fid, delta);
      ValidAfterBump(t, fid, delta);
    }
  }

  lemma {:induction false} ValidAfterAppend(cart: seq<Line>, line: Line)
    requires Valid(cart) && !InCart(cart, line.fid) && line.quantity >= 1
    ensures Valid(cart + [line])
    decreases |cart|
  {
    if cart == [] {
      assert [] + [line] == [line];
      assert [line][1..] == [];
    } else {
      assert (cart + [line])[1..] == cart[1..] + [line];
      IdsAfterAppend(cart[1..], line);
      ValidAfterAppend(cart[1..], line);
    }
  }

  lemma {:induction false} SumsAfterAppend(cart: seq<Line>, line: Line)
    ensures Subtotal(cart + [line]) == Subtotal(cart) + line.price * line.quantity as real
    ensures ItemCount(cart + [line]) == ItemCount(cart) + line.quantity
    decreases |cart|
  {
    if cart == [] {
      assert [] + [line] == [line];
      assert [line][1..] == [];
    } else {
      assert (cart + [line])[1..] == cart[1..] + [line];
      SumsAfterAppend(cart[1..], line);
    }
  }

  /** In a valid cart, bumping the line of `fid` changes the sums by that line only. */
  lemma {:induction false} SumsAfterBump(cart: seq<Line>, fid: string, delta: int)
    requires Valid(cart) && InCart(cart, fid)
    ensures Subtotal(Bump(cart, fid, delta)) == Subtotal(cart) + delta as real * cart[IndexOf(cart, fid)].price
    ensures ItemCount(Bump(cart, fid, delta)) == ItemCount(cart) + delta
    decreases |cart|
  {
    var t := cart[1..];
    var head := cart[0];
    assert Bump(cart, fid, delta)[1..] == Bump(t, fid, delta);
    if head.fid == fid {
      BumpAbsent(t, fid, delta);
      var q := head.quantity as real;
      assert head.price * (q + delta as real) == head.price * q + delta as real * head.price;
    } else {
      SumsAfterBump(t, fid, delta);
    }
  }

  lemma BumpAbsent(cart: seq<Line>, fid: string, delta: int)
    requires !InCart(cart, fid)
    ensures Bump(cart, fid, delta) == cart
  {
  }

  /** In a valid cart, filtering out the line of `fid` lowers the sums by that line's share and keeps the cart valid. */
  lemma {:induction false} SumsWithout(cart: seq<Line>, fid: string)
    requires Valid(cart) && InCart(cart, fid)
    ensures Subtotal(Without(cart, fid)) ==
      Subtotal(cart) - cart[IndexOf(cart, fid)].price * cart[IndexOf(cart, fid)].quantity as real
    ensures ItemCount(Without(cart, fid)) == ItemCount(cart) - cart[IndexOf(cart, fid)].quantity
    ensures Valid(Without(cart, fid))
    decreases |cart|
  {
    var t := cart[1..];
    if cart[0].fid == fid {
      assert Without(cart, fid) == Without(t, fid);
      IndexOfFirst(t, fid);
      Seqs.FilterKeepsAll(t, (l: Line) => l.fid != fid);
    } else {
      assert Without(cart, fid) == [cart[0]] + Without(t, fid);
      SumsWithout(t, fid);
      IdsWithout(t, fid);
      assert Without(cart, fid)[1..] == Without(t, fid);
    }
  }
}
