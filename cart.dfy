/**
 * The cart engine: add-to-cart from a product card, the `+`, `−` and remove
 * buttons of the cart drawer, and the running total. A cart is a sequence of
 * lines; its abstract value is `Quantities`, the map from product id to the
 * quantity requested.
 */
module CartEngine {
  import opened Wrappers
  import opened Seqs
  import opened Shop

  /** Position of the first line for product `id`, or -1 when there is none. */
  function IndexOf(c: seq<CartItem>, id: string): (k: int)
    ensures -1 <= k < |c|
    ensures k == -1 <==> forall j :: 0 <= j < |c| ==> c[j].product.id != id
    ensures k >= 0 ==> c[k].product.id == id && forall j :: 0 <= j < k ==> c[j].product.id != id
    decreases |c|
  {
    if c == [] then -1
    else if c[0].product.id == id then 0
    else
      var k := IndexOf(c[1..], id);
      if k == -1 then -1 else k + 1
  }

  /** `c.find(i => i.id === id)`: the first line whose product has that id. */
  function FindLine(c: seq<CartItem>, id: string): (r: Option<CartItem>)
    ensures r.None? <==> forall j :: 0 <= j < |c| ==> c[j].product.id != id
    ensures r.Some? ==> r.value in c && r.value.product.id == id
    ensures r.Some? ==> exists k :: 0 <= k < |c| && c[k] == r.value && forall j :: 0 <= j < k ==> c[j].product.id != id
  {
    var k := IndexOf(c, id);
    if k < 0 then None else Some(c[k])
  }

  /** The abstract cart: product id to quantity, the first line for an id winning as `find` does. */
  function Quantities(c: seq<CartItem>): map<string, int>
    decreases |c|
  {
    if c == [] then map[] else Quantities(c[1..])[c[0].product.id := c[0].quantity]
  }

  /** The shape every cart handler keeps: one line per product, every quantity at least 1. */
  ghost predicate ValidCart(c: seq<CartItem>)
  {
    DistinctKeys(LineId, c) && forall k :: 0 <= k < |c| ==> c[k].quantity >= 1
  }

  /** Every line asks for no more than the stock recorded in its product copy. */
  ghost predicate WithinStock(c: seq<CartItem>)
  {
    forall k :: 0 <= k < |c| ==> c[k].quantity <= c[k].product.stock
  }

  /** Every line for product `id` gets one more unit. */
  function Bump(c: seq<CartItem>, id: string): seq<CartItem>
  {
    seq(|c|, k requires 0 <= k < |c| =>
      if c[k].product.id == id then c[k].(quantity := c[k].quantity + 1) else c[k])
  }

  /** The guard of add-to-cart: the product is already in the cart at or above its live stock. */
  predicate AddRefused(c: seq<CartItem>, p: Product)
  {
    var ex := FindLine(c, p.id);
    ex.Some? && ex.value.quantity >= p.stock
  }

  /** The product card's add button. */
  function AddToCart(c: seq<CartItem>, p: Product): seq<CartItem>
  {
    if AddRefused(c, p) then c
    else if FindLine(c, p.id).Some? then Bump(c, p.id)
    else c + [CartItem(p, 1)]
  }

  /** The `+` button of line `item`: allowed only below the stock copied into that line. */
  predicate IncrementRefused(item: CartItem)
  {
    !(item.quantity < item.product.stock)
  }

  function Increment(c: seq<CartItem>, item: CartItem): seq<CartItem>
  {
    if IncrementRefused(item) then c else Bump(c, item.product.id)
  }

  /** The `−` button for product `id`: a line goes down only from above 1. */
  function Decrement(c: seq<CartItem>, id: string): seq<CartItem>
  {
    seq(|c|, k requires 0 <= k < |c| =>
      if c[k].product.id == id && c[k].quantity > 1 then c[k].(quantity := c[k].quantity - 1) else c[k])
  }

  function LineIdIsNot(id: string): CartItem -> bool
  {
    (i: CartItem) => i.product.id != id
  }

  /** The remove button: drops every line for product `id`. */
  function RemoveLine(c: seq<CartItem>, id: string): seq<CartItem>
  {
    Filter(LineIdIsNot(id), c)
  }

  function LineTotal(i: CartItem): int
  {
    i.product.price * i.quantity
  }

  /** `c.reduce((a, b) => a + b.price * b.quantity, 0)`, folded from the left. */
  function Total(c: seq<CartItem>): int
    decreases |c|
  {
    if c == [] then 0 else Total(c[..|c| - 1]) + LineTotal(c[|c| - 1])
  }

  // ---------------------------------------------------------------------------
  // The abstract cart

  /** With one line per product, `Quantities` has exactly the cart's ids, each with its line's quantity. */
  lemma {:induction false} QuantitiesSpec(c: seq<CartItem>)
    requires DistinctKeys(LineId, c)
    ensures forall id :: id in Quantities(c) <==> exists k :: 0 <= k < |c| && c[k].product.id == id
    ensures forall k :: 0 <= k < |c| ==> c[k].product.id in Quantities(c) && Quantities(c)[c[k].product.id] == c[k].quantity
    decreases |c|
  {
    if c != [] {
      DistinctKeysTail(LineId, c);
      QuantitiesSpec(c[1..]);
      var q := Quantities(c);
      forall id ensures id in q <==> exists k :: 0 <= k < |c| && c[k].product.id == id {
        if id in Quantities(c[1..]) {
          var k :| 0 <= k < |c[1..]| && c[1..][k].product.id == id;
          assert c[k + 1].product.id == id;
        }
        if k :| 0 <= k < |c| && c[k].product.id == id {
          if k > 0 {
            assert c[1..][k - 1].product.id == id;
          }
        }
      }
      forall k | 0 <= k < |c| ensures c[k].product.id in q && q[c[k].product.id] == c[k].quantity {
        if k > 0 {
          assert LineId(c[0]) != LineId(c[k]);
          assert c[1..][k - 1] == c[k];
        }
      }
    }
  }

  /** A map with exactly the cart's ids, each with its line's quantity, is the abstract cart. */
  lemma QuantitiesExt(c: seq<CartItem>, m: map<string, int>)
    requires DistinctKeys(LineId, c)
    requires forall id :: id in m <==> exists k :: 0 <= k < |c| && c[k].product.id == id
    requires forall k :: 0 <= k < |c| ==> c[k].product.id in m && m[c[k].product.id] == c[k].quantity
    ensures Quantities(c) == m
  {
    QuantitiesSameKeys(c, m);
    QuantitiesSameValues(c, m);
    MapExt(Quantities(c), m);
  }

  lemma MapExt(a: map<string, int>, b: map<string, int>)
    requires a.Keys == b.Keys
    requires forall k :: k in b ==> a[k] == b[k]
    ensures a == b
  {
  }

  lemma QuantitiesSameKeys(c: seq<CartItem>, m: map<string, int>)
    requires DistinctKeys(LineId, c)
    requires forall id :: id in m <==> exists k :: 0 <= k < |c| && c[k].product.id == id
    ensures Quantities(c).Keys == m.Keys
  {
    QuantitiesSpec(c);
    forall id ensures id in Quantities(c) <==> id in m {
      if id in m {
        var k :| 0 <= k < |c| && c[k].product.id == id;
        assert c[k].product.id in Quantities(c);
      }
    }
  }

  lemma QuantitiesSameValues(c: seq<CartItem>, m: map<string, int>)
    requires DistinctKeys(LineId, c)
    requires forall id :: id in m ==> exists k :: 0 <= k < |c| && c[k].product.id == id
    requires forall k :: 0 <= k < |c| ==> c[k].product.id in m && m[c[k].product.id] == c[k].quantity
    ensures forall id :: id in m ==> id in Quantities(c) && Quantities(c)[id] == m[id]
  {
    forall id | id in m ensures id in Quantities(c) && Quantities(c)[id] == m[id] {
      var k :| 0 <= k < |c| && c[k].product.id == id;
      QuantityAt(c, k);
    }
  }

  /** `Bump` on a cart with one line per product changes exactly the line with that id. */
  lemma BumpAt(c: seq<CartItem>, k: int, id: string)
    requires DistinctKeys(LineId, c) && 0 <= k < |c| && c[k].product.id == id
    ensures Bump(c, id) == c[k := c[k].(quantity := c[k].quantity + 1)]
  {
    forall j | 0 <= j < |c| && j != k ensures c[j].product.id != id {
      if j < k {
        assert LineId(c[j]) != LineId(c[k]);
      } else {
        assert LineId(c[k]) != LineId(c[j]);
      }
    }
  }

  /**
   * Raising one line's quantity by one keeps a valid cart valid, keeps it within
   * stock when the line was below its stock copy, and adds one to that id.
   */
  lemma BumpLine(c: seq<CartItem>, k: int)
    requires ValidCart(c) && 0 <= k < |c|
    ensures var r := c[k := c[k].(quantity := c[k].quantity + 1)];
      && ValidCart(r)
      && (WithinStock(c) && c[k].quantity < c[k].product.stock ==> WithinStock(r))
      && Quantities(r) == Quantities(c)[c[k].product.id := c[k].quantity + 1]
  {
    UpdateQuantity(c, k, c[k].quantity + 1);
  }

  /** Raising one line's quantity keeps one line per product and updates that id in the abstract cart. */
  lemma UpdateQuantity(c: seq<CartItem>, k: int, q': int)
    requires DistinctKeys(LineId, c) && 0 <= k < |c|
    ensures var r := c[k := c[k].(quantity := q')];
      DistinctKeys(LineId, r) && Quantities(r) == Quantities(c)[c[k].product.id := q']
  {
    var r := c[k := c[k].(quantity := q')];
    assert forall j :: 0 <= j < |c| ==> LineId(r[j]) == LineId(c[j]);
    QuantitiesSpec(c);
    var m := Quantities(c)[c[k].product.id := q'];
    forall j | 0 <= j < |r| ensures r[j].product.id in m && m[r[j].product.id] == r[j].quantity {
      if j != k {
        assert LineId(c[j]) != LineId(c[k]);
      }
    }
    QuantitiesExt(r, m);
  }

  // ---------------------------------------------------------------------------
  // Totals

  lemma TotalSnoc(c: seq<CartItem>, x: CartItem)
    ensures Total(c + [x]) == Total(c) + LineTotal(x)
  {
    assert (c + [x])[..|c|] == c;
  }

  /** The total of a concatenation is the sum of the totals. */
  lemma {:induction false} TotalConcat(a: seq<CartItem>, b: seq<CartItem>)
    ensures Total(a + b) == Total(a) + Total(b)
    decreases |b|
  {
    if b == [] {
      assert a + b == a;
    } else {
      var b' := b[..|b| - 1];
      assert a + b == (a + b') + [b[|b| - 1]];
      assert b == b' + [b[|b| - 1]];
      TotalConcat(a, b');
      TotalSnoc(a + b', b[|b| - 1]);
      TotalSnoc(b', b[|b| - 1]);
    }
  }

  /** Replacing one line changes the total by the difference of the two line totals. */
  lemma TotalUpdate(c: seq<CartItem>, k: int, x: CartItem)
    requires 0 <= k < |c|
    ensures Total(c[k := x]) == Total(c) - LineTotal(c[k]) + LineTotal(x)
  {
    var a, b := c[..k], c[k + 1..];
    calc {
      Total(c[k := x]);
      { assert c[k := x] == (a + [x]) + b; }
      Total((a + [x]) + b);
      { TotalConcat(a + [x], b); }
      Total(a + [x]) + Total(b);
      { TotalSnoc(a, x); }
      Total(a) + LineTotal(x) + Total(b);
      { TotalSnoc(a, c[k]); }
      Total(a + [c[k]]) - LineTotal(c[k]) + LineTotal(x) + Total(b);
      { TotalConcat(a + [c[k]], b); }
      Total((a + [c[k]]) + b) - LineTotal(c[k]) + LineTotal(x);
      { assert c == (a + [c[k]]) + b; }
      Total(c) - LineTotal(c[k]) + LineTotal(x);
    }
  }

  /** Raising one line's quantity by one raises the total by that line's price. */
  lemma BumpTotal(c: seq<CartItem>, k: int)
    requires 0 <= k < |c|
    ensures Total(c[k := c[k].(quantity := c[k].quantity + 1)]) == Total(c) + c[k].product.price
  {
    var x := c[k].(quantity := c[k].quantity + 1);
    TotalUpdate(c, k, x);
    assert LineTotal(x) == LineTotal(c[k]) + c[k].product.price;
  }

  /** Cutting one line out lowers the total by that line's total. */
  lemma {:induction false} TotalCut(c: seq<CartItem>, k: int)
    requires 0 <= k < |c|
    ensures Total(c[..k] + c[k + 1..]) == Total(c) - LineTotal(c[k])
    decreases |c|
  {
    var n := |c| - 1;
    if k == n {
      assert c[..k] + c[k + 1..] == c[..n];
    } else {
      var c' := c[..n];
      TotalCut(c', k);
      assert c[..k] + c[k + 1..] == (c'[..k] + c'[k + 1..]) + [c[n]];
      TotalSnoc(c'[..k] + c'[k + 1..], c[n]);
      assert c'[k] == c[k];
    }
  }

  /** With non-negative prices and quantities the total is never negative. */
  lemma {:induction false} TotalNonNegative(c: seq<CartItem>)
    requires forall k :: 0 <= k < |c| ==> c[k].product.price >= 0 && c[k].quantity >= 0
    ensures Total(c) >= 0
    decreases |c|
  {
    if c != [] {
      TotalNonNegative(c[..|c| - 1]);
      var x := c[|c| - 1];
      assert x.product.price * x.quantity >= 0;
    }
  }

  // ---------------------------------------------------------------------------
  // The handlers against the abstract cart

  lemma QuantityAt(c: seq<CartItem>, k: int)
    requires DistinctKeys(LineId, c) && 0 <= k < |c|
    ensures c[k].product.id in Quantities(c) && Quantities(c)[c[k].product.id] == c[k].quantity
  {
    QuantitiesSpec(c);
  }

  lemma AbsentId(c: seq<CartItem>, id: string)
    requires DistinctKeys(LineId, c) && IndexOf(c, id) < 0
    ensures id !in Quantities(c)
  {
    QuantitiesSpec(c);
  }

  /** In a cart with one line per product, a line of the cart is the one `IndexOf` finds for its id. */
  lemma IndexOfMember(c: seq<CartItem>, item: CartItem)
    requires DistinctKeys(LineId, c) && item in c
    ensures 0 <= IndexOf(c, item.product.id) && c[IndexOf(c, item.product.id)] == item
  {
    var k :| 0 <= k < |c| && c[k] == item;
    var i := IndexOf(c, item.product.id);
    if i != k {
      assert false;
    }
  }

  /** Appending a line for a product not yet in the cart adds that id to the abstract cart. */
  lemma AppendLine(c: seq<CartItem>, x: CartItem)
    requires DistinctKeys(LineId, c) && IndexOf(c, x.product.id) < 0
    ensures DistinctKeys(LineId, c + [x])
    ensures Quantities(c + [x]) == Quantities(c)[x.product.id := x.quantity]
  {
    var r := c + [x];
    QuantitiesSpec(c);
    var m := Quantities(c)[x.product.id := x.quantity];
    forall i, j | 0 <= i < j < |r| ensures LineId(r[i]) != LineId(r[j]) {
      assert r[i] == c[i];
      if j < |c| {
        assert r[j] == c[j];
      }
    }
    forall id ensures id in m <==> exists j :: 0 <= j < |r| && r[j].product.id == id {
      if id in Quantities(c) {
        var j :| 0 <= j < |c| && c[j].product.id == id;
        assert r[j] == c[j];
      }
      if id == x.product.id {
        assert r[|c|].product.id == id;
      }
      if j :| 0 <= j < |r| && r[j].product.id == id {
        if j < |c| {
          assert r[j] == c[j];
        }
      }
    }
    forall j | 0 <= j < |r| ensures r[j].product.id in m && m[r[j].product.id] == r[j].quantity {
      if j < |c| {
        assert r[j] == c[j];
      }
    }
    QuantitiesExt(r, m);
  }

  /**
   * The lines add-to-cart touches: none when refused, the product's own line in
   * place when it is already in the cart, and otherwise a new line with quantity 1
   * appended last, whatever the product's stock.
   */
  lemma AddToCartLines(c: seq<CartItem>, p: Product)
    requires DistinctKeys(LineId, c)
    ensures var r := AddToCart(c, p); var k := IndexOf(c, p.id);
      && (AddRefused(c, p) ==> r == c)
      && (!AddRefused(c, p) && k >= 0 ==> r == c[k := c[k].(quantity := c[k].quantity + 1)])
      && (k < 0 ==> r == c + [CartItem(p, 1)])
  {
    var k := IndexOf(c, p.id);
    if k >= 0 {
      assert FindLine(c, p.id) == Some(c[k]);
      BumpAt(c, k, p.id);
    } else {
      assert FindLine(c, p.id) == None;
    }
  }

  /** Add-to-cart for a product that already has line `k`. */
  lemma AddToExisting(c: seq<CartItem>, p: Product, k: int)
    requires ValidCart(c) && k == IndexOf(c, p.id) && k >= 0
    ensures var q := Quantities(c);
      && p.id in q && q[p.id] == c[k].quantity
      && (AddRefused(c, p) <==> c[k].quantity >= p.stock)
      && (AddRefused(c, p) ==> AddToCart(c, p) == c)
      && (!AddRefused(c, p) ==> ValidCart(AddToCart(c, p)) && Quantities(AddToCart(c, p)) == q[p.id := q[p.id] + 1])
  {
    assert FindLine(c, p.id) == Some(c[k]);
    QuantityAt(c, k);
    if !AddRefused(c, p) {
      assert AddToCart(c, p) == Bump(c, p.id);
      BumpAt(c, k, p.id);
      BumpLine(c, k);
    }
  }

  /**
   * Add-to-cart on the abstract cart: refused exactly when the product is in the
   * cart at or above its live stock; otherwise its quantity goes up by one, from 0
   * for a product not yet in the cart. One line per product and quantities of at
   * least 1 are kept.
   */
  lemma AddToCartSpec(c: seq<CartItem>, p: Product)
    requires ValidCart(c)
    ensures var q := Quantities(c);
      && ValidCart(AddToCart(c, p))
      && (AddRefused(c, p) <==> p.id in q && q[p.id] >= p.stock)
      && Quantities(AddToCart(c, p)) ==
           if AddRefused(c, p) then q else q[p.id := if p.id in q then q[p.id] + 1 else 1]
  {
    var k := IndexOf(c, p.id);
    if k >= 0 {
      AddToExisting(c, p, k);
    } else {
      AddToCartLines(c, p);
      AbsentId(c, p.id);
      AppendLine(c, CartItem(p, 1));
      assert AddToCart(c, p) == c + [CartItem(p, 1)];
      assert ValidCart(c + [CartItem(p, 1)]);
    }
  }

  /** Add-to-cart raises the total by the price of one unit: the line's copied price, or the product's for a new line. */
  lemma AddToCartTotal(c: seq<CartItem>, p: Product)
    requires DistinctKeys(LineId, c)
    ensures var k := IndexOf(c, p.id);
      Total(AddToCart(c, p)) ==
        Total(c) + (if AddRefused(c, p) then 0 else if k >= 0 then c[k].product.price else p.price)
  {
    var k := IndexOf(c, p.id);
    AddToCartLines(c, p);
    if k < 0 {
      TotalSnoc(c, CartItem(p, 1));
    } else if !AddRefused(c, p) {
      var r := c[k := c[k].(quantity := c[k].quantity + 1)];
      assert AddToCart(c, p) == r;
      BumpTotal(c, k);
      assert Total(r) == Total(c) + c[k].product.price;
    }
  }

  /** The `+` button changes at most the line it belongs to. */
  lemma IncrementLines(c: seq<CartItem>, item: CartItem)
    requires DistinctKeys(LineId, c) && item in c
    ensures var k := IndexOf(c, item.product.id);
      0 <= k && Increment(c, item) == if IncrementRefused(item) then c else c[k := item.(quantity := item.quantity + 1)]
  {
    IndexOfMember(c, item);
    if !IncrementRefused(item) {
      BumpAt(c, IndexOf(c, item.product.id), item.product.id);
    }
  }

  /**
   * The `+` button on a line of the cart: refused exactly when the line is at or
   * above the stock copied into it; otherwise only that product's quantity goes up
   * by one. A cart within its stock copies therefore stays within them.
   */
  lemma IncrementSpec(c: seq<CartItem>, item: CartItem)
    requires ValidCart(c) && item in c
    ensures var id := item.product.id;
      && ValidCart(Increment(c, item))
      && id in Quantities(c) && Quantities(c)[id] == item.quantity
      && Quantities(Increment(c, item)) ==
           (if IncrementRefused(item) then Quantities(c) else Quantities(c)[id := item.quantity + 1])
      && (WithinStock(c) ==> WithinStock(Increment(c, item)))
  {
    IncrementLines(c, item);
    var k := IndexOf(c, item.product.id);
    QuantityAt(c, k);
    if !IncrementRefused(item) {
      var r := c[k := c[k].(quantity := c[k].quantity + 1)];
      assert Increment(c, item) == r;
      BumpLine(c, k);
    }
  }

  /** The `+` button raises the total by the line's copied price, or leaves it when refused. */
  lemma IncrementTotal(c: seq<CartItem>, item: CartItem)
    requires DistinctKeys(LineId, c) && item in c
    ensures Total(Increment(c, item)) == Total(c) + (if IncrementRefused(item) then 0 else item.product.price)
  {
    IndexOfMember(c, item);
    var k := IndexOf(c, item.product.id);
    if !IncrementRefused(item) {
      BumpAt(c, k, item.product.id);
      BumpTotal(c, k);
    }
  }

  /** The `−` button changes at most the product's line, and only when it is above 1. */
  lemma DecrementLines(c: seq<CartItem>, id: string)
    requires DistinctKeys(LineId, c)
    ensures var k := IndexOf(c, id);
      Decrement(c, id) == if k >= 0 && c[k].quantity > 1 then c[k := c[k].(quantity := c[k].quantity - 1)] else c
  {
    var k := IndexOf(c, id);
    forall j | 0 <= j < |c| && j != k ensures c[j].product.id != id {
      if k >= 0 && j > k {
        assert LineId(c[k]) != LineId(c[j]);
      }
    }
  }

  /**
   * The `−` button on the abstract cart: a product above 1 goes down by one, a
   * product at 1 stays, and one line per product with quantities of at least 1 is
   * kept.
   */
  lemma DecrementSpec(c: seq<CartItem>, id: string)
    requires ValidCart(c)
    ensures var q := Quantities(c);
      && ValidCart(Decrement(c, id))
      && Quantities(Decrement(c, id)) == (if id in q && q[id] > 1 then q[id := q[id] - 1] else q)
  {
    DecrementLines(c, id);
    var k := IndexOf(c, id);
    if k >= 0 && c[k].quantity > 1 {
      var r := c[k := c[k].(quantity := c[k].quantity - 1)];
      assert Decrement(c, id) == r;
      QuantityAt(c, k);
      UpdateQuantity(c, k, c[k].quantity - 1);
      assert ValidCart(r);
    } else {
      assert Decrement(c, id) == c;
      if k >= 0 {
        QuantityAt(c, k);
      } else {
        AbsentId(c, id);
      }
    }
  }

  /**
   * The `−` button never removes a line and never changes a line's product copy,
   * so a cart within its stock copies stays within them.
   */
  lemma DecrementKeepsLines(c: seq<CartItem>, id: string)
    ensures var r := Decrement(c, id);
      && |r| == |c|
      && (forall k :: 0 <= k < |c| ==> r[k].product == c[k].product && r[k].quantity <= c[k].quantity)
      && (WithinStock(c) ==> WithinStock(r))
  {
  }

  /**
   * The remove button: the lines for `id` disappear, the others stay in their
   * order, and the abstract cart loses exactly that id.
   */
  lemma RemoveLineSpec(c: seq<CartItem>, id: string)
    requires ValidCart(c)
    ensures var r := RemoveLine(c, id);
      && ValidCart(r)
      && Subseq(r, c)
      && (forall x :: x in r <==> x in c && x.product.id != id)
      && Quantities(r) == Quantities(c) - {id}
  {
    var r := RemoveLine(c, id);
    FilterIsSubseq(LineIdIsNot(id), c);
    SubseqDistinct(LineId, r, c);
    forall j | 0 <= j < |r| ensures r[j].quantity >= 1 {
      assert r[j] in c;
    }
    RemoveLineQuantities(c, id, r);
  }

  /** The abstract cart after removing `id` has lost exactly that key. */
  lemma RemoveLineQuantities(c: seq<CartItem>, id: string, r: seq<CartItem>)
    requires DistinctKeys(LineId, c) && DistinctKeys(LineId, r)
    requires forall x :: x in r <==> x in c && x.product.id != id
    ensures Quantities(r) == Quantities(c) - {id}
  {
    QuantitiesSpec(c);
    var m := Quantities(c) - {id};
    forall x ensures x in m <==> exists j :: 0 <= j < |r| && r[j].product.id == x {
      if x in m {
        var j :| 0 <= j < |c| && c[j].product.id == x;
        assert c[j] in r;
      }
      if j :| 0 <= j < |r| && r[j].product.id == x {
        assert r[j] in c;
      }
    }
    forall j | 0 <= j < |r| ensures r[j].product.id in m && m[r[j].product.id] == r[j].quantity {
      assert r[j] in c;
    }
    QuantitiesExt(r, m);
  }

  /** The remove button cuts the product's line out: the lines before it followed by the lines after it. */
  lemma RemoveLineCuts(c: seq<CartItem>, id: string)
    requires DistinctKeys(LineId, c)
    ensures var k := IndexOf(c, id);
      RemoveLine(c, id) == if k < 0 then c else c[..k] + c[k + 1..]
  {
    var k := IndexOf(c, id);
    if k < 0 {
      FilterKeepsAll(LineIdIsNot(id), c);
    } else {
      forall j | 0 <= j < |c| && j != k ensures LineIdIsNot(id)(c[j]) {
        if j > k {
          assert LineId(c[k]) != LineId(c[j]);
        }
      }
      FilterRemovesOne(LineIdIsNot(id), c, k);
    }
  }

  /** The remove button lowers the total by exactly the removed line's total. */
  lemma RemoveLineTotal(c: seq<CartItem>, id: string)
    requires DistinctKeys(LineId, c)
    ensures var k := IndexOf(c, id);
      Total(RemoveLine(c, id)) == Total(c) - (if k >= 0 then LineTotal(c[k]) else 0)
  {
    RemoveLineCuts(c, id);
    var k := IndexOf(c, id);
    if k >= 0 {
      TotalCut(c, k);
    }
  }

  /** The first add ignores stock: a product with no stock still enters the cart, above its stock copy. */
  lemma FirstAddIgnoresStock(c: seq<CartItem>, p: Product)
    requires IndexOf(c, p.id) < 0 && p.stock <= 0
    ensures !AddRefused(c, p) && AddToCart(c, p) == c + [CartItem(p, 1)]
    ensures !WithinStock(AddToCart(c, p))
  {
    var r := AddToCart(c, p);
    assert r[|c|] == CartItem(p, 1);
  }

  /** Scenario: a cart line at quantity 2 whose product copy has stock 2 refuses `+` and stays at 2. */
  lemma IncrementAtStockScenario()
    ensures var p := Product("001", "Dress", "", ["u1"], 2, Sale, "M", 100000);
      var c := [CartItem(p, 2)];
      IncrementRefused(c[0]) && Increment(c, c[0]) == c
  {
  }
}
