/**
 * The persistence gateway. Every operation first calls the remote server; the
 * local product store (the `db_products` entry of the browser's storage) is the
 * fallback. The server's own behaviour is not modelled: its answer to a read is
 * a parameter, and a write that reaches it changes nothing here.
 */
module Gateway {
  import opened Wrappers
  import opened Seqs
  import opened Shop
  import opened CartEngine

  /** How a `fetch` call ended: it threw, it answered with a non-OK status, or it answered OK with a body. */
  datatype Fetch<T> = Threw | NotOk | Ok(body: T)

  /** `getProducts`: the server's list on an OK answer, the local store on a throw or a non-OK answer. */
  function GetProducts(remote: Fetch<seq<Product>>, stored: seq<Product>): (r: seq<Product>)
    ensures remote.Ok? ==> r == remote.body
    ensures !remote.Ok? ==> r == stored
  {
    match remote
    case Ok(body) => body
    case _ => stored
  }

  /**
   * The writes (`addProduct`, `deleteProduct`, `confirmOrder`) fall back to the
   * local store only when `fetch` throws; a non-OK answer is ignored.
   */
  predicate WriteFallsBack<T>(f: Fetch<T>)
  {
    f.Threw?
  }

  /** `addProduct`'s fallback: the product is appended to the stored list. */
  function AddLocal(ps: seq<Product>, p: Product): seq<Product>
  {
    ps + [p]
  }

  function IdIsNot(id: string): Product -> bool
  {
    (p: Product) => p.id != id
  }

  /** `deleteProduct`'s fallback: every stored product with that id is dropped. */
  function DeleteLocal(ps: seq<Product>, id: string): seq<Product>
  {
    Filter(IdIsNot(id), ps)
  }

  /** The quantity ordered of product `id`: that of the first order line for it, 0 if none. */
  function ItemQuantity(items: seq<CartItem>, id: string): int
  {
    match FindLine(items, id)
    case Some(i) => i.quantity
    case None => 0
  }

  /** One product after a local confirmation: the first order line for it takes its quantity off the stock. */
  function Deducted(p: Product, items: seq<CartItem>): Product
  {
    match FindLine(items, p.id)
    case Some(i) => p.(stock := p.stock - i.quantity)
    case None => p
  }

  function Deduct(ps: seq<Product>, items: seq<CartItem>): seq<Product>
  {
    seq(|ps|, k requires 0 <= k < |ps| => Deducted(ps[k], items))
  }

  function InStock(p: Product): bool
  {
    p.stock > 0
  }

  /** `confirmOrder`'s fallback: deduct the ordered quantities, then keep only products with stock left. */
  function ConfirmLocal(ps: seq<Product>, items: seq<CartItem>): seq<Product>
  {
    Filter(InStock, Deduct(ps, items))
  }

  /** Deleting keeps exactly the products with another id, each as often as it occurs and in their order, and keeps ids distinct. */
  lemma DeleteLocalSpec(ps: seq<Product>, id: string)
    ensures var r := DeleteLocal(ps, id);
      && (forall x :: x in r <==> x in ps && x.id != id)
      && Subseq(r, ps)
      && (forall x :: multiset(r)[x] == if x.id != id then multiset(ps)[x] else 0)
      && (DistinctKeys(ProductId, ps) ==> DistinctKeys(ProductId, r))
  {
    FilterIsSubseq(IdIsNot(id), ps);
    FilterCount(IdIsNot(id), ps);
    if DistinctKeys(ProductId, ps) {
      SubseqDistinct(ProductId, DeleteLocal(ps, id), ps);
    }
  }

  /** Deleting a product's id right after adding the product gives what deleting alone gives. */
  lemma DeleteAfterAdd(ps: seq<Product>, p: Product)
    ensures DeleteLocal(AddLocal(ps, p), p.id) == DeleteLocal(ps, p.id)
  {
    FilterConcat(IdIsNot(p.id), ps, [p]);
    assert Filter(IdIsNot(p.id), [p]) == [];
  }

  /** A product is deducted by the quantity of the first order line with its id, and nothing else about it changes. */
  lemma DeductedSpec(p: Product, items: seq<CartItem>)
    ensures Deducted(p, items) == p.(stock := p.stock - ItemQuantity(items, p.id))
    ensures (forall j :: 0 <= j < |items| ==> items[j].product.id != p.id) ==> Deducted(p, items) == p
    ensures IndexOf(items, p.id) >= 0 ==> Deducted(p, items).stock == p.stock - items[IndexOf(items, p.id)].quantity
  {
  }

  /**
   * The local confirmation keeps, in their order and as often as they occur,
   * exactly the deducted products with stock left: a product survives exactly when its stock minus the quantity
   * ordered is positive, so one already at 0 and not ordered is dropped too.
   */
  lemma ConfirmLocalSpec(ps: seq<Product>, items: seq<CartItem>)
    ensures var r := ConfirmLocal(ps, items);
      && (forall x :: x in r ==> x.stock > 0)
      && Subseq(r, Deduct(ps, items))
      && (forall x :: multiset(r)[x] == if x.stock > 0 then multiset(Deduct(ps, items))[x] else 0)
      && (forall k :: 0 <= k < |ps| ==>
            (Deducted(ps[k], items) in r <==> ps[k].stock - ItemQuantity(items, ps[k].id) > 0))
      && (forall x :: x in r ==> exists k :: 0 <= k < |ps| && x == Deducted(ps[k], items))
  {
    var d := Deduct(ps, items);
    FilterIsSubseq(InStock, d);
    FilterCount(InStock, d);
    forall k | 0 <= k < |ps| ensures Deducted(ps[k], items) in d {
      assert d[k] == Deducted(ps[k], items);
    }
    forall k | 0 <= k < |ps| ensures Deducted(ps[k], items).stock == ps[k].stock - ItemQuantity(items, ps[k].id) {
      DeductedSpec(ps[k], items);
    }
  }

  /** A local confirmation keeps the stored ids distinct. */
  lemma ConfirmLocalDistinct(ps: seq<Product>, items: seq<CartItem>)
    requires DistinctKeys(ProductId, ps)
    ensures DistinctKeys(ProductId, ConfirmLocal(ps, items))
  {
    var d := Deduct(ps, items);
    assert forall k :: 0 <= k < |ps| ==> ProductId(d[k]) == ProductId(ps[k]);
    FilterIsSubseq(InStock, d);
    SubseqDistinct(ProductId, ConfirmLocal(ps, items), d);
  }

  /** With nothing ordered, a local confirmation still drops every product whose stock is not positive. */
  lemma ConfirmLocalNoItems(ps: seq<Product>)
    ensures ConfirmLocal(ps, []) == Filter(InStock, ps)
  {
    assert Deduct(ps, []) == ps;
  }

  /** Scenario: confirming an order for both units of a product with stock 2 removes it from the local store. */
  lemma ConfirmLocalScenario()
    ensures var p := Product("001", "Dress", "", ["u1"], 2, Sale, "M", 100000);
      ConfirmLocal([p], [CartItem(p, 2)]) == []
  {
    var p := Product("001", "Dress", "", ["u1"], 2, Sale, "M", 100000);
    assert IndexOf([CartItem(p, 2)], "001") == 0;
    assert Deduct([p], [CartItem(p, 2)]) == [p.(stock := 0)];
  }
}
