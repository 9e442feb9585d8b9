/**
 * The storefront page as a state machine: the component's state slots
 * (catalog, orders, cart, wizard step and draft) and the browser storage
 * entries `db_products` and `db_orders`, with one method per event handler.
 * The outcome of each `fetch` is a parameter of the handler that makes it.
 */
module Boutique {
  import opened Shop
  import opened CartEngine
  import opened OrderWorkflow
  import opened Gateway
  import opened Wizard

  class App {
    var products: seq<Product>
    var orders: seq<Order>
    var cart: seq<CartItem>
    var adminStep: int
    var draft: Product
    var dbProducts: seq<Product>
    var dbOrders: seq<Order>

    /** What every handler keeps: a wizard step in 0..4, one cart line per product with quantity at least 1, and order totals agreeing with their items. */
    ghost predicate Valid()
      reads this
    {
      0 <= adminStep <= LastStep && ValidCart(cart) && AllConsistent(orders) && AllConsistent(dbOrders)
    }

    /** The page opens on an empty catalog, cart and order view, the wizard on step 0 with the default draft. */
    constructor (storedProducts: seq<Product>, storedOrders: seq<Order>)
      requires AllConsistent(storedOrders)
      ensures Valid()
      ensures products == [] && orders == [] && cart == []
      ensures adminStep == 0 && draft == DefaultDraft
      ensures dbProducts == storedProducts && dbOrders == storedOrders
    {
      products, orders, cart := [], [], [];
      adminStep, draft := 0, DefaultDraft;
      dbProducts, dbOrders := storedProducts, storedOrders;
    }

    /** The load effect: the catalog through `getProducts`, the orders from storage. */
    method Load(remote: Fetch<seq<Product>>)
      requires Valid()
      modifies this
      ensures Valid()
      ensures products == GetProducts(remote, old(dbProducts)) && orders == old(dbOrders)
      ensures cart == old(cart) && adminStep == old(adminStep) && draft == old(draft)
      ensures dbProducts == old(dbProducts) && dbOrders == old(dbOrders)
    {
      products := GetProducts(remote, dbProducts);
      orders := dbOrders;
    }

    /** A product card's add button; `refused` is the out-of-stock alert, which leaves the cart as it was. */
    method AddToCart(p: Product) returns (refused: bool)
      requires Valid()
      modifies this
      ensures Valid()
      ensures refused == AddRefused(old(cart), p)
      ensures cart == CartEngine.AddToCart(old(cart), p)
      ensures refused ==> cart == old(cart)
      ensures products == old(products) && orders == old(orders) && adminStep == old(adminStep) && draft == old(draft)
      ensures dbProducts == old(dbProducts) && dbOrders == old(dbOrders)
    {
      AddToCartSpec(cart, p);
      refused := AddRefused(cart, p);
      cart := CartEngine.AddToCart(cart, p);
    }

    /** The `+` button of a cart line; `refused` is the alert shown at the line's stock. */
    method Increment(item: CartItem) returns (refused: bool)
      requires Valid() && item in cart
      modifies this
      ensures Valid()
      ensures refused == IncrementRefused(item)
      ensures cart == CartEngine.Increment(old(cart), item)
      ensures WithinStock(old(cart)) ==> WithinStock(cart)
      ensures products == old(products) && orders == old(orders) && adminStep == old(adminStep) && draft == old(draft)
      ensures dbProducts == old(dbProducts) && dbOrders == old(dbOrders)
    {
      IncrementSpec(cart, item);
      refused := IncrementRefused(item);
      cart := CartEngine.Increment(cart, item);
    }

    /** The `−` button of a cart line. */
    method Decrement(item: CartItem)
      requires Valid() && item in cart
      modifies this
      ensures Valid()
      ensures cart == CartEngine.Decrement(old(cart), item.product.id)
      ensures |cart| == |old(cart)|
      ensures products == old(products) && orders == old(orders) && adminStep == old(adminStep) && draft == old(draft)
      ensures dbProducts == old(dbProducts) && dbOrders == old(dbOrders)
    {
      DecrementSpec(cart, item.product.id);
      cart := CartEngine.Decrement(cart, item.product.id);
    }

    /** The remove button of a cart line. */
    method Remove(item: CartItem)
      requires Valid() && item in cart
      modifies this
      ensures Valid()
      ensures cart == RemoveLine(old(cart), item.product.id)
      ensures item !in cart && |cart| == |old(cart)| - 1
      ensures products == old(products) && orders == old(orders) && adminStep == old(adminStep) && draft == old(draft)
      ensures dbProducts == old(dbProducts) && dbOrders == old(dbOrders)
    {
      RemoveLineSpec(cart, item.product.id);
      RemoveLineCuts(cart, item.product.id);
      IndexOfMember(cart, item);
      cart := RemoveLine(cart, item.product.id);
    }

    /**
     * The checkout form. When it can be submitted, a pending order built from the
     * cart goes last in the stored orders, the order view becomes the stored list
     * and the cart is emptied; otherwise nothing changes.
     */
    method Checkout(id: string, name: string, phone: string, location: string, kind: OrderType) returns (placed: bool)
      requires Valid()
      modifies this
      ensures Valid()
      ensures placed == FormAccepts(old(cart), name, phone, location)
      ensures placed ==> dbOrders == AppendOrder(old(dbOrders), NewOrder(id, name, phone, location, kind, old(cart)))
      ensures placed ==> orders == dbOrders && cart == []
      ensures !placed ==> orders == old(orders) && cart == old(cart) && dbOrders == old(dbOrders)
      ensures products == old(products) && adminStep == old(adminStep) && draft == old(draft)
      ensures dbProducts == old(dbProducts)
    {
      placed := FormAccepts(cart, name, phone, location);
      if placed {
        var o := NewOrder(id, name, phone, location, kind, cart);
        dbOrders := AppendOrder(dbOrders, o);
        orders := dbOrders;
        cart := [];
      }
    }

    /**
     * The admin's confirm button: the gateway's confirmation (the local stock
     * deduction only when the request throws), then the stored orders with that id
     * marked confirmed and shown, then the catalog reloaded.
     */
    method ConfirmOrder(id: string, items: seq<CartItem>, patch: Fetch<()>, refetch: Fetch<seq<Product>>)
      requires Valid()
      modifies this
      ensures Valid()
      ensures dbProducts == if WriteFallsBack(patch) then ConfirmLocal(old(dbProducts), items) else old(dbProducts)
      ensures dbOrders == ConfirmStatus(old(dbOrders), id) && orders == dbOrders
      ensures products == GetProducts(refetch, dbProducts)
      ensures cart == old(cart) && adminStep == old(adminStep) && draft == old(draft)
    {
      if WriteFallsBack(patch) {
        dbProducts := ConfirmLocal(dbProducts, items);
      }
      ConfirmKeepsConsistent(dbOrders, id);
      dbOrders := ConfirmStatus(dbOrders, id);
      orders := dbOrders;
      products := GetProducts(refetch, dbProducts);
    }

    /** A wizard navigation button; `moved` is false when the current step does not show it. */
    method WizardMove(a: Action) returns (moved: bool)
      requires Valid()
      modifies this
      ensures Valid()
      ensures moved == Move(old(adminStep), a).Some?
      ensures adminStep == if moved then Move(old(adminStep), a).value else old(adminStep)
      ensures draft == old(draft) && cart == old(cart) && products == old(products) && orders == old(orders)
      ensures dbProducts == old(dbProducts) && dbOrders == old(dbOrders)
    {
      var m := Move(adminStep, a);
      moved := m.Some?;
      if moved {
        adminStep := m.value;
      }
    }

    /** Step 0's id field. */
    method SetDraftId(v: string)
      requires Valid() && adminStep == 0
      modifies this`draft
      ensures Valid() && draft == old(draft).(id := v)
    {
      draft := draft.(id := v);
    }

    /** Step 0's title field. */
    method SetDraftTitle(v: string)
      requires Valid() && adminStep == 0
      modifies this`draft
      ensures Valid() && draft == old(draft).(title := v)
    {
      draft := draft.(title := v);
    }

    /** Step 1's URL field on Enter. */
    method AddDraftImage(url: string)
      requires Valid() && adminStep == 1
      modifies this`draft
      ensures Valid() && draft == old(draft).(images := AddImage(old(draft).images, url))
    {
      draft := draft.(images := AddImage(draft.images, url));
    }

    /** Step 1's remove button on the image at position `i`. */
    method RemoveDraftImage(i: int)
      requires Valid() && adminStep == 1 && 0 <= i < |draft.images|
      modifies this`draft
      ensures Valid() && draft == old(draft).(images := RemoveImageAt(old(draft).images, i))
      ensures |draft.images| == |old(draft).images| - 1
    {
      draft := draft.(images := RemoveImageAt(draft.images, i));
    }

    /** Step 2's stock field. */
    method SetDraftStock(n: int)
      requires Valid() && adminStep == 2
      modifies this`draft
      ensures Valid() && draft == old(draft).(stock := n)
    {
      draft := draft.(stock := n);
    }

    /** Step 2's description field. */
    method SetDraftDescription(v: string)
      requires Valid() && adminStep == 2
      modifies this`draft
      ensures Valid() && draft == old(draft).(description := v)
    {
      draft := draft.(description := v);
    }

    /** Step 3's category toggle. */
    method SetDraftCategory(c: Category)
      requires Valid() && adminStep == 3
      modifies this`draft
      ensures Valid() && draft == old(draft).(category := c)
    {
      draft := draft.(category := c);
    }

    /** Step 3's size field. */
    method SetDraftSize(v: string)
      requires Valid() && adminStep == 3
      modifies this`draft
      ensures Valid() && draft == old(draft).(size := v)
    {
      draft := draft.(size := v);
    }

    /** Step 4's price field. */
    method SetDraftPrice(n: int)
      requires Valid() && adminStep == 4
      modifies this`draft
      ensures Valid() && draft == old(draft).(price := n)
    {
      draft := draft.(price := n);
    }

    /**
     * Step 4's commit button. Refused with no change unless the guard holds;
     * otherwise the gateway adds the draft (to the local store only when the
     * request throws), the catalog is reloaded and the wizard starts over.
     */
    method Commit(post: Fetch<()>, refetch: Fetch<seq<Product>>) returns (committed: bool)
      requires Valid() && adminStep == LastStep
      modifies this
      ensures Valid()
      ensures committed == CommitAllowed(old(draft))
      ensures committed ==> dbProducts == (if WriteFallsBack(post) then AddLocal(old(dbProducts), old(draft)) else old(dbProducts))
      ensures committed ==> products == GetProducts(refetch, dbProducts) && adminStep == 0 && draft == DefaultDraft
      ensures committed && WriteFallsBack(post) && !refetch.Ok? ==> products[|products| - 1] == old(draft)
      ensures !committed ==> products == old(products) && adminStep == old(adminStep) && draft == old(draft) && dbProducts == old(dbProducts)
      ensures cart == old(cart) && orders == old(orders) && dbOrders == old(dbOrders)
    {
      committed := CommitAllowed(draft);
      if committed {
        if WriteFallsBack(post) {
          dbProducts := AddLocal(dbProducts, draft);
        }
        products := GetProducts(refetch, dbProducts);
        adminStep := 0;
        draft := DefaultDraft;
      }
    }

    /**
     * An inventory row's delete button; `confirmed` is the answer to the browser's
     * confirmation dialog. The gateway deletes (from the local store only when the
     * request throws) and the catalog is reloaded.
     */
    method DeleteProduct(id: string, confirmed: bool, del: Fetch<()>, refetch: Fetch<seq<Product>>)
      requires Valid()
      modifies this
      ensures Valid()
      ensures dbProducts == if confirmed && WriteFallsBack(del) then DeleteLocal(old(dbProducts), id) else old(dbProducts)
      ensures products == if confirmed then GetProducts(refetch, dbProducts) else old(products)
      ensures cart == old(cart) && orders == old(orders) && adminStep == old(adminStep) && draft == old(draft)
      ensures dbOrders == old(dbOrders)
    {
      if confirmed {
        if WriteFallsBack(del) {
          dbProducts := DeleteLocal(dbProducts, id);
        }
        products := GetProducts(refetch, dbProducts);
      }
    }
  }
}
