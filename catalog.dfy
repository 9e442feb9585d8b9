/**
 * The two catalog views: the storefront list under the selected category tab
 * and search box, and the admin inventory list searched by id.
 */
module Catalog {
  import opened Seqs
  import opened Shop
  import opened Text

  /** The storefront's test: the tab's category, and the term in the id or, ignoring case, in the title. */
  function StorefrontPick(tab: Category, term: string): Product -> bool
  {
    (p: Product) => p.category == tab && (Contains(p.id, term) || Contains(Lower(p.title), Lower(term)))
  }

  function Storefront(ps: seq<Product>, tab: Category, term: string): seq<Product>
  {
    Filter(StorefrontPick(tab, term), ps)
  }

  /** The inventory's test: the term in the id, case-sensitively; no category or stock condition. */
  function IdSearch(term: string): Product -> bool
  {
    (p: Product) => Contains(p.id, term)
  }

  function Inventory(ps: seq<Product>, term: string): seq<Product>
  {
    Filter(IdSearch(term), ps)
  }

  function InCategory(tab: Category): Product -> bool
  {
    (p: Product) => p.category == tab
  }

  /** The storefront shows exactly the matching products, each as often as it occurs, in catalog order; filtering its own result again changes nothing. */
  lemma StorefrontSpec(ps: seq<Product>, tab: Category, term: string)
    ensures var r := Storefront(ps, tab, term);
      && (forall p :: p in r <==>
            p in ps && p.category == tab && (Contains(p.id, term) || Contains(Lower(p.title), Lower(term))))
      && (forall p :: multiset(r)[p] ==
            if p.category == tab && (Contains(p.id, term) || Contains(Lower(p.title), Lower(term))) then multiset(ps)[p] else 0)
      && Subseq(r, ps)
      && Storefront(r, tab, term) == r
  {
    FilterIsSubseq(StorefrontPick(tab, term), ps);
    FilterCount(StorefrontPick(tab, term), ps);
    FilterIdempotent(StorefrontPick(tab, term), ps);
  }

  /** The inventory shows exactly the products whose id contains the term, each as often as it occurs, in catalog order. */
  lemma InventorySpec(ps: seq<Product>, term: string)
    ensures var r := Inventory(ps, term);
      && (forall p :: p in r <==> p in ps && Contains(p.id, term))
      && (forall p :: multiset(r)[p] == if Contains(p.id, term) then multiset(ps)[p] else 0)
      && Subseq(r, ps)
      && Inventory(r, term) == r
  {
    FilterIsSubseq(IdSearch(term), ps);
    FilterCount(IdSearch(term), ps);
    FilterIdempotent(IdSearch(term), ps);
  }

  /** With an empty search box the storefront is the whole category tab. */
  lemma StorefrontEmptyTerm(ps: seq<Product>, tab: Category)
    ensures Storefront(ps, tab, "") == Filter(InCategory(tab), ps)
  {
    forall p | p in ps ensures StorefrontPick(tab, "")(p) == InCategory(tab)(p) {
      ContainsEmpty(p.id);
    }
    FilterCongruent(StorefrontPick(tab, ""), InCategory(tab), ps);
  }

  /** With an empty search box the inventory is the whole catalog, products out of stock included. */
  lemma InventoryEmptyTerm(ps: seq<Product>)
    ensures Inventory(ps, "") == ps
  {
    forall p | p in ps ensures IdSearch("")(p) {
      ContainsEmpty(p.id);
    }
    FilterKeepsAll(IdSearch(""), ps);
  }

  /** A product added at the end of the catalog shows up last on the storefront exactly when it matches. */
  lemma StorefrontAfterAppend(ps: seq<Product>, p: Product, tab: Category, term: string)
    ensures Storefront(ps + [p], tab, term) == Storefront(ps, tab, term) + (if StorefrontPick(tab, term)(p) then [p] else [])
  {
    FilterConcat(StorefrontPick(tab, term), ps, [p]);
  }

  /** A product added at the end of the catalog shows up last in the inventory exactly when its id contains the term. */
  lemma InventoryAfterAppend(ps: seq<Product>, p: Product, term: string)
    ensures Inventory(ps + [p], term) == Inventory(ps, term) + (if Contains(p.id, term) then [p] else [])
  {
    FilterConcat(IdSearch(term), ps, [p]);
  }
}
