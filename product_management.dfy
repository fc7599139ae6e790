/**
 * The product catalogue screen: the search box, the per-product batch
 * statistics, and the add/edit dialog and delete button, which go through
 * the App component's `addProduct`, `updateProduct` and `deleteProduct`.
 */
module ProductManagement {
  import opened Wrappers
  import opened Seqs
  import opened Text
  import opened Inventory
  import opened Dashboard

  // ---------------------------------------------------------------------------
  // Search.

  /** The search box's test: the name or the category includes the term, ignoring case. */
  function MatchesSearch(term: string): Product -> bool
  {
    (p: Product) => ContainsIgnoreCase(p.name, term) || ContainsIgnoreCase(p.category, term)
  }

  /** `filteredProducts`: the catalogue entries whose name or category includes the term. */
  function FilteredProducts(products: seq<Product>, term: string): (r: seq<Product>)
    ensures forall p :: p in r <==>
      p in products && (ContainsIgnoreCase(p.name, term) || ContainsIgnoreCase(p.category, term))
    ensures IsSubseq(r, products)
  {
    FilterIsSubseq(products, MatchesSearch(term));
    Filter(products, MatchesSearch(term))
  }

  /** An empty search box lists the whole catalogue, in its order. */
  lemma EmptySearchShowsAll(products: seq<Product>)
    ensures FilteredProducts(products, "") == products
  {
    forall p | p in products ensures MatchesSearch("")(p) {
      EmptyIsContained(p.name);
    }
    FilterKeepsAll(products, MatchesSearch(""));
  }

  /** The case the term is typed in does not change what is listed. */
  lemma SearchIgnoresCase(products: seq<Product>, t1: string, t2: string)
    requires LowerStr(t1) == LowerStr(t2)
    ensures FilteredProducts(products, t1) == FilteredProducts(products, t2)
  {
    forall p | p in products ensures MatchesSearch(t1)(p) == MatchesSearch(t2)(p) {
      SameLowerSameMatches(p.name, t1, t2);
      SameLowerSameMatches(p.category, t1, t2);
    }
    FilterAgreeing(products, MatchesSearch(t1), MatchesSearch(t2));
  }

  /** Typing more characters only narrows the list, keeping its order. */
  lemma TypingNarrows(products: seq<Product>, term: string, more: string)
    ensures IsSubseq(FilteredProducts(products, term + more), FilteredProducts(products, term))
  {
    forall p | p in products && MatchesSearch(term + more)(p) ensures MatchesSearch(term)(p) {
      if ContainsIgnoreCase(p.name, term + more) {
        ContainsPrefix(p.name, term, more);
      } else {
        ContainsPrefix(p.category, term, more);
      }
    }
    FilterMonotone(products, MatchesSearch(term + more), MatchesSearch(term));
  }

  // ---------------------------------------------------------------------------
  // Statistics.

  /** What the table shows for a product: units over all its batches and how many there are. */
  datatype ProductStats = ProductStats(totalQuantity: int, batchCount: nat)

  /** A batch's units when it belongs to the product, nothing otherwise. */
  function QuantityOf(productId: string): Batch -> int
  {
    (b: Batch) => if b.productId == productId then b.quantity else 0
  }

  /** `getProductStats`: every batch of the product counts, emptied or not. */
  function GetProductStats(batches: seq<Batch>, productId: string): (s: ProductStats)
    ensures s.batchCount <= |batches|
    ensures s.batchCount == 0 <==> forall b :: b in batches ==> b.productId != productId
    ensures s.batchCount + |Filter(batches, NotOfProduct(productId))| == |batches|
    ensures s.totalQuantity == Sum(batches, QuantityOf(productId))
  {
    var own := Filter(batches, OfProduct(productId));
    assert own != [] ==> own[0] in own;
    FilterComplementLength(batches, OfProduct(productId), NotOfProduct(productId));
    SumFilterDropsZeros(batches, OfProduct(productId), QuantityOf(productId));
    SumAgreeing(own, Quantity, QuantityOf(productId));
    ProductStats(Sum(own, Quantity), |own|)
  }

  /** One more batch adds its units and one to the count when it is the product's, and nothing otherwise. */
  lemma StatsOfOneMoreBatch(batches: seq<Batch>, b: Batch, productId: string)
    ensures GetProductStats([], productId) == ProductStats(0, 0)
    ensures var before := GetProductStats(batches, productId);
      GetProductStats(batches + [b], productId) ==
        if b.productId == productId then ProductStats(before.totalQuantity + b.quantity, before.batchCount + 1)
        else before
  {
    FilterAppend(batches, [b], OfProduct(productId));
    SumAppend(batches, [b], QuantityOf(productId));
    assert Sum([b], QuantityOf(productId)) == QuantityOf(productId)(b) + Sum([b][1..], QuantityOf(productId));
  }

  /**
   * With no negative quantities the table's total is the dashboard's bar for
   * the product: emptied batches add nothing.
   */
  lemma StatsTotalIsChartTotal(batches: seq<Batch>, productId: string)
    requires forall b :: b in batches ==> b.quantity >= 0
    ensures GetProductStats(batches, productId).totalQuantity == ProductTotal(batches, productId)
  {
    var own := Filter(batches, OfProduct(productId));
    FilterCommute(batches, HasStock(), OfProduct(productId));
    assert ProductTotal(batches, productId) == Sum(Filter(own, HasStock()), Quantity);
    SumFilterDropsZeros(own, HasStock(), Quantity);
  }

  // ---------------------------------------------------------------------------
  // The dialogs.

  datatype SubmitOutcome = Incomplete | Updated(id: string) | Added(id: string)

  datatype DeleteOutcome = HasBatches(count: nat) | Deleted

  /** The form state: the three fields, the product being edited, and whether the add dialog is open. */
  class ProductForm {
    var name: string
    var category: string
    var unit: string
    var editingId: Option<string>
    var addDialogOpen: bool

    constructor ()
      ensures name == "" && category == "" && unit == ""
      ensures editingId == None && !addDialogOpen
    {
      name, category, unit := "", "", "";
      editingId := None;
      addDialogOpen := false;
    }

    /** `handleEdit`: the form is filled with the product's fields. */
    method HandleEdit(p: Product)
      modifies this`editingId, this`name, this`category, this`unit
      ensures editingId == Some(p.id)
      ensures name == p.name && category == p.category && unit == p.unit
    {
      editingId := Some(p.id);
      name, category, unit := p.name, p.category, p.unit;
    }

    /** The cancel buttons of the edit dialog. */
    method CancelEdit()
      modifies this`editingId, this`name, this`category, this`unit
      ensures editingId == None && name == "" && category == "" && unit == ""
    {
      editingId := None;
      name, category, unit := "", "", "";
    }

    /**
     * `handleSubmit`: an empty field stops the submission with nothing
     * changed; otherwise the edited product is updated (the server's 404 for
     * an id that has gone leaves the catalogue alone) or a new product is
     * stored under the id the server gives it (`newId`), and the form is
     * cleared.
     */
    method HandleSubmit(app: InventoryApp, newId: string) returns (outcome: SubmitOutcome)
      requires app.Valid()
      modifies this, app`products
      ensures app.Valid()
      ensures outcome == Incomplete <==> old(name) == "" || old(category) == "" || old(unit) == ""
      ensures outcome == Incomplete ==> unchanged(this) && app.products == old(app.products)
      ensures outcome.Updated? ==>
        && old(editingId) == Some(outcome.id)
        && editingId == None && addDialogOpen == old(addDialogOpen)
        && ((exists p :: p in old(app.products) && p.id == outcome.id) ==>
              app.products == PutProduct(old(app.products), Product(outcome.id, old(name), old(category), old(unit))))
        && ((forall p :: p in old(app.products) ==> p.id != outcome.id) ==> app.products == old(app.products))
      ensures outcome.Added? ==>
        && old(editingId) == None && outcome.id == newId
        && app.products == PutProduct(old(app.products), Product(newId, old(name), old(category), old(unit)))
        && editingId == None && !addDialogOpen
      ensures outcome != Incomplete ==> name == "" && category == "" && unit == ""
    {
      if name == "" || category == "" || unit == "" {
        return Incomplete;
      }
      if editingId.Some? {
        var id := editingId.value;
        var _ := app.UpdateProduct(id, name, category, unit);
        editingId := None;
        outcome := Updated(id);
      } else {
        app.AddProduct(newId, name, category, unit);
        addDialogOpen := false;
        outcome := Added(newId);
      }
      name, category, unit := "", "", "";
    }
  }

  /**
   * `handleDelete`: a product that still has batches is not deleted and the
   * message gives their number; otherwise the product goes and, having no
   * batches, leaves the batch list as it was.
   */
  method HandleDelete(app: InventoryApp, productId: string) returns (outcome: DeleteOutcome)
    requires app.Valid()
    modifies app`products, app`batches
    ensures app.Valid()
    ensures outcome.HasBatches? <==> exists b :: b in old(app.batches) && b.productId == productId
    ensures outcome.HasBatches? ==>
      && outcome.count == GetProductStats(old(app.batches), productId).batchCount
      && app.products == old(app.products) && app.batches == old(app.batches)
    ensures outcome == Deleted ==>
      && app.products == Filter(old(app.products), NotProduct(productId))
      && app.batches == old(app.batches)
  {
    var productBatches := Filter(app.batches, OfProduct(productId));
    if |productBatches| > 0 {
      assert productBatches[0] in productBatches;
      return HasBatches(|productBatches|);
    }
    FilterKeepsAll(app.batches, NotOfProduct(productId));
    app.DeleteProduct(productId);
    outcome := Deleted;
  }
}
