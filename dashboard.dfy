/**
 * The figures of the dashboard: the active, critical and expiring batch
 * lists behind the four cards, the stock per product of the bar chart, the
 * stock per category of the pie chart and the list of recent batches.
 */
module Dashboard {
  import opened Seqs
  import opened Inventory

  function HasStock(): Batch -> bool
  {
    (b: Batch) => b.quantity > 0
  }

  /** `activeBatches`: the batches with stock, in list order. */
  function ActiveBatches(batches: seq<Batch>): (r: seq<Batch>)
    ensures forall b :: b in r <==> b in batches && b.quantity > 0
    ensures IsSubseq(r, batches)
  {
    FilterIsSubseq(batches, HasStock());
    Filter(batches, HasStock())
  }

  /** Expires after the first week and within thirty days. */
  predicate ExpiresInWeeksTwoToFour(b: Batch, today: int)
  {
    today + 7 * DayMs < b.expirationDate <= today + 30 * DayMs
  }

  function LaterWindow(today: int): Batch -> bool
  {
    (b: Batch) => ExpiresInWeeksTwoToFour(b, today)
  }

  /** `criticalBatches`: active batches expiring within seven days from now. */
  function CriticalBatches(batches: seq<Batch>, today: int): (r: seq<Batch>)
    ensures forall b :: b in r <==> b in batches && b.quantity > 0 && ExpiresWithin(b, today, 7)
    ensures IsSubseq(r, batches)
  {
    SubseqTrans(ExpiringBatches(ActiveBatches(batches), today, 7), ActiveBatches(batches), batches);
    ExpiringBatches(ActiveBatches(batches), today, 7)
  }

  /** `expiringBatches`: active batches expiring after seven days and within thirty. */
  function ExpiringSoonBatches(batches: seq<Batch>, today: int): (r: seq<Batch>)
    ensures forall b :: b in r <==> b in batches && b.quantity > 0 && ExpiresInWeeksTwoToFour(b, today)
  {
    Filter(ActiveBatches(batches), LaterWindow(today))
  }

  /**
   * No batch is both critical and expiring, and together the two lists hold
   * exactly the active batches among `getExpiringBatches(30)`, the header's
   * notification count.
   */
  lemma CriticalAndExpiringPartitionTheMonth(batches: seq<Batch>, today: int)
    ensures forall b :: !(b in CriticalBatches(batches, today) && b in ExpiringSoonBatches(batches, today))
    ensures forall b ::
              (b in CriticalBatches(batches, today) || b in ExpiringSoonBatches(batches, today))
              <==> (b in ExpiringBatches(batches, today, 30) && b.quantity > 0)
  {
  }

  // ---------------------------------------------------------------------------
  // The bar chart.

  function OfProduct(productId: string): Batch -> bool
  {
    (b: Batch) => b.productId == productId
  }

  /** Units in stock of one product, over its active batches. */
  function ProductTotal(batches: seq<Batch>, productId: string): (r: int)
    ensures r >= 0
    ensures r == 0 <==> forall b :: b in batches ==> !Dispatchable(b, productId)
  {
    var own := Filter(ActiveBatches(batches), OfProduct(productId));
    SumPositiveIsZeroIffEmpty(own, Quantity);
    assert own != [] ==> own[0] in own;
    Sum(own, Quantity)
  }

  /** The stock of a product is zero exactly when it has no batch to dispatch. */
  lemma NoStockIffNoOldestBatch(batches: seq<Batch>, productId: string)
    ensures ProductTotal(batches, productId) == 0 <==> OldestBatch(batches, productId).None?
  {
  }

  /** A product name on the chart axis: more than fifteen characters are cut to fifteen and `...`. */
  function ChartLabel(name: string): (r: string)
    ensures |r| <= 18
    ensures |name| <= 15 ==> r == name
    ensures |name| > 15 ==> |r| == 18 && r[..15] == name[..15] && r[15..] == "..."
  {
    if |name| > 15 then name[..15] + "..." else name
  }

  datatype Bar = Bar(name: string, quantity: int)

  function BarQuantity(bar: Bar): int { bar.quantity }

  function ProductTotalOf(batches: seq<Batch>): Product -> int
  {
    (p: Product) => ProductTotal(batches, p.id)
  }

  /** `products.map(...)`: one bar per product, in catalogue order. */
  function ProductBars(products: seq<Product>, batches: seq<Batch>): (r: seq<Bar>)
    ensures |r| == |products|
    ensures forall k :: 0 <= k < |r| ==>
      r[k] == Bar(ChartLabel(products[k].name), ProductTotal(batches, products[k].id))
    ensures Sum(r, BarQuantity) == Sum(products, ProductTotalOf(batches))
  {
    if products == [] then []
    else
      var bar := Bar(ChartLabel(products[0].name), ProductTotal(batches, products[0].id));
      var rest := ProductBars(products[1..], batches);
      assert ([bar] + rest)[1..] == rest;
      [bar] + rest
  }

  function BarHasStock(): Bar -> bool
  {
    (bar: Bar) => bar.quantity > 0
  }

  /**
   * `productData`: the bars of the products with stock, each the total of
   * that product's active batches, and together all the stock of the catalogue.
   */
  function ProductData(products: seq<Product>, batches: seq<Batch>): (r: seq<Bar>)
    ensures forall bar :: bar in r ==> bar.quantity > 0
    ensures forall bar :: bar in r <==>
      exists k :: 0 <= k < |products| && ProductTotal(batches, products[k].id) > 0
                  && bar == Bar(ChartLabel(products[k].name), ProductTotal(batches, products[k].id))
    ensures Sum(r, BarQuantity) == Sum(products, ProductTotalOf(batches))
  {
    var bars := ProductBars(products, batches);
    forall bar | bar in bars && !BarHasStock()(bar) ensures BarQuantity(bar) == 0 {
      var k :| 0 <= k < |bars| && bars[k] == bar;
    }
    SumFilterDropsZeros(bars, BarHasStock(), BarQuantity);
    Filter(bars, BarHasStock())
  }

  // ---------------------------------------------------------------------------
  // The pie chart.

  datatype Slice = Slice(name: string, value: int)

  function SliceValue(s: Slice): int { s.value }

  function SliceName(s: Slice): string { s.name }

  function CategoryShare(stock: Product -> int, category: string): Product -> int
  {
    (p: Product) => if p.category == category then stock(p) else 0
  }

  /** Units in stock of every product of one category, `stock` giving each product's. */
  function CategoryTotal(products: seq<Product>, stock: Product -> int, category: string): int
  {
    Sum(products, CategoryShare(stock, category))
  }

  /** Each slice holds, positive, the stock of its category over `products[..i]`. */
  ghost predicate SlicesHoldTotals(products: seq<Product>, stock: Product -> int, i: nat, acc: seq<Slice>)
    requires i <= |products|
  {
    forall k :: 0 <= k < |acc| ==>
      acc[k].value > 0 && acc[k].value == CategoryTotal(products[..i], stock, acc[k].name)
  }

  /** Every product of `products[..i]` with stock has the slice of its category. */
  ghost predicate SlicesCoverStock(products: seq<Product>, stock: Product -> int, i: nat, acc: seq<Slice>)
    requires i <= |products|
  {
    forall j :: 0 <= j < i && stock(products[j]) > 0 ==>
      exists k :: 0 <= k < |acc| && acc[k].name == products[j].category
  }

  /** Every slice is the category of a product of `products[..i]`. */
  ghost predicate SlicesAreCategories(products: seq<Product>, i: nat, acc: seq<Slice>)
    requires i <= |products|
  {
    forall k :: 0 <= k < |acc| ==> exists j :: 0 <= j < i && products[j].category == acc[k].name
  }

  /**
   * What the fold over `products[..i]` has built: each category once, with a
   * positive value equal to its stock so far; a slice for the category of every
   * product with stock so far, and for no other; and all the stock so far.
   */
  ghost predicate FoldedUpTo(products: seq<Product>, stock: Product -> int, i: nat, acc: seq<Slice>)
    requires i <= |products|
  {
    && Distinct(acc, SliceName)
    && SlicesHoldTotals(products, stock, i, acc)
    && SlicesCoverStock(products, stock, i, acc)
    && SlicesAreCategories(products, i, acc)
    && Sum(acc, SliceValue) == Sum(products[..i], stock)
  }

  /** One more product in the fold adds its share to each category total and to the overall total. */
  lemma FoldStep(products: seq<Product>, stock: Product -> int, i: nat)
    requires i < |products|
    ensures forall c :: (CategoryTotal(products[..i + 1], stock, c)
                         == CategoryTotal(products[..i], stock, c) + CategoryShare(stock, c)(products[i]))
    ensures Sum(products[..i + 1], stock) == Sum(products[..i], stock) + stock(products[i])
  {
    assert products[..i + 1] == products[..i] + [products[i]];
    forall c ensures CategoryTotal(products[..i + 1], stock, c)
                     == CategoryTotal(products[..i], stock, c) + CategoryShare(stock, c)(products[i])
    {
      SumAppend(products[..i], [products[i]], CategoryShare(stock, c));
    }
    SumAppend(products[..i], [products[i]], stock);
  }

  /** A product without stock leaves the slices as they are. */
  lemma FoldSkip(products: seq<Product>, stock: Product -> int, i: nat, acc: seq<Slice>)
    requires i < |products| && FoldedUpTo(products, stock, i, acc)
    requires stock(products[i]) == 0
    ensures FoldedUpTo(products, stock, i + 1, acc)
  {
    FoldStep(products, stock, i);
  }

  lemma AddToSliceKeepsNames(acc: seq<Slice>, k: nat, v: int)
    requires k < |acc| && Distinct(acc, SliceName)
    ensures Distinct(acc[k := Slice(acc[k].name, v)], SliceName)
  {
    var acc' := acc[k := Slice(acc[k].name, v)];
    forall m, n | 0 <= m < n < |acc'| ensures SliceName(acc'[m]) != SliceName(acc'[n]) {
      assert SliceName(acc'[m]) == SliceName(acc[m]) && SliceName(acc'[n]) == SliceName(acc[n]);
    }
  }

  lemma AddToSliceHoldsTotals(products: seq<Product>, stock: Product -> int, i: nat, acc: seq<Slice>, k: nat)
    requires i < |products| && Distinct(acc, SliceName) && SlicesHoldTotals(products, stock, i, acc)
    requires stock(products[i]) > 0
    requires k < |acc| && acc[k].name == products[i].category
    ensures SlicesHoldTotals(products, stock, i + 1, acc[k := Slice(acc[k].name, acc[k].value + stock(products[i]))])
  {
    var acc' := acc[k := Slice(acc[k].name, acc[k].value + stock(products[i]))];
    FoldStep(products, stock, i);
    forall m | 0 <= m < |acc'|
      ensures acc'[m].value > 0 && acc'[m].value == CategoryTotal(products[..i + 1], stock, acc'[m].name)
    {
      if m != k {
        assert acc[m].name != products[i].category by {
          assert SliceName(acc[m]) != SliceName(acc[k]);
        }
      }
    }
  }

  /** A product with stock whose category has a slice adds its total to that slice. */
  lemma FoldIntoSlice(products: seq<Product>, stock: Product -> int, i: nat, acc: seq<Slice>, k: nat, acc': seq<Slice>)
    requires i < |products| && FoldedUpTo(products, stock, i, acc)
    requires stock(products[i]) > 0
    requires k < |acc| && acc[k].name == products[i].category
    requires acc' == acc[k := Slice(acc[k].name, acc[k].value + stock(products[i]))]
    ensures FoldedUpTo(products, stock, i + 1, acc')
  {
    assert Sum(acc', SliceValue) == Sum(products[..i + 1], stock) by {
      FoldStep(products, stock, i);
      SumUpdate(acc, k, acc'[k], SliceValue);
    }
    AddToSliceKeepsNames(acc, k, acc[k].value + stock(products[i]));
    AddToSliceHoldsTotals(products, stock, i, acc, k);
    assert SlicesAreCategories(products, i + 1, acc') by {
      forall m | 0 <= m < |acc'| ensures exists j :: 0 <= j < i + 1 && products[j].category == acc'[m].name {
        var j :| 0 <= j < i && products[j].category == acc[m].name;
      }
    }
    assert SlicesCoverStock(products, stock, i + 1, acc') by {
      forall j | 0 <= j < i + 1 && stock(products[j]) > 0
        ensures exists m :: 0 <= m < |acc'| && acc'[m].name == products[j].category
      {
        if j < i {
          var m :| 0 <= m < |acc| && acc[m].name == products[j].category;
          assert acc'[m].name == acc[m].name;
        } else {
          assert acc'[k].name == products[j].category;
        }
      }
    }
  }

  lemma NewSliceHoldsTotals(products: seq<Product>, stock: Product -> int, i: nat, acc: seq<Slice>)
    requires i < |products| && SlicesHoldTotals(products, stock, i, acc) && SlicesCoverStock(products, stock, i, acc)
    requires forall p :: p in products ==> stock(p) >= 0
    requires stock(products[i]) > 0
    requires forall k :: 0 <= k < |acc| ==> acc[k].name != products[i].category
    ensures SlicesHoldTotals(products, stock, i + 1, acc + [Slice(products[i].category, stock(products[i]))])
  {
    var acc' := acc + [Slice(products[i].category, stock(products[i]))];
    FoldStep(products, stock, i);
    forall m | 0 <= m < |acc'|
      ensures acc'[m].value > 0 && acc'[m].value == CategoryTotal(products[..i + 1], stock, acc'[m].name)
    {
      if m < |acc| {
        assert acc'[m] == acc[m];
      } else {
        forall p | p in products[..i] && p.category == products[i].category ensures stock(p) == 0 {
          var j :| 0 <= j < i && products[..i][j] == p;
          assert products[j] == p && p in products;
        }
        CategoryAbsentIsZero(products[..i], stock, products[i].category);
      }
    }
  }

  /** A product with stock whose category has no slice yet pushes one with its total. */
  lemma FoldNewSlice(products: seq<Product>, stock: Product -> int, i: nat, acc: seq<Slice>, acc': seq<Slice>)
    requires i < |products| && FoldedUpTo(products, stock, i, acc)
    requires forall p :: p in products ==> stock(p) >= 0
    requires stock(products[i]) > 0
    requires forall k :: 0 <= k < |acc| ==> acc[k].name != products[i].category
    requires acc' == acc + [Slice(products[i].category, stock(products[i]))]
    ensures FoldedUpTo(products, stock, i + 1, acc')
  {
    var slice := Slice(products[i].category, stock(products[i]));
    assert Sum(acc', SliceValue) == Sum(products[..i + 1], stock) by {
      FoldStep(products, stock, i);
      SumAppend(acc, [slice], SliceValue);
    }
    assert Distinct(acc', SliceName) by {
      forall m, n | 0 <= m < n < |acc'| ensures SliceName(acc'[m]) != SliceName(acc'[n]) {
        assert acc'[m] == acc[m];
        if n < |acc| {
          assert acc'[n] == acc[n];
        }
      }
    }
    assert SlicesAreCategories(products, i + 1, acc') by {
      forall m | 0 <= m < |acc'| ensures exists j :: 0 <= j < i + 1 && products[j].category == acc'[m].name {
        if m < |acc| {
          assert acc'[m] == acc[m];
          var j :| 0 <= j < i && products[j].category == acc[m].name;
        } else {
          assert products[i].category == acc'[m].name;
        }
      }
    }
    NewSliceHoldsTotals(products, stock, i, acc);
    assert SlicesCoverStock(products, stock, i + 1, acc') by {
      forall j | 0 <= j < i + 1 && stock(products[j]) > 0
        ensures exists m :: 0 <= m < |acc'| && acc'[m].name == products[j].category
      {
        if j < i {
          var m :| 0 <= m < |acc| && acc[m].name == products[j].category;
          assert acc'[m] == acc[m];
        } else {
          assert acc'[|acc|].name == products[j].category;
        }
      }
    }
  }

  /** A category none of whose products has stock totals zero. */
  lemma {:induction false} CategoryAbsentIsZero(products: seq<Product>, stock: Product -> int, category: string)
    requires forall p :: p in products && p.category == category ==> stock(p) == 0
    ensures CategoryTotal(products, stock, category) == 0
    decreases |products|
  {
    if products != [] {
      assert products[0] in products;
      assert forall p :: p in products[1..] ==> p in products;
      CategoryAbsentIsZero(products[1..], stock, category);
    }
  }

  function HasName(name: string): Slice -> bool
  {
    (s: Slice) => s.name == name
  }

  /**
   * `categoryData`: the products are folded in catalogue order; a product
   * with stock adds its total to the slice of its category, which is pushed
   * the first time the category is met. Each category appears once, with the
   * stock of all its products, and the slices share out all the stock the
   * bar chart shows.
   */
  method CategoryData(products: seq<Product>, batches: seq<Batch>) returns (acc: seq<Slice>)
    ensures Distinct(acc, SliceName)
    ensures forall s :: s in acc ==> s.value > 0 && s.value == CategoryTotal(products, ProductTotalOf(batches), s.name)
    ensures forall p :: p in products && ProductTotal(batches, p.id) > 0 ==>
      exists s :: s in acc && s.name == p.category
    ensures forall s :: s in acc ==> exists p :: p in products && p.category == s.name
    ensures Sum(acc, SliceValue) == Sum(ProductData(products, batches), BarQuantity)
  {
    acc := FoldCategories(products, ProductTotalOf(batches));
  }

  /**
   * The reduce's callback: a product with stock adds its total to the slice
   * of its category, pushing that slice the first time the category is met.
   */
  function CategoryStep(acc: seq<Slice>, product: Product, total: int): seq<Slice>
  {
    if total <= 0 then acc
    else
      var found := FindIndex(acc, HasName(product.category));
      if found.Some? then acc[found.value := Slice(acc[found.value].name, acc[found.value].value + total)]
      else acc + [Slice(product.category, total)]
  }

  /** The callback applied to the next product keeps what the fold has built. */
  lemma CategoryStepFolds(products: seq<Product>, stock: Product -> int, i: nat, acc: seq<Slice>)
    requires i < |products| && FoldedUpTo(products, stock, i, acc)
    requires forall p :: p in products ==> stock(p) >= 0
    ensures FoldedUpTo(products, stock, i + 1, CategoryStep(acc, products[i], stock(products[i])))
  {
    if stock(products[i]) > 0 {
      StockedProductFolds(products, stock, i, acc);
    } else {
      assert products[i] in products;
      FoldSkip(products, stock, i, acc);
    }
  }

  /** A product with stock goes into the slice of its category, new or existing. */
  lemma StockedProductFolds(products: seq<Product>, stock: Product -> int, i: nat, acc: seq<Slice>)
    requires i < |products| && FoldedUpTo(products, stock, i, acc)
    requires forall p :: p in products ==> stock(p) >= 0
    requires stock(products[i]) > 0
    ensures FoldedUpTo(products, stock, i + 1, CategoryStep(acc, products[i], stock(products[i])))
  {
    var total := stock(products[i]);
    var found := FindIndex(acc, HasName(products[i].category));
    if found.Some? {
      StepIntoSlice(acc, products[i], total);
      var k := found.value;
      FoldIntoSlice(products, stock, i, acc, k, CategoryStep(acc, products[i], total));
    } else {
      StepNewSlice(acc, products[i], total);
      FoldNewSlice(products, stock, i, acc, CategoryStep(acc, products[i], total));
    }
  }

  /** For a product with stock, the callback looks its category up once among the slices. */
  lemma CategoryStepLooksUp(acc: seq<Slice>, product: Product, total: int)
    requires total > 0
    ensures CategoryStep(acc, product, total) ==
      (var found := FindIndex(acc, HasName(product.category));
       if found.Some? then acc[found.value := Slice(acc[found.value].name, acc[found.value].value + total)]
       else acc + [Slice(product.category, total)])
  {
  }

  /** The callback adds to the slice the lookup found. */
  lemma StepIntoSlice(acc: seq<Slice>, product: Product, total: int)
    requires total > 0 && FindIndex(acc, HasName(product.category)).Some?
    ensures var k := FindIndex(acc, HasName(product.category)).value;
      && k < |acc| && acc[k].name == product.category
      && CategoryStep(acc, product, total) == acc[k := Slice(acc[k].name, acc[k].value + total)]
  {
    CategoryStepLooksUp(acc, product, total);
    FoundSlice(acc, product.category, FindIndex(acc, HasName(product.category)).value);
  }

  /** The lookup finds a slice of that name. */
  lemma FoundSlice(acc: seq<Slice>, name: string, k: nat)
    requires FindIndex(acc, HasName(name)).Some? && FindIndex(acc, HasName(name)).value == k
    ensures k < |acc| && acc[k].name == name
  {
    assert HasName(name)(acc[k]);
  }

  /** The callback pushes a slice for a category the lookup did not find. */
  lemma StepNewSlice(acc: seq<Slice>, product: Product, total: int)
    requires total > 0 && FindIndex(acc, HasName(product.category)).None?
    ensures forall k :: 0 <= k < |acc| ==> acc[k].name != product.category
    ensures CategoryStep(acc, product, total) == acc + [Slice(product.category, total)]
  {
    CategoryStepLooksUp(acc, product, total);
    forall k | 0 <= k < |acc| ensures acc[k].name != product.category {
      assert !HasName(product.category)(acc[k]);
    }
  }

  /** The reduce of `categoryData`, for any stock figure per product that is never negative. */
  method FoldCategories(products: seq<Product>, stock: Product -> int) returns (acc: seq<Slice>)
    requires forall p :: p in products ==> stock(p) >= 0
    ensures Distinct(acc, SliceName)
    ensures forall s :: s in acc ==> s.value > 0 && s.value == CategoryTotal(products, stock, s.name)
    ensures forall p :: p in products && stock(p) > 0 ==> exists s :: s in acc && s.name == p.category
    ensures forall s :: s in acc ==> exists p :: p in products && p.category == s.name
    ensures Sum(acc, SliceValue) == Sum(products, stock)
  {
    acc := [];
    var i := 0;
    while i < |products|
      invariant 0 <= i <= |products|
      invariant FoldedUpTo(products, stock, i, acc)
    {
      CategoryStepFolds(products, stock, i, acc);
      acc := CategoryStep(acc, products[i], stock(products[i]));
      i := i + 1;
    }
    FoldComplete(products, stock, acc);
  }

  /** Once every product is folded, the slices are the categories with stock and their totals. */
  lemma FoldComplete(products: seq<Product>, stock: Product -> int, acc: seq<Slice>)
    requires FoldedUpTo(products, stock, |products|, acc)
    ensures forall s :: s in acc ==> s.value > 0 && s.value == CategoryTotal(products, stock, s.name)
    ensures forall p :: p in products && stock(p) > 0 ==> exists s :: s in acc && s.name == p.category
    ensures forall s :: s in acc ==> exists p :: p in products && p.category == s.name
    ensures Sum(acc, SliceValue) == Sum(products, stock)
  {
    assert products[..|products|] == products;
    forall s | s in acc ensures exists p :: p in products && p.category == s.name {
      var k :| 0 <= k < |acc| && acc[k] == s;
      var j :| 0 <= j < |products| && products[j].category == acc[k].name;
      assert products[j] in products;
    }
    forall p | p in products && stock(p) > 0 ensures exists s :: s in acc && s.name == p.category {
      var j :| 0 <= j < |products| && products[j] == p;
      var k :| 0 <= k < |acc| && acc[k].name == products[j].category;
      assert acc[k] in acc;
    }
  }

  // ---------------------------------------------------------------------------
  // Recent batches.

  function LatestFirst(b: Batch): int { -b.entryDate }

  /**
   * The recent list: at most five active batches, each as often as it is
   * listed, from the newest entry to the oldest; batches entered the same
   * day are the first of that day in list order, as the stable sort keeps them.
   */
  function RecentBatches(batches: seq<Batch>): (r: seq<Batch>)
    ensures |r| == if |ActiveBatches(batches)| < 5 then |ActiveBatches(batches)| else 5
    ensures forall b :: b in r ==> b in batches && b.quantity > 0
    ensures multiset(r) <= multiset(ActiveBatches(batches))
    ensures forall i, j :: 0 <= i < j < |r| ==> r[i].entryDate >= r[j].entryDate
    ensures forall d :: Filter(r, KeyIs(LatestFirst, d)) <= Filter(ActiveBatches(batches), KeyIs(LatestFirst, d))
  {
    var active := ActiveBatches(batches);
    var r := SmallestBy(active, LatestFirst, 5);
    SubMultisetMembers(r, active);
    assert forall i, j :: 0 <= i < j < |r| ==> r[i].entryDate >= r[j].entryDate by {
      forall i, j | 0 <= i < j < |r| ensures r[i].entryDate >= r[j].entryDate {
        assert LatestFirst(r[i]) <= LatestFirst(r[j]);
      }
    }
    r
  }

  /** No active batch left off the recent list entered later than one on it. */
  lemma RecentBatchesAreTheNewest(batches: seq<Batch>)
    ensures var r := RecentBatches(batches);
      forall b, c :: b in multiset(ActiveBatches(batches)) - multiset(r) && c in r ==> b.entryDate <= c.entryDate
  {
    var active := ActiveBatches(batches);
    var r := SmallestBy(active, LatestFirst, 5);
    SmallestByKeepsTheLeast(active, LatestFirst, 5);
    forall b: Batch, c: Batch | b in multiset(active) - multiset(r) && c in r ensures b.entryDate <= c.entryDate {
      assert LatestFirst(c) <= LatestFirst(b);
    }
  }
}
