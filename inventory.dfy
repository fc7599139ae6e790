/**
 * The application shell: the records every screen shares, the two FIFO
 * queries of the inventory context (`getOldestBatch`, `getExpiringBatches`),
 * the inventory actions, which go to the server and then replace the local
 * lists with what the server holds, `logout`, and the role-filtered menu.
 *
 * Dates are millisecond timestamps (the value of `new Date(...).getTime()`),
 * and `today` is the clock reading the caller passes in.
 */
module Inventory {
  import opened Wrappers
  import opened Seqs

  /** Milliseconds in a day: `24 * 60 * 60 * 1000`. */
  const DayMs: int := 86400000

  /** `'admin' | 'user'`. */
  datatype Role = AdminRole | UserRole

  datatype User = User(id: string, name: string, email: string, role: Role)

  datatype Batch = Batch(
    id: string,
    productId: string,
    productName: string,
    batchNumber: string,
    quantity: int,
    entryDate: int,
    expirationDate: int)

  datatype Product = Product(id: string, name: string, category: string, unit: string)

  function BatchId(b: Batch): string { b.id }

  function ProductId(p: Product): string { p.id }

  function EntryDate(b: Batch): int { b.entryDate }

  // ---------------------------------------------------------------------------
  // getOldestBatch: filter the product's batches with stock, sort by entry date,
  // take the first.

  /** A batch `getOldestBatch(productId)` may propose: that product's, with stock left. */
  predicate Dispatchable(b: Batch, productId: string)
  {
    b.productId == productId && b.quantity > 0
  }

  function DispatchableFor(productId: string): Batch -> bool
  {
    b => Dispatchable(b, productId)
  }

  /** `batches.filter(b => b.productId === productId && b.quantity > 0)`. */
  function Candidates(batches: seq<Batch>, productId: string): (r: seq<Batch>)
    ensures forall b :: b in r <==> b in batches && Dispatchable(b, productId)
  {
    Filter(batches, DispatchableFor(productId))
  }

  /**
   * `getOldestBatch(productId)`: `None` exactly when the product has no batch
   * with stock; otherwise a batch of that product with stock whose entry date
   * no other such batch precedes.
   */
  function OldestBatch(batches: seq<Batch>, productId: string): (r: Option<Batch>)
    ensures r.None? <==> forall b :: b in batches ==> !Dispatchable(b, productId)
    ensures r.Some? ==> r.value in batches && Dispatchable(r.value, productId)
    ensures r.Some? ==>
      forall b :: b in batches && Dispatchable(b, productId) ==> r.value.entryDate <= b.entryDate
  {
    var candidates := Candidates(batches, productId);
    if candidates == [] then None
    else
      var i := MinIndexBy(candidates, EntryDate);
      assert candidates[i] in candidates;
      assert forall b :: b in candidates ==> candidates[i].entryDate <= b.entryDate by {
        forall b | b in candidates ensures candidates[i].entryDate <= b.entryDate {
          var j :| 0 <= j < |candidates| && candidates[j] == b;
          assert EntryDate(candidates[j]) == b.entryDate;
        }
      }
      Some(candidates[i])
  }

  /**
   * The stable sort of the source puts first the earliest batch of the
   * candidates and, among equal entry dates, the one that comes first in the
   * list: the result is the head of the sorted candidates, and every candidate
   * before it in the list entered strictly later.
   */
  lemma OldestBatchIsHeadOfSortedCandidates(batches: seq<Batch>, productId: string)
    ensures var candidates := Candidates(batches, productId);
      && (candidates == [] ==> OldestBatch(batches, productId) == None)
      && (candidates != [] ==>
            && OldestBatch(batches, productId) == Some(SortBy(candidates, EntryDate)[0])
            && exists i :: 0 <= i < |candidates| && candidates[i] == OldestBatch(batches, productId).value
                 && forall j :: 0 <= j < i ==> candidates[j].entryDate > candidates[i].entryDate)
  {
    var candidates := Candidates(batches, productId);
    if candidates != [] {
      var i := MinIndexBy(candidates, EntryDate);
      assert OldestBatch(batches, productId) == Some(candidates[i]);
      SortHeadIsFirstMin(candidates, EntryDate);
      forall j | 0 <= j < i ensures candidates[j].entryDate > candidates[i].entryDate {
        assert EntryDate(candidates[i]) < EntryDate(candidates[j]);
      }
    }
  }

  // ---------------------------------------------------------------------------
  // getExpiringBatches(days)

  /** The expiration date lies in `[today, today + days * DayMs]`. */
  predicate ExpiresWithin(b: Batch, today: int, days: int)
  {
    today <= b.expirationDate <= today + days * DayMs
  }

  function ExpiryWindow(today: int, days: int): Batch -> bool
  {
    b => ExpiresWithin(b, today, days)
  }

  /**
   * `getExpiringBatches(days)`: the batches whose expiration date falls in the
   * window, whatever their quantity, in list order.
   */
  function ExpiringBatches(batches: seq<Batch>, today: int, days: int): (r: seq<Batch>)
    ensures forall b :: b in r <==> b in batches && ExpiresWithin(b, today, days)
    ensures IsSubseq(r, batches)
  {
    FilterIsSubseq(batches, ExpiryWindow(today, days));
    Filter(batches, ExpiryWindow(today, days))
  }

  /** A wider window returns a super-list of a narrower one. */
  lemma ExpiringBatchesMonotone(batches: seq<Batch>, today: int, days1: int, days2: int)
    requires days1 <= days2
    ensures IsSubseq(ExpiringBatches(batches, today, days1), ExpiringBatches(batches, today, days2))
  {
    FilterMonotone(batches, ExpiryWindow(today, days1), ExpiryWindow(today, days2));
  }

  // ---------------------------------------------------------------------------
  // removeBatchQuantity(batchId, quantity): the server deletes the batch when
  // the dispatch empties it and otherwise stores the lowered quantity; the
  // list is then fetched again.

  function HasBatchId(batchId: string): Batch -> bool
  {
    (b: Batch) => b.id == batchId
  }

  /** The batch list after `removeBatchQuantity(batchId, quantity)`. */
  function AfterDispatch(batches: seq<Batch>, batchId: string, quantity: int): seq<Batch>
  {
    match FindIndex(batches, HasBatchId(batchId))
    case None => batches
    case Some(i) =>
      if batches[i].quantity - quantity <= 0 then batches[..i] + batches[i + 1..]
      else batches[i := batches[i].(quantity := batches[i].quantity - quantity)]
  }

  function Quantity(b: Batch): int { b.quantity }

  /** Units in stock over a list of batches. */
  function Stock(batches: seq<Batch>): int
  {
    Sum(batches, Quantity)
  }

  lemma StockSplit(batches: seq<Batch>, i: nat)
    requires i < |batches|
    ensures Stock(batches) == Stock(batches[..i]) + batches[i].quantity + Stock(batches[i + 1..])
  {
    assert batches == batches[..i] + ([batches[i]] + batches[i + 1..]);
    SumAppend(batches[..i], [batches[i]] + batches[i + 1..], Quantity);
  }

  /** With distinct ids, the batch found for a dispatch is the one carrying the id. */
  lemma DispatchFindsTheBatch(batches: seq<Batch>, batchId: string, i: nat)
    requires Distinct(batches, BatchId)
    requires i < |batches| && batches[i].id == batchId
    ensures FindIndex(batches, HasBatchId(batchId)) == Some(i)
  {
    var found := FindIndex(batches, HasBatchId(batchId));
    assert HasBatchId(batchId)(batches[i]);
    var k := found.value;
    assert HasBatchId(batchId)(batches[k]);
    assert BatchId(batches[k]) == BatchId(batches[i]);
  }

  /** A dispatch of an id the list does not hold changes nothing. */
  lemma DispatchUnknownId(batches: seq<Batch>, batchId: string, q: int)
    requires forall b :: b in batches ==> b.id != batchId
    ensures AfterDispatch(batches, batchId, q) == batches
  {
    forall j | 0 <= j < |batches| ensures !HasBatchId(batchId)(batches[j]) {
      assert batches[j] in batches;
    }
  }

  /**
   * A dispatch that takes all that is left, or more, removes the batch: the
   * others keep their order, the id is gone, and the stock falls by what the
   * batch held.
   */
  lemma DispatchEmptiesBatch(batches: seq<Batch>, batchId: string, q: int, i: nat)
    requires Distinct(batches, BatchId)
    requires i < |batches| && batches[i].id == batchId && batches[i].quantity - q <= 0
    ensures var r := AfterDispatch(batches, batchId, q);
      && r == batches[..i] + batches[i + 1..]
      && Distinct(r, BatchId)
      && (forall b :: b in r ==> b.id != batchId)
      && Stock(r) == Stock(batches) - batches[i].quantity
  {
    DispatchFindsTheBatch(batches, batchId, i);
    StockSplit(batches, i);
    SumAppend(batches[..i], batches[i + 1..], Quantity);
    RemoveAtKeepsDistinct(batches, i);
  }

  /** Removing the batch at `i` from a list of distinct ids leaves distinct ids, none of them its own. */
  lemma RemoveAtKeepsDistinct(batches: seq<Batch>, i: nat)
    requires Distinct(batches, BatchId)
    requires i < |batches|
    ensures var left := batches[..i] + batches[i + 1..];
      && Distinct(left, BatchId)
      && forall b :: b in left ==> b.id != batches[i].id
  {
    var left := batches[..i] + batches[i + 1..];
    forall j, k | 0 <= j < k < |left| ensures BatchId(left[j]) != BatchId(left[k]) {
      var j' := if j < i then j else j + 1;
      var k' := if k < i then k else k + 1;
      assert left[j] == batches[j'] && left[k] == batches[k'];
    }
    forall b | b in left ensures b.id != batches[i].id {
      var j :| 0 <= j < |left| && left[j] == b;
      var j' := if j < i then j else j + 1;
      assert left[j] == batches[j'];
      assert BatchId(batches[j']) != BatchId(batches[i]);
    }
  }

  /**
   * A dispatch that leaves stock lowers the batch's quantity by `q` in place;
   * every other batch is untouched and the stock falls by `q`.
   */
  lemma DispatchLowersBatch(batches: seq<Batch>, batchId: string, q: int, i: nat)
    requires Distinct(batches, BatchId)
    requires i < |batches| && batches[i].id == batchId && batches[i].quantity - q > 0
    ensures var r := AfterDispatch(batches, batchId, q);
      && |r| == |batches|
      && r[i] == batches[i].(quantity := batches[i].quantity - q)
      && (forall j :: 0 <= j < |batches| && j != i ==> r[j] == batches[j])
      && Distinct(r, BatchId)
      && Stock(r) == Stock(batches) - q
  {
    DispatchFindsTheBatch(batches, batchId, i);
    var r := batches[i := batches[i].(quantity := batches[i].quantity - q)];
    StockSplit(batches, i);
    StockSplit(r, i);
    assert r[..i] == batches[..i] && r[i + 1..] == batches[i + 1..];
    forall j, k | 0 <= j < k < |r| ensures BatchId(r[j]) != BatchId(r[k]) {
      assert BatchId(r[j]) == BatchId(batches[j]) && BatchId(r[k]) == BatchId(batches[k]);
    }
  }

  // ---------------------------------------------------------------------------
  // addBatch / addProduct: the server stores the record under the id it was
  // given (`Date.now()`), replacing one with the same id; the list is then
  // fetched again.

  function HasProductId(id: string): Product -> bool
  {
    (p: Product) => p.id == id
  }

  function PutBatch(batches: seq<Batch>, b: Batch): (r: seq<Batch>)
    ensures b in r
  {
    match FindIndex(batches, HasBatchId(b.id))
    case None => batches + [b]
    case Some(i) =>
      assert batches[i := b][i] == b;
      batches[i := b]
  }

  function PutProduct(products: seq<Product>, p: Product): (r: seq<Product>)
    ensures p in r
  {
    match FindIndex(products, HasProductId(p.id))
    case None => products + [p]
    case Some(i) =>
      assert products[i := p][i] == p;
      products[i := p]
  }

  /** Storing under an id keeps the ids distinct, and a fresh id only appends. */
  lemma PutBatchEffect(batches: seq<Batch>, b: Batch)
    requires Distinct(batches, BatchId)
    ensures Distinct(PutBatch(batches, b), BatchId)
    ensures (forall c :: c in batches ==> c.id != b.id) ==> PutBatch(batches, b) == batches + [b]
  {
    var r := PutBatch(batches, b);
    var found := FindIndex(batches, HasBatchId(b.id));
    if found.None? {
      forall j | 0 <= j < |batches| ensures BatchId(batches[j]) != BatchId(b) {
        assert !HasBatchId(b.id)(batches[j]);
      }
      forall j, k | 0 <= j < k < |r| ensures BatchId(r[j]) != BatchId(r[k]) {
        if k == |batches| {
          assert r[j] == batches[j] && r[k] == b;
        } else {
          assert r[j] == batches[j] && r[k] == batches[k];
        }
      }
    } else {
      var i := found.value;
      assert HasBatchId(b.id)(batches[i]);
      assert batches[i] in batches;
      forall j, k | 0 <= j < k < |r| ensures BatchId(r[j]) != BatchId(r[k]) {
        if j != i && k != i {
          assert r[j] == batches[j] && r[k] == batches[k];
        } else if j == i {
          assert BatchId(r[j]) == BatchId(batches[i]) && r[k] == batches[k];
        } else {
          assert BatchId(r[k]) == BatchId(batches[i]) && r[j] == batches[j];
        }
      }
    }
  }

  lemma PutProductEffect(products: seq<Product>, p: Product)
    requires Distinct(products, ProductId)
    ensures Distinct(PutProduct(products, p), ProductId)
    ensures (forall c :: c in products ==> c.id != p.id) ==> PutProduct(products, p) == products + [p]
  {
    var r := PutProduct(products, p);
    var found := FindIndex(products, HasProductId(p.id));
    if found.None? {
      forall j | 0 <= j < |products| ensures ProductId(products[j]) != ProductId(p) {
        assert !HasProductId(p.id)(products[j]);
      }
      forall j, k | 0 <= j < k < |r| ensures ProductId(r[j]) != ProductId(r[k]) {
        if k == |products| {
          assert r[j] == products[j] && r[k] == p;
        } else {
          assert r[j] == products[j] && r[k] == products[k];
        }
      }
    } else {
      var i := found.value;
      assert HasProductId(p.id)(products[i]);
      assert products[i] in products;
      forall j, k | 0 <= j < k < |r| ensures ProductId(r[j]) != ProductId(r[k]) {
        if j != i && k != i {
          assert r[j] == products[j] && r[k] == products[k];
        } else if j == i {
          assert ProductId(r[j]) == ProductId(products[i]) && r[k] == products[k];
        } else {
          assert ProductId(r[k]) == ProductId(products[i]) && r[j] == products[j];
        }
      }
    }
  }

  // deleteProduct: the server removes the product and every batch of it.

  function NotOfProduct(productId: string): Batch -> bool
  {
    (b: Batch) => b.productId != productId
  }

  function NotProduct(productId: string): Product -> bool
  {
    (p: Product) => p.id != productId
  }

  lemma FilterKeepsDistinct<T(!new), K>(xs: seq<T>, keep: T -> bool, key: T -> K)
    requires Distinct(xs, key)
    ensures Distinct(Filter(xs, keep), key)
    decreases |xs|
  {
    if xs != [] {
      FilterKeepsDistinct(xs[1..], keep, key);
      var rest := Filter(xs[1..], keep);
      if keep(xs[0]) {
        var r := Filter(xs, keep);
        assert r == [xs[0]] + rest;
        forall j, k | 0 <= j < k < |r| ensures key(r[j]) != key(r[k]) {
          assert r[k] == rest[k - 1];
          assert rest[k - 1] in xs[1..];
          var m :| 0 <= m < |xs[1..]| && xs[1..][m] == rest[k - 1];
          if j == 0 {
            assert key(xs[0]) != key(xs[m + 1]);
          } else {
            assert r[j] == rest[j - 1];
          }
        }
      }
    }
  }

  // ---------------------------------------------------------------------------
  // The state of the App component.

  class InventoryApp {
    var currentUser: Option<User>
    var currentPage: string
    var batches: seq<Batch>
    var products: seq<Product>

    /** The lists mirror the server's keyed store: no id appears twice. */
    ghost predicate Valid()
      reads this
    {
      Distinct(batches, BatchId) && Distinct(products, ProductId)
    }

    constructor ()
      ensures Valid()
      ensures currentUser == None && currentPage == "login" && batches == [] && products == []
    {
      currentUser := None;
      currentPage := "login";
      batches := [];
      products := [];
    }

    /** A successful `login`: the user, the dashboard, and the data fetched from the server. */
    method CompleteLogin(user: User, fetchedProducts: seq<Product>, fetchedBatches: seq<Batch>)
      requires Distinct(fetchedProducts, ProductId) && Distinct(fetchedBatches, BatchId)
      modifies this
      ensures Valid()
      ensures currentUser == Some(user) && currentPage == "dashboard"
      ensures products == fetchedProducts && batches == fetchedBatches
    {
      currentUser := Some(user);
      currentPage := "dashboard";
      products := fetchedProducts;
      batches := fetchedBatches;
    }

    /** `logout`: whatever the server answers, the session and the lists are cleared. */
    method Logout()
      modifies this
      ensures Valid()
      ensures currentUser == None && currentPage == "login" && batches == [] && products == []
    {
      currentUser := None;
      currentPage := "login";
      batches := [];
      products := [];
    }

    /**
     * `removeBatchQuantity(batchId, quantity)`: `false` and no change for an
     * unknown id or when the server refuses the request (`accepted` is
     * whether it answered with success); otherwise the dispatched list.
     */
    method RemoveBatchQuantity(batchId: string, quantity: int, accepted: bool) returns (ok: bool)
      requires Valid()
      modifies this`batches
      ensures Valid()
      ensures ok <==> accepted && exists b :: b in old(batches) && b.id == batchId
      ensures batches == if ok then AfterDispatch(old(batches), batchId, quantity) else old(batches)
    {
      var found := FindIndex(batches, HasBatchId(batchId));
      if found.None? {
        forall b | b in batches ensures b.id != batchId {
          var j :| 0 <= j < |batches| && batches[j] == b;
          assert !HasBatchId(batchId)(batches[j]);
        }
        return false;
      }
      if !accepted {
        return false;
      }
      var i := found.value;
      assert batches[i] in batches && HasBatchId(batchId)(batches[i]);
      var newQuantity := batches[i].quantity - quantity;
      if newQuantity <= 0 {
        DispatchEmptiesBatch(batches, batchId, quantity, i);
        batches := batches[..i] + batches[i + 1..];
      } else {
        DispatchLowersBatch(batches, batchId, quantity, i);
        batches := batches[i := batches[i].(quantity := newQuantity)];
      }
      ok := true;
    }

    /** `addBatch`: the record is stored under the id the server gives it. */
    method AddBatch(id: string, productId: string, productName: string, batchNumber: string,
                    quantity: int, entryDate: int, expirationDate: int)
      requires Valid()
      modifies this`batches
      ensures Valid()
      ensures batches == PutBatch(old(batches),
        Batch(id, productId, productName, batchNumber, quantity, entryDate, expirationDate))
    {
      var b := Batch(id, productId, productName, batchNumber, quantity, entryDate, expirationDate);
      PutBatchEffect(batches, b);
      batches := PutBatch(batches, b);
    }

    /** `addProduct`: the record is stored under the id the server gives it. */
    method AddProduct(id: string, name: string, category: string, unit: string)
      requires Valid()
      modifies this`products
      ensures Valid()
      ensures products == PutProduct(old(products), Product(id, name, category, unit))
    {
      var p := Product(id, name, category, unit);
      PutProductEffect(products, p);
      products := PutProduct(products, p);
    }

    /**
     * `updateProduct(id, {name, category, unit})`: the fields are replaced and
     * the id kept; an unknown id is the server's 404, which leaves the lists alone.
     */
    method UpdateProduct(id: string, name: string, category: string, unit: string) returns (found: bool)
      requires Valid()
      modifies this`products
      ensures Valid()
      ensures found <==> exists p :: p in old(products) && p.id == id
      ensures !found ==> products == old(products)
      ensures found ==> products == PutProduct(old(products), Product(id, name, category, unit))
    {
      var i := FindIndex(products, HasProductId(id));
      found := i.Some?;
      if i.None? {
        forall p | p in products ensures p.id != id {
          var j :| 0 <= j < |products| && products[j] == p;
          assert !HasProductId(id)(products[j]);
        }
        return;
      }
      assert products[i.value] in products && HasProductId(id)(products[i.value]);
      var p := Product(id, name, category, unit);
      PutProductEffect(products, p);
      products := PutProduct(products, p);
    }

    /** `deleteProduct(id)`: the product and, through the server's cascade, its batches go. */
    method DeleteProduct(id: string)
      requires Valid()
      modifies this`products, this`batches
      ensures Valid()
      ensures products == Filter(old(products), NotProduct(id))
      ensures batches == Filter(old(batches), NotOfProduct(id))
      ensures forall b :: b in batches <==> b in old(batches) && b.productId != id
    {
      FilterKeepsDistinct(products, NotProduct(id), ProductId);
      FilterKeepsDistinct(batches, NotOfProduct(id), BatchId);
      products := Filter(products, NotProduct(id));
      batches := Filter(batches, NotOfProduct(id));
    }
  }

  // ---------------------------------------------------------------------------
  // The menu, filtered by the signed-in user's role.

  datatype MenuItem = MenuItem(id: string, title: string, roles: seq<Role>)

  /** The first four entries, open to both roles. */
  const OperationalPages: seq<MenuItem> := [
    MenuItem("dashboard", "Dashboard", [AdminRole, UserRole]),
    MenuItem("entry", "Registrar Entrada", [AdminRole, UserRole]),
    MenuItem("exit", "Registrar Salida", [AdminRole, UserRole]),
    MenuItem("reports", "Reportes", [AdminRole, UserRole])
  ]

  /** The last two entries, for administrators only. */
  const AdministrationPages: seq<MenuItem> := [
    MenuItem("products", "Gestión de Productos", [AdminRole]),
    MenuItem("users", "Gestión de Usuarios", [AdminRole])
  ]

  /** `menuItems`, in the order of the sidebar. */
  const MenuItems: seq<MenuItem> := OperationalPages + AdministrationPages

  function VisibleTo(role: Role): MenuItem -> bool
  {
    (item: MenuItem) => role in item.roles
  }

  /** `filteredMenuItems`: the entries whose roles include the signed-in user's. */
  function FilteredMenuItems(role: Role): (r: seq<MenuItem>)
    ensures forall item :: item in r <==> item in MenuItems && role in item.roles
    ensures IsSubseq(r, MenuItems)
  {
    FilterIsSubseq(MenuItems, VisibleTo(role));
    Filter(MenuItems, VisibleTo(role))
  }

  /** Every entry of the menu lists the administrator role. */
  lemma AdminSeesWholeMenu()
    ensures FilteredMenuItems(AdminRole) == MenuItems
  {
    var items := MenuItems;
    forall j | 0 <= j < |items| ensures VisibleTo(AdminRole)(items[j]) {
      assert AdminRole == items[j].roles[0];
    }
    FilterKeepsAll(items, VisibleTo(AdminRole));
  }

  lemma OperationalPagesOpenToUsers()
    ensures Filter(OperationalPages, VisibleTo(UserRole)) == OperationalPages
  {
    var keep := VisibleTo(UserRole);
    forall j | 0 <= j < |OperationalPages| ensures keep(OperationalPages[j]) {
      assert UserRole == OperationalPages[j].roles[1];
    }
    FilterKeepsAll(OperationalPages, keep);
  }

  /** A user sees the dashboard, entry, exit and reports pages. */
  lemma UserSeesOperationalPages()
    ensures FilteredMenuItems(UserRole) == OperationalPages
  {
    FilterAppend(OperationalPages, AdministrationPages, VisibleTo(UserRole));
    OperationalPagesOpenToUsers();
    assert Filter(AdministrationPages, VisibleTo(UserRole)) == [];
  }

  /** A user never sees the product or user administration. */
  lemma UserNeverSeesAdministration()
    ensures forall item :: item in FilteredMenuItems(UserRole) ==> item.id != "products" && item.id != "users"
  {
    UserSeesOperationalPages();
    forall item | item in OperationalPages ensures item.id != "products" && item.id != "users" {
      assert item.id[0] != 'p' && item.id[0] != 'u';
    }
  }
}
