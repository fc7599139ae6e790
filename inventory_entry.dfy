/**
 * The entry screen: registering a batch, and the message that tells the
 * operator behind which batch of the product the new one is queued.
 */
module InventoryEntry {
  import opened Wrappers
  import opened Seqs
  import opened Inventory
  import opened Dashboard

  /**
   * `previousBatch`: the batch of the product with the latest entry date,
   * the first such in list order. Emptied batches count too.
   */
  function PreviousBatch(batches: seq<Batch>, productId: string): (r: Option<Batch>)
    ensures r.None? <==> forall b :: b in batches ==> b.productId != productId
    ensures r.Some? ==> r.value in batches && r.value.productId == productId
    ensures r.Some? ==>
      forall b :: b in batches && b.productId == productId ==> b.entryDate <= r.value.entryDate
  {
    var own := Filter(batches, OfProduct(productId));
    if own == [] then None
    else
      var i := MinIndexBy(own, LatestFirst);
      assert own[i] in own;
      assert forall b :: b in own ==> b.entryDate <= own[i].entryDate by {
        forall b | b in own ensures b.entryDate <= own[i].entryDate {
          var j :| 0 <= j < |own| && own[j] == b;
          assert LatestFirst(own[i]) <= LatestFirst(own[j]);
        }
      }
      Some(own[i])
  }

  /**
   * What the source computes: the head of the product's batches sorted from
   * the newest entry to the oldest, so that among batches entered on the
   * same date the one listed first is named.
   */
  lemma PreviousBatchIsHeadOfSorted(batches: seq<Batch>, productId: string)
    ensures var own := Filter(batches, OfProduct(productId));
      && (own == [] ==> PreviousBatch(batches, productId) == None)
      && (own != [] ==>
            && PreviousBatch(batches, productId) == Some(SortBy(own, LatestFirst)[0])
            && exists i :: 0 <= i < |own| && Some(own[i]) == PreviousBatch(batches, productId)
                 && forall j :: 0 <= j < i ==> own[j].entryDate < own[i].entryDate)
  {
    var own := Filter(batches, OfProduct(productId));
    if own != [] {
      var i := MinIndexBy(own, LatestFirst);
      assert PreviousBatch(batches, productId) == Some(own[i]);
      SortHeadIsFirstMin(own, LatestFirst);
      forall j | 0 <= j < i ensures own[j].entryDate < own[i].entryDate {
        assert LatestFirst(own[i]) < LatestFirst(own[j]);
      }
    }
  }

  /** The opening of the success message, naming the batch just registered. */
  function EntryHeadline(batchNumber: string): string
  {
    "Lote " + batchNumber + " registrado correctamente"
  }

  /** The success message: the batch just registered, then the batch it queues behind or that it is the first. */
  function EntryMessage(batchNumber: string, previous: Option<Batch>): string
  {
    EntryHeadline(batchNumber) + match previous
      case Some(p) => " - Ubicado detrás del Lote " + p.batchNumber + " (FIFO)"
      case None => " - Primer lote de este producto"
  }

  /**
   * The message opens with the registered batch and closes with "(FIFO)"
   * exactly when it names a batch the new one queues behind.
   */
  lemma EntryMessageShape(batchNumber: string, previous: Option<Batch>)
    ensures var m := EntryMessage(batchNumber, previous);
      && |m| > |EntryHeadline(batchNumber)| + 7
      && m[..|EntryHeadline(batchNumber)|] == EntryHeadline(batchNumber)
      && (previous.Some? <==> m[|m| - 7..] == " (FIFO)")
  {
    var head := EntryHeadline(batchNumber);
    var tail := match previous
      case Some(p) => " - Ubicado detrás del Lote " + p.batchNumber + " (FIFO)"
      case None => " - Primer lote de este producto";
    assert EntryMessage(batchNumber, previous) == head + tail;
    assert |tail| > 7 && tail[|tail| - 7..] == (if previous.Some? then " (FIFO)" else "roducto");
    assert (head + tail)[..|head|] == head;
    assert (head + tail)[|head + tail| - 7..] == tail[|tail| - 7..];
  }

  /**
   * A batch entered no earlier than every batch of its product queues behind
   * them: the batch the dispatch screen suggests stays the one it was.
   */
  lemma NewBatchQueuesBehind(batches: seq<Batch>, nb: Batch)
    requires forall b :: b in batches ==> b.id != nb.id
    requires forall b :: b in batches && b.productId == nb.productId ==> b.entryDate <= nb.entryDate
    requires OldestBatch(batches, nb.productId).Some?
    ensures PutBatch(batches, nb) == batches + [nb]
    ensures OldestBatch(batches + [nb], nb.productId) == OldestBatch(batches, nb.productId)
  {
    forall j | 0 <= j < |batches| ensures !HasBatchId(nb.id)(batches[j]) {
      assert batches[j] in batches;
    }
    LaterBatchKeepsOldest(batches, nb);
  }

  /** The candidates gain at most the new batch, at their end, where it cannot be the minimum. */
  lemma LaterBatchKeepsOldest(batches: seq<Batch>, nb: Batch)
    requires forall b :: b in batches && b.productId == nb.productId ==> b.entryDate <= nb.entryDate
    requires OldestBatch(batches, nb.productId).Some?
    ensures OldestBatch(batches + [nb], nb.productId) == OldestBatch(batches, nb.productId)
  {
    var pid := nb.productId;
    FilterAppend(batches, [nb], DispatchableFor(pid));
    var c := Candidates(batches, pid);
    assert OldestBatch(batches, pid).value in c;
    if nb.quantity > 0 {
      assert Candidates(batches + [nb], pid) == c + [nb];
      forall j | 0 <= j < |c| ensures EntryDate(c[j]) <= EntryDate(nb) {
        assert c[j] in c;
      }
      LaterCandidateKeepsOldest(batches, nb, c);
    } else {
      assert Candidates(batches + [nb], pid) == c;
    }
  }

  lemma LaterCandidateKeepsOldest(batches: seq<Batch>, nb: Batch, c: seq<Batch>)
    requires c == Candidates(batches, nb.productId) && c != []
    requires Candidates(batches + [nb], nb.productId) == c + [nb]
    requires forall j :: 0 <= j < |c| ==> EntryDate(c[j]) <= EntryDate(nb)
    ensures OldestBatch(batches + [nb], nb.productId) == OldestBatch(batches, nb.productId)
  {
    MinIndexByAppend(c, nb, EntryDate);
    var i := MinIndexBy(c, EntryDate);
    assert (c + [nb])[i] == c[i];
  }

  /** Such a batch is the one the next entry of the product names, or one entered the same day. */
  lemma NewBatchIsTheNewest(batches: seq<Batch>, nb: Batch)
    requires forall b :: b in batches && b.productId == nb.productId ==> b.entryDate <= nb.entryDate
    ensures PreviousBatch(batches + [nb], nb.productId).Some?
    ensures PreviousBatch(batches + [nb], nb.productId).value.entryDate == nb.entryDate
  {
    var r := PreviousBatch(batches + [nb], nb.productId);
    assert nb in batches + [nb];
    assert r.value in batches || r.value == nb;
  }

  /** The message for a batch of `productId` entered into `batches`. */
  function MessageFor(batches: seq<Batch>, productId: string, batchNumber: string): string
  {
    EntryMessage(batchNumber, PreviousBatch(batches, productId))
  }

  datatype EntryOutcome = MissingFields | UnknownProduct | Registered(message: string)

  function HasProduct(id: string): Product -> bool
  {
    (p: Product) => p.id == id
  }

  /** `products.find(p => p.id === id)`. */
  function FindProduct(products: seq<Product>, id: string): (r: Option<Product>)
    ensures r.None? <==> forall p :: p in products ==> p.id != id
    ensures r.Some? ==> r.value in products && r.value.id == id
  {
    match FindIndex(products, HasProduct(id))
    case None =>
      assert forall p :: p in products ==> p.id != id by {
        forall p | p in products ensures p.id != id {
          var j :| 0 <= j < |products| && products[j] == p;
          assert !HasProduct(id)(products[j]);
        }
      }
      None
    case Some(i) =>
      assert products[i] in products;
      Some(products[i])
  }

  /**
   * The entry form. The quantity and the expiration date are `None` while
   * their fields are empty; the entry date starts at today.
   */
  class EntryForm {
    var productId: string
    var quantity: Option<int>
    var batchNumber: string
    var entryDate: int
    var expirationDate: Option<int>
    var successMessage: string

    constructor (today: int)
      ensures productId == "" && quantity == None && batchNumber == ""
      ensures entryDate == today && expirationDate == None && successMessage == ""
    {
      productId, quantity, batchNumber := "", None, "";
      entryDate, expirationDate := today, None;
      successMessage := "";
    }

    /**
     * `handleSubmit`: a missing product, quantity, batch number or
     * expiration date, or a product id the catalogue does not hold, stops it
     * with nothing changed. Otherwise the batch is stored under the id the
     * server gives it (`newId`) with the catalogue name of its product, the
     * message names the product's newest batch before the entry, and the
     * form is cleared with the entry date back at today.
     */
    method HandleSubmit(app: InventoryApp, today: int, newId: string) returns (outcome: EntryOutcome)
      requires app.Valid()
      modifies this, app`batches
      ensures app.Valid()
      ensures outcome == MissingFields <==>
        old(productId) == "" || old(quantity).None? || old(batchNumber) == "" || old(expirationDate).None?
      ensures outcome == UnknownProduct <==>
        outcome != MissingFields && FindProduct(app.products, old(productId)).None?
      ensures !outcome.Registered? ==> unchanged(this) && app.batches == old(app.batches)
      ensures outcome.Registered? ==>
        && FindProduct(app.products, old(productId)).Some?
        && app.batches == PutBatch(old(app.batches),
             Batch(newId, old(productId), FindProduct(app.products, old(productId)).value.name,
                   old(batchNumber), old(quantity).value, old(entryDate), old(expirationDate).value))
      ensures outcome.Registered? ==>
        outcome.message == MessageFor(old(app.batches), old(productId), old(batchNumber))
      ensures outcome.Registered? ==> successMessage == outcome.message
      ensures outcome.Registered? ==> productId == "" && quantity == None && batchNumber == ""
      ensures outcome.Registered? ==> entryDate == today && expirationDate == None
    {
      if productId == "" || quantity.None? || batchNumber == "" || expirationDate.None? {
        return MissingFields;
      }
      var found := FindProduct(app.products, productId);
      if found.None? {
        return UnknownProduct;
      }
      var message := Register(app, found.value, today, newId);
      outcome := Registered(message);
    }

    /** The accepted half of `handleSubmit`: store the batch, show the message, clear the form. */
    method Register(app: InventoryApp, product: Product, today: int, newId: string) returns (message: string)
      requires app.Valid()
      requires quantity.Some? && expirationDate.Some?
      modifies this, app`batches
      ensures app.Valid()
      ensures app.batches == PutBatch(old(app.batches),
        Batch(newId, old(productId), product.name, old(batchNumber), old(quantity).value,
              old(entryDate), old(expirationDate).value))
      ensures message == MessageFor(old(app.batches), old(productId), old(batchNumber))
      ensures successMessage == message
      ensures productId == "" && quantity == None && batchNumber == ""
      ensures entryDate == today && expirationDate == None
    {
      message := MessageFor(app.batches, productId, batchNumber);
      app.AddBatch(newId, productId, product.name, batchNumber, quantity.value, entryDate, expirationDate.value);
      successMessage := message;
      productId, quantity, batchNumber := "", None, "";
      entryDate, expirationDate := today, None;
    }

    /** The message's timer running out. */
    method DismissMessage()
      modifies this`successMessage
      ensures successMessage == ""
    {
      successMessage := "";
    }
  }
}
