/**
 * The dispatch screen: the product picker, which only enables products with
 * stock, the batch it suggests (the oldest one, FIFO), the guards of
 * `handleDispatch`, and the day count and status shown for the suggested batch.
 */
module InventoryExit {
  import opened Wrappers
  import opened Seqs
  import opened Inventory

  /** `Math.ceil((expirationDate - today) / DayMs)`: whole days left, rounded up. */
  function DaysUntilExpiration(expirationDate: int, today: int): (days: int)
    ensures (days - 1) * DayMs < expirationDate - today <= days * DayMs
  {
    -((today - expirationDate) / DayMs)
  }

  /** At most `n` days are left exactly when the expiration date is at most `n` days away. */
  lemma DaysAtMost(expirationDate: int, today: int, n: int)
    ensures DaysUntilExpiration(expirationDate, today) <= n <==> expirationDate - today <= n * DayMs
  {
    var days := DaysUntilExpiration(expirationDate, today);
    if days <= n {
      assert days * DayMs <= n * DayMs;
    } else {
      assert n * DayMs <= (days - 1) * DayMs;
    }
  }

  /** `getExpirationStatus`, from the most to the least pressing. */
  datatype ExpirationStatus = Critical | Urgent | Attention | Normal

  /** The text of the status badge. */
  function StatusText(s: ExpirationStatus): string
  {
    match s
    case Critical => "Crítico"
    case Urgent => "Urgente"
    case Attention => "Atención"
    case Normal => "Normal"
  }

  /** `getExpirationStatus(days)`: up to 7 critical, up to 15 urgent, up to 30 attention, then normal. */
  function GetExpirationStatus(days: int): (s: ExpirationStatus)
    ensures s == Critical <==> days <= 7
    ensures s == Urgent <==> 7 < days <= 15
    ensures s == Attention <==> 15 < days <= 30
    ensures s == Normal <==> 30 < days
  {
    if days <= 7 then Critical
    else if days <= 15 then Urgent
    else if days <= 30 then Attention
    else Normal
  }

  /** How pressing a status is: 3 for critical down to 0 for normal. */
  function Urgency(s: ExpirationStatus): nat
  {
    match s
    case Critical => 3
    case Urgent => 2
    case Attention => 1
    case Normal => 0
  }

  /** Fewer days left never makes the status less pressing. */
  lemma StatusMonotone(days1: int, days2: int)
    requires days1 <= days2
    ensures Urgency(GetExpirationStatus(days1)) >= Urgency(GetExpirationStatus(days2))
  {
  }

  /** A batch on the dashboard's critical list shows the critical status here. */
  lemma CriticalWindowIsCriticalStatus(b: Batch, today: int)
    requires ExpiresWithin(b, today, 7)
    ensures GetExpirationStatus(DaysUntilExpiration(b.expirationDate, today)) == Critical
  {
    DaysAtMost(b.expirationDate, today, 7);
  }

  /**
   * The picker's option for a product is disabled when its batches with stock
   * hold nothing: exactly when there is no oldest batch to suggest.
   */
  function ProductOptionDisabled(batches: seq<Batch>, productId: string): (disabled: bool)
    ensures disabled <==> OldestBatch(batches, productId).None?
  {
    var candidates := Candidates(batches, productId);
    SumPositiveIsZeroIffEmpty(candidates, Quantity);
    assert candidates != [] ==> candidates[0] in candidates;
    Sum(candidates, Quantity) == 0
  }

  /** `suggestedBatch`: none while no product is chosen, else the product's oldest batch. */
  function SuggestedBatch(batches: seq<Batch>, selectedProductId: string): (r: Option<Batch>)
    ensures selectedProductId == "" ==> r == None
    ensures selectedProductId != "" ==> r == OldestBatch(batches, selectedProductId)
  {
    if selectedProductId == "" then None else OldestBatch(batches, selectedProductId)
  }

  datatype DispatchOutcome =
    | MissingFields
    | ExceedsBatch(requested: int, available: int)
    | Dispatched(batchId: string, quantity: int)

  /**
   * The dispatch form. The quantity field holds the number typed in, `None`
   * while it is empty.
   */
  class ExitForm {
    var selectedProductId: string
    var quantityToDispatch: Option<int>
    var dispatchSuccess: bool

    constructor ()
      ensures selectedProductId == "" && quantityToDispatch == None && !dispatchSuccess
    {
      selectedProductId := "";
      quantityToDispatch := None;
      dispatchSuccess := false;
    }

    /** Choosing a product clears the quantity and the success banner. */
    method SelectProduct(productId: string)
      modifies this
      ensures selectedProductId == productId && quantityToDispatch == None && !dispatchSuccess
    {
      selectedProductId := productId;
      quantityToDispatch := None;
      dispatchSuccess := false;
    }

    /** The cancel button: no product, an empty quantity and no banner, as on opening. */
    method Cancel()
      modifies this
      ensures selectedProductId == "" && quantityToDispatch == None && !dispatchSuccess
    {
      selectedProductId := "";
      quantityToDispatch := None;
      dispatchSuccess := false;
    }

    method SetQuantity(quantity: Option<int>)
      modifies this`quantityToDispatch
      ensures quantityToDispatch == quantity
    {
      quantityToDispatch := quantity;
    }

    /**
     * `handleDispatch`: nothing changes when the product, the quantity or the
     * suggested batch is missing, or when the quantity exceeds the suggested
     * batch's; otherwise the request is sent and, without waiting for its
     * answer, the quantity field is cleared and the success banner shown.
     * Exactly that quantity leaves the product's oldest batch when the server
     * accepts (`accepted`); a refused request leaves the list as it was.
     */
    method HandleDispatch(app: InventoryApp, accepted: bool) returns (outcome: DispatchOutcome)
      requires app.Valid()
      modifies this, app`batches
      ensures app.Valid()
      ensures var suggested := SuggestedBatch(old(app.batches), old(selectedProductId));
        && (outcome == MissingFields <==>
              old(selectedProductId) == "" || old(quantityToDispatch).None? || suggested.None?)
        && (outcome.ExceedsBatch? <==>
              outcome != MissingFields && old(quantityToDispatch).value > suggested.value.quantity)
        && (outcome.Dispatched? ==>
              && outcome.batchId == suggested.value.id
              && outcome.quantity == old(quantityToDispatch).value
              && Some(suggested.value) == OldestBatch(old(app.batches), old(selectedProductId)))
      ensures outcome.Dispatched? ==>
        && app.batches == (if accepted then AfterDispatch(old(app.batches), outcome.batchId, outcome.quantity)
                           else old(app.batches))
        && selectedProductId == old(selectedProductId)
        && quantityToDispatch == None && dispatchSuccess
      ensures !outcome.Dispatched? ==>
        app.batches == old(app.batches) && unchanged(this)
    {
      var suggested := SuggestedBatch(app.batches, selectedProductId);
      if selectedProductId == "" || quantityToDispatch.None? || suggested.None? {
        return MissingFields;
      }
      var quantity := quantityToDispatch.value;
      var batch := suggested.value;
      if quantity > batch.quantity {
        return ExceedsBatch(quantity, batch.quantity);
      }
      assert batch in app.batches;
      Send(app, batch.id, quantity, accepted);
      outcome := Dispatched(batch.id, quantity);
    }

    /**
     * The sending half of `handleDispatch`: the request goes out for a listed
     * batch and, whatever the answer, the banner is shown and the field cleared.
     */
    method Send(app: InventoryApp, batchId: string, quantity: int, accepted: bool)
      requires app.Valid()
      requires exists b :: b in app.batches && b.id == batchId
      modifies this, app`batches
      ensures app.Valid()
      ensures app.batches == if accepted then AfterDispatch(old(app.batches), batchId, quantity) else old(app.batches)
      ensures selectedProductId == old(selectedProductId)
      ensures quantityToDispatch == None && dispatchSuccess
    {
      var _ := app.RemoveBatchQuantity(batchId, quantity, accepted);
      dispatchSuccess := true;
      quantityToDispatch := None;
    }

    /** The banner's timer running out. */
    method DismissSuccess()
      modifies this`dispatchSuccess
      ensures !dispatchSuccess
    {
      dispatchSuccess := false;
    }
  }

  /**
   * An accepted dispatch never empties more than the suggested batch holds:
   * the batch is lowered by the quantity, or removed when the quantity is all
   * of it, and the stock falls by exactly the quantity dispatched.
   */
  lemma AcceptedDispatchTakesExactly(batches: seq<Batch>, productId: string, q: int)
    requires Distinct(batches, BatchId)
    requires OldestBatch(batches, productId).Some?
    requires q <= OldestBatch(batches, productId).value.quantity
    ensures var b := OldestBatch(batches, productId).value;
      Stock(AfterDispatch(batches, b.id, q)) == Stock(batches) - q
  {
    var b := OldestBatch(batches, productId).value;
    var i :| 0 <= i < |batches| && batches[i] == b;
    if b.quantity - q <= 0 {
      DispatchEmptiesBatch(batches, b.id, q, i);
    } else {
      DispatchLowersBatch(batches, b.id, q, i);
    }
  }
}
